/** The node part of a table: collision chains threaded through `next' links in one vector. */
module TableChains {

  datatype Key = Int(i: int) | Other(id: nat)

  datatype Value = Nil | Val(v: int)

  datatype MaybeKey = NoKey | HasKey(k: Key)

  /** `next' is the index of the next node of the chain, -1 for the end. */
  datatype Node = Node(key: MaybeKey, val: Value, next: int)

  /** The hash of a key, which may depend on the number of nodes in any way. */
  type Hash = (Key, nat) -> nat

  /** mainposition */
  function Main(hash: Hash, k: Key, size: nat): (m: nat)
    requires size > 0
    ensures m < size
  {
    hash(k, size) % size
  }

  ghost predicate Keyed(node: seq<Node>, i: int) {
    0 <= i < |node| && node[i].key.HasKey?
  }

  ghost predicate MainIs(hash: Hash, node: seq<Node>, i: int, m: int) {
    Keyed(node, i) && Main(hash, node[i].key.k, |node|) == m
  }

  /** A numbering of the nodes: the chain a node is in and its place along the chain. */
  datatype Layout = Layout(chain: seq<int>, rank: seq<real>)

  /** The link of a node stays in the chain and goes up. */
  ghost predicate LinkOk(node: seq<Node>, l: Layout, i: int)
    requires |l.chain| == |node| && |l.rank| == |node| && 0 <= i < |node|
  {
    && -1 <= node[i].next < |node|
    && (node[i].next >= 0 ==>
          Keyed(node, i) && Keyed(node, node[i].next) && l.chain[node[i].next] == l.chain[i] && l.rank[i] < l.rank[node[i].next])
  }

  /** Of two keyed nodes in one chain one is further up, and lies at or beyond the next of the other. */
  ghost predicate InLine(node: seq<Node>, l: Layout, i: int, j: int)
    requires |l.chain| == |node| && |l.rank| == |node| && 0 <= i < |node| && 0 <= j < |node|
  {
    l.chain[i] == l.chain[j] && i != j ==>
      && l.rank[i] != l.rank[j]
      && (l.rank[i] < l.rank[j] ==> 0 <= node[i].next < |node| && l.rank[node[i].next] <= l.rank[j])
  }

  /** Chains are finite lines. */
  ghost predicate Lines(node: seq<Node>, l: Layout) {
    && |l.chain| == |node| && |l.rank| == |node|
    && (forall i :: 0 <= i < |node| ==> LinkOk(node, l, i))
    && (forall i, j :: Keyed(node, i) && Keyed(node, j) ==> InLine(node, l, i, j))
  }

  /** Every key can be reached from its main position, and a node that is the main position of some
      stored key holds a key in its own main position. Keys are stored once. */
  ghost predicate Homes(hash: Hash, node: seq<Node>, l: Layout)
    requires |l.chain| == |node| && |l.rank| == |node|
  {
    && (forall i, m :: MainIs(hash, node, i, m) ==>
          MainIs(hash, node, m, m) && l.chain[m] == l.chain[i] && l.rank[m] <= l.rank[i])
    && (forall i, j :: Keyed(node, i) && Keyed(node, j) && node[i].key == node[j].key ==> i == j)
    && (forall i :: 0 <= i < |node| && !Keyed(node, i) ==> node[i].val.Nil?)
  }

  ghost predicate ChainsOk(hash: Hash, node: seq<Node>, l: Layout) {
    Lines(node, l) && Homes(hash, node, l)
  }

  ghost predicate Holds(node: seq<Node>, k: Key) {
    exists i :: Keyed(node, i) && node[i].key.k == k
  }

  /** A chain number no node uses. */
  ghost function FreshChain(chain: seq<int>): (c: int)
    ensures forall i :: 0 <= i < |chain| ==> chain[i] < c
  {
    if chain == [] then 0
    else
      var c := FreshChain(chain[..|chain| - 1]);
      if c > chain[|chain| - 1] then c else chain[|chain| - 1] + 1
  }

  // ----- the four ways a key gets into the vector -----

  lemma FillFreeLines(node: seq<Node>, l: Layout, m: nat, k: Key)
    requires Lines(node, l) && m < |node| && !Keyed(node, m)
    ensures Lines(node[m := node[m].(key := HasKey(k))], l.(chain := l.chain[m := FreshChain(l.chain)]))
  {
    var node', l' := node[m := node[m].(key := HasKey(k))], l.(chain := l.chain[m := FreshChain(l.chain)]);
    LinkUp(node, l, m);
    forall i | 0 <= i < |node'| ensures LinkOk(node', l', i) { LinkUp(node, l, i); }
    forall i, j | Keyed(node', i) && Keyed(node', j) ensures InLine(node', l', i, j) {
      if i != m && j != m { assert InLine(node, l, i, j); }
    }
  }

  /** The main position is empty. */
  lemma FillFree(hash: Hash, node: seq<Node>, l: Layout, m: nat, k: Key)
    requires ChainsOk(hash, node, l) && m < |node| && !Keyed(node, m) && m == Main(hash, k, |node|) && !Holds(node, k)
    ensures var node' := node[m := node[m].(key := HasKey(k))];
            ChainsOk(hash, node', l.(chain := l.chain[m := FreshChain(l.chain)]))
  {
    var node' := node[m := node[m].(key := HasKey(k))];
    assert forall i :: Keyed(node', i) <==> i == m || Keyed(node, i);
    FillFreeLines(node, l, m, k);
    forall i, n | MainIs(hash, node', i, n) && i != m
      ensures MainIs(hash, node', n, n) && l.chain[n] == l.chain[i] && l.rank[n] <= l.rank[i] && n != m
    {
      assert MainIs(hash, node, i, n);
    }
  }

  /** The main position holds a key whose value is gone; the key is replaced and the link stays. */
  lemma Overwrite(hash: Hash, node: seq<Node>, l: Layout, m: nat, k: Key)
    requires ChainsOk(hash, node, l) && Keyed(node, m) && m == Main(hash, k, |node|) && !Holds(node, k)
    ensures ChainsOk(hash, node[m := node[m].(key := HasKey(k))], l)
  {
    var node' := node[m := node[m].(key := HasKey(k))];
    assert forall i :: Keyed(node', i) <==> Keyed(node, i);
    forall i | 0 <= i < |node'| ensures LinkOk(node', l, i) { LinkUp(node, l, i); }
    forall i, j | Keyed(node', i) && Keyed(node', j) ensures InLine(node', l, i, j) { assert InLine(node, l, i, j); }
    forall i, n | MainIs(hash, node', i, n)
      ensures MainIs(hash, node', n, n) && l.chain[n] == l.chain[i] && l.rank[n] <= l.rank[i]
    {
      if i != m { assert MainIs(hash, node, i, n); assert MainIs(hash, node, n, n); }
    }
  }

  /** The colliding node is in its own main position: the new key goes to the free node `n', right
      behind it in the chain. */
  ghost function BehindLayout(node: seq<Node>, l: Layout, m: nat, n: nat): Layout
    requires |l.chain| == |node| && |l.rank| == |node| && m < |node| && n < |node| && -1 <= node[m].next < |node|
  {
    Layout(l.chain[n := l.chain[m]],
           l.rank[n := if node[m].next < 0 then l.rank[m] + 1.0 else (l.rank[m] + l.rank[node[m].next]) / 2.0])
  }

  function Behind(node: seq<Node>, m: nat, n: nat, k: Key): seq<Node>
    requires m < |node| && n < |node|
  {
    node[n := Node(HasKey(k), node[n].val, node[m].next)][m := node[m].(next := n)]
  }

  lemma BehindPair(node: seq<Node>, l: Layout, m: nat, n: nat, k: Key, i: int, j: int)
    requires Lines(node, l) && Keyed(node, m) && LinkOk(node, l, m) && n < |node| && !Keyed(node, n)
    requires Keyed(Behind(node, m, n, k), i) && Keyed(Behind(node, m, n, k), j)
    ensures InLine(Behind(node, m, n, k), BehindLayout(node, l, m, n), i, j)
  {
    assert m != n;
    assert i == n || Keyed(node, i);
    assert j == n || Keyed(node, j);
    var s := node[m].next;
    assert s >= 0 ==> Keyed(node, s) && l.chain[s] == l.chain[m] && l.rank[m] < l.rank[s] by { LinkUp(node, l, m); }
    if i != n && j != n {
      assert InLine(node, l, i, j);
      LinkUp(node, l, i);
    } else if i == n && j != n {
      assert InLine(node, l, m, j) && InLine(node, l, j, m);
    } else if j == n && i != n {
      assert InLine(node, l, i, m) && InLine(node, l, m, i);
      if 0 <= s { assert InLine(node, l, i, s); }
    }
  }

  lemma LinkUp(node: seq<Node>, l: Layout, i: int)
    requires Lines(node, l) && 0 <= i < |node|
    ensures -1 <= node[i].next < |node|
    ensures node[i].next >= 0 ==>
              Keyed(node, i) && Keyed(node, node[i].next) && l.chain[node[i].next] == l.chain[i] && l.rank[i] < l.rank[node[i].next]
  {
    assert LinkOk(node, l, i);
  }

  lemma InsertBehindLines(node: seq<Node>, l: Layout, m: nat, n: nat, k: Key)
    requires Lines(node, l) && Keyed(node, m) && LinkOk(node, l, m) && n < |node| && !Keyed(node, n)
    ensures Lines(Behind(node, m, n, k), BehindLayout(node, l, m, n))
  {
    hide InLine;
    var node', l' := Behind(node, m, n, k), BehindLayout(node, l, m, n);
    forall i | 0 <= i < |node'| ensures LinkOk(node', l', i) {
      LinkUp(node, l, i);
      LinkUp(node, l, m);
      LinkUp(node, l, n);
      if node[i].next >= 0 { assert node[i].next != n; }
    }
    forall i, j | Keyed(node', i) && Keyed(node', j) ensures InLine(node', l', i, j) {
      BehindPair(node, l, m, n, k, i, j);
    }
  }

  lemma SameSizes(node: seq<Node>, l: Layout)
    requires Lines(node, l)
    ensures |l.chain| == |node| && |l.rank| == |node| && forall i :: 0 <= i < |node| ==> -1 <= node[i].next < |node|
  {
    forall i | 0 <= i < |node| ensures -1 <= node[i].next < |node| { LinkUp(node, l, i); }
  }

  lemma InsertBehind(hash: Hash, node: seq<Node>, l: Layout, m: nat, n: nat, k: Key)
    requires ChainsOk(hash, node, l) && MainIs(hash, node, m, m) && m == Main(hash, k, |node|) && !Holds(node, k)
    requires n < |node| && !Keyed(node, n) && LinkOk(node, l, m)
    ensures ChainsOk(hash, Behind(node, m, n, k), BehindLayout(node, l, m, n))
  {
    hide Lines;
    SameSizes(node, l);
    InsertBehindLines(node, l, m, n, k);
    var node', l' := Behind(node, m, n, k), BehindLayout(node, l, m, n);
    assert forall i :: Keyed(node', i) <==> i == n || Keyed(node, i);
    assert forall i :: Keyed(node, i) ==> node'[i].key == node[i].key;
    forall i, c | MainIs(hash, node', i, c)
      ensures MainIs(hash, node', c, c) && l'.chain[c] == l'.chain[i] && l'.rank[c] <= l'.rank[i]
    {
      if i == n { assert c == m; } else { assert MainIs(hash, node, i, c); assert MainIs(hash, node, c, c); }
    }
  }

  /** The colliding node is out of its main position: it moves to the free node `n', its predecessor
      `p' is linked to `n', and the new key takes its place. */
  function Moved(node: seq<Node>, m: nat, n: nat, p: nat, k: Key): seq<Node>
    requires m < |node| && n < |node| && p < |node|
  {
    node[p := node[p].(next := n)][n := node[m]][m := Node(HasKey(k), Nil, -1)]
  }

  ghost function MovedLayout(l: Layout, m: nat, n: nat): Layout
    requires m < |l.chain| == |l.rank| && n < |l.chain|
  {
    Layout(l.chain[n := l.chain[m]][m := FreshChain(l.chain)], l.rank[n := l.rank[m]])
  }

  /** A node has at most one predecessor. */
  lemma OnePredecessor(node: seq<Node>, l: Layout, m: int, i: int, p: int)
    requires Lines(node, l) && Keyed(node, m) && 0 <= i < |node| && 0 <= p < |node| && node[i].next == m && node[p].next == m
    ensures i == p
  {
    LinkUp(node, l, i);
    LinkUp(node, l, p);
    assert InLine(node, l, i, p) && InLine(node, l, p, i);
  }

  lemma MovedPair(node: seq<Node>, l: Layout, m: nat, n: nat, p: nat, k: Key, i: int, j: int)
    requires Lines(node, l) && Keyed(node, m) && n < |node| && !Keyed(node, n) && p < |node| && node[p].next == m
    requires Keyed(Moved(node, m, n, p, k), i) && Keyed(Moved(node, m, n, p, k), j)
    ensures InLine(Moved(node, m, n, p, k), MovedLayout(l, m, n), i, j)
  {
    hide LinkOk;
    LinkUp(node, l, p);
    LinkUp(node, l, m);
    if i != m && j != m {
      var i0, j0 := if i == n then m else i, if j == n then m else j;
      assert Keyed(node, i0) && Keyed(node, j0) && InLine(node, l, i0, j0);
      LinkUp(node, l, i0);
      if i0 != p && node[i0].next == m { OnePredecessor(node, l, m, i0, p); }
    }
  }

  lemma RelocateLines(node: seq<Node>, l: Layout, m: nat, n: nat, p: nat, k: Key)
    requires Lines(node, l) && Keyed(node, m) && n < |node| && !Keyed(node, n) && p < |node| && node[p].next == m
    ensures Lines(Moved(node, m, n, p, k), MovedLayout(l, m, n))
  {
    hide InLine;
    var node', l' := Moved(node, m, n, p, k), MovedLayout(l, m, n);
    forall i | 0 <= i < |node'| ensures LinkOk(node', l', i) {
      LinkUp(node, l, p);
      LinkUp(node, l, m);
      LinkUp(node, l, i);
      if i != p && i != m && i != n && node[i].next == m { OnePredecessor(node, l, m, i, p); }
    }
    forall i, j | Keyed(node', i) && Keyed(node', j) ensures InLine(node', l', i, j) {
      MovedPair(node, l, m, n, p, k, i, j);
    }
  }

  lemma Relocate(hash: Hash, node: seq<Node>, l: Layout, m: nat, n: nat, p: nat, k: Key)
    requires ChainsOk(hash, node, l) && Keyed(node, m) && !MainIs(hash, node, m, m) && m == Main(hash, k, |node|) && !Holds(node, k)
    requires n < |node| && !Keyed(node, n) && p < |node| && node[p].next == m
    ensures ChainsOk(hash, Moved(node, m, n, p, k), MovedLayout(l, m, n))
  {
    RelocateLines(node, l, m, n, p, k);
    LinkUp(node, l, p);
    RelocateHomes(hash, node, l, m, n, p, k);
  }

  lemma RelocateHomes(hash: Hash, node: seq<Node>, l: Layout, m: nat, n: nat, p: nat, k: Key)
    requires |l.chain| == |node| && |l.rank| == |node| && Homes(hash, node, l)
    requires Keyed(node, m) && !MainIs(hash, node, m, m) && m == Main(hash, k, |node|) && !Holds(node, k)
    requires n < |node| && !Keyed(node, n) && p < |node| && p != m && p != n
    ensures Homes(hash, Moved(node, m, n, p, k), MovedLayout(l, m, n))
  {
    var node', l' := Moved(node, m, n, p, k), MovedLayout(l, m, n);
    forall i | Keyed(node', i) && i != m ensures Keyed(node, if i == n then m else i) && node'[i].key == node[if i == n then m else i].key { }
    forall i, c | MainIs(hash, node', i, c)
      ensures MainIs(hash, node', c, c) && l'.chain[c] == l'.chain[i] && l'.rank[c] <= l'.rank[i]
    {
      if i != m {
        var i0 := if i == n then m else i;
        assert MainIs(hash, node, i0, c);
        assert MainIs(hash, node, c, c) && c != m && c != n;
      }
    }
  }
}
