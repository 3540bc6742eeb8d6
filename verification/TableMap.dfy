/** What the two parts of a table say about a key. */
module TableMap {
  import opened TableChains
  import opened TableSizes

  predicate InArray(arr: seq<Value>, k: Key) {
    k.Int? && 1 <= k.i <= |arr|
  }

  /** The value the node part has for `k'. */
  ghost function NodeVal(node: seq<Node>, k: Key): Value {
    if Holds(node, k) then
      var i :| Keyed(node, i) && node[i].key.k == k;
      node[i].val
    else Nil
  }

  /** The value a table has for `k': the finite map the table stands for. */
  ghost function Lookup(arr: seq<Value>, node: seq<Node>, k: Key): Value {
    if InArray(arr, k) then arr[k.i - 1] else NodeVal(node, k)
  }

  ghost predicate SameMap(arr0: seq<Value>, node0: seq<Node>, arr1: seq<Value>, node1: seq<Node>) {
    forall k :: Lookup(arr1, node1, k) == Lookup(arr0, node0, k)
  }

  ghost predicate SameNodes(node0: seq<Node>, node1: seq<Node>) {
    forall k :: NodeVal(node1, k) == NodeVal(node0, k)
  }

  lemma NodeValAt(node: seq<Node>, i: int)
    requires KeysOnce(node) && Keyed(node, i)
    ensures NodeVal(node, node[i].key.k) == node[i].val
  {
    assert Holds(node, node[i].key.k);
  }

  /** A vector whose keyed nodes are those of another, moved about, with at most nil-valued nodes
      gained or lost, stands for the same map. */
  lemma SameNodesBy(node0: seq<Node>, node1: seq<Node>)
    requires KeysOnce(node0) && KeysOnce(node1)
    requires forall i :: LiveNode(node0, i) ==> exists j :: Carries(node1, j, node0[i])
    requires forall j :: LiveNode(node1, j) ==> exists i :: Carries(node0, i, node1[j])
    ensures SameNodes(node0, node1)
  {
    forall k ensures NodeVal(node1, k) == NodeVal(node0, k) {
      if NodeVal(node0, k) != Nil {
        var i :| Keyed(node0, i) && node0[i].key.k == k;
        NodeValAt(node0, i);
        assert LiveNode(node0, i);
        var j :| Carries(node1, j, node0[i]);
        NodeValAt(node1, j);
      } else if NodeVal(node1, k) != Nil {
        var j :| Keyed(node1, j) && node1[j].key.k == k;
        NodeValAt(node1, j);
        assert LiveNode(node1, j);
        var i :| Carries(node0, i, node1[j]);
        NodeValAt(node0, i);
      }
    }
  }

  ghost predicate Carries(node: seq<Node>, i: int, n: Node) {
    Keyed(node, i) && node[i].key == n.key && node[i].val == n.val
  }

  lemma HomesKeysOnce(hash: Hash, node: seq<Node>, l: Layout)
    requires ChainsOk(hash, node, l)
    ensures KeysOnce(node)
  {
    hide Lines;
    SameSizes(node, l);
  }

  lemma RekeySame(hash: Hash, node: seq<Node>, l: Layout, l': Layout, m: nat, k: Key)
    requires ChainsOk(hash, node, l) && m < |node| && node[m].val == Nil
    requires ChainsOk(hash, node[m := node[m].(key := HasKey(k))], l')
    ensures SameNodes(node, node[m := node[m].(key := HasKey(k))])
  {
    hide ChainsOk;
    var node' := node[m := node[m].(key := HasKey(k))];
    HomesKeysOnce(hash, node, l);
    HomesKeysOnce(hash, node', l');
    forall i | LiveNode(node, i) ensures exists j :: Carries(node', j, node[i]) { assert Carries(node', i, node[i]); }
    forall i | LiveNode(node', i) ensures exists j :: Carries(node, j, node'[i]) { assert Carries(node, i, node'[i]); }
    SameNodesBy(node, node');
  }

  lemma BehindSame(hash: Hash, node: seq<Node>, l: Layout, l': Layout, m: nat, n: nat, k: Key)
    requires ChainsOk(hash, node, l) && m < |node| && n < |node| && m != n && !Keyed(node, n)
    requires ChainsOk(hash, Behind(node, m, n, k), l')
    ensures SameNodes(node, Behind(node, m, n, k))
  {
    hide ChainsOk;
    var node' := Behind(node, m, n, k);
    HomesKeysOnce(hash, node, l);
    HomesKeysOnce(hash, node', l');
    forall i | LiveNode(node, i) ensures exists j :: Carries(node', j, node[i]) { assert Carries(node', i, node[i]); }
    forall i | LiveNode(node', i) ensures exists j :: Carries(node, j, node'[i]) { assert Carries(node, i, node'[i]); }
    SameNodesBy(node, node');
  }

  lemma MovedSame(hash: Hash, node: seq<Node>, l: Layout, l': Layout, m: nat, n: nat, p: nat, k: Key)
    requires ChainsOk(hash, node, l) && m < |node| && n < |node| && p < |node| && m != n && !Keyed(node, n) && p != m && p != n
    requires Keyed(node, m) && ChainsOk(hash, Moved(node, m, n, p, k), l')
    ensures SameNodes(node, Moved(node, m, n, p, k))
  {
    hide ChainsOk;
    var node' := Moved(node, m, n, p, k);
    HomesKeysOnce(hash, node, l);
    HomesKeysOnce(hash, node', l');
    forall i | LiveNode(node, i) ensures exists j :: Carries(node', j, node[i]) {
      assert Carries(node', if i == m then n else i, node[i]);
    }
    forall i | LiveNode(node', i) ensures exists j :: Carries(node, j, node'[i]) {
      assert Carries(node, if i == n then m else i, node'[i]);
    }
    SameNodesBy(node, node');
  }

  /** Writing a value changes the map at that key alone, and no chain. */
  lemma WriteNode(hash: Hash, node: seq<Node>, l: Layout, i: nat, v: Value)
    requires ChainsOk(hash, node, l) && Keyed(node, i)
    ensures ChainsOk(hash, node[i := node[i].(val := v)], l)
    ensures forall k :: NodeVal(node[i := node[i].(val := v)], k) == if k == node[i].key.k then v else NodeVal(node, k)
  {
    var node' := node[i := node[i].(val := v)];
    WriteChains(hash, node, l, i, v);
    HomesKeysOnce(hash, node, l);
    HomesKeysOnce(hash, node', l);
    assert forall j :: Keyed(node', j) <==> Keyed(node, j);
    hide ChainsOk, KeysOnce;
    forall k ensures NodeVal(node', k) == if k == node[i].key.k then v else NodeVal(node, k) {
      if Holds(node, k) {
        var j :| Keyed(node, j) && node[j].key.k == k;
        NodeValAt(node, j);
        assert Keyed(node', j);
        NodeValAt(node', j);
        if k == node[i].key.k { NodeValAt(node', i); }
      } else {
        assert k != node[i].key.k;
      }
    }
  }

  lemma WriteChains(hash: Hash, node: seq<Node>, l: Layout, i: nat, v: Value)
    requires ChainsOk(hash, node, l) && Keyed(node, i)
    ensures ChainsOk(hash, node[i := node[i].(val := v)], l)
  {
    var node' := node[i := node[i].(val := v)];
    assert forall j :: Keyed(node', j) <==> Keyed(node, j);
    forall j | 0 <= j < |node'| ensures LinkOk(node', l, j) { LinkUp(node, l, j); }
    forall a, b | Keyed(node', a) && Keyed(node', b) ensures InLine(node', l, a, b) { assert InLine(node, l, a, b); }
    forall a, m | MainIs(hash, node', a, m)
      ensures MainIs(hash, node', m, m) && l.chain[m] == l.chain[a] && l.rank[m] <= l.rank[a]
    {
      assert MainIs(hash, node, a, m);
      assert MainIs(hash, node, m, m);
    }
  }

  /** A vector of nodes without keys. */
  function EmptyNode(): Node {
    Node(NoKey, Nil, -1)
  }

  ghost predicate AllFree(node: seq<Node>) {
    forall i :: 0 <= i < |node| ==> node[i] == EmptyNode()
  }

  lemma EmptyOk(hash: Hash, node: seq<Node>)
    requires AllFree(node)
    ensures ChainsOk(hash, node, Layout(seq(|node|, _ => 0), seq(|node|, _ => 0.0)))
    ensures NumKeyed(node) == 0 && forall i :: !Keyed(node, i)
    ensures forall k :: NodeVal(node, k) == Nil
  {
    assert forall i :: !Keyed(node, i);
    assert KeyedNodes(node) == {};
  }

  // ----- how full the node part is -----

  ghost function KeyedNodes(node: seq<Node>): set<int> {
    set i | 0 <= i < |node| && Keyed(node, i)
  }

  ghost function NumKeyed(node: seq<Node>): nat {
    |KeyedNodes(node)|
  }

  ghost function Indices(n: nat): (s: set<int>)
    ensures |s| == n && forall i :: i in s <==> 0 <= i < n
  {
    if n == 0 then {} else Indices(n - 1) + {n - 1}
  }

  lemma FullMeansAll(node: seq<Node>)
    requires forall i :: 0 <= i < |node| ==> Keyed(node, i)
    ensures NumKeyed(node) == |node|
  {
    assert KeyedNodes(node) == Indices(|node|);
  }

  lemma KeyedGrows(node: seq<Node>, node': seq<Node>, n: int)
    requires |node'| == |node| && forall i :: Keyed(node', i) ==> i == n || Keyed(node, i)
    ensures NumKeyed(node') <= NumKeyed(node) + 1
  {
    SubsetSize(KeyedNodes(node'), KeyedNodes(node) + {n});
  }

  lemma KeyedSame(node: seq<Node>, node': seq<Node>)
    requires |node'| == |node| && forall i :: Keyed(node', i) <==> Keyed(node, i)
    ensures NumKeyed(node') == NumKeyed(node)
  {
    assert KeyedNodes(node') == KeyedNodes(node);
  }

  // ----- how many keys need the node part -----

  /** The key of live node `i' does not fit in an array part of size `n'. */
  ghost predicate Outside(node: seq<Node>, i: int, n: nat) {
    LiveNode(node, i) && !(node[i].key.k.Int? && 1 <= node[i].key.k.i <= n)
  }

  /** Live nodes from `i' on whose keys do not fit. */
  ghost function NodeNeed(node: seq<Node>, i: int, n: nat): nat
    decreases |node| - i
  {
    if i < 0 || i >= |node| then 0 else NodeNeed(node, i + 1, n) + if Outside(node, i, n) then 1 else 0
  }

  /** Values in the array slots from..to. */
  ghost function ArrayNeed(arr: seq<Value>, from: nat, to: nat): nat
    requires to <= |arr|
  {
    if to <= from then 0 else ArrayNeed(arr, from, to - 1) + if arr[to - 1] != Nil then 1 else 0
  }

  lemma {:induction false} NodeNeedMonotone(node: seq<Node>, i: nat, n: nat)
    requires i <= |node|
    ensures NodeNeed(node, i, n) <= NodeNeed(node, 0, n)
    decreases i
  {
    if i > 0 { NodeNeedMonotone(node, i - 1, n); }
  }

  lemma {:induction false} ArrayNeedMonotone(arr: seq<Value>, from: nat, to: nat, end: nat)
    requires to <= end <= |arr|
    ensures ArrayNeed(arr, from, to) <= ArrayNeed(arr, from, end)
  {
    if to < end { ArrayNeedMonotone(arr, from, to, end - 1); }
  }

  lemma {:induction false} NodeNeedCount(node: seq<Node>, j: nat, n: nat)
    requires KeysOnce(node) && j <= |node| && n <= Pow2(MAXBITS)
    ensures NodeNeed(node, j, n) + |UpTo(NodeInts(node, j), n)| == |LiveNodes(node, j)|
    decreases |node| - j
  {
    hide LiveNodes, NodeInts, KeysOnce, UpTo;
    if j == |node| {
      NoNodesLeft(node, n);
    } else {
      NodeNeedCount(node, j + 1, n);
      NodeIntsStep(node, j);
      if node[j].val != Nil && Countable(node[j].key.k) {
        UpToAdd(NodeInts(node, j + 1), node[j].key.k.i, n);
      }
    }
  }

  lemma NoNodesLeft(node: seq<Node>, n: nat)
    ensures LiveNodes(node, |node|) == {} && UpTo(NodeInts(node, |node|), n) == {}
  {
    assert LiveNodes(node, |node|) == {};
  }

  lemma UpToAdd(s: set<int>, x: int, n: nat)
    requires x !in s
    ensures |UpTo(s + {x}, n)| == |UpTo(s, n)| + if 0 < x <= n then 1 else 0
  {
    assert UpTo(s + {x}, n) == if 0 < x <= n then UpTo(s, n) + {x} else UpTo(s, n);
  }

  lemma {:induction false} ArrayNeedCount(arr: seq<Value>, from: nat, to: nat)
    requires from <= to <= |arr|
    ensures ArrayNeed(arr, from, to) + |ArrayInts(arr, from)| == |ArrayInts(arr, to)|
  {
    hide ArrayInts;
    if from < to {
      ArrayNeedCount(arr, from, to - 1);
      ArrayIntsStep(arr, to - 1);
    }
  }

  lemma ArrayIntsUpTo(arr: seq<Value>, n: nat)
    ensures UpTo(ArrayInts(arr, |arr|), n) == ArrayInts(arr, if n < |arr| then n else |arr|)
  {
    var m := if n < |arr| then n else |arr|;
    hide ArrayInts;
    forall x ensures x in UpTo(ArrayInts(arr, |arr|), n) <==> x in ArrayInts(arr, m) {
      ArrayIntsMember(arr, |arr|, x);
      ArrayIntsMember(arr, m, x);
    }
  }

  /** The integer keys in use, the new key `k' among them. */
  ghost function UsedInts(arr: seq<Value>, node: seq<Node>, k: Key): set<int> {
    ArrayInts(arr, |arr|) + NodeInts(node, 0) + if Countable(k) then {k.i} else {}
  }

  /** No node has a key of the array range. */
  ghost predicate NodesApart(arr: seq<Value>, node: seq<Node>) {
    forall i :: Keyed(node, i) ==> !InArray(arr, node[i].key.k)
  }

  /** No key is both in the array range and in a node; `k' is in neither. */
  ghost predicate Apart(arr: seq<Value>, node: seq<Node>, k: Key) {
    && NodesApart(arr, node)
    && !InArray(arr, k) && !Holds(node, k)
  }

  lemma UsedApart(arr: seq<Value>, node: seq<Node>, k: Key)
    requires Apart(arr, node, k)
    ensures ArrayInts(arr, |arr|) * NodeInts(node, 0) == {}
    ensures Countable(k) ==> k.i !in ArrayInts(arr, |arr|) + NodeInts(node, 0)
  {
    hide ArrayInts;
    forall x | x in NodeInts(node, 0) ensures x !in ArrayInts(arr, |arr|) && Int(x) != k {
      var i :| i in LiveNodes(node, 0) && Countable(node[i].key.k) && x == node[i].key.k.i;
      ArrayIntsMember(arr, |arr|, x);
      assert node[i].key.k == Int(x);
    }
    if Countable(k) { ArrayIntsMember(arr, |arr|, k.i); }
  }

  /** The three kinds of used integers add up, below any bound and in any slice. */
  lemma UsedCounts(arr: seq<Value>, node: seq<Node>, k: Key, n: nat)
    requires Apart(arr, node, k)
    ensures |UpTo(UsedInts(arr, node, k), n)| ==
            |UpTo(ArrayInts(arr, |arr|), n)| + |UpTo(NodeInts(node, 0), n)| + if Countable(k) && k.i <= n then 1 else 0
  {
    UsedApart(arr, node, k);
    hide ArrayInts, NodeInts;
    var a, b := ArrayInts(arr, |arr|), NodeInts(node, 0);
    assert UpTo(a + b, n) == UpTo(a, n) + UpTo(b, n);
    assert UpTo(a, n) * UpTo(b, n) == {};
    if Countable(k) { UpToAdd(a + b, k.i, n); } else { assert a + b + {} == a + b; }
  }

  lemma UsedSlices(arr: seq<Value>, node: seq<Node>, k: Key, b: nat)
    requires Apart(arr, node, k)
    ensures |Slice(UsedInts(arr, node, k), b)| ==
            |Slice(ArrayInts(arr, |arr|), b)| + |Slice(NodeInts(node, 0), b)| + if Countable(k) && k.i in Slice({k.i}, b) then 1 else 0
  {
    UsedApart(arr, node, k);
    hide ArrayInts, NodeInts;
    var a, c := ArrayInts(arr, |arr|), NodeInts(node, 0);
    assert Slice(a + c, b) == Slice(a, b) + Slice(c, b);
    assert Slice(a, b) * Slice(c, b) == {};
    if Countable(k) { SliceAdd(a + c, k.i, b); } else { assert a + c + {} == a + c; }
  }

  /** All counted integers are array indices, so counting them all is counting them up to 2^MAXBITS. */
  lemma UsedAll(arr: seq<Value>, node: seq<Node>)
    requires |arr| <= Pow2(MAXBITS)
    ensures UpTo(ArrayInts(arr, |arr|), Pow2(MAXBITS)) == ArrayInts(arr, |arr|)
    ensures UpTo(NodeInts(node, 0), Pow2(MAXBITS)) == NodeInts(node, 0)
  {
    hide ArrayInts;
    forall x | x in ArrayInts(arr, |arr|) ensures 0 < x <= Pow2(MAXBITS) { ArrayIntsMember(arr, |arr|, x); }
  }

  /** The node part a rehash asks for has room for every key that does not fit in the new array part,
      the new key included. */
  lemma RehashRoom(arr: seq<Value>, node: seq<Node>, k: Key, n: nat)
    requires Apart(arr, node, k) && KeysOnce(node) && n <= Pow2(MAXBITS)
    ensures ArrayNeed(arr, n, |arr|) + NodeNeed(node, 0, n) + (if k.Int? && 1 <= k.i <= n then 0 else 1)
            == |ArrayInts(arr, |arr|)| + |LiveNodes(node, 0)| + 1 - |UpTo(UsedInts(arr, node, k), n)|
  {
    hide ArrayInts, NodeInts, LiveNodes, UpTo;
    UsedCounts(arr, node, k, n);
    NodeNeedCount(node, 0, n);
    ArrayIntsUpTo(arr, n);
    ArrayNeedCount(arr, if n < |arr| then n else |arr|, |arr|);
  }
}
