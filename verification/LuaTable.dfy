/** The table itself: an array part and a node part behind one map. */
module LuaTable {
  import opened TableChains
  import opened TableSizes
  import opened TableMap

  /** Where a value is stored; the pointer the lookup functions return. */
  datatype Slot = ArraySlot(i: int) | NodeSlot(n: int) | NoSlot

  ghost predicate SlotOf(arr: seq<Value>, node: seq<Node>, s: Slot, k: Key) {
    match s
    case ArraySlot(i) => InArray(arr, k) && i == k.i - 1
    case NodeSlot(n) => !InArray(arr, k) && Keyed(node, n) && node[n].key.k == k
    case NoSlot => !InArray(arr, k) && !Holds(node, k)
  }

  /** The value in a slot; the nil object when there is none. */
  function SlotValue(arr: seq<Value>, node: seq<Node>, s: Slot): Value {
    match s
    case ArraySlot(i) => if 0 <= i < |arr| then arr[i] else Nil
    case NodeSlot(n) => if 0 <= n < |node| then node[n].val else Nil
    case NoSlot => Nil
  }

  lemma SlotLookup(arr: seq<Value>, node: seq<Node>, s: Slot, k: Key)
    requires KeysOnce(node) && SlotOf(arr, node, s, k)
    ensures SlotValue(arr, node, s) == Lookup(arr, node, k)
  {
    if s.NodeSlot? { NodeValAt(node, s.n); }
  }

  // ----- what a node vector has been given so far -----

  /** The value nodes `i' and up have for `k'. */
  ghost function NodeValFrom(node: seq<Node>, i: int, k: Key): Value
    decreases |node| - i
  {
    if i < 0 || i >= |node| then Nil
    else if Keyed(node, i) && node[i].key.k == k then node[i].val
    else NodeValFrom(node, i + 1, k)
  }

  lemma {:induction false} NodeValFromAt(node: seq<Node>, i: nat, j: int)
    requires KeysOnce(node) && Keyed(node, j) && i <= |node|
    ensures NodeValFrom(node, i, node[j].key.k) == if i <= j then node[j].val else Nil
    decreases |node| - i
  {
    if i < |node| { NodeValFromAt(node, i + 1, j); }
  }

  lemma {:induction false} NodeValFromNone(node: seq<Node>, i: nat, k: Key)
    requires !Holds(node, k)
    ensures NodeValFrom(node, i, k) == Nil
    decreases |node| - i
  {
    if i < |node| { NodeValFromNone(node, i + 1, k); }
  }

  lemma NodeValFromAll(node: seq<Node>, k: Key)
    requires KeysOnce(node)
    ensures NodeValFrom(node, 0, k) == NodeVal(node, k)
  {
    if Holds(node, k) {
      var j :| Keyed(node, j) && node[j].key.k == k;
      NodeValFromAt(node, 0, j);
      NodeValAt(node, j);
    } else {
      NodeValFromNone(node, 0, k);
    }
  }

  /** The map after the array slots up to `i' and the nodes from `j' on have been taken over. */
  ghost function Taken(arr: seq<Value>, node: seq<Node>, i: int, j: int, k: Key): Value {
    if InArray(arr, k) then (if k.i <= i then arr[k.i - 1] else Nil) else NodeValFrom(node, j, k)
  }

  ghost predicate HasTaken(arr0: seq<Value>, node0: seq<Node>, i: int, j: int, arr: seq<Value>, node: seq<Node>) {
    forall k :: Lookup(arr, node, k) == Taken(arr0, node0, i, j, k)
  }

  lemma TakenAll(arr0: seq<Value>, node0: seq<Node>, arr: seq<Value>, node: seq<Node>)
    requires KeysOnce(node0) && HasTaken(arr0, node0, |arr0|, 0, arr, node)
    ensures SameMap(arr0, node0, arr, node)
  {
    forall k ensures Lookup(arr, node, k) == Lookup(arr0, node0, k) { NodeValFromAll(node0, k); }
  }

  ghost predicate Updated(arr0: seq<Value>, node0: seq<Node>, arr: seq<Value>, node: seq<Node>, k: Key, v: Value) {
    forall k' :: Lookup(arr, node, k') == if k' == k then v else Lookup(arr0, node0, k')
  }

  lemma TakeArraySlot(arr0: seq<Value>, node0: seq<Node>, i: nat, arr: seq<Value>, node: seq<Node>, arr': seq<Value>, node': seq<Node>)
    requires i < |arr0| && HasTaken(arr0, node0, i, |node0|, arr, node)
    requires if arr0[i] == Nil then arr' == arr && node' == node else Updated(arr, node, arr', node', Int(i + 1), arr0[i])
    ensures HasTaken(arr0, node0, i + 1, |node0|, arr', node')
  {
    hide Lookup;
    forall k ensures Lookup(arr', node', k) == Taken(arr0, node0, i + 1, |node0|, k) {
      assert Lookup(arr, node, k) == Taken(arr0, node0, i, |node0|, k);
      if k.Int? && k.i == i + 1 { assert k == Int(i + 1); }
    }
  }

  lemma TakeNode(arr0: seq<Value>, node0: seq<Node>, i: nat, arr: seq<Value>, node: seq<Node>, arr': seq<Value>, node': seq<Node>)
    requires i < |node0| && KeysOnce(node0) && HasTaken(arr0, node0, |arr0|, i + 1, arr, node)
    requires NodesApart(arr0, node0)
    requires if node0[i].val == Nil then arr' == arr && node' == node
             else Keyed(node0, i) && Updated(arr, node, arr', node', node0[i].key.k, node0[i].val)
    ensures HasTaken(arr0, node0, |arr0|, i, arr', node')
  {
    hide Lookup;
    forall k ensures Lookup(arr', node', k) == Taken(arr0, node0, |arr0|, i, k) {
      assert Lookup(arr, node, k) == Taken(arr0, node0, |arr0|, i + 1, k);
      if Keyed(node0, i) && node0[i].key.k == k { NodeValFromAt(node0, i + 1, i); }
    }
  }

  /** More values than a table can be rebuilt for. */
  ghost predicate Overfull(arr: seq<Value>, node: seq<Node>) {
    |ArrayInts(arr, |arr|)| + |LiveNodes(node, 0)| >= Pow2(MAXBITS)
  }

  /** The largest int the implementation counts on. */
  const MAX_INT: nat := 0x7fff_ffff - 2

  class Table {
    /** What mainposition computes from a key and the number of nodes, before it is cut to size. */
    const hash: Hash
    var arr: seq<Value>
    var node: seq<Node>
    /** All nodes from this one on have keys. */
    var lastfree: int
    /** The node part is the shared dummy node. */
    var dummy: bool
    ghost var layout: Layout

    ghost predicate Valid()
      reads this
    {
      Sound() && FullFrom(lastfree)
    }

    ghost predicate Sound()
      reads this
    {
      && ChainsOk(hash, node, layout) && 0 < |node| && |arr| <= Pow2(MAXBITS) && lastfree <= |node|
      && (dummy ==> |node| == 1 && !Keyed(node, 0) && lastfree <= 0)
      && NodesApart(arr, node)
    }

    ghost predicate FullFrom(from: int)
      reads this
    {
      !dummy ==> forall i :: from <= i < |node| && 0 <= i ==> Keyed(node, i)
    }

    /** The map the table stands for. */
    ghost function At(k: Key): Value
      reads this
    {
      Lookup(arr, node, k)
    }

    /** `k' can be given a slot without a rehash. */
    ghost predicate Room(k: Key)
      reads this
    {
      InArray(arr, k) || Holds(node, k) || (!dummy && NumKeyed(node) < |node|)
    }

    // ----- lookup -----

    /** The chain walk of the lookup functions. */
    method SearchChain(k: Key) returns (s: Slot)
      requires Valid() && !InArray(arr, k)
      ensures SlotOf(arr, node, s, k) && (s.NodeSlot? || s.NoSlot?)
    {
      hide InLine, LinkOk, FullFrom;
      var n := Main(hash, k, |node|);
      ghost var l := layout;
      assert Ahead(node, l, n, k) by {
        forall i | Keyed(node, i) && node[i].key.k == k ensures Keyed(node, n) && l.chain[i] == l.chain[n] && l.rank[n] <= l.rank[i] {
          assert MainIs(hash, node, i, n);
        }
      }
      while n >= 0
        invariant -1 <= n < |node| && |l.rank| == |node| && |l.chain| == |node|
        invariant if n >= 0 then Ahead(node, l, n, k) else !Holds(node, k)
        decreases if n >= 0 then |Higher(l.rank, l.rank[n])| + 1 else 0
      {
        hide ChainsOk;
        if node[n].key == HasKey(k) { return NodeSlot(n); }
        StepAhead(hash, node, l, n, k);
        n := node[n].next;
      }
      return NoSlot;
    }

    /** luaH_get and luaH_getnum */
    method Find(k: Key) returns (s: Slot)
      requires Valid()
      ensures SlotOf(arr, node, s, k)
    {
      if k.Int? && 1 <= k.i <= |arr| {
        s := ArraySlot(k.i - 1);
      } else {
        s := SearchChain(k);
      }
    }

    /** What a reader sees: the value stored for the key, or nil. */
    method Get(k: Key) returns (v: Value)
      requires Valid()
      ensures v == At(k)
    {
      var s := Find(k);
      HomesKeysOnce(hash, node, layout);
      SlotLookup(arr, node, s, k);
      v := SlotValue(arr, node, s);
    }

    // ----- insertion -----

    /** getfreepos: the last node without a key, below all that have been handed out before. */
    method GetFreePos() returns (n: int)
      requires Valid()
      modifies this`lastfree
      ensures n < 0 ==> Valid() && (dummy || forall i :: 0 <= i < |node| ==> Keyed(node, i))
      ensures n >= 0 ==> FreeAt(n)
    {
      hide ChainsOk;
      while lastfree > 0
        invariant Valid()
        decreases lastfree
      {
        lastfree := lastfree - 1;
        if node[lastfree].key.NoKey? { return lastfree; }
      }
      lastfree := lastfree - 1;
      return -1;
    }

    /** The node before `m' on its chain, found from the main position of the key in `m'. */
    method FindPrevious(m: nat) returns (p: nat)
      requires Sound() && Keyed(node, m) && !MainIs(hash, node, m, m)
      ensures p < |node| && node[p].next == m && Keyed(node, p)
    {
      hide InLine, LinkOk, FullFrom;
      var othern := Main(hash, node[m].key.k, |node|);
      ghost var l := layout;
      assert Before(node, l, othern, m) by { MainBefore(hash, node, l, othern, m); }
      while node[othern].next != m
        invariant 0 <= othern < |node| && |l.rank| == |node| && |l.chain| == |node| && Before(node, l, othern, m)
        decreases |Higher(l.rank, l.rank[othern])|
      {
        hide ChainsOk;
        StepBefore(hash, node, l, othern, m);
        othern := node[othern].next;
      }
      return othern;
    }

    /** Brent's step: `mp' holds a value; one of the two keys goes to the free node `n'. */
    method Relieve(k: Key, mp: nat, n: nat) returns (slot: nat)
      requires FreeAt(n) && Apart(arr, node, k)
      requires mp == Main(hash, k, |node|) && Keyed(node, mp)
      modifies this`node, this`layout
      ensures Valid() && SameNodes(old(node), node) && |node| == old(|node|)
      ensures Keyed(node, slot) && node[slot].key.k == k
      ensures forall i :: Keyed(node, i) <==> i == n || old(Keyed(node, i))
    {
      hide ChainsOk, SameNodes, Relieved, Apart, Moved, Behind;
      var othern := Main(hash, node[mp].key.k, |node|);
      if othern != mp {
        var p := FindPrevious(mp);
        layout := MoveOut(hash, arr, node, layout, mp, n, p, k);
        node := Moved(node, mp, n, p, k);
        slot := mp;
      } else {
        layout := PutBehind(hash, arr, node, layout, mp, n, k);
        node := Behind(node, mp, n, k);
        slot := n;
      }
      assert Relieved(hash, arr, old(node), node, layout, n, k, slot);
      RelievedMeans(hash, arr, old(node), node, layout, n, k, slot);
    }

    /** newkey. Without a free node the table is rebuilt with room for the key, and the key is set again:
        `may' says whether this can happen, and the second time it cannot. */
    method NewKey(k: Key, ghost may: bool) returns (ok: bool, s: Slot)
      requires Valid() && Apart(arr, node, k)
      requires may || (!dummy && NumKeyed(node) < |node|)
      modifies this
      ensures ok ==> Valid() && s != NoSlot && SlotOf(arr, node, s, k) && SameMap(old(arr), old(node), arr, node)
      ensures !may ==> ok && Added(old(arr), old(node), old(dummy), 1)
      ensures !ok ==> Overfull(old(arr), old(node))
      decreases may, 3
    {
      hide ChainsOk, SameMap, SameNodes, Apart, Overfull, Lookup;
      ghost var arr0, node0 := arr, node;
      var mp := Main(hash, k, |node|);
      if node[mp].val != Nil || dummy {
        var n := GetFreePos();
        if n < 0 {
          assert may by { if !dummy { FullMeansAll(node); } }
          ok := Rehash(k);
          if !ok { return false, NoSlot; }
          ghost var arr1, node1 := arr, node;
          ok, s := Place(k, false);
          SameMapTrans(arr0, node0, arr1, node1, arr, node);
        } else {
          TakenIsKeyed(hash, node, layout, mp);
          var slot := Relieve(k, mp, n);
          NewSlot(arr, node0, node, n, k, slot);
          ok, s := true, NodeSlot(slot);
        }
      } else {
        layout := Rekey(hash, arr, node, layout, mp, k);
        node := node[mp := node[mp].(key := HasKey(k))];
        RelievedMeans(hash, arr, node0, node, layout, mp, k, mp);
        NewSlot(arr, node0, node, mp, k, mp);
        ok, s := true, NodeSlot(mp);
      }
    }

    /** The node part keeps its size and gains at most `gain' keys; the array part stays. */
    ghost predicate Added(arr0: seq<Value>, node0: seq<Node>, dummy0: bool, gain: nat)
      reads this
    {
      arr == arr0 && dummy == dummy0 && |node| == |node0| && NumKeyed(node) <= NumKeyed(node0) + gain
    }

    /** luaH_set and luaH_setnum: the slot of a key, which is made if need be. No value changes. */
    method Place(k: Key, ghost may: bool) returns (ok: bool, s: Slot)
      requires Valid() && (may || Room(k))
      modifies this
      ensures ok ==> Valid() && s != NoSlot && SlotOf(arr, node, s, k) && SameMap(old(arr), old(node), arr, node)
      ensures !may ==> ok && Added(old(arr), old(node), old(dummy), if InArray(old(arr), k) then 0 else 1)
      ensures !ok ==> Overfull(old(arr), old(node))
      decreases may, 4
    {
      hide ChainsOk, NumKeyed, Overfull, Lookup;
      s := Find(k);
      ok := true;
      if s == NoSlot {
        ok, s := NewKey(k, may);
      }
    }

    /** setobj2t through the pointer luaH_set returned. */
    method Assign(s: Slot, ghost k: Key, v: Value)
      requires Valid() && s != NoSlot && SlotOf(arr, node, s, k)
      modifies this`arr, this`node
      ensures Valid() && Updated(old(arr), old(node), arr, node, k, v)
      ensures |arr| == |old(arr)| && (s.NodeSlot? ==> arr == old(arr))
      ensures |node| == |old(node)| && NumKeyed(node) == NumKeyed(old(node))
    {
      hide ChainsOk, NumKeyed;
      match s {
        case ArraySlot(i) =>
          arr := arr[i := v];
        case NodeSlot(n) =>
          UpdatedNode(hash, arr, node, layout, n, k, v);
          node := node[n := node[n].(val := v)];
      }
    }

    /** t[k] = v */
    method Set(k: Key, v: Value, ghost may: bool := true) returns (ok: bool)
      requires Valid() && (may || Room(k))
      modifies this
      ensures ok ==> Valid() && Updated(old(arr), old(node), arr, node, k, v)
      ensures !may && !InArray(old(arr), k) ==> arr == old(arr)
      ensures !may ==> ok && |arr| == |old(arr)| && dummy == old(dummy) && |node| == |old(node)|
      ensures !may ==> NumKeyed(node) <= NumKeyed(old(node)) + if InArray(old(arr), k) then 0 else 1
      ensures !ok ==> Overfull(old(arr), old(node))
      decreases may, 5
    {
      hide ChainsOk, NumKeyed, Lookup, Overfull;
      var s;
      ok, s := Place(k, may);
      if ok {
        ghost var arr1, node1 := arr, node;
        Assign(s, k, v);
      }
    }

    // ----- rehash -----

    /** setnodevector: false is "table overflow". */
    method SetNodeVector(size: nat) returns (ok: bool)
      modifies this`node, this`dummy, this`lastfree, this`layout
      ensures ok <==> size <= Pow2(MAXBITS)
      ensures ok ==> ChainsOk(hash, node, layout) && NumKeyed(node) == 0 && (forall k :: NodeVal(node, k) == Nil)
      ensures ok ==> (forall i :: !Keyed(node, i)) && |node| >= 1 && |node| >= size && (dummy <==> size == 0)
      ensures ok ==> lastfree == if dummy then 0 else |node|
      ensures ok && dummy ==> |node| == 1
      ensures !ok ==> unchanged(this)
    {
      hide ChainsOk, NumKeyed, NodeVal, Pow2, CeilLog2, Keyed;
      if size == 0 {
        node := [EmptyNode()];
        dummy, lastfree := true, 0;
      } else {
        var lsize := CeilLog2(size);
        CeilLog2Bounds(size);
        if lsize > MAXBITS {
          Pow2Monotone(MAXBITS, lsize - 1);
          return false;
        }
        Pow2Monotone(lsize, MAXBITS);
        node := seq(Pow2(lsize), _ => EmptyNode());
        dummy, lastfree := false, |node|;
      }
      layout := Layout(seq(|node|, _ => 0), seq(|node|, _ => 0.0));
      EmptyOk(hash, node);
      return true;
    }

    /** What holds while the old contents are put back into new parts. */
    ghost predicate Refilling(arr0: seq<Value>, node0: seq<Node>, nasize: nat, nhsize: nat, i: int, j: int)
      requires 0 <= i <= |arr0|
      reads this
    {
      && Valid() && |arr| == nasize && (dummy <==> nhsize == 0) && |node| >= nhsize
      && NumKeyed(node) <= ArrayNeed(arr0, nasize, i) + NodeNeed(node0, j, nasize)
      && HasTaken(arr0, node0, i, j, arr, node)
    }

    /** Empty nodes and the new array part have taken nothing from the nodes yet. */
    lemma StartRefill(arr0: seq<Value>, node0: seq<Node>, nasize: nat, nhsize: nat, i: nat)
      requires ChainsOk(hash, node, layout) && NumKeyed(node) == 0 && (forall k :: NodeVal(node, k) == Nil)
      requires (forall j :: !Keyed(node, j)) && |node| >= 1 && |node| >= nhsize && (dummy <==> nhsize == 0)
      requires lastfree == (if dummy then 0 else |node|) && (dummy ==> |node| == 1) && |arr| == nasize <= Pow2(MAXBITS)
      requires i <= |arr0| && if nasize < |arr0| then arr == arr0[..i]
        else i == |arr0| && arr0 <= arr && forall j :: |arr0| <= j < nasize ==> arr[j] == Nil
      ensures Refilling(arr0, node0, nasize, nhsize, i, |node0|)
    {
      hide ChainsOk, NodeVal, NumKeyed;
      NothingTaken(hash, arr0, node0, arr, node, i);
    }

    method ReinsertArray(arr0: seq<Value>, ghost node0: seq<Node>, ghost nhsize: nat, from: nat)
      requires from == |arr| <= |arr0| && Refilling(arr0, node0, |arr|, nhsize, from, |node0|)
      requires ArrayNeed(arr0, |arr|, |arr0|) + NodeNeed(node0, 0, |arr|) <= nhsize
      modifies this
      ensures Refilling(arr0, node0, from, nhsize, |arr0|, |node0|)
      decreases true, 0
    {
      var i := from;
      while i < |arr0|
        invariant from <= i <= |arr0| && Refilling(arr0, node0, from, nhsize, i, |node0|)
      {
        hide Valid, HasTaken, NumKeyed, NodeNeed, Lookup, Updated, Room;
        ghost var arr1, node1 := arr, node;
        if arr0[i] != Nil {
          ArrayNeedMonotone(arr0, from, i + 1, |arr0|);
          RoomLeft(Int(i + 1), nhsize);
          var ok := Set(Int(i + 1), arr0[i], false);
        }
        TakeArraySlot(arr0, node0, i, arr1, node1, arr, node);
        i := i + 1;
      }
    }

    lemma RoomLeft(k: Key, nhsize: nat)
      requires InArray(arr, k) || (NumKeyed(node) < nhsize <= |node| && (dummy <==> nhsize == 0))
      ensures Room(k)
    {
    }

    method ReinsertNodes(ghost arr0: seq<Value>, node0: seq<Node>, ghost nhsize: nat)
      requires KeysOnce(node0) && Refilling(arr0, node0, |arr|, nhsize, |arr0|, |node0|)
      requires NodesApart(arr0, node0)
      requires ArrayNeed(arr0, |arr|, |arr0|) + NodeNeed(node0, 0, |arr|) <= nhsize
      modifies this
      ensures Refilling(arr0, node0, |old(arr)|, nhsize, |arr0|, 0)
      decreases true, 0
    {
      ghost var nasize := |arr|;
      var i := |node0|;
      while i > 0
        invariant 0 <= i <= |node0| && Refilling(arr0, node0, nasize, nhsize, |arr0|, i)
      {
        hide Valid, HasTaken, NumKeyed, ArrayNeed, Lookup, Updated, Room;
        i := i - 1;
        ghost var arr1, node1 := arr, node;
        if node0[i].val != Nil {
          NodeNeedMonotone(node0, i, nasize);
          RoomLeft(node0[i].key.k, nhsize);
          var ok := Set(node0[i].key.k, node0[i].val, false);
        }
        TakeNode(arr0, node0, i, arr1, node1, arr, node);
      }
    }

    method Resize(nasize: nat, nhsize: nat) returns (ok: bool)
      requires Valid() && nasize <= Pow2(MAXBITS)
      requires ArrayNeed(arr, nasize, |arr|) + NodeNeed(node, 0, nasize) <= nhsize
      modifies this
      ensures ok <==> nhsize <= Pow2(MAXBITS)
      ensures ok ==> Valid() && SameMap(old(arr), old(node), arr, node) && |arr| == nasize
      ensures ok ==> (dummy <==> nhsize == 0) && |node| >= nhsize
      ensures ok ==> NumKeyed(node) <= ArrayNeed(old(arr), nasize, |old(arr)|) + NodeNeed(old(node), 0, nasize)
      decreases true, 1
    {
      ghost var arr0 := arr;
      var nold := node;
      HomesKeysOnce(hash, node, layout);
      hide ChainsOk, NodeVal, Lookup, KeysOnce, HasTaken, ArrayNeed, NodeNeed, NumKeyed, Keyed, NodesApart, FullFrom;
      if nasize > |arr| { arr := arr + seq(nasize - |arr|, _ => Nil); }
      ok := SetNodeVector(nhsize);
      if !ok { return; }
      if nasize < |arr| {
        var vanishing := arr;
        arr := arr[..nasize];
        StartRefill(arr0, nold, nasize, nhsize, nasize);
        ReinsertArray(vanishing, nold, nhsize, nasize);
      } else {
        StartRefill(arr0, nold, nasize, nhsize, |arr0|);
      }
      hide Valid, Sound, HasTaken, NumKeyed, NodeNeed, ArrayNeed;
      ReinsertNodes(arr0, nold, nhsize);
      TakenAll(arr0, nold, arr, node);
    }

    /** The table is rebuilt with the best size for the array part, counting the new key. */
    method Rehash(k: Key) returns (ok: bool)
      requires Valid() && Apart(arr, node, k)
      modifies this
      ensures ok ==> Valid() && SameMap(old(arr), old(node), arr, node) && Room(k)
      ensures ok ==> BestSize(UsedInts(old(arr), old(node), k), |arr|)
      ensures !ok ==> Overfull(old(arr), old(node))
      decreases true, 2
    {
      hide ChainsOk, Apart, ArrayInts, NodeInts, LiveNodes, SameMap, Slice, UpTo, UsedInts, NumKeyed, NodeNeed, ArrayNeed;
      ghost var arr0, node0, used := arr, node, UsedInts(arr, node, k);
      HomesKeysOnce(hash, node, layout);
      var nasize, nums := NumUseArray(arr);
      var totaluse := nasize;
      ghost var nums0 := nums;
      var hashuse, ause;
      hashuse, ause, nums := NumUseHash(node, nums);
      totaluse := totaluse + hashuse;
      nasize := nasize + ause;
      var c;
      c, nums := CountInt(k, nums);
      nasize := nasize + c;
      totaluse := totaluse + 1;
      UsedTotal(arr, node, k);
      forall b | 0 <= b <= MAXBITS ensures nums[b] == |Slice(used, b)| { UsedSlices(arr, node, k, b); }
      var na;
      nasize, na := ComputeSizes(nums, nasize, used);
      BestFits(used, nasize);
      RehashRoom(arr, node, k, nasize);
      ok := Resize(nasize, totaluse - na);
    }

    /** luaH_new */
    constructor (hash: Hash, narray: nat, nhash: nat)
      requires narray <= Pow2(MAXBITS) && nhash <= Pow2(MAXBITS)
      ensures Valid() && this.hash == hash
      ensures forall k :: Lookup(arr, node, k) == Nil
    {
      this.hash := hash;
      arr := seq(narray, _ => Nil);
      node, lastfree, dummy, layout := [], 0, true, Layout([], []);
      new;
      var ok := SetNodeVector(nhash);
    }

    // ----- the length operator -----

    /** `r' is the index of a last value: none follows it, and there is one at it unless it is 0. */
    ghost predicate Boundary(r: int)
      reads this
    {
      (r == 0 || (r > 0 && At(Int(r)) != Nil)) && At(Int(r + 1)) == Nil
    }

    lemma FewerAbove(i: int)
      requires Valid() && At(Int(i)) != Nil
      ensures |IntsFrom(arr, node, i + 1)| < |IntsFrom(arr, node, i)|
    {
      hide ChainsOk, IntsFrom, Lookup, NodesApart;
      HomesKeysOnce(hash, node, layout);
      FewerInts(arr, node, i);
    }

    /** The fallback of unbound_search. */
    method LinearSearch() returns (r: nat)
      requires Valid()
      ensures Boundary(r)
    {
      hide Valid, IntsFrom, Lookup;
      var i := 1;
      var v := Get(Int(i));
      while v != Nil
        invariant i >= 1 && v == At(Int(i)) && (i == 1 || At(Int(i - 1)) != Nil)
        decreases |IntsFrom(arr, node, i)|
      {
        FewerAbove(i);
        i := i + 1;
        v := Get(Int(i));
      }
      return i - 1;
    }

    method BinarySearch(lo: nat, hi: nat) returns (i: nat)
      requires Valid() && lo < hi && (lo == 0 || At(Int(lo)) != Nil) && At(Int(hi)) == Nil
      ensures Boundary(i) && lo <= i < hi
    {
      hide Sound, Lookup;
      var j := hi;
      i := lo;
      while j - i > 1
        invariant lo <= i < j <= hi && (i == 0 || At(Int(i)) != Nil) && At(Int(j)) == Nil
      {
        var m := (i + j) / 2;
        var v := Get(Int(m));
        if v == Nil { j := m; } else { i := m; }
      }
    }

    /** Doubling from a present index until an absent one is met. */
    method UnboundSearch(start: nat) returns (r: nat)
      requires Valid() && start <= Pow2(MAXBITS) && (start == 0 || At(Int(start)) != Nil)
      ensures Boundary(r)
    {
      hide Sound, Lookup;
      assert Pow2(MAXBITS) < MAX_INT by { Pow2Max(); }
      var i, j := start, start + 1;
      var v := Get(Int(j));
      while v != Nil
        invariant 0 <= i < j <= MAX_INT && v == At(Int(j)) && (i == 0 || At(Int(i)) != Nil)
        decreases MAX_INT - j
      {
        i := j;
        j := j * 2;
        if j > MAX_INT {
          r := LinearSearch();
          return;
        }
        v := Get(Int(j));
      }
      r := BinarySearch(i, j);
    }

    /** luaH_getn */
    method GetN() returns (r: nat)
      requires Valid()
      ensures Boundary(r)
    {
      hide ChainsOk;
      var j := |arr|;
      if j > 0 && arr[j - 1] == Nil {
        var i := 0;
        while j - i > 1
          invariant 0 <= i < j <= |arr| && (i == 0 || arr[i - 1] != Nil) && arr[j - 1] == Nil
        {
          var m := (i + j) / 2;
          if arr[m - 1] == Nil { j := m; } else { i := m; }
        }
        r := i;
      } else if dummy {
        r := j;
        assert !Holds(node, Int(j + 1));
      } else {
        r := UnboundSearch(j);
      }
    }

    /** All is well but for the node just handed out. */
    ghost predicate FreeAt(n: int)
      reads this
    {
      Sound() && !dummy && 0 <= n < |node| && !Keyed(node, n) && FullFrom(n + 1) && lastfree == n
    }
  }

  /** All nodes with key `k' are at or beyond node `n' on its chain. */
  ghost predicate Ahead(node: seq<Node>, l: Layout, n: int, k: Key)
    requires |l.rank| == |node| && |l.chain| == |node| && 0 <= n < |node|
  {
    forall i :: Keyed(node, i) && node[i].key.k == k ==> Keyed(node, n) && l.chain[i] == l.chain[n] && l.rank[n] <= l.rank[i]
  }

  ghost predicate Before(node: seq<Node>, l: Layout, n: int, m: int)
    requires |l.rank| == |node| && |l.chain| == |node| && 0 <= n < |node| && 0 <= m < |node|
  {
    Keyed(node, n) && l.chain[n] == l.chain[m] && l.rank[n] < l.rank[m]
  }

  ghost function Higher(rank: seq<real>, r: real): set<int> {
    set i | 0 <= i < |rank| && rank[i] > r
  }

  lemma HigherShrinks(rank: seq<real>, i: int, j: int)
    requires 0 <= i < |rank| && 0 <= j < |rank| && rank[i] < rank[j]
    ensures |Higher(rank, rank[j])| < |Higher(rank, rank[i])|
  {
    SubsetSize(Higher(rank, rank[j]) + {j}, Higher(rank, rank[i]));
  }

  lemma SizesOk(hash: Hash, node: seq<Node>, l: Layout)
    requires ChainsOk(hash, node, l)
    ensures |l.chain| == |node| && |l.rank| == |node|
  {
  }

  lemma LinkFact(hash: Hash, node: seq<Node>, l: Layout, i: int)
    requires ChainsOk(hash, node, l) && 0 <= i < |node|
    ensures |l.chain| == |node| && |l.rank| == |node| && LinkOk(node, l, i)
  {
  }

  lemma StepAhead(hash: Hash, node: seq<Node>, l: Layout, n: int, k: Key)
    requires ChainsOk(hash, node, l) && 0 <= n < |node| && |l.rank| == |node| && |l.chain| == |node|
    requires Ahead(node, l, n, k) && node[n].key != HasKey(k)
    ensures -1 <= node[n].next < |node|
    ensures if node[n].next < 0 then !Holds(node, k) else Ahead(node, l, node[n].next, k) && |Higher(l.rank, l.rank[node[n].next])| < |Higher(l.rank, l.rank[n])|
  {
    hide Homes, Higher, LinkOk;
    LinkUp(node, l, n);
    var next := node[n].next;
    forall i | Keyed(node, i) && node[i].key.k == k ensures next >= 0 && l.chain[i] == l.chain[next] && l.rank[next] <= l.rank[i] {
      assert InLine(node, l, n, i);
    }
    if next >= 0 { HigherShrinks(l.rank, n, next); }
  }

  lemma MainBefore(hash: Hash, node: seq<Node>, l: Layout, o: int, m: int)
    requires ChainsOk(hash, node, l) && Keyed(node, m) && 0 <= o < |node| && |l.rank| == |node| && |l.chain| == |node|
    requires MainIs(hash, node, m, o) && o != m
    ensures Before(node, l, o, m)
  {
    assert MainIs(hash, node, o, o);
    assert InLine(node, l, o, m);
  }

  lemma StepBefore(hash: Hash, node: seq<Node>, l: Layout, o: int, m: int)
    requires ChainsOk(hash, node, l) && Keyed(node, m) && 0 <= o < |node| && |l.rank| == |node| && |l.chain| == |node|
    requires Before(node, l, o, m) && node[o].next != m
    ensures 0 <= node[o].next < |node| && Before(node, l, node[o].next, m)
    ensures |Higher(l.rank, l.rank[node[o].next])| < |Higher(l.rank, l.rank[o])|
  {
    hide Homes, Higher;
    assert InLine(node, l, o, m);
    LinkUp(node, l, o);
    assert InLine(node, l, node[o].next, m);
    HigherShrinks(l.rank, o, node[o].next);
  }

  lemma PreviousApart(hash: Hash, node: seq<Node>, l: Layout, m: nat, n: nat, p: nat)
    requires ChainsOk(hash, node, l) && m < |node| && n < |node| && p < |node| && node[p].next == m && Keyed(node, m) && !Keyed(node, n)
    ensures Keyed(node, p) && p != m && p != n
  {
    LinkFact(hash, node, l, p);
  }

  /** What making room at a taken main position achieves. */
  ghost predicate Relieved(hash: Hash, arr: seq<Value>, node: seq<Node>, node': seq<Node>, l': Layout, n: nat, k: Key, slot: nat) {
    && |node'| == |node| && ChainsOk(hash, node', l') && SameNodes(node, node')
    && (forall i :: Keyed(node', i) <==> i == n || Keyed(node, i))
    && NodesApart(arr, node')
    && Keyed(node', slot) && node'[slot].key.k == k
  }

  lemma RelievedMeans(hash: Hash, arr: seq<Value>, node: seq<Node>, node': seq<Node>, l': Layout, n: nat, k: Key, slot: nat)
    requires Relieved(hash, arr, node, node', l', n, k, slot)
    ensures |node'| == |node| && ChainsOk(hash, node', l') && SameNodes(node, node')
    ensures forall i :: Keyed(node', i) <==> i == n || Keyed(node, i)
    ensures NodesApart(arr, node')
    ensures Keyed(node', slot) && node'[slot].key.k == k
  {
  }

  lemma MoveOut(hash: Hash, arr: seq<Value>, node: seq<Node>, l: Layout, m: nat, n: nat, p: nat, k: Key) returns (l': Layout)
    requires ChainsOk(hash, node, l) && Apart(arr, node, k) && m < |node| && n < |node| && p < |node|
    requires Keyed(node, m) && !MainIs(hash, node, m, m) && m == Main(hash, k, |node|) && !Keyed(node, n) && node[p].next == m
    ensures Relieved(hash, arr, node, Moved(node, m, n, p, k), l', n, k, m)
  {
    hide ChainsOk, SameNodes;
    SizesOk(hash, node, l);
    PreviousApart(hash, node, l, m, n, p);
    l' := MovedLayout(l, m, n);
    Relocate(hash, node, l, m, n, p, k);
    MovedSame(hash, node, l, l', m, n, p, k);
    var node' := Moved(node, m, n, p, k);
    forall i | Keyed(node', i) ensures !InArray(arr, node'[i].key.k) {
      if i != m { assert Keyed(node, if i == n then m else i); }
    }
  }

  lemma PutBehind(hash: Hash, arr: seq<Value>, node: seq<Node>, l: Layout, m: nat, n: nat, k: Key) returns (l': Layout)
    requires ChainsOk(hash, node, l) && Apart(arr, node, k) && m < |node| && n < |node|
    requires MainIs(hash, node, m, m) && m == Main(hash, k, |node|) && !Keyed(node, n)
    ensures Relieved(hash, arr, node, Behind(node, m, n, k), l', n, k, n)
  {
    hide ChainsOk, SameNodes;
    LinkFact(hash, node, l, m);
    l' := BehindLayout(node, l, m, n);
    InsertBehind(hash, node, l, m, n, k);
    BehindSame(hash, node, l, l', m, n, k);
    var node' := Behind(node, m, n, k);
    forall i | Keyed(node', i) ensures !InArray(arr, node'[i].key.k) {
      if i != n { assert Keyed(node, i); }
    }
  }

  /** The main position is empty, or holds a key without a value: the key is written there. */
  lemma Rekey(hash: Hash, arr: seq<Value>, node: seq<Node>, l: Layout, m: nat, k: Key) returns (l': Layout)
    requires ChainsOk(hash, node, l) && Apart(arr, node, k) && m < |node| && node[m].val == Nil && m == Main(hash, k, |node|)
    ensures Relieved(hash, arr, node, node[m := node[m].(key := HasKey(k))], l', m, k, m)
  {
    hide ChainsOk, SameNodes;
    SizesOk(hash, node, l);
    var node' := node[m := node[m].(key := HasKey(k))];
    if Keyed(node, m) {
      l' := l;
      Overwrite(hash, node, l, m, k);
    } else {
      l' := l.(chain := l.chain[m := FreshChain(l.chain)]);
      FillFree(hash, node, l, m, k);
    }
    RekeySame(hash, node, l, l', m, k);
    forall i | Keyed(node', i) ensures !InArray(arr, node'[i].key.k) {
      if i != m { assert Keyed(node, i); }
    }
  }

  lemma SameMapTrans(a0: seq<Value>, n0: seq<Node>, a1: seq<Value>, n1: seq<Node>, a2: seq<Value>, n2: seq<Node>)
    requires SameMap(a0, n0, a1, n1) && SameMap(a1, n1, a2, n2)
    ensures SameMap(a0, n0, a2, n2)
  {
    hide Lookup;
    forall k ensures Lookup(a2, n2, k) == Lookup(a0, n0, k) { assert Lookup(a1, n1, k) == Lookup(a0, n0, k); }
  }

  lemma TakenIsKeyed(hash: Hash, node: seq<Node>, l: Layout, m: nat)
    requires ChainsOk(hash, node, l) && m < |node| && node[m].val != Nil
    ensures Keyed(node, m)
  {
    HomesKeysOnce(hash, node, l);
  }

  lemma NewSlot(arr: seq<Value>, node0: seq<Node>, node: seq<Node>, n: nat, k: Key, slot: nat)
    requires !InArray(arr, k) && |node| == |node0| && SameNodes(node0, node)
    requires forall i :: Keyed(node, i) <==> i == n || Keyed(node0, i)
    requires Keyed(node, slot) && node[slot].key.k == k
    ensures SlotOf(arr, node, NodeSlot(slot), k) && SameMap(arr, node0, arr, node)
    ensures NumKeyed(node) <= NumKeyed(node0) + 1
  {
    KeyedGrows(node0, node, n);
  }

  lemma UpdatedNode(hash: Hash, arr: seq<Value>, node: seq<Node>, l: Layout, n: nat, k: Key, v: Value)
    requires ChainsOk(hash, node, l) && Keyed(node, n) && node[n].key.k == k && !InArray(arr, k)
    ensures var node' := node[n := node[n].(val := v)];
            && ChainsOk(hash, node', l) && Updated(arr, node, arr, node', k, v)
            && NumKeyed(node') == NumKeyed(node) && forall i :: Keyed(node', i) <==> Keyed(node, i)
  {
    var node' := node[n := node[n].(val := v)];
    WriteNode(hash, node, l, n, v);
    KeyedSame(node, node');
    hide NodeVal, ChainsOk;
    forall k' ensures Lookup(arr, node', k') == if k' == k then v else Lookup(arr, node, k') {
      assert NodeVal(node', k') == if k' == k then v else NodeVal(node, k');
    }
  }

  lemma NothingTaken(hash: Hash, arr0: seq<Value>, node0: seq<Node>, arr: seq<Value>, node: seq<Node>, i: nat)
    requires i <= |arr0| && forall k :: NodeVal(node, k) == Nil
    requires if |arr| < |arr0| then arr == arr0[..i] else i == |arr0| && arr0 <= arr && forall j :: |arr0| <= j < |arr| ==> arr[j] == Nil
    ensures HasTaken(arr0, node0, i, |node0|, arr, node)
  {
    hide NodeVal;
  }

  /** The counts of a rehash cover all integer keys in use. */
  lemma UsedTotal(arr: seq<Value>, node: seq<Node>, k: Key)
    requires Apart(arr, node, k) && |arr| <= Pow2(MAXBITS)
    ensures |UpTo(UsedInts(arr, node, k), Pow2(MAXBITS))| ==
            |ArrayInts(arr, |arr|)| + |NodeInts(node, 0)| + if Countable(k) then 1 else 0
  {
    UsedAll(arr, node);
    UsedCounts(arr, node, k, Pow2(MAXBITS));
  }

  lemma BestFits(s: set<int>, n: nat)
    requires BestSize(s, n)
    ensures n <= Pow2(MAXBITS)
  {
    if n > 0 {
      var b :| 0 <= b <= MAXBITS && n == Pow2(b) && Dense(s, n);
      Pow2Monotone(b, MAXBITS);
    }
  }

  // ----- the keys with values -----

  ghost function LiveKeys(arr: seq<Value>, node: seq<Node>): set<Key> {
    (set x | x in ArrayInts(arr, |arr|) :: Int(x)) + (set i | i in LiveNodes(node, 0) :: node[i].key.k)
  }

  lemma LiveKeysAre(arr: seq<Value>, node: seq<Node>, k: Key)
    requires KeysOnce(node) && NodesApart(arr, node)
    ensures k in LiveKeys(arr, node) <==> Lookup(arr, node, k) != Nil
  {
    hide ArrayInts;
    if k.Int? { ArrayIntsMember(arr, |arr|, k.i); }
    forall x | x in ArrayInts(arr, |arr|) ensures InArray(arr, Int(x)) && arr[x - 1] != Nil { ArrayIntsMember(arr, |arr|, x); }
    forall i | i in LiveNodes(node, 0) ensures NodeVal(node, node[i].key.k) != Nil { NodeValAt(node, i); }
    if NodeVal(node, k) != Nil {
      var i :| Keyed(node, i) && node[i].key.k == k;
      NodeValAt(node, i);
      assert i in LiveNodes(node, 0);
    }
  }

  ghost function IntsFrom(arr: seq<Value>, node: seq<Node>, i: int): set<int> {
    set k | k in LiveKeys(arr, node) && k.Int? && k.i >= i :: k.i
  }

  lemma FewerInts(arr: seq<Value>, node: seq<Node>, i: int)
    requires KeysOnce(node) && NodesApart(arr, node)
    requires Lookup(arr, node, Int(i)) != Nil
    ensures |IntsFrom(arr, node, i + 1)| < |IntsFrom(arr, node, i)|
  {
    LiveKeysAre(arr, node, Int(i));
    hide LiveKeys;
    var a, b := IntsFrom(arr, node, i + 1), IntsFrom(arr, node, i);
    assert Int(i) in LiveKeys(arr, node);
    assert i in b;
    forall x | x in a + {i} ensures x in b { if x != i { assert Int(x) in LiveKeys(arr, node); } }
    SubsetSize(a + {i}, b);
  }

  lemma Pow2Max()
    ensures Pow2(MAXBITS) == 0x400_0000
  {
    assert Pow2(13) == 0x2000;
    assert Pow2(26) == 0x2000 * 0x2000;
  }
}
