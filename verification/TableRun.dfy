/** Whole runs of assignments and lookups on a table. */
module TableRun {
  import opened TableChains
  import opened TableSizes
  import opened TableMap
  import opened LuaTable

  datatype Assignment = Assignment(key: Key, val: Value)

  /** The value a finite map holds for `k' after the assignments; assigning nil removes a key. */
  function LastValue(ops: seq<Assignment>, k: Key): Value {
    if ops == [] then Nil
    else if ops[|ops| - 1].key == k then ops[|ops| - 1].val
    else LastValue(ops[..|ops| - 1], k)
  }

  function AssignedKeys(ops: seq<Assignment>): set<Key> {
    set i | 0 <= i < |ops| :: ops[i].key
  }

  lemma {:induction false} AssignedCount(ops: seq<Assignment>)
    ensures |AssignedKeys(ops)| <= |ops|
  {
    if ops != [] {
      var front := ops[..|ops| - 1];
      AssignedCount(front);
      SubsetSize(AssignedKeys(ops), AssignedKeys(front) + {ops[|ops| - 1].key});
    }
  }

  lemma {:induction false} OnlyAssigned(ops: seq<Assignment>, k: Key)
    requires LastValue(ops, k) != Nil
    ensures k in AssignedKeys(ops)
  {
    if ops[|ops| - 1].key != k {
      OnlyAssigned(ops[..|ops| - 1], k);
      var i :| 0 <= i < |ops| - 1 && ops[..|ops| - 1][i].key == k;
      assert ops[i].key == k;
    }
  }

  lemma Member<T>(s: set<T>) returns (x: T)
    requires s != {}
    ensures x in s
  {
    x :| x in s;
  }

  lemma {:induction false} IntImage(s: set<int>)
    ensures |set x | x in s :: Int(x)| == |s|
  {
    if s != {} {
      var y := Member(s);
      IntImage(s - {y});
      assert (set x | x in s :: Int(x)) == (set x | x in s - {y} :: Int(x)) + {Int(y)};
    } else {
      assert (set x | x in s :: Int(x)) == {};
    }
  }

  ghost function NodeKeys(node: seq<Node>, s: set<int>): set<Key>
    requires forall i :: i in s ==> Keyed(node, i)
  {
    set i | i in s && Keyed(node, i) :: node[i].key.k
  }

  lemma {:induction false} NodeImage(node: seq<Node>, s: set<int>)
    requires KeysOnce(node) && forall i :: i in s ==> Keyed(node, i)
    ensures |NodeKeys(node, s)| == |s|
  {
    if s != {} {
      var y := Member(s);
      NodeImage(node, s - {y});
      assert Keyed(node, y);
      assert NodeKeys(node, s) == NodeKeys(node, s - {y}) + {node[y].key.k};
      assert node[y].key.k !in NodeKeys(node, s - {y});
    } else {
      assert NodeKeys(node, s) == {};
    }
  }

  /** The counts a rehash takes are the number of keys with a value. */
  lemma LiveKeysCount(arr: seq<Value>, node: seq<Node>)
    requires KeysOnce(node) && NodesApart(arr, node)
    ensures |LiveKeys(arr, node)| == |ArrayInts(arr, |arr|)| + |LiveNodes(node, 0)|
  {
    var a, b := set x | x in ArrayInts(arr, |arr|) :: Int(x), NodeKeys(node, LiveNodes(node, 0));
    assert b == set i | i in LiveNodes(node, 0) :: node[i].key.k;
    IntImage(ArrayInts(arr, |arr|));
    NodeImage(node, LiveNodes(node, 0));
    hide ArrayInts;
    forall x | x in ArrayInts(arr, |arr|) ensures Int(x) !in b { ArrayIntsMember(arr, |arr|, x); }
    assert a * b == {};
  }

  /** Only a table with as many keys as were assigned can be too full. */
  lemma OverfullNeedsMany(arr: seq<Value>, node: seq<Node>, ops: seq<Assignment>)
    requires KeysOnce(node) && NodesApart(arr, node)
    requires Overfull(arr, node) && forall k :: Lookup(arr, node, k) == LastValue(ops, k)
    ensures |ops| >= Pow2(MAXBITS)
  {
    hide Lookup, LiveKeys, LiveNodes, ArrayInts;
    forall k | k in LiveKeys(arr, node) ensures k in AssignedKeys(ops) {
      LiveKeysAre(arr, node, k);
      OnlyAssigned(ops, k);
    }
    SubsetSize(LiveKeys(arr, node), AssignedKeys(ops));
    AssignedCount(ops);
    LiveKeysCount(arr, node);
  }

  /** A new table is given any assignments and is then asked for any keys and for its length: it
      answers as a finite map. The sizes asked for at creation make no difference, and only a table
      of 2^26 values can overflow. */
  method Replay(hash: Hash, narray: nat, nhash: nat, ops: seq<Assignment>, asked: seq<Key>)
    returns (ok: bool, answers: seq<Value>, length: nat)
    requires narray <= Pow2(MAXBITS) && nhash <= Pow2(MAXBITS)
    ensures |ops| < Pow2(MAXBITS) ==> ok
    ensures ok ==> |answers| == |asked| && forall i :: 0 <= i < |asked| ==> answers[i] == LastValue(ops, asked[i])
    ensures ok ==> (length == 0 || LastValue(ops, Int(length)) != Nil) && LastValue(ops, Int(length + 1)) == Nil
  {
    hide ChainsOk, Lookup, Overfull;
    var t := new Table(hash, narray, nhash);
    answers, length := [], 0;
    var i := 0;
    while i < |ops|
      invariant 0 <= i <= |ops| && t.Valid() && fresh(t)
      invariant forall k :: Lookup(t.arr, t.node, k) == LastValue(ops[..i], k)
    {
      ghost var arr0, node0 := t.arr, t.node;
      HomesKeysOnce(t.hash, t.node, t.layout);
      ok := t.Set(ops[i].key, ops[i].val);
      if !ok {
        OverfullNeedsMany(arr0, node0, ops[..i]);
        return;
      }
      assert ops[..i + 1][..i] == ops[..i];
      i := i + 1;
    }
    assert ops[..i] == ops;
    ok := true;
    i := 0;
    while i < |asked|
      invariant 0 <= i <= |asked| && |answers| == i && t.Valid()
      invariant forall k :: Lookup(t.arr, t.node, k) == LastValue(ops, k)
      invariant forall j :: 0 <= j < i ==> answers[j] == LastValue(ops, asked[j])
    {
      var v := t.Get(asked[i]);
      answers := answers + [v];
      i := i + 1;
    }
    length := t.GetN();
  }
}
