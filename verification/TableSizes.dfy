/** How many integer keys a table uses, and the size its array part should have. */
module TableSizes {
  import opened TableChains

  const MAXBITS: nat := 26

  function Pow2(b: nat): (r: nat)
    ensures r > 0
  {
    if b == 0 then 1 else 2 * Pow2(b - 1)
  }

  lemma {:induction false} Pow2Monotone(a: nat, b: nat)
    requires a <= b
    ensures Pow2(a) <= Pow2(b)
    ensures a < b ==> 2 * Pow2(a) <= Pow2(b)
  {
    if a < b { Pow2Monotone(a, b - 1); }
  }

  /** ceillog2 */
  function CeilLog2(x: nat): (b: nat) {
    if x <= 1 then 0 else 1 + CeilLog2((x + 1) / 2)
  }

  lemma {:induction false} CeilLog2Bounds(x: nat)
    requires x > 0
    ensures x <= Pow2(CeilLog2(x))
    ensures CeilLog2(x) > 0 ==> Pow2(CeilLog2(x) - 1) < x
  {
    if x > 1 {
      CeilLog2Bounds((x + 1) / 2);
      var b := CeilLog2((x + 1) / 2);
      if b > 0 { assert Pow2(b) == 2 * Pow2(b - 1); }
    }
  }

  /** The lower end of slice `b': the slices are (0, 1], (1, 2], (2, 4], ... */
  function Below(b: nat): nat {
    if b == 0 then 0 else Pow2(b - 1)
  }

  function Slice(s: set<int>, b: nat): set<int> {
    set i | i in s && Below(b) < i <= Pow2(b)
  }

  /** The members of `s' among 1..n. */
  function UpTo(s: set<int>, n: int): set<int> {
    set i | i in s && 0 < i <= n
  }

  lemma CeilLog2Slice(k: int, b: nat)
    requires 0 < k
    ensures Below(b) < k <= Pow2(b) <==> b == CeilLog2(k)
  {
    var c := CeilLog2(k);
    CeilLog2Bounds(k);
    if b < c { Pow2Monotone(b, c - 1); }
    if c < b { Pow2Monotone(c, b - 1); }
  }

  lemma {:induction false} SubsetSize<T>(a: set<T>, b: set<T>)
    requires a <= b
    ensures |a| <= |b|
    decreases a
  {
    if a != {} {
      var x :| x in a;
      SubsetSize(a - {x}, b - {x});
    }
  }

  lemma {:induction false} UpToSize(s: set<int>, n: nat)
    ensures |UpTo(s, n)| <= n
  {
    if n == 0 {
      assert UpTo(s, n) == {};
    } else {
      UpToSize(s, n - 1);
      assert UpTo(s, n) == if n in s then UpTo(s, n - 1) + {n} else UpTo(s, n - 1);
    }
  }

  lemma UpToSlice(s: set<int>, b: nat)
    ensures |UpTo(s, Pow2(b))| == |UpTo(s, Below(b))| + |Slice(s, b)|
  {
    assert UpTo(s, Pow2(b)) == UpTo(s, Below(b)) + Slice(s, b) by {
      if b > 0 { Pow2Monotone(b - 1, b); }
    }
    assert UpTo(s, Below(b)) * Slice(s, b) == {};
  }

  lemma UpToMonotone(s: set<int>, m: int, n: int)
    requires m <= n
    ensures |UpTo(s, m)| <= |UpTo(s, n)|
  {
    SubsetSize(UpTo(s, m), UpTo(s, n));
  }

  /** More than half of the slots 1..n are in use. */
  predicate Dense(s: set<int>, n: nat) {
    |UpTo(s, n)| > n / 2
  }

  /** The size of the array part is right: zero or a dense power of two, and no larger one is dense. */
  ghost predicate BestSize(s: set<int>, n: nat) {
    && (n == 0 || (exists b :: 0 <= b <= MAXBITS && n == Pow2(b) && Dense(s, n)))
    && (forall b :: 0 <= b <= MAXBITS && Dense(s, Pow2(b)) ==> Pow2(b) <= n)
  }

  /** What is known of the sizes below 2^i. */
  ghost predicate BestBelow(s: set<int>, n: nat, i: nat) {
    && (n == 0 || (exists b :: 0 <= b < i && n == Pow2(b) && Dense(s, n)))
    && (forall b :: 0 <= b < i && Dense(s, Pow2(b)) ==> Pow2(b) <= n)
  }

  lemma BestStep(s: set<int>, n: nat, i: nat)
    requires BestBelow(s, n, i)
    ensures Dense(s, Pow2(i)) ==> BestBelow(s, Pow2(i), i + 1)
    ensures !Dense(s, Pow2(i)) ==> BestBelow(s, n, i + 1)
  {
    forall b | 0 <= b < i ensures Pow2(b) <= Pow2(i) { Pow2Monotone(b, i); }
  }

  /** Once all keys are counted no larger size can be dense. */
  lemma BestEnd(s: set<int>, n: nat, i: nat)
    requires BestBelow(s, n, i) && i <= MAXBITS + 1
    requires |UpTo(s, Pow2(MAXBITS))| <= Below(i)
    ensures BestSize(s, n)
  {
    forall b | i <= b <= MAXBITS ensures !Dense(s, Pow2(b)) {
      Pow2Monotone(b, MAXBITS);
      UpToMonotone(s, Pow2(b), Pow2(MAXBITS));
      if i > 0 { Pow2Monotone(i - 1, b); }
    }
  }

  /** What computesizes knows when all slices below `i' are done. */
  ghost predicate Counted(s: set<int>, n: nat, na: nat, a: nat, i: nat) {
    a == |UpTo(s, Below(i))| && BestBelow(s, n, i) && na == |UpTo(s, n)|
  }

  lemma CountedStart(s: set<int>)
    ensures Counted(s, 0, 0, 0, 0)
  {
    assert UpTo(s, 0) == {};
  }

  lemma CountedStep(s: set<int>, n: nat, na: nat, a: nat, i: nat, c: nat)
    requires Counted(s, n, na, a, i) && c == |Slice(s, i)|
    ensures a + c > Pow2(i) / 2 ==> c > 0 && Counted(s, Pow2(i), a + c, a + c, i + 1)
    ensures a + c <= Pow2(i) / 2 ==> Counted(s, n, na, a + c, i + 1)
  {
    UpToSlice(s, i);
    UpToSize(s, Below(i));
    BestStep(s, n, i);
  }

  lemma CountedEnd(s: set<int>, n: nat, na: nat, a: nat, i: nat, narray: nat)
    requires Counted(s, n, na, a, i) && i <= MAXBITS + 1 && narray == |UpTo(s, Pow2(MAXBITS))|
    requires a == narray || Below(i) >= narray
    ensures BestSize(s, n) && na == |UpTo(s, n)|
  {
    UpToSize(s, Below(i));
    BestEnd(s, n, i);
  }

  /** computesizes: from the number of integer keys in each slice, the best size of the array part and
      the number of keys that go there. `narray' is the number of all of them. */
  method ComputeSizes(nums: seq<nat>, narray: nat, ghost s: set<int>) returns (n: nat, na: nat)
    requires |nums| == MAXBITS + 1
    requires forall b :: 0 <= b <= MAXBITS ==> nums[b] == |Slice(s, b)|
    requires narray == |UpTo(s, Pow2(MAXBITS))|
    ensures BestSize(s, n) && na == |UpTo(s, n)|
  {
    hide Slice, UpTo, BestBelow, BestSize, Counted;
    var a: nat, i: nat, twotoi := 0, 0, 1;
    n, na := 0, 0;
    CountedStart(s);
    UpToSize(s, Pow2(MAXBITS));
    while twotoi / 2 < narray
      invariant 0 <= i <= MAXBITS + 1 && twotoi == Pow2(i) && Counted(s, n, na, a, i)
      decreases MAXBITS + 1 - i
    {
      CountedStep(s, n, na, a, i, nums[i]);
      if nums[i] > 0 {
        a := a + nums[i];
        if a > twotoi / 2 {
          n := twotoi;
          na := a;
        }
      }
      i, twotoi := i + 1, twotoi * 2;
      if a == narray { break; }
    }
    CountedEnd(s, n, na, a, i, narray);
  }

  // ----- counting the keys in use -----

  /** The indices of the array part that hold a value. */
  function ArrayInts(arr: seq<Value>, n: nat): set<int>
    requires n <= |arr|
  {
    set j | 0 <= j < n && arr[j] != Nil :: j + 1
  }

  lemma ArrayIntsStep(arr: seq<Value>, n: nat)
    requires n < |arr|
    ensures ArrayInts(arr, n + 1) == if arr[n] == Nil then ArrayInts(arr, n) else ArrayInts(arr, n) + {n + 1}
    ensures n + 1 !in ArrayInts(arr, n)
  {
    if arr[n] != Nil { assert n + 1 in ArrayInts(arr, n + 1); }
    forall x | x in ArrayInts(arr, n) ensures x in ArrayInts(arr, n + 1) { assert arr[x - 1] != Nil; }
  }

  lemma ArrayIntsMember(arr: seq<Value>, n: nat, x: int)
    requires n <= |arr|
    ensures x in ArrayInts(arr, n) <==> 0 < x <= n && arr[x - 1] != Nil
  {
    if 0 < x <= n && arr[x - 1] != Nil { assert (x - 1) + 1 in ArrayInts(arr, n); }
  }

  /** The counting loop of one slice: the values with index `from'..lim. */
  method CountTo(arr: seq<Value>, from: nat, lim: nat) returns (i: nat, lc: nat)
    requires 0 < from <= lim + 1 && lim <= |arr|
    ensures i == lim + 1 && lc == |ArrayInts(arr, lim)| - |ArrayInts(arr, from - 1)|
  {
    i, lc := from, 0;
    while i <= lim
      invariant from <= i <= lim + 1 && lc == |ArrayInts(arr, i - 1)| - |ArrayInts(arr, from - 1)|
    {
      hide ArrayInts;
      ArrayIntsStep(arr, i - 1);
      if arr[i - 1] != Nil { lc := lc + 1; }
      i := i + 1;
    }
  }

  /** numusearray: the number of values in the array part, and how many fall in each slice. */
  method NumUseArray(arr: seq<Value>) returns (ause: nat, nums: seq<nat>)
    requires |arr| <= Pow2(MAXBITS)
    ensures ause == |ArrayInts(arr, |arr|)| && |nums| == MAXBITS + 1
    ensures forall b :: 0 <= b <= MAXBITS ==> nums[b] == |Slice(ArrayInts(arr, |arr|), b)|
  {
    nums := seq(MAXBITS + 1, _ => 0);
    ause := 0;
    var lg, ttlg, i := 0, 1, 1;
    ghost var all := ArrayInts(arr, |arr|);
    assert ArrayInts(arr, 0) == {};
    while lg <= MAXBITS
      invariant 0 <= lg <= MAXBITS + 1 && ttlg == Pow2(lg) && |nums| == MAXBITS + 1
      invariant i == 1 + if Below(lg) <= |arr| then Below(lg) else |arr|
      invariant ause == |ArrayInts(arr, i - 1)|
      invariant forall b :: 0 <= b <= MAXBITS ==> nums[b] == if b < lg then |Slice(all, b)| else 0
    {
      hide ArrayInts, Slice;
      var lim := ttlg;
      if lg > 0 { Pow2Monotone(lg - 1, lg); }
      if lim > |arr| {
        lim := |arr|;
        if i > lim { break; }
      }
      ghost var from := i;
      var lc;
      i, lc := CountTo(arr, i, lim);
      SliceOfArray(arr, from - 1, i - 1, lg);
      nums := nums[lg := nums[lg] + lc];
      ause := ause + lc;
      lg, ttlg := lg + 1, ttlg * 2;
    }
    forall b | lg <= b <= MAXBITS ensures |Slice(all, b)| == 0 { NoSlice(arr, lg, b); }
  }

  lemma NoSlice(arr: seq<Value>, lg: nat, b: nat)
    requires Below(lg) >= |arr| && lg <= b
    ensures Slice(ArrayInts(arr, |arr|), b) == {}
  {
    hide ArrayInts;
    if b > 0 && lg > 0 { Pow2Monotone(lg - 1, b - 1); }
    forall x ensures x !in Slice(ArrayInts(arr, |arr|), b) { ArrayIntsMember(arr, |arr|, x); }
  }

  /** What the inner loop counts is the slice. */
  lemma SliceOfArray(arr: seq<Value>, lo: nat, hi: nat, b: nat)
    requires lo <= hi <= |arr| && lo == Below(b) && (hi == Pow2(b) || (hi == |arr| && hi <= Pow2(b)))
    ensures |ArrayInts(arr, hi)| - |ArrayInts(arr, lo)| == |Slice(ArrayInts(arr, |arr|), b)|
  {
    hide ArrayInts;
    var sl := Slice(ArrayInts(arr, |arr|), b);
    forall x ensures x in ArrayInts(arr, hi) <==> x in ArrayInts(arr, lo) || x in sl {
      ArrayIntsMember(arr, hi, x);
      ArrayIntsMember(arr, lo, x);
      ArrayIntsMember(arr, |arr|, x);
    }
    forall x ensures !(x in ArrayInts(arr, lo) && x in sl) { ArrayIntsMember(arr, lo, x); }
    assert ArrayInts(arr, hi) == ArrayInts(arr, lo) + sl;
    assert ArrayInts(arr, lo) * sl == {};
  }

  predicate Countable(k: Key) {
    k.Int? && 0 < k.i <= Pow2(MAXBITS)
  }

  ghost predicate LiveNode(node: seq<Node>, i: int) {
    Keyed(node, i) && node[i].val != Nil
  }

  /** The nodes from `j' on that hold a value. */
  ghost function LiveNodes(node: seq<Node>, j: int): set<int> {
    set i | 0 <= i < |node| && j <= i && LiveNode(node, i)
  }

  /** The array-index keys among them. */
  ghost function NodeInts(node: seq<Node>, j: int): set<int> {
    set i | i in LiveNodes(node, j) && Countable(node[i].key.k) :: node[i].key.k.i
  }

  ghost predicate KeysOnce(node: seq<Node>) {
    && (forall i, j :: Keyed(node, i) && Keyed(node, j) && node[i].key == node[j].key ==> i == j)
    && (forall i :: 0 <= i < |node| && !Keyed(node, i) ==> node[i].val == Nil)
  }

  /** countint */
  method CountInt(k: Key, nums: seq<nat>) returns (c: nat, nums': seq<nat>)
    requires |nums| == MAXBITS + 1
    ensures |nums'| == MAXBITS + 1 && c == if Countable(k) then 1 else 0
    ensures forall b :: 0 <= b <= MAXBITS ==> nums'[b] == nums[b] + KeyInSlice(k, b)
  {
    hide Slice, Pow2, CeilLog2;
    if k.Int? && 0 < k.i <= Pow2(MAXBITS) {
      hide KeyInSlice;
      var b := CeilLog2(k.i);
      CeilLog2Bounds(k.i);
      if b > MAXBITS { Pow2Monotone(MAXBITS, b - 1); }
      forall c: nat ensures KeyInSlice(k, c) == if c == b then 1 else 0 { KeySlice(k, c); }
      nums' := nums[b := nums[b] + 1];
      c := 1;
    } else {
      nums' := nums;
      c := 0;
    }
  }

  lemma SliceAdd(s: set<int>, x: int, b: nat)
    requires x !in s
    ensures |Slice(s + {x}, b)| == |Slice(s, b)| + if x in Slice({x}, b) then 1 else 0
  {
    if x in Slice({x}, b) {
      assert Slice(s + {x}, b) == Slice(s, b) + {x};
    } else {
      assert Slice(s + {x}, b) == Slice(s, b);
    }
  }

  lemma NodeIntsStep(node: seq<Node>, j: nat)
    requires j < |node| && KeysOnce(node)
    ensures LiveNodes(node, j) == if node[j].val != Nil then LiveNodes(node, j + 1) + {j} else LiveNodes(node, j + 1)
    ensures j !in LiveNodes(node, j + 1)
    ensures node[j].val != Nil ==> Keyed(node, j)
    ensures NodeInts(node, j) ==
      if node[j].val != Nil && Countable(node[j].key.k) then NodeInts(node, j + 1) + {node[j].key.k.i} else NodeInts(node, j + 1)
    ensures node[j].val != Nil && Countable(node[j].key.k) ==> node[j].key.k.i !in NodeInts(node, j + 1)
  {
    var live := node[j].val != Nil;
    assert LiveNodes(node, j) == if live then LiveNodes(node, j + 1) + {j} else LiveNodes(node, j + 1);
    if live && Countable(node[j].key.k) {
      assert j in LiveNodes(node, j);
      forall x | x in NodeInts(node, j) ensures x in NodeInts(node, j + 1) + {node[j].key.k.i} { }
      forall x | x in NodeInts(node, j + 1) ensures x in NodeInts(node, j) { }
    } else {
      forall x | x in NodeInts(node, j) ensures x in NodeInts(node, j + 1) { }
      forall x | x in NodeInts(node, j + 1) ensures x in NodeInts(node, j) { }
    }
  }

  /** numusehash: the number of values in the node part, and its array-index keys added to the counts. */
  method NumUseHash(node: seq<Node>, nums: seq<nat>) returns (totaluse: nat, ause: nat, nums': seq<nat>)
    requires |nums| == MAXBITS + 1 && KeysOnce(node)
    ensures totaluse == |LiveNodes(node, 0)| && ause == |NodeInts(node, 0)| && |nums'| == MAXBITS + 1
    ensures forall b :: 0 <= b <= MAXBITS ==> nums'[b] == nums[b] + |Slice(NodeInts(node, 0), b)|
  {
    totaluse, ause, nums' := 0, 0, nums;
    var i := |node|;
    assert LiveNodes(node, i) == {} && NodeInts(node, i) == {};
    while i > 0
      invariant 0 <= i <= |node| && |nums'| == MAXBITS + 1
      invariant totaluse == |LiveNodes(node, i)| && ause == |NodeInts(node, i)|
      invariant forall b :: 0 <= b <= MAXBITS ==> nums'[b] == nums[b] + |Slice(NodeInts(node, i), b)|
    {
      hide LiveNodes, NodeInts, Slice, KeysOnce, Countable, KeyInSlice;
      i := i - 1;
      NodeIntsStep(node, i);
      forall b | 0 <= b <= MAXBITS
        ensures |Slice(NodeInts(node, i), b)| == |Slice(NodeInts(node, i + 1), b)| + InSlice(node[i], b)
      {
        NodeSliceStep(node, i, b);
      }
      if node[i].val != Nil {
        var c;
        c, nums' := CountInt(node[i].key.k, nums');
        ause := ause + c;
        totaluse := totaluse + 1;
      }
    }
  }

  /** 1 if the key is an index of slice `b'. */
  function KeyInSlice(k: Key, b: nat): nat {
    if Countable(k) && k.i in Slice({k.i}, b) then 1 else 0
  }

  lemma KeySlice(k: Key, b: nat)
    requires Countable(k)
    ensures KeyInSlice(k, b) == if b == CeilLog2(k.i) then 1 else 0
  {
    CeilLog2Slice(k.i, b);
  }

  /** 1 if the node holds a value under an index key of slice `b'. */
  function InSlice(n: Node, b: nat): nat {
    if n.val != Nil && n.key.HasKey? then KeyInSlice(n.key.k, b) else 0
  }

  lemma NodeSliceStep(node: seq<Node>, i: nat, b: nat)
    requires i < |node| && KeysOnce(node)
    ensures |Slice(NodeInts(node, i), b)| == |Slice(NodeInts(node, i + 1), b)| + InSlice(node[i], b)
  {
    hide LiveNodes, NodeInts, Slice;
    NodeIntsStep(node, i);
    if node[i].val != Nil && Countable(node[i].key.k) {
      SliceAdd(NodeInts(node, i + 1), node[i].key.k.i, b);
    }
  }
}
