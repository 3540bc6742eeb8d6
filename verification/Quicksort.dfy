/** table.sort: the in-place quicksort of the table library. Positions count from 0 here, from 1 in the
    source; the middle of a range is the same element either way. */
module Quicksort {

  // ----- orders -----

  /** What an order function must be: a strict weak order. */
  ghost predicate StrictWeak<T(!new)>(lt: (T, T) -> bool) {
    && (forall x :: !lt(x, x))
    && (forall x, y, z :: lt(x, y) && lt(y, z) ==> lt(x, z))
    && (forall x, y, z :: lt(x, z) ==> lt(x, y) || lt(y, z))
  }

  ghost predicate Sorted<T>(s: seq<T>, l: int, u: int, lt: (T, T) -> bool) {
    0 <= l <= u + 1 <= |s| && forall x, y :: l <= x <= y <= u ==> !lt(s[y], s[x])
  }

  // ----- permutations of a range -----

  /** The elements l..u are the same up to order, and nothing else changed. */
  ghost predicate Permuted<T>(s: seq<T>, t: seq<T>, l: int, u: int) {
    && |s| == |t| && 0 <= l <= u + 1 <= |s|
    && multiset(s[l..u + 1]) == multiset(t[l..u + 1])
    && (forall k :: 0 <= k < |s| && !(l <= k <= u) ==> t[k] == s[k])
  }

  lemma PermutedTrans<T>(s: seq<T>, t: seq<T>, r: seq<T>, l: int, u: int)
    requires Permuted(s, t, l, u) && Permuted(t, r, l, u)
    ensures Permuted(s, r, l, u)
  {
  }

  lemma PermutedWider<T>(s: seq<T>, t: seq<T>, l: int, u: int, l0: int, u0: int)
    requires Permuted(s, t, l, u) && 0 <= l0 <= l && u <= u0 < |s|
    ensures Permuted(s, t, l0, u0)
  {
    assert s[l0..u0 + 1] == s[l0..l] + s[l..u + 1] + s[u + 1..u0 + 1];
    assert t[l0..u0 + 1] == t[l0..l] + t[l..u + 1] + t[u + 1..u0 + 1];
    assert s[l0..l] == t[l0..l] && s[u + 1..u0 + 1] == t[u + 1..u0 + 1];
  }

  function Swapped<T>(s: seq<T>, i: int, j: int): seq<T>
    requires 0 <= i < |s| && 0 <= j < |s|
  {
    s[i := s[j]][j := s[i]]
  }

  lemma SwapPermutes<T>(s: seq<T>, i: int, j: int, l: int, u: int)
    requires 0 <= l <= i <= u < |s| && l <= j <= u
    ensures Permuted(s, Swapped(s, i, j), l, u)
  {
    var t := Swapped(s, i, j);
    assert t[l..u + 1] == s[l..u + 1][i - l := s[j]][j - l := s[i]];
  }

  /** An element of a permuted range is one of the range before. */
  lemma PermutedFrom<T>(s: seq<T>, t: seq<T>, l: int, u: int, k: int) returns (j: int)
    requires Permuted(s, t, l, u) && l <= k <= u
    ensures l <= j <= u && s[j] == t[k]
  {
    assert t[l..u + 1][k - l] == t[k];
    assert t[k] in multiset(t[l..u + 1]);
    assert t[k] in multiset(s[l..u + 1]);
    assert t[k] in s[l..u + 1];
    var x :| 0 <= x < |s[l..u + 1]| && s[l..u + 1][x] == t[k];
    j := l + x;
  }

  // ----- the parts of a range -----

  /** Elements outside l..u are in their final places among l0..u0. */
  ghost predicate Placed<T>(s: seq<T>, l0: int, u0: int, l: int, u: int, lt: (T, T) -> bool) {
    && 0 <= l0 <= l <= u + 1 <= u0 + 1 <= |s|
    && (forall x, y :: l0 <= x <= y <= u0 && (x < l || u < y) ==> !lt(s[y], s[x]))
  }

  /** Reordering what is not in place yet keeps the rest in place. */
  lemma PlacedPermuted<T(!new)>(s: seq<T>, t: seq<T>, l0: int, u0: int, l: int, u: int, lt: (T, T) -> bool)
    requires Placed(s, l0, u0, l, u, lt) && Permuted(s, t, l, u)
    ensures Placed(t, l0, u0, l, u, lt)
  {
    forall x, y | l0 <= x <= y <= u0 && (x < l || u < y) ensures !lt(t[y], t[x]) {
      if l <= x <= u {
        var x' := PermutedFrom(s, t, l, u, x);
      } else if l <= y <= u {
        var y' := PermutedFrom(s, t, l, u, y);
      }
    }
  }

  /** The element at `i' separates the smaller from the larger ones. */
  ghost predicate Split<T>(s: seq<T>, l: int, i: int, u: int, lt: (T, T) -> bool) {
    && 0 <= l <= i <= u < |s|
    && (forall k :: l <= k <= i ==> !lt(s[i], s[k]))
    && (forall k :: i <= k <= u ==> !lt(s[k], s[i]))
  }

  lemma NotLessTrans<T(!new)>(lt: (T, T) -> bool, x: T, y: T, z: T)
    requires StrictWeak(lt) && !lt(y, x) && !lt(z, y)
    ensures !lt(z, x)
  {
  }

  /** When one side of a split has been sorted, only the other side is left. */
  lemma LeftDone<T(!new)>(s: seq<T>, t: seq<T>, l0: int, u0: int, l: int, i: int, u: int, lt: (T, T) -> bool)
    requires StrictWeak(lt) && Placed(s, l0, u0, l, u, lt) && Split(s, l, i, u, lt)
    requires Permuted(s, t, l, i - 1) && Sorted(t, l, i - 1, lt)
    ensures Placed(t, l0, u0, i + 1, u, lt)
  {
    forall x, y | l0 <= x <= y <= u0 && (x < i + 1 || u < y) ensures !lt(t[y], t[x]) {
      if l <= x < i && l <= y < i {
      } else {
        var x', y' := x, y;
        if l <= x < i { x' := PermutedFrom(s, t, l, i - 1, x); }
        if l <= y < i { y' := PermutedFrom(s, t, l, i - 1, y); }
        SplitPair(s, l0, u0, l, i, u, lt, x', y');
      }
    }
  }

  lemma SplitPair<T(!new)>(s: seq<T>, l0: int, u0: int, l: int, i: int, u: int, lt: (T, T) -> bool, x: int, y: int)
    requires StrictWeak(lt) && Placed(s, l0, u0, l, u, lt) && Split(s, l, i, u, lt)
    requires l0 <= x <= u0 && l0 <= y <= u0 && (x < l || u < y || (x <= i <= y))
    requires x <= y
    ensures !lt(s[y], s[x])
  {
    if l <= x && y <= u { NotLessTrans(lt, s[x], s[i], s[y]); }
  }

  lemma RightDone<T(!new)>(s: seq<T>, t: seq<T>, l0: int, u0: int, l: int, i: int, u: int, lt: (T, T) -> bool)
    requires StrictWeak(lt) && Placed(s, l0, u0, l, u, lt) && Split(s, l, i, u, lt)
    requires Permuted(s, t, i + 1, u) && Sorted(t, i + 1, u, lt)
    ensures Placed(t, l0, u0, l, i - 1, lt)
  {
    forall x, y | l0 <= x <= y <= u0 && (x < l || i - 1 < y) ensures !lt(t[y], t[x]) {
      if i < x <= u && i < y <= u {
      } else {
        var x', y' := x, y;
        if i < x <= u { x' := PermutedFrom(s, t, i + 1, u, x); }
        if i < y <= u { y' := PermutedFrom(s, t, i + 1, u, y); }
        SplitPair(s, l0, u0, l, i, u, lt, x', y');
      }
    }
  }

  // ----- the algorithm -----

  /** set2 after two reads: exchange two elements. */
  method Swap<T>(a: array<T>, i: int, j: int)
    requires 0 <= i < a.Length && 0 <= j < a.Length
    modifies a
    ensures a[..] == Swapped(old(a[..]), i, j)
    ensures a[i] == old(a[j]) && a[j] == old(a[i]) && forall k :: 0 <= k < a.Length && k != i && k != j ==> a[k] == old(a[k])
  {
    a[i], a[j] := a[j], a[i];
  }

  /** The first, middle and last element are put in order. */
  method Median<T(!new)>(a: array<T>, l: int, u: int, lt: (T, T) -> bool) returns (i: int)
    requires StrictWeak(lt) && 0 <= l < u < a.Length
    modifies a
    ensures Permuted(old(a[..]), a[..], l, u) && !lt(a[u], a[l])
    ensures u - l > 1 ==> l < i < u && i == (l + u) / 2 && !lt(a[i], a[l]) && !lt(a[u], a[i])
  {
    hide Permuted, Swapped;
    ghost var s := a[..];
    i := (l + u) / 2;
    SwapPermutes(s, l, u, l, u);
    PermutedSelf(s, l, u);
    if lt(a[u], a[l]) { Swap(a, l, u); }
    if u - l == 1 { return; }
    ghost var t := a[..];
    if lt(a[i], a[l]) {
      SwapPermutes(t, i, l, l, u);
      Swap(a, i, l);
      PermutedTrans(s, t, a[..], l, u);
    } else if lt(a[u], a[i]) {
      SwapPermutes(t, i, u, l, u);
      Swap(a, i, u);
      PermutedTrans(s, t, a[..], l, u);
    }
  }

  lemma PermutedSelf<T>(s: seq<T>, l: int, u: int)
    requires 0 <= l <= u + 1 <= |s|
    ensures Permuted(s, s, l, u)
  {
  }

  /** a[l..i] <= P <= a[j..u], with the pivot at u - 1. */
  ghost predicate Around<T>(s: seq<T>, l: int, i: int, j: int, u: int, p: T, lt: (T, T) -> bool) {
    && 0 <= l <= i < u - 1 && l < j < u < |s| && s[u - 1] == p
    && (forall k :: l <= k <= i ==> !lt(p, s[k]))
    && (forall k :: j <= k <= u ==> !lt(s[k], p))
  }

  /** The scan upwards: it cannot pass the pivot. */
  method ScanUp<T(!new)>(a: array<T>, l: int, i0: int, u: int, p: T, lt: (T, T) -> bool) returns (i: int)
    requires StrictWeak(lt) && 0 <= l <= i0 < u - 1 && u < a.Length && a[u - 1] == p
    requires forall k :: l <= k <= i0 ==> !lt(p, a[k])
    ensures i0 < i <= u - 1 && !lt(a[i], p) && forall k :: l <= k < i ==> !lt(p, a[k])
  {
    i := i0 + 1;
    while lt(a[i], p)
      invariant i0 < i <= u - 1 && forall k :: l <= k < i ==> !lt(p, a[k])
      decreases u - i
    {
      i := i + 1;
    }
  }

  /** The scan downwards: it cannot pass the first element. */
  method ScanDown<T(!new)>(a: array<T>, l: int, j0: int, u: int, p: T, lt: (T, T) -> bool) returns (j: int)
    requires StrictWeak(lt) && 0 <= l < j0 <= u - 1 && u < a.Length && !lt(p, a[l])
    requires forall k :: j0 <= k <= u ==> !lt(a[k], p)
    ensures l <= j < j0 && !lt(p, a[j]) && forall k :: j < k <= u ==> !lt(a[k], p)
  {
    j := j0 - 1;
    while lt(p, a[j])
      invariant l <= j < j0 && forall k :: j < k <= u ==> !lt(a[k], p)
      decreases j
    {
      j := j - 1;
    }
  }

  /** What the two scans have found. */
  ghost predicate Scanned<T>(s: seq<T>, l: int, i: int, j: int, u: int, p: T, lt: (T, T) -> bool) {
    && 0 <= l < i <= u - 1 && l <= j < u - 1 && u < |s| && s[u - 1] == p
    && !lt(s[i], p) && (forall k :: l <= k < i ==> !lt(p, s[k]))
    && !lt(p, s[j]) && (forall k :: j < k <= u ==> !lt(s[k], p))
  }

  lemma SwapAround<T(!new)>(s: seq<T>, l: int, i: int, j: int, u: int, p: T, lt: (T, T) -> bool)
    requires StrictWeak(lt) && Scanned(s, l, i, j, u, p, lt) && i <= j
    ensures Around(Swapped(s, i, j), l, i, j, u, p, lt)
  {
  }

  lemma SwapSplit<T(!new)>(s: seq<T>, l: int, i: int, j: int, u: int, p: T, lt: (T, T) -> bool)
    requires StrictWeak(lt) && Scanned(s, l, i, j, u, p, lt) && j < i
    ensures Split(Swapped(s, u - 1, i), l, i, u, lt)
  {
  }

  /** The partition loop, with the pivot at u - 1; then the pivot goes between the parts. */
  method Partition<T(!new)>(a: array<T>, l: int, u: int, lt: (T, T) -> bool) returns (i: int)
    requires StrictWeak(lt) && 0 <= l && u < a.Length && u - l > 2
    requires !lt(a[u - 1], a[l]) && !lt(a[u], a[u - 1])
    modifies a
    ensures Permuted(old(a[..]), a[..], l, u) && l < i < u && Split(a[..], l, i, u, lt)
  {
    hide Permuted, Split;
    ghost var s := a[..];
    var p := a[u - 1];
    i := l;
    var j := u - 1;
    PermutedSelf(s, l, u);
    while true
      invariant i <= j && Permuted(s, a[..], l, u) && Around(a[..], l, i, j, u, p, lt)
      decreases j - i
    {
      ghost var t := a[..];
      i := ScanUp(a, l, i, u, p, lt);
      j := ScanDown(a, l, j, u, p, lt);
      assert Scanned(t, l, i, j, u, p, lt);
      if j < i { break; }
      Exchange(a, l, i, j, u, p, lt);
      PermutedTrans(s, t, a[..], l, u);
    }
    ghost var t := a[..];
    PlacePivot(a, l, i, j, u, p, lt);
    PermutedTrans(s, t, a[..], l, u);
  }

  /** Two elements on the wrong sides change places. */
  method Exchange<T(!new)>(a: array<T>, l: int, i: int, j: int, u: int, ghost p: T, lt: (T, T) -> bool)
    requires StrictWeak(lt) && Scanned(a[..], l, i, j, u, p, lt) && i <= j
    modifies a
    ensures Permuted(old(a[..]), a[..], l, u) && Around(a[..], l, i, j, u, p, lt)
  {
    hide StrictWeak, Around, Scanned, Permuted, Swapped;
    ScannedRange(a[..], l, i, j, u, p, lt);
    SwapPermutes(a[..], i, j, l, u);
    SwapAround(a[..], l, i, j, u, p, lt);
    Swap(a, i, j);
  }

  /** The pivot goes between the parts. */
  method PlacePivot<T(!new)>(a: array<T>, l: int, i: int, ghost j: int, u: int, ghost p: T, lt: (T, T) -> bool)
    requires StrictWeak(lt) && Scanned(a[..], l, i, j, u, p, lt) && j < i
    modifies a
    ensures Permuted(old(a[..]), a[..], l, u) && l < i < u && Split(a[..], l, i, u, lt)
  {
    hide StrictWeak, Split, Scanned, Permuted, Swapped;
    ScannedRange(a[..], l, i, j, u, p, lt);
    SwapPermutes(a[..], u - 1, i, l, u);
    SwapSplit(a[..], l, i, j, u, p, lt);
    Swap(a, u - 1, i);
  }

  lemma ScannedRange<T>(s: seq<T>, l: int, i: int, j: int, u: int, p: T, lt: (T, T) -> bool)
    requires Scanned(s, l, i, j, u, p, lt)
    ensures 0 <= l < i <= u - 1 && l <= j < u - 1 && u < |s|
  {
  }

  /** The work of one round before the recursive call: a range of two or three elements is sorted, a
      longer one is split. */
  method Arrange<T(!new)>(a: array<T>, l: int, u: int, lt: (T, T) -> bool) returns (i: int)
    requires StrictWeak(lt) && 0 <= l < u < a.Length
    modifies a
    ensures Permuted(old(a[..]), a[..], l, u)
    ensures u - l <= 2 ==> !lt(a[u], a[l]) && (u - l == 2 ==> !lt(a[l + 1], a[l]) && !lt(a[u], a[l + 1]))
    ensures u - l > 2 ==> l < i < u && Split(a[..], l, i, u, lt)
  {
    hide Permuted, Split, Swapped;
    ghost var s := a[..];
    i := Median(a, l, u, lt);
    if u - l <= 2 { return; }
    ghost var s1 := a[..];
    SwapPermutes(s1, i, u - 1, l, u);
    Swap(a, i, u - 1);
    ghost var s2 := a[..];
    PermutedTrans(s, s1, s2, l, u);
    i := Partition(a, l, u, lt);
    PermutedTrans(s, s2, a[..], l, u);
  }

  function Pow2(n: nat): (p: nat)
    ensures p > 0
  {
    if n == 0 then 1 else 2 * Pow2(n - 1)
  }

  /** auxsort. `depth' bounds how deep the calls nest: a range of fewer than 2^depth elements needs no
      more, because the smaller part is less than half of it. */
  method AuxSort<T(!new)>(a: array<T>, l0: int, u0: int, lt: (T, T) -> bool, ghost depth: nat)
    requires StrictWeak(lt) && 0 <= l0 <= u0 + 1 <= a.Length && u0 - l0 + 1 < Pow2(depth)
    modifies a
    ensures Sorted(a[..], l0, u0, lt) && Permuted(old(a[..]), a[..], l0, u0)
    decreases depth, 3
  {
    var l, u := l0, u0;
    ghost var s := a[..];
    PermutedSelf(s, l0, u0);
    while l < u
      invariant Placed(a[..], l0, u0, l, u, lt) && Permuted(s, a[..], l0, u0)
      decreases u - l
    {
      l, u := Round(a, l0, u0, l, u, lt, depth, s);
    }
  }

  /** One round of the loop of auxsort: the new range to go on with. */
  method Round<T(!new)>(a: array<T>, ghost l0: int, ghost u0: int, l: int, u: int, lt: (T, T) -> bool, ghost depth: nat, ghost s: seq<T>)
    returns (l': int, u': int)
    requires StrictWeak(lt) && l < u && u - l + 1 < Pow2(depth)
    requires Placed(a[..], l0, u0, l, u, lt) && Permuted(s, a[..], l0, u0)
    modifies a
    ensures |a[..]| == |old(a[..])| && Placed(a[..], l0, u0, l', u', lt) && Permuted(s, a[..], l0, u0)
    ensures u' - l' < u - l && l0 <= l' && u' <= u0
    decreases depth, 2
  {
    hide Placed, Permuted, Split, Sorted, StrictWeak;
    ghost var s0 := a[..];
    PlacedRange(s0, l0, u0, l, u, lt);
    var i := Arrange(a, l, u, lt);
    ghost var s3 := a[..];
    PlacedPermuted(s0, s3, l0, u0, l, u, lt);
    PermutedWider(s0, s3, l, u, l0, u0);
    PermutedTrans(s, s0, s3, l0, u0);
    if u - l <= 2 {
      ShortPlaced(s3, l0, u0, l, u, lt);
      return u, u;
    }
    if i - l < u - i {
      SortLeft(a, l0, u0, l, i, u, lt, depth);
      l', u' := i + 1, u;
    } else {
      SortRight(a, l0, u0, l, i, u, lt, depth);
      l', u' := l, i - 1;
    }
    PermutedTrans(s, s3, a[..], l0, u0);
  }

  /** The recursive call on the part before the pivot. */
  method SortLeft<T(!new)>(a: array<T>, ghost l0: int, ghost u0: int, l: int, i: int, ghost u: int, lt: (T, T) -> bool, ghost depth: nat)
    requires StrictWeak(lt) && Placed(a[..], l0, u0, l, u, lt) && Split(a[..], l, i, u, lt) && depth > 0 && i - l < Pow2(depth - 1)
    modifies a
    ensures Placed(a[..], l0, u0, i + 1, u, lt) && Permuted(old(a[..]), a[..], l0, u0)
    decreases depth, 1
  {
    hide Placed, Permuted, Split, Sorted, StrictWeak;
    ghost var s := a[..];
    PlacedRange(s, l0, u0, l, u, lt);
    SplitRange(s, l, i, u, lt);
    AuxSort(a, l, i - 1, lt, depth - 1);
    LeftDone(s, a[..], l0, u0, l, i, u, lt);
    PermutedWider(s, a[..], l, i - 1, l0, u0);
  }

  method SortRight<T(!new)>(a: array<T>, ghost l0: int, ghost u0: int, ghost l: int, i: int, u: int, lt: (T, T) -> bool, ghost depth: nat)
    requires StrictWeak(lt) && Placed(a[..], l0, u0, l, u, lt) && Split(a[..], l, i, u, lt) && depth > 0 && u - i < Pow2(depth - 1)
    modifies a
    ensures Placed(a[..], l0, u0, l, i - 1, lt) && Permuted(old(a[..]), a[..], l0, u0)
    decreases depth, 1
  {
    hide Placed, Permuted, Split, Sorted, StrictWeak;
    ghost var s := a[..];
    PlacedRange(s, l0, u0, l, u, lt);
    SplitRange(s, l, i, u, lt);
    AuxSort(a, i + 1, u, lt, depth - 1);
    RightDone(s, a[..], l0, u0, l, i, u, lt);
    PermutedWider(s, a[..], i + 1, u, l0, u0);
  }

  lemma SplitRange<T>(s: seq<T>, l: int, i: int, u: int, lt: (T, T) -> bool)
    requires Split(s, l, i, u, lt)
    ensures 0 <= l <= i <= u < |s|
  {
  }

  lemma PlacedRange<T>(s: seq<T>, l0: int, u0: int, l: int, u: int, lt: (T, T) -> bool)
    requires Placed(s, l0, u0, l, u, lt)
    ensures 0 <= l0 <= l <= u + 1 <= u0 + 1 <= |s|
  {
  }

  /** Two or three elements in order need no more sorting. */
  lemma ShortPlaced<T(!new)>(s: seq<T>, l0: int, u0: int, l: int, u: int, lt: (T, T) -> bool)
    requires StrictWeak(lt) && Placed(s, l0, u0, l, u, lt) && l < u <= l + 2 && !lt(s[u], s[l])
    requires u - l == 2 ==> !lt(s[l + 1], s[l]) && !lt(s[u], s[l + 1])
    ensures Placed(s, l0, u0, u, u, lt)
  {
  }

  lemma {:induction false} SizeBelow(n: nat)
    ensures n < Pow2(n)
  {
    if n > 0 { SizeBelow(n - 1); }
  }

  /** The bound on the nesting for an array of `n' elements, the base-2 logarithm rounded up. */
  ghost function Log2(n: nat): (d: nat)
    ensures n < Pow2(d)
    ensures n > 0 ==> d > 0 && Pow2(d - 1) <= n
  {
    if n == 0 then 0 else 1 + Log2(n / 2)
  }

  /** table.sort */
  method Sort<T(!new)>(a: array<T>, lt: (T, T) -> bool)
    requires StrictWeak(lt)
    modifies a
    ensures forall x, y :: 0 <= x <= y < a.Length ==> !lt(a[y], a[x])
    ensures multiset(a[..]) == multiset(old(a[..]))
  {
    ghost var s := a[..];
    AuxSort(a, 0, a.Length - 1, lt, Log2(a.Length));
    assert s[0..a.Length] == s && a[0..a.Length] == a[..];
  }

  /** Sorted permutations agree up to elements the order does not tell apart: the order fixes the
      result, whichever way it was reached. */
  lemma {:induction false} SortedUnique<T(!new)>(s: seq<T>, t: seq<T>, lt: (T, T) -> bool)
    requires StrictWeak(lt) && multiset(s) == multiset(t) && Sorted(s, 0, |s| - 1, lt) && Sorted(t, 0, |t| - 1, lt)
    ensures |s| == |t| && forall k :: 0 <= k < |s| ==> !lt(s[k], t[k]) && !lt(t[k], s[k])
    decreases |s|
  {
    assert |s| == |multiset(s)| && |t| == |multiset(t)|;
    if |s| > 0 {
      var n := |s| - 1;
      var x, y := s[n], t[n];
      assert x in multiset(t) && y in multiset(s);
      var i :| 0 <= i <= n && t[i] == x;
      var j :| 0 <= j <= n && s[j] == y;
      assert !lt(y, x) && !lt(x, y);
      RestSorted(s, t, i, lt);
      var s', t' := s[..n], t[i := y][..n];
      SortedUnique(s', t', lt);
      forall k | 0 <= k < n ensures !lt(s[k], t[k]) && !lt(t[k], s[k]) {
        assert s'[k] == s[k];
        if k == i { assert !lt(t[n], t[k]); assert t'[k] == y; } else { assert t'[k] == t[k]; }
      }
    }
  }

  lemma LastOff<T>(s: seq<T>)
    requires |s| > 0
    ensures multiset(s[..|s| - 1]) == multiset(s) - multiset{s[|s| - 1]}
  {
    var n := |s| - 1;
    assert s == s[..n] + [s[n]];
    assert multiset(s) == multiset(s[..n]) + multiset{s[n]};
  }

  /** Exchanging the last element for one it is not told apart from keeps a sequence sorted. */
  lemma RestSorted<T(!new)>(s: seq<T>, t: seq<T>, i: int, lt: (T, T) -> bool)
    requires StrictWeak(lt) && multiset(s) == multiset(t) && |s| == |t| > 0 && Sorted(s, 0, |s| - 1, lt) && Sorted(t, 0, |t| - 1, lt)
    requires 0 <= i < |t| && t[i] == s[|s| - 1] && !lt(t[|t| - 1], t[i]) && !lt(t[i], t[|t| - 1])
    ensures var n := |s| - 1; var s', t' := s[..n], t[i := t[n]][..n];
            multiset(s') == multiset(t') && Sorted(s', 0, n - 1, lt) && Sorted(t', 0, n - 1, lt)
  {
    RestMultiset(s, t, i);
    SwapSorted(t, i, lt);
  }

  lemma RestMultiset<T>(s: seq<T>, t: seq<T>, i: int)
    requires multiset(s) == multiset(t) && |s| == |t| > 0 && 0 <= i < |t| && t[i] == s[|s| - 1]
    ensures var n := |s| - 1; multiset(s[..n]) == multiset(t[i := t[n]][..n])
  {
    var n := |s| - 1;
    var t2 := Swapped(t, i, n);
    PrefixSwapped(t, i, n);
    SwapMultiset(t, i, n);
    hide Swapped;
    LastOff(s);
    LastOff(t2);
    Cancel(multiset(s[..n]), multiset(t2[..n]), s[n]);
  }

  lemma Cancel<T>(a: multiset<T>, b: multiset<T>, x: T)
    requires a + multiset{x} == b + multiset{x}
    ensures a == b
  {
    assert a == (a + multiset{x}) - multiset{x};
    assert b == (b + multiset{x}) - multiset{x};
  }

  lemma PrefixSwapped<T>(t: seq<T>, i: int, n: int)
    requires 0 <= i <= n == |t| - 1
    ensures var t2 := Swapped(t, i, n); t2[..n] == t[i := t[n]][..n] && t2[n] == t[i]
  {
  }

  lemma SwapMultiset<T>(t: seq<T>, i: int, n: int)
    requires 0 <= i <= n == |t| - 1
    ensures multiset(Swapped(t, i, n)) == multiset(t)
  {
    SwapPermutes(t, i, n, 0, n);
    assert t[0..n + 1] == t && Swapped(t, i, n)[0..n + 1] == Swapped(t, i, n);
  }

  lemma SwapSorted<T(!new)>(t: seq<T>, i: int, lt: (T, T) -> bool)
    requires StrictWeak(lt) && |t| > 0 && Sorted(t, 0, |t| - 1, lt) && 0 <= i < |t| && !lt(t[|t| - 1], t[i]) && !lt(t[i], t[|t| - 1])
    ensures var n := |t| - 1; Sorted(t[i := t[n]][..n], 0, n - 1, lt)
  {
    var n := |t| - 1;
    var t' := t[i := t[n]][..n];
    forall x, y | 0 <= x <= y <= n - 1 ensures !lt(t'[y], t'[x]) {
      assert !lt(t[y], t[x]) && !lt(t[n], t[x]) && !lt(t[n], t[y]);
      if x == i || y == i { NotLessTrans(lt, t[x], t[i], t[n]); NotLessTrans(lt, t[n], t[i], t[y]); }
    }
  }
}
