/** Resizing the string table: every string moves to the bucket of its hash in a table of another size. */
module GcStrings {
  import opened GcHeap
  import opened GcMark
  import opened GcState

  function HashOf(h: Heap, x: Ref): nat { if x in h && h[x].Str? then h[x].hash else 0 }

  /** A string goes to the front of its new bucket. */
  function Push(h: Heap, table: seq<seq<Ref>>, x: Ref): (r: seq<seq<Ref>>)
    requires |table| > 0
    ensures |r| == |table|
  {
    var b := HashOf(h, x) % |table|;
    table[b := [x] + table[b]]
  }

  function PushAll(h: Heap, table: seq<seq<Ref>>, xs: seq<Ref>): (r: seq<seq<Ref>>)
    requires |table| > 0
    ensures |r| == |table|
    decreases |xs|
  {
    if xs == [] then table else PushAll(h, Push(h, table, xs[0]), xs[1..])
  }

  function Rehashed(h: Heap, table: seq<seq<Ref>>, buckets: seq<seq<Ref>>): (r: seq<seq<Ref>>)
    requires |table| > 0
    ensures |r| == |table|
    decreases |buckets|
  {
    if buckets == [] then table else Rehashed(h, PushAll(h, table, buckets[0]), buckets[1..])
  }

  function EmptyBuckets(size: nat): (r: seq<seq<Ref>>)
    ensures |r| == size && forall b :: 0 <= b < size ==> r[b] == []
  {
    seq(size, _ => [])
  }

  /** luaS_resize: nothing is done while the strings are swept. */
  function ResizeStrings(s: State, size: nat): State {
    if s.phase == SweepString || size == 0 then s
    else s.(strt := Rehashed(s.Heap(), EmptyBuckets(size), s.strt))
  }

  ghost predicate In(h: Heap, table: seq<seq<Ref>>, x: Ref)
    requires |table| > 0
  {
    x in table[HashOf(h, x) % |table|]
  }

  /** The strings of a list that can still be pushed. */
  ghost predicate Addable(h: Heap, table: seq<seq<Ref>>, xs: seq<Ref>)
    requires |table| > 0
  {
    NoDup(xs) && forall x :: x in xs ==> x in h && h[x].Str? && !In(h, table, x)
  }

  lemma PushOne(h: Heap, table: seq<seq<Ref>>, x: Ref)
    requires |table| > 0 && Buckets(h, table) && x in h && h[x].Str? && !In(h, table, x)
    ensures Buckets(h, Push(h, table, x))
    ensures forall y :: In(h, Push(h, table, x), y) <==> In(h, table, y) || y == x
  {
    var r, b := Push(h, table, x), HashOf(h, x) % |table|;
    forall c | 0 <= c < |r| ensures NoDup(r[c]) {
      assert NoDup(table[c]);
      if c == b { assert r[c] == [x] + table[c] && x !in table[c]; }
    }
    forall c, y | 0 <= c < |r| && y in r[c] ensures y in h && h[y].Str? && h[y].hash % |r| == c {
      assert y == x || y in table[c];
    }
  }

  lemma {:induction false} PushAllIn(h: Heap, table: seq<seq<Ref>>, xs: seq<Ref>)
    requires |table| > 0 && Buckets(h, table) && Addable(h, table, xs)
    ensures Buckets(h, PushAll(h, table, xs))
    ensures forall y :: In(h, PushAll(h, table, xs), y) <==> In(h, table, y) || y in xs
    decreases |xs|
  {
    hide Buckets, In, Push;
    if xs != [] {
      assert xs[0] in xs;
      PushOne(h, table, xs[0]);
      forall x | x in xs[1..] ensures x in xs && x != xs[0] { }
      PushAllIn(h, Push(h, table, xs[0]), xs[1..]);
    }
  }

  /** The buckets of a table share nothing. */
  ghost predicate Apart(h: Heap, buckets: seq<seq<Ref>>) {
    && (forall b :: 0 <= b < |buckets| ==> NoDup(buckets[b]))
    && (forall b, x :: 0 <= b < |buckets| && x in buckets[b] ==> x in h && h[x].Str?)
    && (forall b, c, x :: 0 <= b < c < |buckets| && x in buckets[b] ==> x !in buckets[c])
  }

  ghost predicate Among(buckets: seq<seq<Ref>>, x: Ref) {
    exists b :: 0 <= b < |buckets| && x in buckets[b]
  }

  lemma {:induction false} RehashedIn(h: Heap, table: seq<seq<Ref>>, buckets: seq<seq<Ref>>)
    requires |table| > 0 && Buckets(h, table) && Apart(h, buckets)
    requires forall x :: Among(buckets, x) ==> !In(h, table, x)
    ensures Buckets(h, Rehashed(h, table, buckets))
    ensures forall x :: In(h, Rehashed(h, table, buckets), x) <==> In(h, table, x) || Among(buckets, x)
    decreases |buckets|
  {
    hide Buckets, In, PushAll;
    if buckets != [] {
      var rest := buckets[1..];
      forall x ensures Among(buckets, x) <==> x in buckets[0] || Among(rest, x) { AmongFirst(buckets, x); }
      RestApart(h, buckets);
      PushAllIn(h, table, buckets[0]);
      RehashedIn(h, PushAll(h, table, buckets[0]), rest);
    }
  }

  lemma AmongFirst(buckets: seq<seq<Ref>>, x: Ref)
    requires buckets != []
    ensures Among(buckets, x) <==> x in buckets[0] || Among(buckets[1..], x)
  {
    if Among(buckets, x) {
      var b :| 0 <= b < |buckets| && x in buckets[b];
      if b > 0 { assert x in buckets[1..][b - 1]; }
    }
    if Among(buckets[1..], x) {
      var b :| 0 <= b < |buckets| - 1 && x in buckets[1..][b];
      assert x in buckets[b + 1];
    }
  }

  lemma RestApart(h: Heap, buckets: seq<seq<Ref>>)
    requires Apart(h, buckets) && buckets != []
    ensures Apart(h, buckets[1..]) && forall x :: x in buckets[0] ==> !Among(buckets[1..], x)
  {
    var rest := buckets[1..];
    forall x, b | x in buckets[0] && 0 <= b < |rest| ensures x !in rest[b] {
      assert rest[b] == buckets[b + 1];
    }
    assert forall b :: 0 <= b < |rest| ==> rest[b] == buckets[b + 1];
  }

  lemma BucketsApart(h: Heap, strt: seq<seq<Ref>>)
    requires Buckets(h, strt)
    ensures Apart(h, strt)
  {
    forall b, x | 0 <= b < |strt| && x in strt[b] ensures x in h && h[x].Str? && HashOf(h, x) % |strt| == b { }
    forall b, c, x | 0 <= b < c < |strt| && x in strt[b] ensures x !in strt[c] {
      assert HashOf(h, x) % |strt| == b;
    }
  }

  lemma BucketOf(h: Heap, strt: seq<seq<Ref>>, x: Ref)
    requires |strt| > 0 && Buckets(h, strt)
    ensures Among(strt, x) <==> In(h, strt, x)
  {
    if Among(strt, x) {
      var b :| 0 <= b < |strt| && x in strt[b];
      assert x in h && h[x].Str? && h[x].hash % |strt| == b;
    }
  }

  lemma EmptyTable(h: Heap, size: nat, x: Ref)
    requires size > 0
    ensures var t := EmptyBuckets(size); Buckets(h, t) && !In(h, t, x)
  {
  }

  /** The new table has the same strings, each in the bucket of its hash. */
  lemma ResizeBuckets(h: Heap, strt: seq<seq<Ref>>, size: nat)
    requires |strt| > 0 && Buckets(h, strt) && size > 0
    ensures var t := Rehashed(h, EmptyBuckets(size), strt);
      Buckets(h, t) && |t| == size && forall x :: In(h, t, x) <==> In(h, strt, x)
  {
    hide Buckets, In, Apart, Among;
    var e := EmptyBuckets(size);
    forall x ensures Among(strt, x) <==> In(h, strt, x) { BucketOf(h, strt, x); }
    forall x ensures !In(h, e, x) { EmptyTable(h, size, x); }
    BucketsApart(h, strt);
    EmptyTable(h, size, 0);
    RehashedIn(h, e, strt);
  }

  /** Resizing the string table keeps the invariant, in the middle of a cycle too. */
  lemma ResizeInv(s: State, size: nat)
    requires Inv(s)
    ensures Inv(ResizeStrings(s, size))
  {
    var s' := ResizeStrings(s, size);
    if s.phase != SweepString && size > 0 {
      hide StackOk, TopOk, RootList, OpenLists, Ring, Kinds, Anchors, Buckets, Lists, BlackOk, AliveClosed, Rehashed;
      HasBuckets(s);
      ResizeBuckets(s.Heap(), s.strt, size);
      ResizeListed(s, s');
      ResizeAnchors(s, s');
      ResizePhase(s, s');
    }
  }

  lemma HasBuckets(s: State)
    requires Inv(s)
    ensures |s.strt| > 0
  {
  }

  lemma ResizeListed(s: State, s': State)
    requires s' == s.(strt := s'.strt) && |s'.strt| > 0 && |s.strt| > 0
    requires forall x :: In(s.Heap(), s'.strt, x) <==> In(s.Heap(), s.strt, x)
    requires forall x :: x in s.Heap() ==> Listed(s.Heap(), x, s.rootgc, s.strt, s.open)
    ensures forall x :: x in s.Heap() ==> Listed(s.Heap(), x, s.rootgc, s'.strt, s.open)
  {
    forall x | x in s.Heap() ensures Listed(s.Heap(), x, s.rootgc, s'.strt, s.open) {
      assert Listed(s.Heap(), x, s.rootgc, s.strt, s.open);
      if s.Heap()[x].Str? { assert In(s.Heap(), s.strt, x) && In(s.Heap(), s'.strt, x); }
    }
  }

  lemma ResizeAnchors(s: State, s': State)
    requires s' == s.(strt := s'.strt)
    ensures Anchors(s) ==> Anchors(s')
    ensures AliveClosed(s) ==> AliveClosed(s')
  {
    hide Edge;
    assert forall x :: Alive(s', x) <==> Alive(s, x);
  }

  lemma ResizePhase(s: State, s': State)
    requires s' == s.(strt := s'.strt) && s.phase != SweepString && PhaseOk(s)
    ensures PhaseOk(s')
  {
    hide Lists, BlackOk;
    forall x | x in s.Heap() ensures IsCurrentWhite(s', x) == IsCurrentWhite(s, x) && Dead(s', x) == Dead(s, x) { }
    forall x | x in s.Heap() ensures Pending(s', x) == Pending(s, x) { }
  }
}
