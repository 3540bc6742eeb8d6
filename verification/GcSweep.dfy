/** Freeing objects, the sweep, and closing upvalues; each keeps the invariant. */
module GcSweep {
  import opened GcHeap
  import opened GcMark
  import opened GcState

  /** A list without the members of `gone'. */
  function Keep(xs: seq<Ref>, gone: set<Ref>): (r: seq<Ref>) {
    if xs == [] then []
    else (if xs[0] in gone then [] else [xs[0]]) + Keep(xs[1..], gone)
  }

  lemma {:induction false} KeepMembers(xs: seq<Ref>, gone: set<Ref>)
    ensures forall x :: x in Keep(xs, gone) <==> x in xs && x !in gone
    ensures NoDup(xs) ==> NoDup(Keep(xs, gone))
  {
    if xs != [] {
      KeepMembers(xs[1..], gone);
      var t := Keep(xs[1..], gone);
      assert forall x :: x in xs <==> x == xs[0] || x in xs[1..];
      if NoDup(xs) {
        assert NoDup(xs[1..]) && xs[0] !in xs[1..];
        var k := Keep(xs, gone);
        if xs[0] in gone { assert k == t; } else { assert forall i :: 0 < i < |k| ==> k[i] == t[i - 1] && k[i] in t; }
      }
    }
  }

  lemma {:induction false} KeepAppend(a: seq<Ref>, b: seq<Ref>, gone: set<Ref>)
    ensures Keep(a + b, gone) == Keep(a, gone) + Keep(b, gone)
  {
    if a == [] {
      assert a + b == b;
    } else {
      assert (a + b)[1..] == a[1..] + b;
      KeepAppend(a[1..], b, gone);
    }
  }

  lemma {:induction false} KeepAllOf(a: seq<Ref>, gone: set<Ref>)
    requires forall x :: x in a ==> x !in gone
    ensures Keep(a, gone) == a
  {
    if a != [] {
      assert a[0] in a && forall x :: x in a[1..] ==> x in a;
      KeepAllOf(a[1..], gone);
    }
  }

  lemma {:induction false} KeepDescending(h: Heap, xs: seq<Ref>, gone: set<Ref>)
    requires Descending(h, xs)
    ensures Descending(h, Keep(xs, gone))
  {
    if xs != [] {
      var t := Keep(xs[1..], gone);
      assert Descending(h, xs[1..]);
      KeepDescending(h, xs[1..], gone);
      KeepMembers(xs[1..], gone);
      var k := Keep(xs, gone);
      if xs[0] in gone {
        assert k == t;
      } else {
        assert forall i :: 0 < i < |k| ==> k[i] == t[i - 1] && k[i] in xs[1..];
        forall j | 0 < j < |k| ensures h[k[0]].idx > h[k[j]].idx {
          assert k[j] in xs[1..];
          var i :| 0 <= i < |xs[1..]| && xs[1..][i] == k[j];
          assert xs[i + 1] == k[j];
        }
      }
    }
  }

  function KeepEach(strt: seq<seq<Ref>>, gone: set<Ref>): (r: seq<seq<Ref>>)
    ensures |r| == |strt|
  {
    seq(|strt|, b requires 0 <= b < |strt| => Keep(strt[b], gone))
  }

  /** Free the objects of `gone' and take them out of every list. */
  function Drop(s: State, gone: set<Ref>): State
  {
    s.(mk := s.mk.(heap := s.Heap() - gone, color := s.Color() - gone),
       rootgc := Keep(s.rootgc, gone),
       strt := KeepEach(s.strt, gone),
       open := map th | th in s.open && th !in gone :: Keep(s.open[th], gone),
       uvhead := Keep(s.uvhead, gone))
  }

  /** What may be freed: dead objects that are not fixed, a thread only after its upvalues. */
  ghost predicate Disposable(s: State, gone: set<Ref>) {
    && (forall x :: x in gone ==> x in s.Heap() && Dead(s, x) && x !in s.fixed)
    && (forall x, u :: x in gone && x in s.open && u in s.open[x] ==> u in gone)
  }

  lemma DropStacks(s: State, gone: set<Ref>)
    requires Shape(s) && Disposable(s, gone)
    ensures var s' := Drop(s, gone); StackOk(s'.Heap()) && TopOk(s'.Heap())
  {
    hide RootList, Buckets, Ring, Kinds, Keep, Descending, Anchors;
    var s' := Drop(s, gone);
    forall x | x in s'.Heap() && s'.Heap()[x].Open? ensures s'.Heap()[x].th in s'.Heap() {
      assert Listed(s.Heap(), x, s.rootgc, s.strt, s.open);
    }
  }

  lemma DropFields(s: State, gone: set<Ref>)
    requires Shape(s) && Disposable(s, gone)
    ensures var s' := Drop(s, gone);
      forall x :: x in s'.Heap() ==> Fields(s'.Heap(), s'.Heap()[x]) == Fields(s.Heap(), s.Heap()[x])
  {
    hide RootList, Buckets, Ring, Kinds, Keep, Descending, OpenLists, Listed, Anchors;
    var s' := Drop(s, gone);
    DropStacks(s, gone);
    forall x | x in s'.Heap() ensures Fields(s'.Heap(), s'.Heap()[x]) == Fields(s.Heap(), s.Heap()[x]) {
      if s.Heap()[x].Open? { assert s'.Heap()[x].th in s'.Heap(); }
    }
  }

  lemma DropBuckets(h: Heap, strt: seq<seq<Ref>>, gone: set<Ref>)
    requires Buckets(h, strt)
    ensures Buckets(h - gone, KeepEach(strt, gone))
  {
    forall b | 0 <= b < |strt| ensures var k := Keep(strt[b], gone); NoDup(k) && forall x :: x in k ==> x in strt[b] && x !in gone {
      KeepMembers(strt[b], gone);
    }
  }

  lemma DropLists(s: State, gone: set<Ref>)
    requires Shape(s) && Disposable(s, gone)
    ensures var s' := Drop(s, gone); RootList(s'.Heap(), s'.rootgc) && Buckets(s'.Heap(), s'.strt) && Ring(s'.Heap(), s'.uvhead)
  {
    hide Buckets, Kinds, Keep, Descending, OpenLists, Listed, Anchors, StackOk, TopOk;
    KeepMembers(s.rootgc, gone);
    KeepMembers(s.uvhead, gone);
    DropBuckets(s.Heap(), s.strt, gone);
  }

  lemma DropOpen(s: State, gone: set<Ref>)
    requires Shape(s) && Disposable(s, gone)
    ensures OpenLists(Drop(s, gone).Heap(), Drop(s, gone).open)
  {
    hide RootList, Buckets, Kinds, Keep, Listed, Anchors, StackOk, TopOk, Ring;
    var s' := Drop(s, gone);
    var h' := s'.Heap();
    forall th | th in s'.open
      ensures Descending(h', s'.open[th]) && forall x :: x in s'.open[th] ==> x in h' && h'[x].Open? && h'[x].th == th
    {
      KeepMembers(s.open[th], gone);
      KeepDescending(s.Heap(), s.open[th], gone);
      assert forall x :: x in s'.open[th] ==> x in s.open[th] && x in h' && h'[x] == s.Heap()[x];
      DescendingIn(s.Heap(), h', s'.open[th]);
    }
  }

  lemma DescendingIn(h: Heap, h': Heap, xs: seq<Ref>)
    requires Descending(h, xs) && forall x :: x in xs ==> x in h' && h'[x] == h[x]
    ensures Descending(h', xs)
  {
    assert forall i :: 0 <= i < |xs| ==> xs[i] in xs;
  }

  lemma DropListed(s: State, gone: set<Ref>)
    requires Shape(s) && Disposable(s, gone)
    ensures var s' := Drop(s, gone); forall x :: x in s'.Heap() ==> Listed(s'.Heap(), x, s'.rootgc, s'.strt, s'.open)
  {
    var s' := Drop(s, gone);
    forall x | x in s'.Heap() ensures Listed(s'.Heap(), x, s'.rootgc, s'.strt, s'.open) {
      assert Listed(s.Heap(), x, s.rootgc, s.strt, s.open);
      KeepMembers(s.rootgc, gone);
      match s.Heap()[x]
      case Str(hash) => KeepMembers(s.strt[hash % |s.strt|], gone);
      case Open(th, _) => KeepMembers(s.open[th], gone);
      case _ =>
    }
  }

  lemma DropAlive(s: State, gone: set<Ref>)
    requires Shape(s) && AliveClosed(s) && Disposable(s, gone)
    ensures AliveClosed(Drop(s, gone)) && Anchors(Drop(s, gone))
  {
    hide StackOk, TopOk, Kinds, RootList, Buckets, OpenLists, Ring, Listed;
    var s' := Drop(s, gone);
    DropFields(s, gone);
    forall x, y | Alive(s', x) && Edge(s'.Heap(), x, y) ensures Alive(s', y) {
      assert Alive(s, x) && Edge(s.Heap(), x, y);
      assert Alive(s, y);
    }
    forall x | x in Roots(s') ensures Alive(s', x) { assert Alive(s, x); }
    assert Alive(s, s.main) && Alive(s, s.running);
  }

  /** The part of the list the sweep has passed holds no dead object. */
  lemma PassedNotDead(s: State, gone: set<Ref>)
    requires Shape(s) && PhaseOk(s) && Disposable(s, gone) && s.phase == Sweep
    ensures Keep(s.rootgc[..s.sweepgc], gone) == s.rootgc[..s.sweepgc]
  {
    hide StackOk, TopOk, Kinds, Buckets, Ring, Descending, Keep;
    Halves(s.rootgc, s.sweepgc);
    forall x | x in s.rootgc[..s.sweepgc] ensures x !in gone {
      assert x in s.rootgc && !Pending(s, x);
    }
    KeepAllOf(s.rootgc[..s.sweepgc], gone);
  }

  lemma Halves(xs: seq<Ref>, n: nat)
    requires NoDup(xs) && n <= |xs|
    ensures forall x :: x in xs[..n] ==> x in xs && x !in xs[n..]
  {
  }

  lemma DropRootgc(s: State, gone: set<Ref>)
    requires Shape(s) && PhaseOk(s) && Disposable(s, gone) && s.phase == Sweep
    ensures s.sweepgc <= |Drop(s, gone).rootgc|
    ensures Drop(s, gone).rootgc[..s.sweepgc] == s.rootgc[..s.sweepgc]
    ensures Drop(s, gone).rootgc[s.sweepgc..] == Keep(s.rootgc[s.sweepgc..], gone)
  {
    hide StackOk, TopOk, Kinds, Buckets, Ring, Descending, Keep, OpenLists, RootList, Listed, Anchors, Disposable;
    var n := s.sweepgc;
    PassedNotDead(s, gone);
    KeepAppend(s.rootgc[..n], s.rootgc[n..], gone);
    assert s.rootgc == s.rootgc[..n] + s.rootgc[n..];
  }

  lemma DropPhase(s: State, gone: set<Ref>)
    requires Shape(s) && PhaseOk(s) && Disposable(s, gone) && (s.phase == Sweep || s.phase == SweepString)
    ensures PhaseOk(Drop(s, gone))
  {
    hide StackOk, TopOk, Kinds, Buckets, Ring, Descending, Keep, RootList, Anchors, OpenLists, Listed, Pending, KeepEach;
    var s' := Drop(s, gone);
    if s.phase == Sweep { DropRootgc(s, gone); }
    assert s'.phase == s.phase && |s'.strt| == |s.strt|;
    forall x | x in s'.Heap() ensures IsCurrentWhite(s', x) || Pending(s', x) {
      assert IsCurrentWhite(s, x) || Pending(s, x);
      if Pending(s, x) { DropPending(s, gone, x); }
    }
  }

  lemma DropPending(s: State, gone: set<Ref>, x: Ref)
    requires Shape(s) && PhaseOk(s) && Disposable(s, gone) && (s.phase == Sweep || s.phase == SweepString)
    requires x in s.Heap() && x !in gone && Pending(s, x)
    ensures Pending(Drop(s, gone), x)
  {
    hide StackOk, TopOk, Kinds, Buckets, Ring, Descending, Keep, RootList, Anchors;
    assert Listed(s.Heap(), x, s.rootgc, s.strt, s.open);
    KeepMembers(s.rootgc, gone);
    if s.phase == Sweep {
      DropRootgc(s, gone);
      KeepMembers(s.rootgc[s.sweepgc..], gone);
    } else {
      assert s.rootgc[0..] == s.rootgc && Drop(s, gone).rootgc[0..] == Drop(s, gone).rootgc;
    }
  }

  lemma DropKinds(s: State, gone: set<Ref>)
    requires Shape(s)
    ensures Kinds(Drop(s, gone).Heap(), Drop(s, gone).Color()) && Drop(s, gone).Color().Keys == Drop(s, gone).Heap().Keys
  {
    hide StackOk, TopOk, Buckets, Ring, Descending, Keep, RootList, Anchors, OpenLists, Listed;
  }

  lemma DropInv(s: State, gone: set<Ref>)
    requires Inv(s) && Disposable(s, gone)
    ensures Inv(Drop(s, gone))
  {
    hide StackOk, TopOk, Kinds, RootList, Buckets, OpenLists, Ring, Listed, AliveClosed;
    DropStacks(s, gone);
    DropKinds(s, gone);
    DropLists(s, gone);
    DropOpen(s, gone);
    DropListed(s, gone);
    DropAlive(s, gone);
    if s.phase == Sweep || s.phase == SweepString {
      DropPhase(s, gone);
    } else {
      NoneDead(s, gone);
    }
  }

  lemma NoneDead(s: State, gone: set<Ref>)
    requires Inv(s) && Disposable(s, gone) && s.phase != Sweep && s.phase != SweepString
    ensures Drop(s, gone) == s
  {
    hide StackOk, TopOk, Kinds, RootList, Buckets, OpenLists, Ring, Listed, AliveClosed;
    assert forall x :: x in s.Heap() ==> !Dead(s, x);
    assert forall x :: x !in gone;
    KeepAllOf(s.rootgc, gone);
    KeepAllOf(s.uvhead, gone);
    forall b | 0 <= b < |s.strt| ensures Keep(s.strt[b], gone) == s.strt[b] { KeepAllOf(s.strt[b], gone); }
    forall th | th in s.open ensures Keep(s.open[th], gone) == s.open[th] { KeepAllOf(s.open[th], gone); }
    assert Drop(s, gone).strt == s.strt && Drop(s, gone).open == s.open;
    assert s.Heap() - gone == s.Heap() && s.Color() - gone == s.Color();
  }

  // ----- sweeping a whole list -----

  /** makewhite on every member of a list. */
  function Whiten(s: State, xs: seq<Ref>): State {
    s.(mk := s.mk.(color := map x | x in s.Color() :: if x in xs then White(s.white) else s.Color()[x]))
  }

  predicate Doomed(s: State, x: Ref) {
    Dead(s, x) && x !in s.fixed
  }

  function DoomedOf(s: State, xs: seq<Ref>): set<Ref> {
    set x | x in xs && Doomed(s, x)
  }

  /** sweepwholelist: the dead members are freed, the others become current white. */
  function SweepWhole(s: State, xs: seq<Ref>): State {
    Whiten(Drop(s, DoomedOf(s, xs)), xs)
  }

  lemma WhitenShape(s: State, xs: seq<Ref>)
    requires Shape(s)
    ensures Shape(Whiten(s, xs))
  {
    hide RootList, Buckets, OpenLists, Ring, Listed, StackOk, TopOk;
  }

  lemma FixedLeaf(s: State, x: Ref)
    requires Shape(s) && AliveClosed(s) && x in s.fixed && Dead(s, x)
    ensures forall y :: !Edge(s.Heap(), x, y)
  {
    assert Alive(s, s.main);
  }

  /** Turning swept objects white keeps the invariant: those that were not dead stay so, and a dead
      one that is not freed is a fixed string, which refers to nothing. */
  lemma WhitenInv(s: State, xs: seq<Ref>)
    requires Inv(s) && (s.phase == Sweep || s.phase == SweepString)
    requires forall x :: x in xs && Dead(s, x) ==> x in s.fixed
    ensures Inv(Whiten(s, xs))
  {
    hide RootList, Buckets, OpenLists, Ring, Listed, StackOk, TopOk, Kinds;
    var s' := Whiten(s, xs);
    WhitenShape(s, xs);
    forall x, y | Alive(s', x) && Edge(s'.Heap(), x, y) ensures Alive(s', y) {
      if Dead(s, x) { FixedLeaf(s, x); } else { assert Alive(s, x) && Edge(s.Heap(), x, y); assert Alive(s, y); }
    }
    forall x | x in Roots(s') ensures Alive(s', x) { assert Alive(s, x); }
  }

  /** The members of one open list, or of one bucket of the string table. */
  ghost predicate WholeList(s: State, xs: seq<Ref>) {
    forall x :: x in xs ==> x in s.Heap() && !s.Heap()[x].Thread?
  }

  lemma SweepWholeInv(s: State, xs: seq<Ref>)
    requires Inv(s) && (s.phase == Sweep || s.phase == SweepString) && WholeList(s, xs)
    ensures Disposable(s, DoomedOf(s, xs)) && Inv(Drop(s, DoomedOf(s, xs))) && Inv(SweepWhole(s, xs))
    ensures forall x :: x in xs && x in SweepWhole(s, xs).Heap() ==> IsCurrentWhite(SweepWhole(s, xs), x)
  {
    hide RootList, Buckets, Ring, Listed, StackOk, TopOk, Kinds, AliveClosed, PhaseOk, Keep;
    var gone := DoomedOf(s, xs);
    DropInv(s, gone);
    WhitenInv(Drop(s, gone), xs);
  }
}
