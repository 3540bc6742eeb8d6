/** luaC_fullgc: a full collection leaves exactly what can be reached, and the fixed objects. */
module GcFull {
  import opened GcHeap
  import opened GcMark
  import opened GcState
  import opened GcCycle
  import opened GcSweep
  import opened GcStep
  import opened GcCollect

  function Rank(p: Phase): nat {
    match p
    case Propagating => 4
    case SweepString => 3
    case Sweep => 2
    case Finalize => 1
    case Pause => 0
  }

  function Work(s: State): int {
    match s.phase
    case Propagating => |s.mk.gray|
    case SweepString => |s.strt| - s.sweepstr
    case Sweep => Left(s)
    case _ => 0
  }

  function Shaded(s: State): set<Ref> {
    if s.phase == Propagating then Whites(s.Color()) else {}
  }

  lemma StepTerminates(s: State)
    requires Inv(s) && s.phase != Pause
    ensures var s' := SingleStep(s);
      && Rank(s'.phase) <= Rank(s.phase) && Rank(s.phase) - 1 <= Rank(s'.phase)
      && (s'.phase == s.phase ==>
            Shaded(s') < Shaded(s) || (Shaded(s') == Shaded(s) && 0 <= Work(s') < Work(s)))
  {
    hide Links, AliveClosed, Kinds, Fields, Propagate, SweepWhole, Left, PropagateAll;
    match s.phase
    case Propagating => InvTri(s); if s.mk.gray != [] { PropagateSane(s.mk); }
    case SweepString => SweepWholeSame(s, s.strt[s.sweepstr]);
    case Sweep =>
      SweepChunkInv(s, GCSWEEPMAX);
      SweepPhaseInv(s);
      LeftNat(SingleStep(s));
    case Finalize =>
  }

  lemma LeftNat(s: State)
    requires Inv(s)
    ensures s.phase == Sweep ==> Left(s) >= 0
  {
  }

  /** One turn of the loops of luaC_fullgc. */
  lemma RunToStep(s: State, stop: Phase)
    requires Inv(s) && s.phase != stop && (stop == Pause || (stop == Finalize && s.phase != Pause))
    ensures var s' := SingleStep(s);
      && Inv(s') && (stop == Finalize ==> s'.phase != Pause)
      && (Rank(s'.phase) < Rank(s.phase) ||
          (s'.phase == s.phase && (Shaded(s') < Shaded(s) || (Shaded(s') == Shaded(s) && 0 <= Work(s') < Work(s)))))
  {
    hide Inv, SingleStep, Shaded, Work;
    SingleStepSafe(s);
    StepTerminates(s);
  }

  /** The loops of luaC_fullgc: single steps until the collector reaches a phase. */
  function RunTo(s: State, stop: Phase): (s': State)
    requires Inv(s) && (stop == Pause || (stop == Finalize && s.phase != Pause))
    ensures Inv(s') && s'.phase == stop
    decreases Rank(s.phase), Shaded(s), Work(s)
  {
    if s.phase == stop then s else
      RunToStep(s, stop);
      RunTo(SingleStep(s), stop)
  }

  /** The sweep of a cycle cut short: everything is swept, nothing is dead. */
  function ResetSweep(s: State): State {
    if s.phase == Pause || s.phase == Propagating
    then s.(sweepstr := 0, sweepgc := 0, mk := s.mk.(gray := [], again := []), phase := SweepString)
    else s
  }

  lemma ResetSweepInv(s: State)
    requires Inv(s)
    ensures Inv(ResetSweep(s)) && Preserves(s, ResetSweep(s)) && ResetSweep(s).phase != Pause && ResetSweep(s).phase != Propagating
  {
    hide AliveClosed, Kinds, Fields, StackOk, TopOk, RootList, Buckets, OpenLists, Ring, Listed, Preserves;
    var s' := ResetSweep(s);
    SameRefsRefl(s.Heap());
    SameRefsPreserves(s, s');
    if s' != s {
      AliveTransfer(s, s');
      AllPending(s');
    }
  }

  /** luaC_fullgc */
  function FullGC(s: State): State
    requires Inv(s)
  {
    ResetSweepInv(s);
    var s1 := RunTo(ResetSweep(s), Finalize);
    MarkRootInv(s1);
    RunTo(MarkRoot(s1), Pause)
  }

  lemma PreservesTrans(a: State, b: State, c: State)
    requires Preserves(a, b) && Preserves(b, c)
    ensures Preserves(a, c)
  {
    hide Fields;
  }

  lemma {:induction false} RunToPreserves(s: State, stop: Phase)
    requires Inv(s) && (stop == Pause || (stop == Finalize && s.phase != Pause))
    ensures Preserves(s, RunTo(s, stop))
    decreases Rank(s.phase), Shaded(s), Work(s)
  {
    hide Inv, Preserves, SingleStep, Shaded, Work;
    if s.phase == stop {
      PreservesRefl(s);
    } else {
      SingleStepSafe(s);
      StepTerminates(s);
      RunToPreserves(SingleStep(s), stop);
      PreservesTrans(s, SingleStep(s), RunTo(SingleStep(s), stop));
    }
  }

  lemma PreservesRefl(s: State)
    requires Inv(s)
    ensures Preserves(s, s)
  {
    hide Links, AliveClosed, Kinds, Fields, PhaseOk;
    SameRefsRefl(s.Heap());
    SameRefsPreserves(s, s);
  }

  // ----- nothing else survives -----

  /** The collector keeps nothing outside `X' alive: while marking, only members of `X' are marked;
      afterwards only they and the fixed objects are not dead. */
  ghost predicate Confined(s: State, X: set<Ref>) {
    if s.phase == Propagating then
      Within(s.Color(), X) && ClosedSet(s.Heap(), X) && Roots(s) <= X
    else
      forall x :: Alive(s, x) ==> x in X || x in s.fixed
  }

  lemma SameRefsClosed(h: Heap, h': Heap, X: set<Ref>)
    requires SameRefs(h, h') && ClosedSet(h, X)
    ensures ClosedSet(h', X)
  {
    forall x, y | x in X && Edge(h', x, y) ensures y in X { assert Edge(h, x, y); }
  }

  lemma {:induction false} RemarkWithin(h: Heap, m: Marks, uvs: seq<Ref>, X: set<Ref>)
    requires m.color.Keys == h.Keys && ClosedSet(h, X) && Within(m.color, X)
    requires forall x :: x in uvs ==> x in h && h[x].Open?
    ensures Within(RemarkUpvals(h, m, uvs).color, X)
    decreases |uvs|
  {
    if uvs != [] {
      assert uvs[0] in uvs && forall x :: x in uvs[1..] ==> x in uvs;
      var u := h[uvs[0]];
      var v := Slot(h, u.th, u.idx);
      if m.color[uvs[0]] == Gray {
        assert Marked(m.color, uvs[0]);
        assert v in Fields(h, u);
        assert v.Gc? ==> Edge(h, uvs[0], v.r);
        MarkValueWithin(h, m, v, X);
        RemarkWithin(h, MarkValue(h, m, v), uvs[1..], X);
      } else {
        RemarkWithin(h, m, uvs[1..], X);
      }
    }
  }

  lemma AtomicWithin(s: State, X: set<Ref>)
    requires Shape(s) && Tri(s.mk)
    requires Within(s.Color(), X) && ClosedSet(s.Heap(), X) && Roots(s) <= X
    ensures Within(AtomicMarks(s).color, X)
  {
    hide Kinds, Lists, BlackOk, GrayOk, StackOk, TopOk, RootList, Buckets, OpenLists, Listed, SameRefs, ClosedSet, Within, Tri, Sane;
    RemarkWithin(s.Heap(), Marks(s.Color(), s.mk.gray), s.uvhead, X);
    var k1 := Remarked(s);
    RemarkedOk(s);
    PropagateAllTri(k1, {});
    PropagateAllWithin(k1, X);
    var k2 := PropagateAll(k1);
    SameRefsClosed(s.Heap(), k2.heap, X);
    var vs := [Gc(s.running)] + s.mt;
    RootsWithin(s, vs, X);
    MarkMoreOk(k2, vs, {});
    SaneKeys(k2);
    MarkAllWithin(k2.heap, Marks(k2.color, k2.gray), vs, X);
    var k3 := MarkMore(k2, vs);
    PropagateAllTri(k3, {});
    PropagateAllWithin(k3, X);
    AtomicRootsOk(s);
    var k4 := AtomicRoots(s);
    SameRefsClosed(s.Heap(), k4.heap, X);
    TakeAgain(k4);
    PropagateAllWithin(k4.(gray := k4.again, again := []), X);
  }

  lemma SaneKeys(k: Mk)
    requires Sane(k)
    ensures k.color.Keys == k.heap.Keys
  {
  }

  lemma RootsWithin(s: State, vs: seq<Value>, X: set<Ref>)
    requires Roots(s) <= X && vs == [Gc(s.running)] + s.mt
    ensures forall v :: v in vs && v.Gc? ==> v.r in X
  {
    forall v | v in vs && v.Gc? ensures v.r in X {
      if v in s.mt { assert v.r in RefsOf(s.mt); }
    }
  }

  lemma StepConfined(s: State, X: set<Ref>)
    requires Inv(s) && s.phase != Pause && Confined(s, X)
    ensures Confined(SingleStep(s), X)
  {
    hide Links, AliveClosed, Kinds, Fields, PropagateAll, Propagate, SweepWhole, SweepChunk, AtomicMarks;
    match s.phase
    case Propagating =>
      InvTri(s);
      if s.mk.gray != [] {
        PropagateInv(s);
        PropagateWithin(s.mk, X);
      } else {
        AtomicWithin(s, X);
        AtomicDead(s);
      }
    case SweepString => SweepStringInv(s); SweepWholeSame(s, s.strt[s.sweepstr]);
    case Sweep => SweepPhaseInv(s); SweepChunkInv(s, GCSWEEPMAX);
    case Finalize =>
  }

  lemma {:induction false} RunToConfined(s: State, X: set<Ref>)
    requires Inv(s) && Confined(s, X)
    ensures Confined(RunTo(s, Pause), X)
    decreases Rank(s.phase), Shaded(s), Work(s)
  {
    hide Inv, Confined, SingleStep, Shaded, Work;
    if s.phase != Pause {
      SingleStepSafe(s);
      StepTerminates(s);
      StepConfined(s, X);
      RunToConfined(SingleStep(s), X);
    }
  }

  lemma MarkRootConfined(s: State, X: set<Ref>)
    requires Inv(s) && s.phase == Finalize && ClosedSet(s.Heap(), X) && Roots(s) <= X
    ensures Confined(MarkRoot(s), X)
  {
    hide StackOk, TopOk, Kinds, RootList, Buckets, OpenLists, Ring, Listed, AliveClosed;
    var h := s.Heap();
    var vs := [Gc(s.main), h[s.main].gt, s.registry] + s.mt;
    forall v | v in vs && v.Gc? ensures v.r in X {
      if v in s.mt { assert v.r in RefsOf(s.mt); }
      if v == s.registry { assert v in [s.registry]; assert v.r in RefsOf([s.registry]); }
      if v == h[s.main].gt { assert v in Fields(h, h[s.main]); assert Edge(h, s.main, v.r); }
    }
    assert Within(s.Color(), X);
    MarkAllWithin(h, Marks(s.Color(), []), vs, X);
  }

  /** A full collection, started in any state of the collector, terminates in the pause state; what is
      left is exactly what can be reached and what is fixed, all in the current white, and what can be
      reached refers to the same values as before. */
  lemma FullGCExact(s: State)
    requires Inv(s)
    ensures var s' := FullGC(s);
      && Inv(s') && s'.phase == Pause && Preserves(s, s')
      && (forall x :: x in s'.Heap() <==> Reachable(s, x) || x in s.fixed)
      && (forall x :: x in s'.Heap() ==> s'.Color()[x] == White(s'.white))
  {
    hide Links, AliveClosed, Kinds, Fields, Preserves, MarkRoot, Confined, Roots, Reachable;
    ResetSweepInv(s);
    var s0 := ResetSweep(s);
    RunToPreserves(s0, Finalize);
    var s1 := RunTo(s0, Finalize);
    MarkRootInv(s1);
    var s2 := MarkRoot(s1);
    MarkRootPreserves(s1);
    RunToPreserves(s2, Pause);
    var s' := RunTo(s2, Pause);
    PreservesTrans(s, s0, s1);
    PreservesTrans(s, s1, s2);
    PreservesTrans(s, s2, s');
    var X := set x | x in s2.Heap() && Reachable(s2, x);
    ReachableClosed(s2, X);
    MarkRootConfinedBy(s1, X);
    RunToConfined(s2, X);
    FullGCHeap(s2, s', X);
    SameFixed(s, s');
    forall x ensures Reachable(s', x) <==> Reachable(s, x) { PreservesBack(s, s', x); }
  }

  lemma SameFixed(s: State, s': State)
    requires Preserves(s, s')
    ensures s'.fixed == s.fixed
  {
  }

  /** Nothing becomes reachable by a collection either. */
  lemma PreservesBack(s: State, s': State, x: Ref)
    requires Inv(s) && Inv(s') && Preserves(s, s')
    ensures Reachable(s', x) <==> Reachable(s, x)
  {
    hide Links, AliveClosed, Kinds, Fields, PhaseOk;
    var X := set y | y in s.Heap() && Reachable(s, y);
    ReachableClosed(s, X);
    if Reachable(s', x) {
      forall a, b | a in X && Edge(s'.Heap(), a, b) ensures b in X {
        assert Reachable(s, a);
        assert Edge(s.Heap(), a, b);
      }
      ReachInClosedSet(s'.Heap(), Roots(s'), X, x);
    }
  }

  lemma MarkRootPreserves(s: State)
    requires Inv(s) && s.phase == Finalize
    ensures Preserves(s, MarkRoot(s))
  {
    hide Links, AliveClosed, Kinds, Fields, Preserves;
    MarkRootInv(s);
    SameRefsRefl(s.Heap());
    SameRefsPreserves(s, MarkRoot(s));
  }

  lemma MarkRootConfinedBy(s: State, X: set<Ref>)
    requires Inv(s) && s.phase == Finalize && ClosedSet(MarkRoot(s).Heap(), X) && Roots(MarkRoot(s)) <= X
    ensures Confined(MarkRoot(s), X)
  {
    hide Links, AliveClosed, Kinds, Fields;
    MarkRootInv(s);
    MarkRootConfined(s, X);
  }

  lemma ReachableClosed(s: State, X: set<Ref>)
    requires Inv(s) && X == set x | x in s.Heap() && Reachable(s, x)
    ensures ClosedSet(s.Heap(), X) && Roots(s) <= X
  {
    hide Links, Kinds, Fields, PhaseOk;
    forall x | x in Roots(s) ensures x in X {
      ReachRoot(s.Heap(), Roots(s), x);
      assert Alive(s, x);
    }
    forall x, y | x in X && Edge(s.Heap(), x, y) ensures y in X {
      ReachStep(s.Heap(), Roots(s), x, y);
      ReachableAlive(s, y);
    }
  }

  lemma FullGCHeap(s: State, s': State, X: set<Ref>)
    requires Inv(s') && s'.phase == Pause && Confined(s', X) && Preserves(s, s')
    requires X == set x | x in s.Heap() && Reachable(s, x)
    ensures forall x :: x in s'.Heap() <==> Reachable(s', x) || x in s'.fixed
  {
    hide AliveClosed, Kinds, Fields, StackOk, TopOk, RootList, Buckets, OpenLists, Ring, Listed;
    forall x ensures x in s'.Heap() <==> Reachable(s', x) || x in s'.fixed {
      if x in s'.Heap() {
        assert Alive(s', x);
      } else if Reachable(s', x) {
        ReachableAlive(s', x);
      }
    }
  }
}
