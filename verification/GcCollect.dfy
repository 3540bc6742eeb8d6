/** The sweep of `rootgc', one step of the collector, and a full collection. */
module GcCollect {
  import opened GcHeap
  import opened GcMark
  import opened GcState
  import opened GcCycle
  import opened GcSweep
  import opened GcStep

  /** No dead object comes back, unless it is fixed, and no object appears. */
  ghost predicate NoRevival(s: State, s': State) {
    && s'.fixed == s.fixed && s'.white == s.white && s'.phase == s.phase
    && forall x :: Alive(s', x) ==> Alive(s, x) || x in s.fixed
  }

  /** What the rest of the sweep has to do. */
  function Left(s: State): int {
    |s.rootgc| - s.sweepgc + |s.uvhead|
  }

  lemma {:induction false} KeepShorter(xs: seq<Ref>, gone: set<Ref>)
    ensures |Keep(xs, gone)| <= |xs|
    ensures (exists x :: x in xs && x in gone) ==> |Keep(xs, gone)| < |xs|
  {
    if xs != [] {
      KeepShorter(xs[1..], gone);
      assert forall x :: x in xs <==> x == xs[0] || x in xs[1..];
    }
  }

  lemma NotInRootgc(s: State, gone: set<Ref>)
    requires Shape(s) && forall x :: x in gone ==> x in s.Heap() && (s.Heap()[x].Open? || s.Heap()[x].Str?)
    ensures Keep(s.rootgc, gone) == s.rootgc
  {
    hide StackOk, TopOk, Kinds, Buckets, OpenLists, Ring, Listed, Anchors;
    KeepAllOf(s.rootgc, gone);
  }

  /** Sweeping the open upvalues of a thread, before the thread itself. */
  lemma SweepOpenInv(s: State, th: Ref)
    requires Inv(s) && s.phase == Sweep && th in s.open
    ensures var s' := SweepWhole(s, s.open[th]);
      && Inv(s') && Keeps(s, s') && NoRevival(s, s')
      && s'.rootgc == s.rootgc && s'.sweepgc == s.sweepgc && |s'.uvhead| <= |s.uvhead|
      && th in s'.open && (forall x :: x in s'.open[th] ==> IsCurrentWhite(s', x))
      && OthersSame(s, s')
  {
    hide AliveClosed, PhaseOk, Kinds, StackOk, TopOk, RootList, Buckets, Ring, Listed, Fields, NoRevival, OthersSame, Keeps;
    var xs := s.open[th];
    var gone := DoomedOf(s, xs);
    assert WholeList(s, xs);
    SweepWholeInv(s, xs);
    SweepWholeKeeps(s, xs);
    NotInRootgc(s, gone);
    KeepShorter(s.uvhead, gone);
    SweepOpenSame(s, th);
  }

  lemma SweepOpenSame(s: State, th: Ref)
    requires Inv(s) && th in s.open && Inv(SweepWhole(s, s.open[th]))
    ensures var s' := SweepWhole(s, s.open[th]);
      && NoRevival(s, s') && OthersSame(s, s') && th in s'.open && (forall x :: x in s'.open[th] ==> IsCurrentWhite(s', x))
  {
    hide AliveClosed, PhaseOk, Kinds, StackOk, TopOk, RootList, Buckets, Ring, Listed, Anchors, Fields, Keep, Descending, OpenLists;
    var xs := s.open[th];
    KeepMembers(xs, DoomedOf(s, xs));
    var s' := SweepWhole(s, xs);
    SweepWholeSame(s, xs);
    OpenOnList(s);
    OpenOnList(s');
    forall x | x in s'.open[th] ensures IsCurrentWhite(s', x) {
      assert x in xs && x in s'.Heap();
    }
  }

  lemma OpenOnList(s: State)
    requires Inv(s)
    ensures forall th :: th in s.open <==> th in s.Heap() && s.Heap()[th].Thread?
    ensures forall th, x :: th in s.open && x in s.open[th] ==> x in s.Heap() && s.Heap()[x].Open?
  {
  }

  /** All objects but `uv' are as they were. */
  ghost predicate SameBut(s: State, s': State, uv: Ref) {
    forall x :: x in s.Heap() && x in s.Color() && x != uv ==>
      x in s'.Heap() && s'.Heap()[x] == s.Heap()[x] && x in s'.Color() && s'.Color()[x] == s.Color()[x]
  }

  lemma CloseOneOthers(s: State, th: Ref)
    requires Inv(s) && s.phase == Sweep && th in s.open && s.open[th] != []
    ensures s.open[th][0] in s.Heap()
    ensures var s' := CloseOne(s, th);
      && NoRevival(s, s') && Left(s') <= Left(s) && SameBut(s, s', s.open[th][0])
  {
    hide Inv, CloseOne, NoRevival, Left, SameBut;
    HeadHere(s, th);
    if Dead(s, s.open[th][0]) { DeadOneOthers(s, th); } else { LiveOneOthers(s, th); }
  }

  lemma HeadHere(s: State, th: Ref)
    requires Inv(s) && th in s.open && s.open[th] != []
    ensures s.open[th][0] in s.Heap() && s.Color().Keys == s.Heap().Keys
  {
    hide Descending;
    HeadOfList(s, th);
  }

  lemma DeadOneOthers(s: State, th: Ref)
    requires Inv(s) && s.phase == Sweep && th in s.open && s.open[th] != [] && Dead(s, s.open[th][0])
    ensures var s' := CloseOne(s, th);
      NoRevival(s, s') && Left(s') <= Left(s) && SameBut(s, s', s.open[th][0])
  {
    hide AliveClosed, Kinds, StackOk, TopOk, RootList, Buckets, Listed, Fields, Pending, Anchors, OpenLists, Descending;
    var uv := s.open[th][0];
    HeadOfList(s, th);
    KeepShorter(s.uvhead, {uv});
    NotInRootgc(s, {uv});
  }

  lemma LiveOneOthers(s: State, th: Ref)
    requires Inv(s) && s.phase == Sweep && th in s.open && s.open[th] != [] && !Dead(s, s.open[th][0])
    ensures var s' := CloseOne(s, th);
      NoRevival(s, s') && Left(s') <= Left(s) && SameBut(s, s', s.open[th][0])
  {
    hide AliveClosed, Kinds, StackOk, TopOk, RootList, Buckets, Listed, Fields, Pending, Anchors, OpenLists, Descending;
    var uv := s.open[th][0];
    HeadOfList(s, th);
    KeepShorter(s.uvhead, {uv});
    UnhookShape(s, th);
    UnhookFields(s, th);
  }

  ghost predicate OthersSame(s: State, s': State) {
    forall x :: x in s.Heap() && x in s.Color() && !s.Heap()[x].Open? ==>
      x in s'.Heap() && s'.Heap()[x] == s.Heap()[x] && x in s'.Color() && s'.Color()[x] == s.Color()[x]
  }

  lemma OthersSameTrans(a: State, b: State, c: State)
    requires OthersSame(a, b) && OthersSame(b, c)
    ensures OthersSame(a, c)
  {
  }

  lemma CloseOneSame(s: State, th: Ref)
    requires Inv(s) && s.phase == Sweep && th in s.open && s.open[th] != []
    ensures s.open[th][0] in s.Heap()
    ensures var s' := CloseOne(s, th); NoRevival(s, s') && Left(s') <= Left(s) && OthersSame(s, s')
  {
    hide AliveClosed, Kinds, StackOk, TopOk, RootList, Buckets, Listed, Fields, Pending, Anchors, NoRevival, Left;
    HeadOfList(s, th);
    CloseOneOthers(s, th);
    CloseOneInv(s, th);
  }

  lemma {:induction false} CloseUpvalsOthers(s: State, th: Ref, level: nat)
    requires Inv(s) && s.phase == Sweep && th in s.open
    ensures var s' := CloseUpvals(s, th, level); NoRevival(s, s') && Left(s') <= Left(s) && OthersSame(s, s')
    decreases |s.open[th]|
  {
    hide Inv, Keeps, CloseOne, Left, NoRevival, OthersSame;
    NoRevivalRefl(s);
    if s.open[th] != [] {
      CloseOneInv(s, th);
      ShapeOf(s);
      HeadOfList(s, th);
      if s.Heap()[s.open[th][0]].idx >= level {
        CloseOneSame(s, th);
        var s' := CloseOne(s, th);
        CloseUpvalsOthers(s', th, level);
        NoRevivalTrans(s, s', CloseUpvals(s, th, level));
        OthersSameTrans(s, s', CloseUpvals(s, th, level));
      } else { OthersSameRefl(s); }
    } else { OthersSameRefl(s); }
  }

  lemma OthersSameRefl(s: State)
    ensures OthersSame(s, s)
  {
  }

  /** The next object of `rootgc' is passed over. */
  lemma AdvanceInv(s: State)
    requires Inv(s) && s.phase == Sweep && s.sweepgc < |s.rootgc|
    requires var x := s.rootgc[s.sweepgc];
      IsCurrentWhite(s, x) && (x in s.open ==> forall u :: u in s.open[x] ==> IsCurrentWhite(s, u))
    ensures Inv(s.(sweepgc := s.sweepgc + 1))
  {
    hide AliveClosed, Kinds, StackOk, TopOk, RootList, Buckets, Anchors, Ring;
    var x := s.rootgc[s.sweepgc];
    var s' := s.(sweepgc := s.sweepgc + 1);
    assert AliveClosed(s') && Links(s') by { CountersIgnored(s, s'); }
    forall y | y in s'.Heap() && !IsCurrentWhite(s', y) ensures Pending(s', y) {
      assert Pending(s, y) && Listed(s.Heap(), y, s.rootgc, s.strt, s.open);
      if s.Heap()[y].Open? { AdvanceMember(s.rootgc, s.sweepgc, s.Heap()[y].th); }
      else if !s.Heap()[y].Str? { AdvanceMember(s.rootgc, s.sweepgc, y); }
    }
  }

  lemma CountersIgnored(s: State, s': State)
    requires s' == s.(sweepgc := s'.sweepgc, sweepstr := s'.sweepstr, phase := s'.phase)
    ensures Shape(s) ==> Shape(s')
    ensures Links(s) ==> Links(s')
    ensures AliveClosed(s) ==> AliveClosed(s')
  {
    if AliveClosed(s) {
      forall x, y | Alive(s', x) && Edge(s'.Heap(), x, y) ensures Alive(s', y) { assert Alive(s, x) && Alive(s, y); }
      forall x | x in Roots(s') ensures Alive(s', x) { assert x in Roots(s) && Alive(s, x); }
    }
  }

  lemma AdvanceMember(xs: seq<Ref>, n: nat, y: Ref)
    requires n < |xs| && y in xs[n..] && y != xs[n]
    ensures y in xs[n + 1..]
  {
    assert xs[n..] == [xs[n]] + xs[n + 1..];
  }

  /** The object the sweep looks at, after the open upvalues of a thread have been swept. */
  function AtHand(s: State): State
    requires s.sweepgc < |s.rootgc|
  {
    var x := s.rootgc[s.sweepgc];
    if x in s.open then SweepWhole(s, s.open[x]) else s
  }

  lemma AtHandInv(s: State)
    requires Inv(s) && s.phase == Sweep && s.sweepgc < |s.rootgc|
    ensures var s1 := AtHand(s); var x := s.rootgc[s.sweepgc];
      && Inv(s1) && Keeps(s, s1) && NoRevival(s, s1)
      && s1.rootgc == s.rootgc && s1.sweepgc == s.sweepgc && Left(s1) <= Left(s)
      && x in s1.Heap() && !s1.Heap()[x].Open? && !s1.Heap()[x].Str?
      && (x in s1.open <==> s1.Heap()[x].Thread?)
      && (x in s1.open ==> forall u :: u in s1.open[x] ==> IsCurrentWhite(s1, u))
  {
    hide AliveClosed, Kinds, StackOk, TopOk, Buckets, Anchors, Ring, Keeps, NoRevival, PhaseOk, SweepWhole, Listed;
    var x := s.rootgc[s.sweepgc];
    assert x in s.rootgc;
    if x in s.open {
      SweepOpenInv(s, x);
    } else {
      KeepsRefl(s);
      NoRevivalRefl(s);
    }
  }

  lemma NoRevivalRefl(s: State)
    ensures NoRevival(s, s)
  {
  }

  lemma NoRevivalTrans(a: State, b: State, c: State)
    requires NoRevival(a, b) && NoRevival(b, c)
    ensures NoRevival(a, c)
  {
  }

  /** One turn of the loop in `sweeplist' over `rootgc'. */
  function SweepStep(s: State): State
    requires Inv(s) && s.phase == Sweep && s.sweepgc < |s.rootgc|
  {
    AtHandInv(s);
    var x := s.rootgc[s.sweepgc];
    var s1 := AtHand(s);
    if Doomed(s1, x) then Drop(if x in s1.open then CloseUpvals(s1, x, 0) else s1, {x})
    else Whiten(s1, [x]).(sweepgc := s1.sweepgc + 1)
  }

  lemma SweepStepInv(s: State)
    requires Inv(s) && s.phase == Sweep && s.sweepgc < |s.rootgc|
    ensures var s' := SweepStep(s);
      Inv(s') && Keeps(s, s') && NoRevival(s, s') && Left(s') < Left(s)
  {
    hide Inv, Keeps, NoRevival, Doomed, Left;
    AtHandInv(s);
    if Doomed(AtHand(s), s.rootgc[s.sweepgc]) { SweepFree(s); } else { SweepPass(s); }
  }

  lemma SweepFree(s: State)
    requires Inv(s) && s.phase == Sweep && s.sweepgc < |s.rootgc| && Doomed(AtHand(s), s.rootgc[s.sweepgc])
    ensures var s' := SweepStep(s);
      Inv(s') && Keeps(s, s') && NoRevival(s, s') && Left(s') < Left(s)
  {
    hide Links, AliveClosed, Kinds, PhaseOk, Keeps, NoRevival, AtHand, CloseUpvals, Fields;
    AtHandInv(s);
    var x, s1 := s.rootgc[s.sweepgc], AtHand(s);
    KeepsPhase(s, s1);
    NoRevivalRefl(s1);
    KeepsRefl(s1);
    var s2 := if x in s1.open then CloseUpvals(s1, x, 0) else s1;
    if x in s1.open {
      CloseUpvalsInv(s1, x, 0);
      CloseUpvalsOthers(s1, x, 0);
    }
    ThreadsHaveLists(s1, s2, x);
    KeepsPhase(s1, s2);
    DropOneInv(s2, x);
    KeepsTrans(s, s1, s2);
    KeepsTrans(s, s2, Drop(s2, {x}));
    NoRevivalTrans(s, s1, s2);
    NoRevivalTrans(s, s2, Drop(s2, {x}));
  }

  lemma ThreadsHaveLists(s1: State, s2: State, x: Ref)
    requires Inv(s1) && Inv(s2) && x in s1.Heap() && x in s2.Heap() && s2.Heap()[x] == s1.Heap()[x]
    requires !s1.Heap()[x].Open? && !s1.Heap()[x].Str?
    ensures x in s1.open <==> x in s2.open
    ensures x in s2.rootgc
  {
    hide AliveClosed, Kinds, PhaseOk, StackOk, TopOk, Buckets, Ring, Anchors;
    assert Listed(s2.Heap(), x, s2.rootgc, s2.strt, s2.open);
  }

  lemma KeepsPhase(s1: State, s2: State)
    requires NoRevival(s1, s2)
    ensures s2.phase == s1.phase && s2.white == s1.white && s2.fixed == s1.fixed
  {
  }

  lemma DropOneInv(s: State, x: Ref)
    requires Inv(s) && s.phase == Sweep && x in s.Heap() && Doomed(s, x) && x in s.rootgc
    requires x in s.open ==> s.open[x] == []
    ensures Inv(Drop(s, {x})) && Keeps(s, Drop(s, {x})) && NoRevival(s, Drop(s, {x})) && Left(Drop(s, {x})) < Left(s)
  {
    hide AliveClosed, Kinds, PhaseOk, Links, Fields, Keep;
    DropInv(s, {x});
    DropKeeps(s, {x});
    KeepShorter(s.rootgc, {x});
    KeepShorter(s.uvhead, {x});
    assert x in s.rootgc && x in {x};
  }

  lemma SweepPass(s: State)
    requires Inv(s) && s.phase == Sweep && s.sweepgc < |s.rootgc| && !Doomed(AtHand(s), s.rootgc[s.sweepgc])
    ensures var s' := SweepStep(s);
      Inv(s') && Keeps(s, s') && NoRevival(s, s') && Left(s') < Left(s)
  {
    hide Links, AliveClosed, Kinds, PhaseOk, Keeps, NoRevival, AtHand, Fields;
    AtHandInv(s);
    var x, s1 := s.rootgc[s.sweepgc], AtHand(s);
    KeepsPhase(s, s1);
    var s2 := Whiten(s1, [x]);
    WhitenInv(s1, [x]);
    WhitenKeeps(s1, x);
    AdvanceInv(s2);
    KeepsTrans(s, s1, SweepStep(s));
    NoRevivalTrans(s, s1, SweepStep(s));
  }

  lemma WhitenKeeps(s1: State, x: Ref)
    requires !Doomed(s1, x)
    ensures var s' := Whiten(s1, [x]).(sweepgc := s1.sweepgc + 1); Keeps(s1, s') && NoRevival(s1, s')
  {
  }

  /** sweeplist over at most `count' objects. */
  function SweepChunk(s: State, count: nat): State
    requires Inv(s) && s.phase == Sweep
    decreases count
  {
    if count == 0 || s.sweepgc >= |s.rootgc| then s else
      SweepStepInv(s);
      SweepChunk(SweepStep(s), count - 1)
  }

  lemma {:induction false} SweepChunkInv(s: State, count: nat)
    requires Inv(s) && s.phase == Sweep
    ensures var s' := SweepChunk(s, count);
      && Inv(s') && Keeps(s, s') && NoRevival(s, s')
      && (count > 0 && s.sweepgc < |s.rootgc| ==> Left(s') < Left(s)) && Left(s') <= Left(s)
    decreases count
  {
    hide Inv, Keeps, SweepStep, Left;
    KeepsRefl(s);
    if count != 0 && s.sweepgc < |s.rootgc| {
      SweepStepInv(s);
      SweepChunkInv(SweepStep(s), count - 1);
      KeepsTrans(s, SweepStep(s), SweepChunk(s, count));
    }
  }

  // ----- one step -----

  /** GCSsweepstring: one bucket of the string table. */
  function SweepStringStep(s: State): State
    requires s.sweepstr < |s.strt|
  {
    var s1 := SweepWhole(s, s.strt[s.sweepstr]);
    s1.(sweepstr := s.sweepstr + 1, phase := if s.sweepstr + 1 >= |s1.strt| then Sweep else SweepString)
  }

  /** GCSsweep: at most GCSWEEPMAX objects. */
  function SweepPhaseStep(s: State): State
    requires Inv(s) && s.phase == Sweep
  {
    var s1 := SweepChunk(s, GCSWEEPMAX);
    if s1.sweepgc >= |s1.rootgc| then s1.(phase := Finalize) else s1
  }

  /** singlestep */
  function SingleStep(s: State): State
    requires Inv(s)
  {
    match s.phase
    case Pause => MarkRoot(s)
    case Propagating =>
      InvTri(s);
      if s.mk.gray != [] then PropagateStep(s) else Atomic(s)
    case SweepString => SweepStringStep(s)
    case Sweep => SweepPhaseStep(s)
    case Finalize => s.(phase := Pause)
  }

  lemma BucketWhole(s: State, b: nat)
    requires Shape(s) && b < |s.strt|
    ensures WholeList(s, s.strt[b])
    ensures forall x :: x in s.Heap() && s.Heap()[x].Str? && s.Heap()[x].hash % |s.strt| == b ==> x in s.strt[b]
  {
    hide Kinds, StackOk, TopOk, RootList, OpenLists, Ring, Anchors;
    forall x | x in s.Heap() && s.Heap()[x].Str? && s.Heap()[x].hash % |s.strt| == b ensures x in s.strt[b] {
      assert Listed(s.Heap(), x, s.rootgc, s.strt, s.open);
    }
  }

  lemma SweepStringInv(s: State)
    requires Inv(s) && s.phase == SweepString
    ensures Inv(SweepStringStep(s)) && Keeps(s, SweepStringStep(s))
    ensures forall x :: Alive(SweepStringStep(s), x) ==> Alive(s, x) || x in s.fixed
  {
    hide Links, AliveClosed, Kinds, Fields, Pending, Drop;
    var b := s.sweepstr;
    ShapeOf(s);
    BucketWhole(s, b);
    SweepWholeInv(s, s.strt[b]);
    SweepWholeKeeps(s, s.strt[b]);
    var s1, s' := SweepWhole(s, s.strt[b]), SweepStringStep(s);
    CountersIgnored(s1, s');
    SweepWholeSame(s, s.strt[b]);
    forall x | x in s'.Heap() && !IsCurrentWhite(s', x) ensures Pending(s', x) {
      assert Pending(s1, x);
      StringPassed(s, s1, s', x);
    }
  }

  lemma SweepWholeSame(s: State, xs: seq<Ref>)
    ensures var s1 := SweepWhole(s, xs);
      && |s1.strt| == |s.strt| && s1.sweepgc == s.sweepgc && s1.sweepstr == s.sweepstr && s1.white == s.white && s1.phase == s.phase
      && s1.fixed == s.fixed && Roots(s1) == Roots(s)
      && (forall x :: x in s1.Heap() ==> x in s.Heap() && s1.Heap()[x] == s.Heap()[x])
      && (forall x :: Alive(s1, x) ==> Alive(s, x) || x in s.fixed)
  {
  }

  lemma StringPassed(s: State, s1: State, s': State, x: Ref)
    requires s.sweepstr < |s.strt| && Shape(s1) && s1.phase == SweepString && |s1.strt| == |s.strt| && s1.sweepstr == s.sweepstr && s1.sweepgc == 0
    requires s' == s1.(sweepstr := s.sweepstr + 1, phase := if s.sweepstr + 1 >= |s1.strt| then Sweep else SweepString)
    requires x in s1.Heap() && Pending(s1, x) && !IsCurrentWhite(s1, x)
    requires s1.Heap()[x].Str? && s1.Heap()[x].hash % |s.strt| == s.sweepstr ==> IsCurrentWhite(s1, x)
    ensures Pending(s', x)
  {
  }

  lemma SweepPhaseInv(s: State)
    requires Inv(s) && s.phase == Sweep
    ensures Inv(SweepPhaseStep(s)) && Keeps(s, SweepPhaseStep(s))
    ensures forall x :: Alive(SweepPhaseStep(s), x) ==> Alive(s, x) || x in s.fixed
    ensures SweepPhaseStep(s).phase == Sweep ==> Left(SweepPhaseStep(s)) < Left(s)
  {
    hide Links, AliveClosed, Kinds, Fields, SweepStep;
    SweepChunkInv(s, GCSWEEPMAX);
    var s1 := SweepChunk(s, GCSWEEPMAX);
    CountersIgnored(s1, SweepPhaseStep(s));
    if s1.sweepgc >= |s1.rootgc| {
      NothingPending(s1);
    }
  }

  lemma NothingPending(s: State)
    requires Inv(s) && s.phase == Sweep && s.sweepgc >= |s.rootgc|
    ensures forall x :: x in s.Heap() ==> IsCurrentWhite(s, x)
  {
    hide Links, AliveClosed, Kinds;
    assert s.rootgc[s.sweepgc..] == [];
  }

  /** Everything that can be reached is still there and refers to the same values. */
  ghost predicate Preserves(s: State, s': State) {
    && Roots(s') == Roots(s) && s'.fixed == s.fixed
    && forall x :: Reachable(s, x) ==>
         x in s.Heap() && x in s'.Heap() && Reachable(s', x) && Fields(s'.Heap(), s'.Heap()[x]) == Fields(s.Heap(), s.Heap()[x])
  }

  lemma EdgesPreserve(s: State, s': State)
    requires Inv(s) && Roots(s') == Roots(s) && s'.fixed == s.fixed
    requires forall x :: Reachable(s, x) && x in s.Heap() ==> x in s'.Heap() && Fields(s'.Heap(), s'.Heap()[x]) == Fields(s.Heap(), s.Heap()[x])
    ensures Preserves(s, s')
  {
    hide Links, AliveClosed, Kinds, PhaseOk, Fields;
    forall x | Reachable(s, x)
      ensures x in s.Heap() && x in s'.Heap() && Reachable(s', x) && Fields(s'.Heap(), s'.Heap()[x]) == Fields(s.Heap(), s.Heap()[x])
    {
      ReachableAlive(s, x);
      forall a, b | Reach(s.Heap(), Roots(s), a) && Edge(s.Heap(), a, b) ensures Edge(s'.Heap(), a, b) {
        assert Reachable(s, a);
      }
      ReachAgree(s.Heap(), s'.Heap(), Roots(s), x);
    }
  }

  lemma KeepsPreserves(s: State, s': State)
    requires Inv(s) && Keeps(s, s') && s'.fixed == s.fixed
    ensures Preserves(s, s')
  {
    hide Links, AliveClosed, Kinds, PhaseOk, Fields;
    forall x | Reachable(s, x) ensures Alive(s, x) { ReachableAlive(s, x); }
    EdgesPreserve(s, s');
  }

  lemma SameRefsPreserves(s: State, s': State)
    requires Inv(s) && SameRefs(s.Heap(), s'.Heap()) && Roots(s') == Roots(s) && s'.fixed == s.fixed
    ensures Preserves(s, s')
  {
    hide Links, AliveClosed, Kinds, PhaseOk, Fields;
    EdgesPreserve(s, s');
  }

  /** Every step of the collector keeps the invariant, and frees or alters nothing that can be reached. */
  lemma SingleStepSafe(s: State)
    requires Inv(s)
    ensures Inv(SingleStep(s)) && Preserves(s, SingleStep(s))
  {
    hide Links, AliveClosed, Kinds, Fields, Preserves;
    var s' := SingleStep(s);
    match s.phase
    case Pause => MarkRootInv(s); SameRefsRefl(s.Heap()); SameRefsPreserves(s, s');
    case Propagating => MarkStepSafe(s);
    case SweepString => SweepStepSafe(s);
    case Sweep => SweepStepSafe(s);
    case Finalize => CountersIgnored(s, s'); SameRefsRefl(s.Heap()); SameRefsPreserves(s, s');
  }

  lemma MarkStepInv(s: State)
    requires Inv(s) && s.phase == Propagating
    ensures Inv(SingleStep(s)) && SameRefs(s.Heap(), SingleStep(s).Heap())
  {
    hide Inv, SameRefs, Tri, PropagateStep, Atomic;
    InvTri(s);
    if s.mk.gray != [] { PropagateInv(s); } else { AtomicInv(s); }
  }

  lemma MarkStepSafe(s: State)
    requires Inv(s) && s.phase == Propagating
    ensures Inv(SingleStep(s)) && Preserves(s, SingleStep(s))
  {
    hide Links, AliveClosed, Kinds, Fields, Preserves;
    MarkStepInv(s);
    SameRefsPreserves(s, SingleStep(s));
  }

  lemma SweepStepSafe(s: State)
    requires Inv(s) && (s.phase == SweepString || s.phase == Sweep)
    ensures Inv(SingleStep(s)) && Preserves(s, SingleStep(s))
  {
    hide Links, AliveClosed, Kinds, Fields, Preserves;
    var s' := SingleStep(s);
    if s.phase == SweepString {
      SweepStringInv(s);
      SweepWholeSame(s, s.strt[s.sweepstr]);
    } else {
      SweepPhaseInv(s);
      SweepChunkInv(s, GCSWEEPMAX);
    }
    KeepsPreserves(s, s');
  }

  lemma SameRefsRefl(h: Heap)
    ensures SameRefs(h, h)
  {
  }
}
