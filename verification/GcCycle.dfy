/** The mark half of a cycle keeps the invariant, and the atomic step establishes that what is left
    white cannot be reached. */
module GcCycle {
  import opened GcHeap
  import opened GcMark
  import opened GcState

  /** The lists depend only on which objects there are and on their kinds. */
  lemma ListsSameKinds(h: Heap, h': Heap, rootgc: seq<Ref>, strt: seq<seq<Ref>>, open: map<Ref, seq<Ref>>, uvhead: seq<Ref>)
    requires h.Keys == h'.Keys && forall x :: x in h ==> h'[x].SameKind(h[x])
    ensures RootList(h, rootgc) ==> RootList(h', rootgc)
    ensures Buckets(h, strt) ==> Buckets(h', strt)
    ensures OpenLists(h, open) ==> OpenLists(h', open)
    ensures Ring(h, uvhead) ==> Ring(h', uvhead)
    ensures forall x :: x in h && Listed(h, x, rootgc, strt, open) ==> Listed(h', x, rootgc, strt, open)
  {
    hide OpenLists, Buckets;
    OpenSameKinds(h, h', open);
    BucketsSameKinds(h, h', strt);
    forall x | x in h && Listed(h, x, rootgc, strt, open) ensures Listed(h', x, rootgc, strt, open) {
      assert h'[x].SameKind(h[x]);
    }
  }

  lemma BucketsSameKinds(h: Heap, h': Heap, strt: seq<seq<Ref>>)
    requires h.Keys == h'.Keys && forall x :: x in h ==> h'[x].SameKind(h[x])
    ensures Buckets(h, strt) ==> Buckets(h', strt)
  {
    if Buckets(h, strt) {
      forall b, x | 0 <= b < |strt| && x in strt[b] ensures x in h' && h'[x] == h[x] {
        assert x in h && h[x].Str?;
      }
    }
  }

  lemma OpenSameKinds(h: Heap, h': Heap, open: map<Ref, seq<Ref>>)
    requires h.Keys == h'.Keys && forall x :: x in h ==> h'[x].SameKind(h[x])
    ensures OpenLists(h, open) ==> OpenLists(h', open)
  {
    if OpenLists(h, open) {
      forall th, x | th in open && x in open[th] ensures x in h' && h'[x] == h[x] {
        assert x in h && h[x].Open?;
      }
      forall th | th in open ensures Descending(h', open[th]) {
        assert Descending(h, open[th]);
        assert forall i :: 0 <= i < |open[th]| ==> open[th][i] in open[th];
      }
    }
  }

  lemma AnchorsSameKinds(s: State, s': State)
    requires Anchors(s) && s.Heap().Keys == s'.Heap().Keys
    requires forall x :: x in s.Heap() ==> s'.Heap()[x].SameKind(s.Heap()[x])
    requires s'.main == s.main && s'.running == s.running && s'.fixed == s.fixed
    ensures Anchors(s')
  {
  }

  /** Traversal and shading keep the lists well formed. */
  lemma ShapeAfterMarking(s: State, k: Mk, phase: Phase, white: bool)
    requires Shape(s) && SameRefs(s.Heap(), k.heap) && StackOk(k.heap) && TopOk(k.heap)
    requires k.color.Keys == k.heap.Keys && Kinds(k.heap, k.color)
    ensures Shape(s.(mk := k, phase := phase, white := white))
  {
    hide RootList, Buckets, OpenLists, Ring, Listed, Anchors, StackOk, TopOk, Kinds;
    ListsSameKinds(s.Heap(), k.heap, s.rootgc, s.strt, s.open, s.uvhead);
    AnchorsSameKinds(s, s.(mk := k, phase := phase, white := white));
  }

  lemma MarkRootInv(s: State)
    requires Inv(s) && (s.phase == Pause || s.phase == Finalize)
    ensures Inv(MarkRoot(s)) && MarkRoot(s).phase == Propagating
    ensures MarkRoot(s).Heap() == s.Heap()
  {
    hide Shape, AliveClosed, Lists, BlackOk, Kinds, MarkAll;
    var s' := MarkRoot(s);
    MarkRootMarks(s);
    ShapeOfHeap(s);
    AliveAfterMarking(s, s');
    ShapeAfterMarking(s, s'.mk, s'.phase, s'.white);
  }

  lemma ShapeOfHeap(s: State)
    requires Shape(s)
    ensures s.Color().Keys == s.Heap().Keys && StackOk(s.Heap()) && TopOk(s.Heap()) && SameRefs(s.Heap(), s.Heap())
  {
  }

  /** What the marking of the roots gives. */
  lemma MarkRootMarks(s: State)
    requires Inv(s) && (s.phase == Pause || s.phase == Finalize)
    ensures var s' := MarkRoot(s);
      && s'.Color().Keys == s'.Heap().Keys && Kinds(s.Heap(), s'.Color())
      && Lists(s.Heap(), Marks(s'.Color(), s'.mk.gray), []) && BlackOk(s.Heap(), s'.Color())
      && Marked(s'.Color(), s.main) && (s.registry.Gc? ==> Marked(s'.Color(), s.registry.r))
      && forall x :: x in s.Heap() && IsWhite(s'.Color(), x) ==> s'.Color()[x] == s.Color()[x]
  {
    hide StackOk, TopOk, RootList, Buckets, OpenLists, Ring, Listed, AliveClosed;
    var h := s.Heap();
    var vs := [Gc(s.main), h[s.main].gt, s.registry] + s.mt;
    MarkAllShades(h, Marks(s.Color(), []), vs);
    AllWhiteTri(s, vs);
    assert vs[0] in vs && vs[2] in vs;
    RegistryIn(s);
  }

  lemma RegistryIn(s: State)
    requires AliveClosed(s)
    ensures s.registry.Gc? ==> s.registry.r in s.Heap()
  {
    if s.registry.Gc? {
      assert s.registry in [s.registry];
      assert Alive(s, s.registry.r);
    }
  }

  lemma AllWhiteTri(s: State, vs: seq<Value>)
    requires Shape(s) && forall x :: x in s.Heap() ==> IsCurrentWhite(s, x)
    ensures var n := MarkAll(s.Heap(), Marks(s.Color(), []), vs);
            Kinds(s.Heap(), n.color) && Lists(s.Heap(), n, []) && BlackOk(s.Heap(), n.color)
  {
    hide StackOk, TopOk, RootList, Buckets, OpenLists, Ring, Listed, AliveClosed, Anchors;
    var h, m := s.Heap(), Marks(s.Color(), []);
    var n := MarkAll(h, m, vs);
    MarkAllShades(h, m, vs);
    assert forall x :: x in h ==> IsWhite(s.Color(), x);
    ShadesLists(h, m, n, []);
    ShadesBlack(h, m, n, {});
  }

  /** While no object is dead, `AliveClosed' is about the references alone. */
  lemma AliveAfterMarking(s: State, s': State)
    requires AliveClosed(s) && SameRefs(s.Heap(), s'.Heap()) && s'.white == s.white && Roots(s') == Roots(s)
    requires s'.Color().Keys == s.Color().Keys == s.Heap().Keys
    requires forall x :: x in s.Heap() ==> !Dead(s, x)
    requires forall x :: x in s.Heap() && IsWhite(s'.Color(), x) ==> s'.Color()[x] == s.Color()[x]
    ensures AliveClosed(s') && forall x :: x in s'.Heap() ==> !Dead(s', x)
  {
    forall x, y | Alive(s', x) && Edge(s'.Heap(), x, y) ensures Alive(s', y) {
      assert Alive(s, x) && Edge(s.Heap(), x, y);
      assert Alive(s, y);
    }
    forall x | x in Roots(s') ensures Alive(s', x) { assert Alive(s, x); }
  }

  function PropagateStep(s: State): State
    requires Shape(s) && s.mk.gray != [] && Sane(s.mk)
  {
    s.(mk := Propagate(s.mk))
  }

  lemma InvTri(s: State)
    requires Inv(s) && s.phase == Propagating
    ensures Tri(s.mk) && Sane(s.mk) && StackOk(s.Heap()) && TopOk(s.Heap())
  {
  }

  lemma PoppedMarked(k: Mk, x: Ref)
    requires Sane(k) && k.gray != [] && k.gray[0] in k.heap && Marked(k.color, k.gray[0])
    ensures Marked(Popped(k).color, x) <==> Marked(k.color, x)
  {
  }

  lemma PropagateWhite(k: Mk)
    requires Sane(k) && k.gray != [] && k.gray[0] in k.heap && Marked(k.color, k.gray[0])
    ensures forall x :: IsWhite(Propagate(k).color, x) ==> IsWhite(k.color, x) && Propagate(k).color[x] == k.color[x]
  {
    MarkAllShades(k.heap, Popped(k), Fields(k.heap, k.heap[k.gray[0]]));
    forall x | IsWhite(Propagate(k).color, x) ensures IsWhite(k.color, x) && Propagate(k).color[x] == k.color[x] {
      PoppedMarked(k, x);
    }
  }

  lemma {:induction false} PropagateAllWhite(k: Mk)
    requires Tri(k) && Sane(k) && StackOk(k.heap) && TopOk(k.heap)
    ensures forall x :: IsWhite(PropagateAll(k).color, x) ==> IsWhite(k.color, x) && PropagateAll(k).color[x] == k.color[x]
    decreases Whites(k.color), |k.gray|
  {
    if k.gray != [] {
      assert k.gray[0] in k.gray && Marked(k.color, k.gray[0]);
      PropagateWhite(k);
      PropagateSane(k);
      PropagateTri(k, {});
      PropagateAllWhite(Propagate(k));
    }
  }

  lemma PropagateInv(s: State)
    requires Inv(s) && s.phase == Propagating && s.mk.gray != []
    ensures Sane(s.mk) && Inv(PropagateStep(s))
    ensures SameRefs(s.Heap(), PropagateStep(s).Heap())
  {
    hide Kinds, Lists, BlackOk, GrayOk, StackOk, TopOk, RootList, Buckets, OpenLists, Ring, Listed, SameRefs, AliveClosed, Popped;
    InvTri(s);
    var s' := PropagateStep(s);
    PropagateTri(s.mk, {});
    FirstGray(s.mk);
    PropagateWhite(s.mk);
    ShapeAfterMarking(s, s'.mk, s'.phase, s'.white);
    AliveAfterMarking(s, s');
  }

  lemma FirstGray(k: Mk)
    requires Tri(k) && k.gray != []
    ensures k.gray[0] in k.heap && Marked(k.color, k.gray[0])
  {
    assert k.gray[0] in k.gray;
  }

  // ----- the atomic step -----

  lemma AtomicWhite(s: State)
    requires Shape(s) && Tri(s.mk)
    ensures forall x :: IsWhite(AtomicMarks(s).color, x) ==> IsWhite(s.Color(), x) && AtomicMarks(s).color[x] == s.Color()[x]
  {
    hide Kinds, Lists, BlackOk, GrayOk, RootList, Buckets, OpenLists, Ring, Listed, SameRefs, Tri, Sane;
    var k1 := Remarked(s);
    RemarkedOk(s);
    RemarkWhite(s);
    var k2 := PropagateAll(k1);
    PropagateAllTri(k1, {});
    PropagateAllWhite(k1);
    var vs := [Gc(s.running)] + s.mt;
    var k3 := MarkMore(k2, vs);
    MarkMoreOk(k2, vs, {});
    MarkMoreWhite(k2, vs);
    PropagateAllTri(k3, {});
    PropagateAllWhite(k3);
    AtomicRootsOk(s);
    var k4 := AtomicRoots(s);
    TakeAgain(k4);
    var k5 := k4.(gray := k4.again, again := []);
    PropagateAllWhite(k5);
  }

  lemma RemarkWhite(s: State)
    requires Shape(s)
    ensures forall x :: IsWhite(Remarked(s).color, x) ==> IsWhite(s.Color(), x) && Remarked(s).color[x] == s.Color()[x]
  {
    hide RootList, Buckets, OpenLists, Listed, Anchors, StackOk, TopOk, Kinds;
    RemarkShades(s.Heap(), Marks(s.Color(), s.mk.gray), s.uvhead);
  }

  lemma MarkMoreWhite(k: Mk, vs: seq<Value>)
    requires k.color.Keys == k.heap.Keys
    ensures forall x :: IsWhite(MarkMore(k, vs).color, x) ==> IsWhite(k.color, x) && MarkMore(k, vs).color[x] == k.color[x]
  {
    MarkAllShades(k.heap, Marks(k.color, k.gray), vs);
  }

  /** The atomic step keeps the invariant: the objects that are still white become the dead ones,
      and none of them is referred to by an object that is not dead. */
  lemma AtomicInv(s: State)
    requires Inv(s) && s.phase == Propagating && s.mk.gray == []
    ensures Tri(s.mk) && Inv(Atomic(s)) && Atomic(s).phase == SweepString
    ensures SameRefs(s.Heap(), Atomic(s).Heap())
  {
    hide Kinds, Lists, BlackOk, GrayOk, RootList, OpenLists, Ring, Listed, SameRefs, StackOk, TopOk, Tri, AliveClosed;
    InvTri(s);
    var k := AtomicMarks(s);
    var s' := Atomic(s);
    AtomicMarksClosed(s);
    AtomicKinds(k);
    ShapeAfterMarking(s, k, SweepString, !s.white);
    assert Shape(s') by { ShapeIgnoresCounters(s.(mk := k, phase := SweepString, white := !s.white), s'); }
    AtomicDead(s);
    AtomicAlive(s);
    AllPending(s');
  }

  lemma AtomicKinds(k: Mk)
    requires Tri(k)
    ensures k.color.Keys == k.heap.Keys && Kinds(k.heap, k.color)
  {
  }

  lemma AtomicDead(s: State)
    requires Inv(s) && s.phase == Propagating && Tri(s.mk)
    ensures var s' := Atomic(s); forall x :: x in s'.Heap() ==> (Dead(s', x) <==> !Marked(s'.Color(), x))
  {
    hide Kinds, Lists, BlackOk, GrayOk, RootList, OpenLists, Ring, Listed, StackOk, TopOk, AliveClosed, Buckets, Anchors;
    var s' := Atomic(s);
    AtomicMarksClosed(s);
    AtomicWhite(s);
    forall x | x in s'.Heap() ensures Dead(s', x) <==> !Marked(s'.Color(), x) {
      assert x in s.Heap() && !Dead(s, x);
    }
  }

  lemma AllPending(s: State)
    requires Shape(s) && s.phase == SweepString && s.sweepgc == 0 && s.sweepstr == 0
    ensures PhaseOk(s)
  {
    forall x | x in s.Heap() ensures Pending(s, x) {
      assert Listed(s.Heap(), x, s.rootgc, s.strt, s.open);
      if s.Heap()[x].Open? {
        var th := s.Heap()[x].th;
        assert th in s.open && Listed(s.Heap(), th, s.rootgc, s.strt, s.open);
      }
    }
  }

  lemma ShapeIgnoresCounters(s: State, s': State)
    requires Shape(s) && s' == s.(sweepstr := s'.sweepstr, sweepgc := s'.sweepgc, phase := s'.phase)
    ensures Shape(s')
  {
  }

  lemma AtomicAlive(s: State)
    requires Inv(s) && s.phase == Propagating && Tri(s.mk)
    requires var s' := Atomic(s); forall x :: x in s'.Heap() ==> (Dead(s', x) <==> !Marked(s'.Color(), x))
    ensures AliveClosed(Atomic(s))
  {
    hide Kinds, Lists, BlackOk, GrayOk, RootList, Buckets, OpenLists, Ring, Listed, StackOk, TopOk, Fields;
    var s' := Atomic(s);
    AtomicMarksClosed(s);
    forall x, y | Alive(s', x) && Edge(s'.Heap(), x, y) ensures Alive(s', y) {
      assert Edge(s.Heap(), x, y) && Alive(s, x);
      assert Alive(s, y);
      assert ChildrenMarked(s'.Heap(), s'.Color(), x);
    }
    forall x | x in Roots(s') ensures Alive(s', x) {
      assert Roots(s') == Roots(s);
      assert Alive(s, x);
      if x in RefsOf(s.mt) { assert Gc(x) in s.mt; }
      if x in RefsOf([s.registry]) { assert Gc(x) == s.registry; }
      assert Marked(s'.Color(), x);
    }
  }
}
