/** The whole collector state, its invariant, and the steps of a collection cycle. */
module GcState {
  import opened GcHeap
  import opened GcMark

  const GCSWEEPMAX: nat := 40

  datatype Phase = Pause | Propagating | SweepString | Sweep | Finalize

  /** Linked lists are sequences. `sweepgc' is the position in `rootgc' of the link the sweep has
      reached; 0 stands for the list head itself. `open' gives each thread its open upvalues,
      `uvhead' is the ring of all of them. */
  datatype State = State(
    mk: Mk, fixed: set<Ref>, phase: Phase, white: bool,
    rootgc: seq<Ref>, strt: seq<seq<Ref>>, open: map<Ref, seq<Ref>>, uvhead: seq<Ref>,
    sweepgc: nat, sweepstr: nat,
    main: Ref, registry: Value, mt: seq<Value>, running: Ref)
  {
    function Heap(): Heap { mk.heap }
    function Color(): Colors { mk.color }
  }

  function RefsOf(vs: seq<Value>): set<Ref> {
    set v | v in vs && v.Gc? :: v.r
  }

  /** The main thread, the running thread, the registry and the basic metatables. */
  function Roots(s: State): set<Ref> {
    {s.main, s.running} + RefsOf([s.registry]) + RefsOf(s.mt)
  }

  lemma RootsAre(s: State, x: Ref)
    ensures x in Roots(s) <==> x == s.main || x == s.running || s.registry == Gc(x) || exists i :: 0 <= i < |s.mt| && s.mt[i] == Gc(x)
  {
  }

  ghost predicate Reachable(s: State, x: Ref) {
    Reach(s.Heap(), Roots(s), x)
  }

  predicate Dead(s: State, x: Ref) {
    x in s.Color() && s.Color()[x] == White(!s.white)
  }

  ghost predicate Alive(s: State, x: Ref) {
    x in s.Heap() && !Dead(s, x)
  }

  // ----- the shape of the lists -----

  ghost predicate Descending(h: Heap, uvs: seq<Ref>) {
    && (forall i :: 0 <= i < |uvs| ==> uvs[i] in h && h[uvs[i]].Open?)
    && (forall i, j :: 0 <= i < j < |uvs| ==> h[uvs[i]].idx > h[uvs[j]].idx)
  }

  ghost predicate RootList(h: Heap, rootgc: seq<Ref>) {
    NoDup(rootgc) && forall x :: x in rootgc ==> x in h && !h[x].Str? && !h[x].Open?
  }

  ghost predicate Buckets(h: Heap, strt: seq<seq<Ref>>) {
    && |strt| > 0
    && (forall b :: 0 <= b < |strt| ==> NoDup(strt[b]))
    && (forall b, x :: 0 <= b < |strt| && x in strt[b] ==> x in h && h[x].Str? && h[x].hash % |strt| == b)
  }

  ghost predicate OpenLists(h: Heap, open: map<Ref, seq<Ref>>) {
    && (forall th :: th in open <==> th in h && h[th].Thread?)
    && (forall th :: th in open ==> Descending(h, open[th]))
    && (forall th, x :: th in open && x in open[th] ==> x in h && h[x].Open? && h[x].th == th)
  }

  /** Every object is in the list its kind belongs to. */
  ghost predicate Listed(h: Heap, x: Ref, rootgc: seq<Ref>, strt: seq<seq<Ref>>, open: map<Ref, seq<Ref>>)
    requires x in h
  {
    match h[x]
    case Str(hash) => |strt| > 0 && x in strt[hash % |strt|]
    case Open(th, _) => th in open && x in open[th]
    case _ => x in rootgc
  }

  ghost predicate Ring(h: Heap, uvhead: seq<Ref>) {
    NoDup(uvhead) && forall x :: x in uvhead <==> x in h && h[x].Open?
  }

  ghost predicate Anchors(s: State) {
    && s.main in s.fixed && s.main in s.Heap() && s.Heap()[s.main].Thread?
    && s.running in s.Heap() && s.Heap()[s.running].Thread?
    && (forall x :: x in s.fixed ==> x in s.Heap() && (s.Heap()[x].Str? || x == s.main))
  }

  ghost predicate Links(s: State) {
    && StackOk(s.Heap()) && TopOk(s.Heap())
    && RootList(s.Heap(), s.rootgc) && Buckets(s.Heap(), s.strt)
    && OpenLists(s.Heap(), s.open) && Ring(s.Heap(), s.uvhead)
    && (forall x :: x in s.Heap() ==> Listed(s.Heap(), x, s.rootgc, s.strt, s.open))
    && Anchors(s)
  }

  ghost predicate Shape(s: State) {
    s.Color().Keys == s.Heap().Keys && Kinds(s.Heap(), s.Color()) && Links(s)
  }

  // ----- the invariant -----

  /** Objects that are not dead refer to objects that are not dead, and the roots are not dead. */
  ghost predicate AliveClosed(s: State) {
    && (forall x, y :: Alive(s, x) && Edge(s.Heap(), x, y) ==> Alive(s, y))
    && (forall x :: x in Roots(s) ==> Alive(s, x))
  }

  ghost predicate IsCurrentWhite(s: State, x: Ref) {
    x in s.Color() && s.Color()[x] == White(s.white)
  }

  /** The sweep has still to visit `x'. */
  ghost predicate Pending(s: State, x: Ref)
    requires x in s.Heap()
  {
    match s.Heap()[x]
    case Str(hash) => s.phase == SweepString && |s.strt| > 0 && hash % |s.strt| >= s.sweepstr
    case Open(th, _) => s.sweepgc <= |s.rootgc| && th in s.rootgc[s.sweepgc..]
    case _ => s.sweepgc <= |s.rootgc| && x in s.rootgc[s.sweepgc..]
  }

  ghost predicate PhaseOk(s: State) {
    match s.phase
    case Pause => forall x :: x in s.Heap() ==> IsCurrentWhite(s, x)
    case Finalize => forall x :: x in s.Heap() ==> IsCurrentWhite(s, x)
    case Propagating =>
      && (forall x :: x in s.Heap() ==> !Dead(s, x))
      && Lists(s.Heap(), Marks(s.Color(), s.mk.gray), s.mk.again)
      && BlackOk(s.Heap(), s.Color())
      && Marked(s.Color(), s.main) && (s.registry.Gc? ==> Marked(s.Color(), s.registry.r))
    case SweepString =>
      && s.sweepstr < |s.strt| && s.sweepgc == 0
      && (forall x :: x in s.Heap() ==> IsCurrentWhite(s, x) || Pending(s, x))
    case Sweep =>
      && s.sweepgc <= |s.rootgc|
      && (forall x :: x in s.Heap() ==> IsCurrentWhite(s, x) || Pending(s, x))
  }

  ghost predicate Inv(s: State) {
    Shape(s) && AliveClosed(s) && PhaseOk(s)
  }

  /** What can be reached is not dead: the safety argument in one line. */
  lemma ReachableAlive(s: State, x: Ref)
    requires Inv(s) && Reachable(s, x)
    ensures Alive(s, x)
  {
    var X := set y | y in s.Heap() && !Dead(s, y);
    assert ClosedSet(s.Heap(), X) by {
      forall a, b | a in X && Edge(s.Heap(), a, b) ensures b in X {
        assert Alive(s, a) && Alive(s, b);
      }
    }
    forall r | r in Roots(s) ensures r in X { assert Alive(s, r); }
    ReachInClosedSet(s.Heap(), Roots(s), X, x);
  }

  // ----- the mark phase -----

  /** markroot */
  function MarkRoot(s: State): State
    requires Shape(s)
  {
    var h := s.Heap();
    var m := MarkAll(h, Marks(s.Color(), []), [Gc(s.main), h[s.main].gt, s.registry] + s.mt);
    s.(mk := Mk(h, m.color, m.gray, []), phase := Propagating)
  }

  /** remarkupvals: the values of gray open upvalues are marked again. */
  function RemarkUpvals(h: Heap, m: Marks, uvs: seq<Ref>): (n: Marks)
    requires m.color.Keys == h.Keys
    requires forall x :: x in uvs ==> x in h && h[x].Open?
    ensures n.color.Keys == h.Keys
    decreases |uvs|
  {
    if uvs == [] then m
    else
      assert uvs[0] in uvs && forall x :: x in uvs[1..] ==> x in uvs;
      var u := h[uvs[0]];
      RemarkUpvals(h, if m.color[uvs[0]] == Gray then MarkValue(h, m, Slot(h, u.th, u.idx)) else m, uvs[1..])
  }

  function Remarked(s: State): Mk
    requires Shape(s)
  {
    var m := RemarkUpvals(s.Heap(), Marks(s.Color(), s.mk.gray), s.uvhead);
    s.mk.(color := m.color, gray := m.gray)
  }

  function MarkMore(k: Mk, vs: seq<Value>): Mk
    requires k.color.Keys == k.heap.Keys
  {
    var m := MarkAll(k.heap, Marks(k.color, k.gray), vs);
    k.(color := m.color, gray := m.gray)
  }

  lemma ShadesRefl(h: Heap, m: Marks)
    ensures Shades(h, m, m)
  {
  }

  lemma RemarkFirst(h: Heap, m: Marks, b: Marks, n: Marks, x: Ref)
    requires m.color.Keys == h.Keys && x in h && h[x].Open? && Shades(h, m, b) && Shades(h, b, n)
    requires m.color[x] == Gray ==> b == MarkValue(h, m, Slot(h, h[x].th, h[x].idx))
    ensures m.color[x] == Gray ==> ChildrenMarked(h, n.color, x)
  {
    if m.color[x] == Gray {
      var v := Slot(h, h[x].th, h[x].idx);
      MarkValueShades(h, m, v);
      forall y | Edge(h, x, y) && y in h ensures Marked(n.color, y) { assert Gc(y) == v; assert Marked(b.color, y); }
    }
  }

  lemma {:induction false} RemarkShades(h: Heap, m: Marks, uvs: seq<Ref>)
    requires m.color.Keys == h.Keys
    requires forall x :: x in uvs ==> x in h && h[x].Open?
    ensures Shades(h, m, RemarkUpvals(h, m, uvs))
    ensures forall x :: x in uvs && Marked(m.color, x) && m.color[x] == Gray ==> ChildrenMarked(h, RemarkUpvals(h, m, uvs).color, x)
    decreases |uvs|
  {
    if uvs != [] {
      assert uvs[0] in uvs && forall x :: x in uvs[1..] ==> x in uvs;
      var u := h[uvs[0]];
      var b := if m.color[uvs[0]] == Gray then MarkValue(h, m, Slot(h, u.th, u.idx)) else m;
      var n := RemarkUpvals(h, b, uvs[1..]);
      MarkValueShades(h, m, Slot(h, u.th, u.idx));
      assert Shades(h, m, b) by { ShadesRefl(h, m); }
      RemarkShades(h, b, uvs[1..]);
      ShadesTrans(h, m, b, n);
      RemarkFirst(h, m, b, n, uvs[0]);
      forall x | x in uvs && Marked(m.color, x) && m.color[x] == Gray ensures ChildrenMarked(h, n.color, x) {
        assert Marked(b.color, x);
        if x != uvs[0] { assert x in uvs[1..]; }
      }
    }
  }

  lemma RemarkedOk(s: State)
    requires Shape(s) && Tri(s.mk)
    ensures Tri(Remarked(s)) && Sane(Remarked(s))
    ensures Remarked(s).heap == s.Heap() && Remarked(s).again == s.mk.again && StackOk(s.Heap()) && TopOk(s.Heap())
    ensures GrayOk(s.Heap(), Marks(Remarked(s).color, Remarked(s).gray), set x | x in s.mk.again)
    ensures forall x :: Marked(s.Color(), x) ==> Marked(Remarked(s).color, x)
  {
    var h, m := s.Heap(), Marks(s.Color(), s.mk.gray);
    var k := Remarked(s);
    var n := Marks(k.color, k.gray);
    RemarkShades(h, m, s.uvhead);
    ShadesLists(h, m, n, s.mk.again);
    ShadesBlack(h, m, n, {});
    forall x | x in h && n.color[x] == Gray && x !in n.gray && x !in s.mk.again ensures ChildrenMarked(h, n.color, x) {
      if h[x].Open? {
        if !Marked(m.color, x) { assert IsWhite(m.color, x) && Marked(n.color, x); }
      } else {
        assert h[x].Str?;
      }
    }
  }

  lemma MarkMoreOk(k: Mk, vs: seq<Value>, pend: set<Ref>)
    requires Tri(k)
    ensures Tri(MarkMore(k, vs)) && Sane(MarkMore(k, vs))
    ensures MarkMore(k, vs).heap == k.heap && MarkMore(k, vs).again == k.again
    ensures GrayOk(k.heap, Marks(k.color, k.gray), pend) ==>
              GrayOk(k.heap, Marks(MarkMore(k, vs).color, MarkMore(k, vs).gray), pend)
    ensures forall x :: Marked(k.color, x) ==> Marked(MarkMore(k, vs).color, x)
    ensures forall v :: v in vs && v.Gc? && v.r in k.heap ==> Marked(MarkMore(k, vs).color, v.r)
  {
    var m := Marks(k.color, k.gray);
    var n := MarkAll(k.heap, m, vs);
    MarkAllShades(k.heap, m, vs);
    ShadesLists(k.heap, m, n, k.again);
    ShadesBlack(k.heap, m, n, pend);
  }

  /** The first part of `atomic': upvalues, then the running thread and the basic metatables. */
  function AtomicRoots(s: State): Mk
    requires Shape(s) && Tri(s.mk)
  {
    RemarkedOk(s);
    var k2 := PropagateAll(Remarked(s));
    PropagateAllTri(Remarked(s), {});
    var vs := [Gc(s.running)] + s.mt;
    MarkMoreOk(k2, vs, {});
    PropagateAll(MarkMore(k2, vs))
  }

  lemma AnchorsIn(s: State, h: Heap)
    requires Shape(s) && SameRefs(s.Heap(), h)
    ensures s.running in h && h.Keys == s.Heap().Keys
  {
  }

  lemma WeakenGray(h: Heap, m: Marks, p: set<Ref>, q: set<Ref>)
    requires GrayOk(h, m, p) && p <= q
    ensures GrayOk(h, m, q)
  {
  }

  lemma AtomicRootsOk(s: State)
    requires Shape(s) && Tri(s.mk)
    ensures var k := AtomicRoots(s);
      && Tri(k) && Sane(k) && k.gray == [] && SameRefs(s.Heap(), k.heap) && StackOk(k.heap) && TopOk(k.heap)
      && GrayOk(k.heap, Marks(k.color, []), set x | x in k.again)
      && (forall x :: Marked(s.Color(), x) ==> Marked(k.color, x))
      && Marked(k.color, s.running)
      && (forall v :: v in s.mt && v.Gc? && v.r in s.Heap() ==> Marked(k.color, v.r))
  {
    hide Tri, Sane, Shape, Marked, GrayOk, StackOk, TopOk, SameRefs, MarkMore, Remarked, PropagateAll;
    var pend := set x | x in s.mk.again;
    var k1 := Remarked(s);
    RemarkedOk(s);
    var k2 := PropagateAll(k1);
    PropagateAllTri(k1, pend);
    var vs := [Gc(s.running)] + s.mt;
    var k3 := MarkMore(k2, vs);
    MarkMoreOk(k2, vs, pend);
    assert vs[0] in vs && forall v :: v in s.mt ==> v in vs;
    AnchorsIn(s, k2.heap);
    var k4 := PropagateAll(k3);
    PropagateAllTri(k3, pend);
    SameRefsTrans(s.Heap(), k2.heap, k4.heap);
    WeakenGray(k4.heap, Marks(k4.color, []), pend, set x | x in k4.again);
  }

  /** The marking done by `atomic', in three propagations. */
  function AtomicMarks(s: State): Mk
    requires Shape(s) && Tri(s.mk)
  {
    AtomicRootsOk(s);
    var k4 := AtomicRoots(s);
    PropagateAll(k4.(gray := k4.again, again := []))
  }

  /** atomic: finish marking, flip the white, prepare the sweep. */
  function Atomic(s: State): State
    requires Shape(s) && Tri(s.mk)
  {
    s.(mk := AtomicMarks(s), white := !s.white, sweepstr := 0, sweepgc := 0, phase := SweepString)
  }

  /** After the atomic step every marked object refers to marked objects only, and all roots are marked. */
  lemma AtomicMarksClosed(s: State)
    requires Shape(s) && Tri(s.mk)
    ensures var k := AtomicMarks(s);
      && Tri(k) && SameRefs(s.Heap(), k.heap) && StackOk(k.heap) && TopOk(k.heap)
      && (forall x :: x in k.heap && Marked(k.color, x) ==> ChildrenMarked(k.heap, k.color, x))
      && (forall x :: Marked(s.Color(), x) ==> Marked(k.color, x))
      && Marked(k.color, s.running)
      && (forall v :: v in s.mt && v.Gc? && v.r in s.Heap() ==> Marked(k.color, v.r))
  {
    hide Kinds, Lists, BlackOk, GrayOk, StackOk, TopOk, RootList, Buckets, OpenLists, Ring, Listed, SameRefs;
    AtomicRootsOk(s);
    var k4 := AtomicRoots(s);
    TakeAgain(k4);
    var k5 := k4.(gray := k4.again, again := []);
    var k := PropagateAll(k5);
    PropagateAllTri(k5, {});
    SameRefsTrans(s.Heap(), k4.heap, k.heap);
    AllTraversed(k);
  }


  lemma TakeAgain(k: Mk)
    requires Tri(k) && k.gray == [] && GrayOk(k.heap, Marks(k.color, []), set x | x in k.again)
    ensures var k' := k.(gray := k.again, again := []);
            Tri(k') && Sane(k') && GrayOk(k'.heap, Marks(k'.color, k'.gray), {})
  {
  }

  lemma AllTraversed(k: Mk)
    requires Tri(k) && k.gray == [] && GrayOk(k.heap, Marks(k.color, []), {})
    ensures forall x :: x in k.heap && Marked(k.color, x) ==> ChildrenMarked(k.heap, k.color, x)
  {
    forall x | x in k.heap && Marked(k.color, x) ensures ChildrenMarked(k.heap, k.color, x) {
      assert k.color[x] == Gray || k.color[x] == Black;
    }
  }
}
