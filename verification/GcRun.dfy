/** Every run: allocation, stores, upvalues and steps of the collector in any order. */
module GcRun {
  import opened GcHeap
  import opened GcMark
  import opened GcState
  import opened GcCycle
  import opened GcSweep
  import opened GcStep
  import opened GcCollect
  import opened GcFull
  import opened GcMutator

  /** What the program and the collector can do to the state. New objects and interned strings are
      put on the stack of the running thread, whose new contents are `run'. */
  datatype Event =
    | Step
    | Full
    | NewObject(x: Ref, o: Object, run: Object)
    | Intern(x: Ref, run: Object)
    | SetThread(x: Ref, o: Object)
    | SetOpenUpval(x: Ref, v: Value)
    | StoreField(x: Ref, o: Object, v: Value)
    | StoreTable(x: Ref, o: Object, k: Value, v: Value)
    | FindUpval(level: nat, u: Ref)
    | Close(level: nat)
    | SetBasicMt(i: nat, v: Value)
    | Resume(th: Ref)
    | FixString(x: Ref)
    | ResizeTable(size: nat)

  /** A value the program can have at hand: reachable, or an upvalue luaF_findupval just gave out. */
  ghost predicate Held(s: State, v: Value) {
    v.Gc? ==> Reachable(s, v.r) || (s.running in s.open && v.r in s.open[s.running] && Alive(s, v.r))
  }

  /** The new contents of a thread: values at hand, and `x' if it is given. */
  ghost predicate ThreadFits(s: State, th: Ref, o: Object, x: Value) {
    && o.Thread? && Fits(s, th, o)
    && forall v :: v in Fields(s.Heap(), o) ==> Held(s, v) || v == x
  }

  ghost predicate Enabled(s: State, e: Event) {
    match e
    case Step => true
    case Full => true
    case NewObject(x, o, run) =>
      && x !in s.Heap() && !o.Open? && (o.Thread? ==> o.top <= |o.stack|)
      && (forall v :: v in Fields(s.Heap(), o) ==> Held(s, v))
      && ThreadFits(s, s.running, run, Gc(x))
    case Intern(x, run) => x in s.Heap() && s.Heap()[x].Str? && ThreadFits(s, s.running, run, Gc(x))
    case SetThread(x, o) => Reachable(s, x) && ThreadFits(s, x, o, Nil)
    case SetOpenUpval(x, v) => Reachable(s, x) && x in s.Heap() && s.Heap()[x].Open? && Held(s, v)
    case StoreField(x, o, v) =>
      && Reachable(s, x) && Held(s, v) && !o.Table? && !o.Thread? && !o.Open?
      && Fits(s, x, o) && Adds(s, x, o, v, Nil)
    case StoreTable(x, o, k, v) =>
      && Reachable(s, x) && Held(s, k) && Held(s, v) && o.Table? && Fits(s, x, o) && Adds(s, x, o, k, v)
    case FindUpval(level, u) =>
      u !in s.Heap() && s.running in s.Heap() && s.Heap()[s.running].Thread? && level < s.Heap()[s.running].top
    case Close(level) => true
    case SetBasicMt(i, v) => i < |s.mt| && Held(s, v)
    case Resume(th) => Reachable(s, th) && th in s.Heap() && s.Heap()[th].Thread?
    case FixString(x) => Reachable(s, x) && x in s.Heap() && s.Heap()[x].Str?
    case ResizeTable(size) => size > 0
  }

  // ----- allocation -----

  function IndexOf(xs: seq<Ref>, x: Ref): (i: nat)
    ensures i <= |xs| && (x in xs ==> i < |xs| && xs[i] == x)
  {
    if xs == [] || xs[0] == x then 0 else 1 + IndexOf(xs[1..], x)
  }

  /** Insert into `rootgc'; a sweep that has got past the place keeps its place. */
  function LinkAt(s: State, pos: nat, x: Ref): State
    requires pos <= |s.rootgc|
  {
    s.(rootgc := s.rootgc[..pos] + [x] + s.rootgc[pos..],
       sweepgc := if s.sweepgc <= pos then s.sweepgc else s.sweepgc + 1)
  }

  /** luaC_link, luaS_newudata and newlstr: a new object is current white and goes to the front of
      `rootgc', behind the main thread (userdata), or into its bucket (strings). */
  function Allocate(s: State, x: Ref, o: Object): (s': State)
    ensures s'.Heap() == s.Heap()[x := o] && s'.Color() == s.Color()[x := White(s.white)] && |s'.strt| == |s.strt|
  {
    var s1 := s.(mk := s.mk.(heap := s.Heap()[x := o], color := s.Color()[x := White(s.white)]),
                 open := if o.Thread? then s.open[x := []] else s.open);
    match o
    case Str(hash) =>
      if |s.strt| == 0 then s1
      else s1.(strt := s.strt[hash % |s.strt| := [x] + s.strt[hash % |s.strt|]])
    case Udata(_, _) =>
      var i := IndexOf(s.rootgc, s.main);
      LinkAt(s1, if i < |s.rootgc| then i + 1 else i, x)
    case _ => LinkAt(s1, 0, x)
  }

  ghost predicate FreshObject(s: State, x: Ref, o: Object) {
    && x !in s.Heap() && !o.Open? && (o.Thread? ==> o.top <= |o.stack|)
    && forall v :: v in Fields(s.Heap(), o) ==> AliveValue(s, v)
  }

  lemma AllocateState(s: State, x: Ref, o: Object)
    ensures var s' := Allocate(s, x, o);
      && s'.Heap() == s.Heap()[x := o] && s'.Color() == s.Color()[x := White(s.white)]
      && Roots(s') == Roots(s) && s'.white == s.white && s'.phase == s.phase && s'.mk.gray == s.mk.gray && s'.mk.again == s.mk.again
      && s'.main == s.main && s'.registry == s.registry && s'.running == s.running && s'.fixed == s.fixed && s'.uvhead == s.uvhead
      && s'.open == if o.Thread? then s.open[x := []] else s.open
  {
  }

  lemma AllocateFields(s: State, x: Ref, o: Object)
    requires Shape(s) && FreshObject(s, x, o)
    ensures var h' := s.Heap()[x := o];
      && StackOk(h') && TopOk(h') && Kinds(h', s.Color()[x := White(s.white)])
      && (forall y :: y in s.Heap() ==> Fields(h', s.Heap()[y]) == Fields(s.Heap(), s.Heap()[y]))
      && Fields(h', o) == Fields(s.Heap(), o)
  {
    hide RootList, Buckets, OpenLists, Ring, Listed, Anchors, Fields;
    var h' := s.Heap()[x := o];
    forall y | y in s.Heap() ensures Fields(h', s.Heap()[y]) == Fields(s.Heap(), s.Heap()[y]) {
      FieldsApart(s.Heap(), h', x, s.Heap()[y]);
    }
    FieldsApart(s.Heap(), h', x, o);
  }

  /** The fields of an object do not depend on a new one; those of an open upvalue are its thread's. */
  lemma FieldsApart(h: Heap, h': Heap, x: Ref, o: Object)
    requires x in h' && h' == h[x := h'[x]] && (o.Open? ==> o.th != x)
    ensures Fields(h', o) == Fields(h, o)
  {
  }

  lemma AllocateBucket(s: State, x: Ref, o: Object)
    requires Shape(s) && x !in s.Heap()
    ensures var s' := Allocate(s, x, o);
      && Buckets(s'.Heap(), s'.strt)
      && (forall b, y :: 0 <= b < |s.strt| && y in s.strt[b] ==> y in s'.strt[b])
      && (o.Str? ==> x in s'.strt[o.hash % |s'.strt|]) && |s'.strt| == |s.strt|
  {
    hide RootList, OpenLists, Ring, Listed, Anchors, StackOk, TopOk, Kinds;
    assert forall b :: 0 <= b < |s.strt| ==> x !in s.strt[b];
    AllocateState(s, x, o);
    var s' := Allocate(s, x, o);
    forall b | 0 <= b < |s'.strt| ensures NoDup(s'.strt[b]) {
      assert NoDup(s.strt[b]);
    }
  }

  lemma AllocateLists(s: State, x: Ref, o: Object)
    requires Shape(s) && FreshObject(s, x, o)
    ensures var s' := Allocate(s, x, o);
      && RootList(s'.Heap(), s'.rootgc) && Ring(s'.Heap(), s'.uvhead) && Anchors(s')
      && (forall y :: y in s.rootgc ==> y in s'.rootgc) && (!o.Str? ==> x in s'.rootgc)
  {
    hide OpenLists, Listed, StackOk, TopOk, Kinds, Buckets, FreshObject, Fields;
    FreshIn(s, x, o);
    AllocateState(s, x, o);
    assert x !in s.rootgc && x !in s.uvhead;
    AllocateRoot(s, x, o);
    hide Allocate;
    assert RootList(Allocate(s, x, o).Heap(), Allocate(s, x, o).rootgc);
  }

  lemma AllocateRoot(s: State, x: Ref, o: Object)
    requires NoDup(s.rootgc) && x !in s.rootgc
    ensures var s' := Allocate(s, x, o);
      && NoDup(s'.rootgc) && (forall y :: y in s.rootgc ==> y in s'.rootgc) && (!o.Str? ==> x in s'.rootgc)
      && (forall y :: y in s'.rootgc ==> y in s.rootgc || (y == x && !o.Str?))
  {
    hide NoDup;
    var i := IndexOf(s.rootgc, s.main);
    InsertMember(s.rootgc, 0, x);
    InsertMember(s.rootgc, if i < |s.rootgc| then i + 1 else i, x);
  }

  lemma InsertMember(xs: seq<Ref>, pos: nat, x: Ref)
    requires pos <= |xs|
    ensures forall y :: y in xs[..pos] + [x] + xs[pos..] <==> y == x || y in xs
    ensures NoDup(xs) && x !in xs ==> NoDup(xs[..pos] + [x] + xs[pos..])
  {
    var r := xs[..pos] + [x] + xs[pos..];
    assert forall y :: y in xs <==> y in xs[..pos] || y in xs[pos..] by { assert xs == xs[..pos] + xs[pos..]; }
    if NoDup(xs) && x !in xs {
      forall i, j | 0 <= i < j < |r| ensures r[i] != r[j] {
        assert r[i] == if i < pos then xs[i] else if i == pos then x else xs[i - 1];
        assert r[j] == if j < pos then xs[j] else if j == pos then x else xs[j - 1];
      }
    }
  }

  lemma AllocateDescending(s: State, x: Ref, o: Object, th: Ref)
    requires Shape(s) && FreshObject(s, x, o) && th in s.open
    ensures Descending(s.Heap()[x := o], s.open[th])
  {
    hide RootList, Buckets, Ring, Listed, Anchors, StackOk, TopOk, Kinds, Descending;
    var h' := s.Heap()[x := o];
    assert forall y :: y in s.open[th] ==> y in h' && h'[y] == s.Heap()[y];
    DescendingIn(s.Heap(), h', s.open[th]);
  }

  lemma AllocateOpen(s: State, x: Ref, o: Object)
    requires Shape(s) && FreshObject(s, x, o)
    ensures OpenLists(Allocate(s, x, o).Heap(), Allocate(s, x, o).open)
  {
    hide RootList, Buckets, Ring, Listed, Anchors, StackOk, TopOk, Kinds, Descending;
    var s' := Allocate(s, x, o);
    var h' := s.Heap()[x := o];
    assert s'.Heap() == h' && s'.open == if o.Thread? then s.open[x := []] else s.open;
    forall th | th in s.open ensures Descending(h', s.open[th]) { AllocateDescending(s, x, o, th); }
    EmptyDescending(h');
    forall th, y | th in s'.open && y in s'.open[th] ensures y in h' && h'[y].Open? && h'[y].th == th {
      AllocateOwner(s, x, o, th, y);
    }
  }

  lemma AllocateOwner(s: State, x: Ref, o: Object, th: Ref, y: Ref)
    requires Shape(s) && FreshObject(s, x, o) && th in Allocate(s, x, o).open && y in Allocate(s, x, o).open[th]
    ensures var h' := s.Heap()[x := o]; y in h' && h'[y].Open? && h'[y].th == th
  {
    hide RootList, Buckets, Ring, Listed, Anchors, StackOk, TopOk, Kinds, Descending;
    assert th in s.open && y in s.open[th];
  }

  lemma EmptyDescending(h: Heap)
    ensures Descending(h, [])
  {
  }

  lemma FreshIn(s: State, x: Ref, o: Object)
    requires FreshObject(s, x, o)
    ensures x !in s.Heap() && !o.Open?
  {
  }

  lemma AllocateLinks(s: State, x: Ref, o: Object)
    requires Shape(s) && FreshObject(s, x, o)
    ensures Shape(Allocate(s, x, o))
  {
    hide RootList, Buckets, Ring, Anchors, StackOk, TopOk, Kinds, FreshObject, OpenLists, Allocate;
    AllocateState(s, x, o);
    AllocateFields(s, x, o);
    FreshIn(s, x, o);
    AllocateBucket(s, x, o);
    AllocateLists(s, x, o);
    AllocateOpen(s, x, o);
    AllocateListed(s, x, o);
  }

  lemma AllocateListed(s: State, x: Ref, o: Object)
    requires Shape(s) && FreshObject(s, x, o)
    ensures var s' := Allocate(s, x, o); forall y :: y in s'.Heap() ==> Listed(s'.Heap(), y, s'.rootgc, s'.strt, s'.open)
  {
    hide RootList, Ring, Anchors, StackOk, TopOk, Kinds, OpenLists, Allocate;
    AllocateState(s, x, o);
    AllocateBucket(s, x, o);
    AllocateLists(s, x, o);
    AllocateOpens(s, x, o);
    var s' := Allocate(s, x, o);
    forall y | y in s'.Heap() ensures Listed(s'.Heap(), y, s'.rootgc, s'.strt, s'.open) {
      if y != x { assert Listed(s.Heap(), y, s.rootgc, s.strt, s.open); }
    }
  }

  lemma AllocateOpens(s: State, x: Ref, o: Object)
    requires Shape(s) && FreshObject(s, x, o)
    ensures forall th :: th in s.open ==> th in Allocate(s, x, o).open && Allocate(s, x, o).open[th] == s.open[th]
  {
    hide RootList, Buckets, Ring, Listed, Anchors, StackOk, TopOk, Kinds, Allocate, Descending;
    AllocateState(s, x, o);
    assert x !in s.open;
  }

  /** The new object is not dead, refers to objects that are not dead, and needs no sweep. */
  lemma AllocateInv(s: State, x: Ref, o: Object)
    requires Inv(s) && FreshObject(s, x, o)
    ensures Inv(Allocate(s, x, o))
    ensures forall y :: Alive(s, y) ==> Alive(Allocate(s, x, o), y)
    ensures Alive(Allocate(s, x, o), x)
  {
    hide Links, Kinds, FreshObject, Lists, BlackOk, Pending;
    AllocateLinks(s, x, o);
    AllocateAlive(s, x, o);
    if s.phase == Propagating {
      AllocateBlack(s, x, o);
    } else {
      AllocatePhase(s, x, o);
    }
  }

  lemma AllocateAlive(s: State, x: Ref, o: Object)
    requires Inv(s) && FreshObject(s, x, o)
    ensures AliveClosed(Allocate(s, x, o))
    ensures forall y :: Alive(s, y) ==> Alive(Allocate(s, x, o), y)
    ensures Alive(Allocate(s, x, o), x)
  {
    hide Links, Kinds, Lists, BlackOk, Pending, PhaseOk, Allocate;
    AllocateState(s, x, o);
    AllocateFields(s, x, o);
    var s' := Allocate(s, x, o);
    forall y, z | Alive(s', y) && Edge(s'.Heap(), y, z) ensures Alive(s', z) {
      if y == x {
        assert Gc(z) in Fields(s.Heap(), o);
        assert AliveValue(s, Gc(z));
      } else {
        assert Alive(s, y) && Edge(s.Heap(), y, z);
      }
      assert Alive(s, z);
    }
    forall y | y in Roots(s') ensures Alive(s', y) { assert Alive(s, y); }
  }

  lemma AllocateBlack(s: State, x: Ref, o: Object)
    requires Inv(s) && FreshObject(s, x, o) && s.phase == Propagating
    ensures PhaseOk(Allocate(s, x, o))
  {
    hide Links, AliveClosed, Pending, Allocate, BlackOk, FreshObject, Lists, Kinds;
    FreshIn(s, x, o);
    AllocateState(s, x, o);
    AllocateGray(s, x, o);
    InvAnchors(s);
    AllocateBlackOk(s, x, o);
  }

  lemma AllocateGray(s: State, x: Ref, o: Object)
    requires Kinds(s.Heap(), s.Color()) && Lists(s.Heap(), Marks(s.Color(), s.mk.gray), s.mk.again) && x !in s.Heap()
    ensures Lists(s.Heap()[x := o], Marks(s.Color()[x := White(s.white)], s.mk.gray), s.mk.again)
  {
  }

  lemma AllocateBlackOk(s: State, x: Ref, o: Object)
    requires Inv(s) && FreshObject(s, x, o) && s.phase == Propagating
    ensures BlackOk(s.Heap()[x := o], s.Color()[x := White(s.white)])
  {
    hide Links, AliveClosed, Pending, Lists;
    AllocateFields(s, x, o);
    var h', c' := s.Heap()[x := o], s.Color()[x := White(s.white)];
    forall y | y in h' && y in c' && c'[y] == Black ensures ChildrenMarked(h', c', y) {
      assert ChildrenMarked(s.Heap(), s.Color(), y);
      forall z | Edge(h', y, z) && z in h' ensures Marked(c', z) {
        assert Edge(s.Heap(), y, z);
        EdgeIn(s, y, z);
      }
    }
  }

  lemma EdgeIn(s: State, y: Ref, z: Ref)
    requires Inv(s) && s.phase == Propagating && Edge(s.Heap(), y, z)
    ensures z in s.Heap()
  {
    assert Alive(s, y);
    assert Alive(s, z);
  }

  lemma LinkPending(s: State, pos: nat, x: Ref, y: Ref)
    requires pos <= |s.rootgc| && s.sweepgc <= |s.rootgc| && y in s.rootgc[s.sweepgc..]
    ensures y in LinkAt(s, pos, x).rootgc[LinkAt(s, pos, x).sweepgc..]
  {
    var s' := LinkAt(s, pos, x);
    var i :| s.sweepgc <= i < |s.rootgc| && s.rootgc[i] == y;
    var j := if i < pos then i else i + 1;
    assert s'.rootgc[j] == y && j >= s'.sweepgc;
  }

  lemma AllocatePhase(s: State, x: Ref, o: Object)
    requires Inv(s) && FreshObject(s, x, o) && s.phase != Propagating
    ensures PhaseOk(Allocate(s, x, o))
  {
    hide Links, AliveClosed, Pending, Lists, BlackOk, Kinds;
    var s' := Allocate(s, x, o);
    AllocateState(s, x, o);
    AllocateSizes(s, x, o);
    forall y | y in s'.Heap() && !IsCurrentWhite(s', y) && (s.phase == Sweep || s.phase == SweepString) ensures Pending(s', y) {
      assert y != x && !IsCurrentWhite(s, y);
      AllocatePending(s, x, o, y);
    }
  }

  lemma AllocateSizes(s: State, x: Ref, o: Object)
    requires Shape(s) && (s.phase == Sweep || s.phase == SweepString ==> s.sweepgc <= |s.rootgc|)
    ensures var s' := Allocate(s, x, o);
      && |s'.strt| == |s.strt| && s'.sweepstr == s.sweepstr && (s.sweepgc == 0 ==> s'.sweepgc == 0)
      && (s.phase == Sweep || s.phase == SweepString ==> s'.sweepgc <= |s'.rootgc|)
  {
    hide RootList, OpenLists, Ring, Listed, Anchors, StackOk, TopOk, Kinds;
  }

  lemma AllocatePending(s: State, x: Ref, o: Object, y: Ref)
    requires Shape(s) && PhaseOk(s) && FreshObject(s, x, o) && (s.phase == Sweep || s.phase == SweepString)
    requires y in s.Heap() && Pending(s, y)
    ensures Pending(Allocate(s, x, o), y)
  {
    hide RootList, OpenLists, Ring, Listed, Anchors, StackOk, TopOk, Kinds;
    hide Allocate;
    AllocateState(s, x, o);
    AllocateSizes(s, x, o);
    if !s.Heap()[y].Str? {
      AllocateRootgc(s, x, o, if s.Heap()[y].Open? then s.Heap()[y].th else y);
    }
  }

  lemma AllocateRootgc(s: State, x: Ref, o: Object, z: Ref)
    requires s.sweepgc <= |s.rootgc| && z in s.rootgc[s.sweepgc..]
    ensures var s' := Allocate(s, x, o); s'.sweepgc <= |s'.rootgc| && z in s'.rootgc[s'.sweepgc..]
  {
    hide IndexOf;
    if o.Udata? {
      var i := IndexOf(s.rootgc, s.main);
      LinkPending(s, if i < |s.rootgc| then i + 1 else i, x, z);
    } else if !o.Str? {
      LinkPending(s, 0, x, z);
    }
  }
}
