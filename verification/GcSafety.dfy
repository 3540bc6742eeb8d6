/** Open upvalues, the effect of every event, and the safety of all runs. */
module GcSafety {
  import opened GcHeap
  import opened GcMark
  import opened GcState
  import opened GcCycle
  import opened GcSweep
  import opened GcStep
  import opened GcCollect
  import opened GcFull
  import opened GcMutator
  import opened GcRun
  import opened GcStrings

  /** A dead object that the program still finds, in the string table or in the list of open
      upvalues, is brought back by giving it the other white. */
  function Resurrect(s: State, x: Ref): State {
    if Dead(s, x) then s.(mk := s.mk.(color := s.Color()[x := White(s.white)])) else s
  }

  lemma ResurrectInv(s: State, x: Ref)
    requires Inv(s) && x in s.Heap()
    requires forall y :: Edge(s.Heap(), x, y) ==> Alive(s, y)
    ensures Inv(Resurrect(s, x)) && Alive(Resurrect(s, x), x)
    ensures forall y :: Alive(s, y) ==> Alive(Resurrect(s, x), y)
  {
    hide Links, Lists, BlackOk, Pending, Fields;
    if Dead(s, x) {
      assert s.phase == Sweep || s.phase == SweepString by { assert s.white != !s.white; }
      var s' := Resurrect(s, x);
      LinksIgnoreColor(s, s');
      ResurrectAlive(s, x);
      ResurrectPhase(s, x);
    }
  }

  lemma ResurrectAlive(s: State, x: Ref)
    requires Inv(s) && x in s.Heap() && Dead(s, x)
    requires forall y :: Edge(s.Heap(), x, y) ==> Alive(s, y)
    ensures AliveClosed(Resurrect(s, x)) && Alive(Resurrect(s, x), x)
    ensures forall y :: Alive(s, y) ==> Alive(Resurrect(s, x), y)
  {
    hide Links, Lists, BlackOk, Pending, Fields, PhaseOk, Kinds;
    var s' := Resurrect(s, x);
    forall y, z | Alive(s', y) && Edge(s'.Heap(), y, z) ensures Alive(s', z) {
      if y != x { assert Alive(s, y); }
      assert Alive(s, z);
    }
    forall y | y in Roots(s') ensures Alive(s', y) { assert Alive(s, y); }
  }

  lemma ResurrectPhase(s: State, x: Ref)
    requires Inv(s) && x in s.Heap() && Dead(s, x) && (s.phase == Sweep || s.phase == SweepString)
    ensures PhaseOk(Resurrect(s, x))
  {
    hide Links, AliveClosed, Pending, Kinds;
    var s' := Resurrect(s, x);
    forall y | y in s'.Heap() && !IsCurrentWhite(s', y) ensures Pending(s', y) {
      assert Pending(s, y);
      PendingIgnoresColor(s, s', y);
    }
  }

  // ----- luaF_findupval -----

  /** Where the loop of luaF_findupval stops: the first upvalue at or below the level. */
  function Position(h: Heap, uvs: seq<Ref>, level: nat): (i: nat)
    requires forall x :: x in uvs ==> x in h && h[x].Open?
    ensures i <= |uvs|
  {
    if uvs == [] || h[uvs[0]].idx <= level then 0
    else
      assert uvs[0] in uvs && forall x :: x in uvs[1..] ==> x in uvs;
      1 + Position(h, uvs[1..], level)
  }

  lemma {:induction false} PositionSplits(h: Heap, uvs: seq<Ref>, level: nat)
    requires Descending(h, uvs) && forall x :: x in uvs ==> x in h && h[x].Open?
    ensures var i := Position(h, uvs, level);
      && (forall j :: 0 <= j < i ==> h[uvs[j]].idx > level)
      && (forall j :: i <= j < |uvs| ==> h[uvs[j]].idx <= level)
  {
    if uvs != [] && h[uvs[0]].idx > level {
      assert uvs[0] in uvs && forall x :: x in uvs[1..] ==> x in uvs;
      PositionSplits(h, uvs[1..], level);
      var i := Position(h, uvs[1..], level);
      assert forall j :: 1 <= j < |uvs| ==> uvs[j] == uvs[1..][j - 1];
    }
  }

  /** The open upvalue of the slot `level' of the running thread, if there is one. */
  function Existing(s: State, level: nat): (i: nat)
    requires Shape(s)
    ensures s.running in s.open && i <= |s.open[s.running]|
  {
    assert s.running in s.open;
    Position(s.Heap(), s.open[s.running], level)
  }

  predicate Shared(s: State, level: nat)
    requires Shape(s)
  {
    var i, uvs := Existing(s, level), s.open[s.running];
    i < |uvs| && uvs[i] in s.Heap() && s.Heap()[uvs[i]] == Open(s.running, level)
  }

  /** luaF_findupval: the result is the upvalue `FoundUpval'. */
  function FindUpval(s: State, level: nat, u: Ref): State
    requires Shape(s)
  {
    var th, i := s.running, Existing(s, level);
    var uvs := s.open[th];
    if Shared(s, level) then Resurrect(s, uvs[i])
    else s.(mk := s.mk.(heap := s.Heap()[u := Open(th, level)], color := s.Color()[u := White(s.white)]),
            open := s.open[th := uvs[..i] + [u] + uvs[i..]], uvhead := [u] + s.uvhead)
  }

  function FoundUpval(s: State, level: nat, u: Ref): Ref
    requires Shape(s)
  {
    if Shared(s, level) then s.open[s.running][Existing(s, level)] else u
  }

  lemma FindLists(s: State, level: nat, u: Ref)
    requires Shape(s) && u !in s.Heap() && !Shared(s, level) && level < s.Heap()[s.running].top
    ensures var s' := FindUpval(s, level, u);
      && OpenLists(s'.Heap(), s'.open) && Ring(s'.Heap(), s'.uvhead)
  {
    hide RootList, Buckets, Listed, StackOk, TopOk, Kinds, Descending;
    var s', h', th := FindUpval(s, level, u), s.Heap()[u := Open(s.running, level)], s.running;
    forall t | t in s.open ensures Descending(h', s.open[t]) {
      assert forall y :: y in s.open[t] ==> y in h' && h'[y] == s.Heap()[y];
      DescendingIn(s.Heap(), h', s.open[t]);
    }
    FindDescending(s, level, u);
    InsertMember(s.open[th], Existing(s, level), u);
    forall t, y | t in s'.open && y in s'.open[t] ensures y in h' && h'[y].Open? && h'[y].th == t {
      if t == th && y != u { assert y in s.open[th]; }
    }
    assert u !in s.uvhead;
  }

  /** Inserting between the upvalues above a level and those below it keeps a list descending. */
  lemma InsertDescending(h: Heap, uvs: seq<Ref>, i: nat, u: Ref, o: Object)
    requires Descending(h, uvs) && i <= |uvs| && u !in h && o.Open?
    requires forall j :: 0 <= j < i ==> h[uvs[j]].idx > o.idx
    requires forall j :: i <= j < |uvs| ==> h[uvs[j]].idx < o.idx
    ensures Descending(h[u := o], uvs[..i] + [u] + uvs[i..])
  {
    var r, h' := uvs[..i] + [u] + uvs[i..], h[u := o];
    assert forall k :: 0 <= k < i ==> r[k] == uvs[k];
    assert r[i] == u;
    assert forall k :: i < k < |r| ==> r[k] == uvs[k - 1];
    assert forall k :: 0 <= k < |uvs| ==> uvs[k] in h && h'[uvs[k]] == h[uvs[k]];
  }

  lemma FindDescending(s: State, level: nat, u: Ref)
    requires Shape(s) && u !in s.Heap() && !Shared(s, level)
    ensures var uvs, i := s.open[s.running], Existing(s, level);
      Descending(s.Heap()[u := Open(s.running, level)], uvs[..i] + [u] + uvs[i..])
  {
    hide RootList, Buckets, Listed, StackOk, TopOk, Kinds, Ring;
    var h, th, i := s.Heap(), s.running, Existing(s, level);
    var uvs := s.open[th];
    assert Descending(h, uvs);
    PositionSplits(h, uvs, level);
    forall j | i <= j < |uvs| ensures h[uvs[j]].idx < level {
      assert uvs[i] in uvs && h[uvs[i]].th == th;
      if j > i { assert h[uvs[i]].idx > h[uvs[j]].idx; }
    }
    InsertDescending(h, uvs, i, u, Open(th, level));
  }

  lemma FindLinks(s: State, level: nat, u: Ref)
    requires Shape(s) && u !in s.Heap() && !Shared(s, level) && level < s.Heap()[s.running].top
    ensures Shape(FindUpval(s, level, u))
  {
    hide RootList, Buckets, OpenLists, Ring, StackOk, TopOk, Kinds;
    FindLists(s, level, u);
    FindRest(s, level, u);
    var s', th := FindUpval(s, level, u), s.running;
    InsertMember(s.open[th], Existing(s, level), u);
    forall y | y in s'.Heap() ensures Listed(s'.Heap(), y, s'.rootgc, s'.strt, s'.open) {
      if y != u { assert Listed(s.Heap(), y, s.rootgc, s.strt, s.open); }
    }
  }

  lemma OpenOwner(s: State, y: Ref)
    requires Shape(s) && y in s.Heap() && s.Heap()[y].Open?
    ensures s.Heap()[y].th in s.Heap()
  {
    hide OpenLists, Ring, Listed, RootList, Buckets, Kinds, TopOk;
  }

  lemma FindObjects(s: State, level: nat, u: Ref)
    requires Shape(s) && u !in s.Heap() && level < s.Heap()[s.running].top
    ensures var h' := s.Heap()[u := Open(s.running, level)];
      StackOk(h') && TopOk(h') && Kinds(h', s.Color()[u := White(s.white)])
  {
    hide OpenLists, Ring, Listed, RootList, Buckets, Fields;
  }

  lemma FindRootLists(s: State, level: nat, u: Ref)
    requires Shape(s) && u !in s.Heap() && level < s.Heap()[s.running].top
    ensures var h' := s.Heap()[u := Open(s.running, level)];
      RootList(h', s.rootgc) && Buckets(h', s.strt)
  {
    hide OpenLists, Ring, Listed, StackOk, TopOk, Kinds, Fields;
  }

  lemma FindRest(s: State, level: nat, u: Ref)
    requires Shape(s) && u !in s.Heap() && level < s.Heap()[s.running].top
    ensures var h' := s.Heap()[u := Open(s.running, level)];
      && StackOk(h') && TopOk(h') && Kinds(h', s.Color()[u := White(s.white)])
      && RootList(h', s.rootgc) && Buckets(h', s.strt)
      && (forall y :: y in s.Heap() ==> Fields(h', s.Heap()[y]) == Fields(s.Heap(), s.Heap()[y]))
  {
    hide Fields, StackOk, TopOk, Kinds, RootList, Buckets, OpenLists, Ring, Listed;
    var h' := s.Heap()[u := Open(s.running, level)];
    FindObjects(s, level, u);
    FindRootLists(s, level, u);
    forall y | y in s.Heap() ensures Fields(h', s.Heap()[y]) == Fields(s.Heap(), s.Heap()[y]) {
      if s.Heap()[y].Open? { OpenOwner(s, y); }
      FieldsApart(s.Heap(), h', u, s.Heap()[y]);
    }
  }

  /** The slot of an open upvalue of a live thread holds nothing dead. */
  lemma SlotAlive(s: State, level: nat)
    requires Inv(s) && level < s.Heap()[s.running].top
    ensures AliveValue(s, Slot(s.Heap(), s.running, level))
  {
    hide RootList, Buckets, OpenLists, Ring, Listed, StackOk, Kinds, PhaseOk;
    var t := s.Heap()[s.running];
    assert Alive(s, s.running);
    var v := Slot(s.Heap(), s.running, level);
    assert v == t.stack[level] && t.stack[..t.top][level] == v;
    assert v in Fields(s.Heap(), t);
    if v.Gc? { assert Edge(s.Heap(), s.running, v.r); }
  }

  lemma FindAlive(s: State, level: nat, u: Ref)
    requires Inv(s) && u !in s.Heap() && !Shared(s, level) && level < s.Heap()[s.running].top
    ensures AliveClosed(FindUpval(s, level, u)) && Alive(FindUpval(s, level, u), u)
    ensures forall y :: Alive(s, y) ==> Alive(FindUpval(s, level, u), y)
  {
    hide RootList, Buckets, OpenLists, Ring, Listed, StackOk, TopOk, Kinds, PhaseOk;
    var s' := FindUpval(s, level, u);
    FindRest(s, level, u);
    SlotAlive(s, level);
    forall y, z | Alive(s', y) && Edge(s'.Heap(), y, z) ensures Alive(s', z) {
      if y == u {
        assert Gc(z) == Slot(s.Heap(), s.running, level);
      } else {
        assert Alive(s, y) && Edge(s.Heap(), y, z);
      }
      assert Alive(s, z);
    }
    forall y | y in Roots(s') ensures Alive(s', y) { assert Alive(s, y); }
  }

  lemma FindPhase(s: State, level: nat, u: Ref)
    requires Inv(s) && u !in s.Heap() && !Shared(s, level) && level < s.Heap()[s.running].top
    ensures PhaseOk(FindUpval(s, level, u))
  {
    hide Links, Kinds, Lists, AliveClosed, BlackOk, Existing, Shared;
    var s' := FindUpval(s, level, u);
    if s.phase == Propagating {
      InvAnchors(s);
      FindBlack(s, level, u);
      FindGray(s, u, level);
    } else {
      forall y | y in s'.Heap() && !IsCurrentWhite(s', y) && (s.phase == Sweep || s.phase == SweepString) ensures Pending(s', y) {
        assert Pending(s, y);
      }
    }
  }

  lemma FindGray(s: State, u: Ref, level: nat)
    requires Kinds(s.Heap(), s.Color()) && Lists(s.Heap(), Marks(s.Color(), s.mk.gray), s.mk.again) && u !in s.Heap()
    ensures Lists(s.Heap()[u := Open(s.running, level)], Marks(s.Color()[u := White(s.white)], s.mk.gray), s.mk.again)
  {
  }

  lemma FindBlack(s: State, level: nat, u: Ref)
    requires Inv(s) && u !in s.Heap() && level < s.Heap()[s.running].top && s.phase == Propagating
    ensures BlackOk(s.Heap()[u := Open(s.running, level)], s.Color()[u := White(s.white)])
  {
    hide Links, AliveClosed, Pending, Lists;
    FindRest(s, level, u);
    var h', c' := s.Heap()[u := Open(s.running, level)], s.Color()[u := White(s.white)];
    forall y | y in h' && y in c' && c'[y] == Black ensures ChildrenMarked(h', c', y) {
      assert ChildrenMarked(s.Heap(), s.Color(), y);
      forall z | Edge(h', y, z) && z in h' ensures Marked(c', z) {
        assert Edge(s.Heap(), y, z);
        EdgeIn(s, y, z);
      }
    }
  }

  /** luaF_findupval keeps the invariant and gives out the one open upvalue of the slot; if another
      one is later asked for at the same slot it is the same. */
  lemma FindUpvalInv(s: State, level: nat, u: Ref)
    requires Inv(s) && u !in s.Heap() && level < s.Heap()[s.running].top
    ensures var s', r := FindUpval(s, level, u), FoundUpval(s, level, u);
      && Inv(s') && Alive(s', r) && s'.Heap()[r] == Open(s.running, level)
      && (forall y :: y in s'.Heap() && s'.Heap()[y] == Open(s.running, level) ==> y == r)
      && (forall y :: y in s.Heap() ==> y in s'.Heap())
  {
    hide Links, Kinds, PhaseOk, AliveClosed, Existing;
    var s', r := FindUpval(s, level, u), FoundUpval(s, level, u);
    if Shared(s, level) {
      SlotAlive(s, level);
      assert forall y :: Edge(s.Heap(), r, y) ==> Gc(y) == Slot(s.Heap(), s.running, level);
      ResurrectInv(s, r);
    } else {
      FindLinks(s, level, u);
      FindAlive(s, level, u);
      FindPhase(s, level, u);
    }
    OneUpvalPerSlot(s', s.running, level, r);
  }

  lemma OneUpvalPerSlot(s: State, th: Ref, level: nat, r: Ref)
    requires Shape(s) && r in s.Heap() && s.Heap()[r] == Open(th, level)
    ensures forall y :: y in s.Heap() && s.Heap()[y] == Open(th, level) ==> y == r
  {
    hide RootList, Buckets, Ring, StackOk, TopOk, Kinds;
    assert Listed(s.Heap(), r, s.rootgc, s.strt, s.open);
    forall y | y in s.Heap() && s.Heap()[y] == Open(th, level) ensures y == r {
      assert Listed(s.Heap(), y, s.rootgc, s.strt, s.open);
      assert Descending(s.Heap(), s.open[th]);
    }
  }

  // ----- the events -----

  function SlotSet(s: State, x: Ref, v: Value): Object
    requires Shape(s) && x in s.Heap() && s.Heap()[x].Open?
  {
    var t := s.Heap()[s.Heap()[x].th];
    Thread(t.gt, t.stack[s.Heap()[x].idx := v], t.top, t.limit)
  }

  /** The state after an event. */
  ghost function Apply(s: State, e: Event): State
    requires Inv(s) && Enabled(s, e)
  {
    match e
    case Step => SingleStep(s)
    case Full => FullGC(s)
    case NewObject(x, o, run) => Put(Allocate(s, x, o), s.running, run)
    case Intern(x, run) => Put(Resurrect(s, x), s.running, run)
    case SetThread(x, o) => Put(s, x, o)
    case SetOpenUpval(x, v) => Put(s, s.Heap()[x].th, SlotSet(s, x, v))
    case StoreField(x, o, v) => Barrier(Put(s, x, o), x, v)
    case StoreTable(x, o, k, v) => StoredTable(s, x, o, k, v)
    case FindUpval(level, u) => FindUpval(s, level, u)
    case Close(level) => assert s.running in s.open; CloseUpvals(s, s.running, level)
    case SetBasicMt(i, v) => s.(mt := s.mt[i := v])
    case Resume(th) => s.(running := th)
    case FixString(x) => s.(fixed := s.fixed + {x})
    case ResizeTable(size) => ResizeStrings(s, size)
  }

  lemma HeldAlive(s: State, v: Value)
    requires Inv(s) && Held(s, v)
    ensures AliveValue(s, v)
  {
    hide Links, Kinds, PhaseOk, AliveClosed;
    if v.Gc? && Reachable(s, v.r) { ReachableAlive(s, v.r); }
  }

  /** New contents of a thread, all of whose values are not dead. */
  lemma ThreadSound(s: State, th: Ref, o: Object)
    requires Shape(s) && o.Thread? && Fits(s, th, o)
    requires forall v :: v in Fields(s.Heap(), o) ==> AliveValue(s, v)
    ensures Sound(s, th, o)
  {
    hide RootList, Buckets, OpenLists, Ring, Listed, Kinds, Anchors;
    var h' := Put(s, th, o).Heap();
    forall y, z | Alive(s, y) && Edge(h', y, z) ensures Edge(s.Heap(), y, z) || Alive(s, z) {
      if y == th {
        assert AliveValue(s, Gc(z));
      } else if s.Heap()[y].Open? && s.Heap()[y].th == th {
        var i := s.Heap()[y].idx;
        assert i < o.top <= |o.stack| && Gc(z) == o.stack[i];
        assert o.stack[..o.top][i] == Gc(z);
        assert Gc(z) in Fields(s.Heap(), o);
        assert AliveValue(s, Gc(z));
      } else {
        assert Gc(z) in Fields(s.Heap(), s.Heap()[y]);
      }
    }
  }

  lemma SetThreadInv(s: State, s1: State, th: Ref, o: Object, x: Value)
    requires Inv(s) && Inv(s1) && ThreadFits(s, th, o, x) && Fits(s1, th, o) && AliveValue(s1, x)
    requires forall y :: Alive(s, y) ==> Alive(s1, y)
    ensures Inv(Put(s1, th, o))
  {
    hide Links, Kinds, PhaseOk, AliveClosed, Held, Fits;
    forall v | v in Fields(s1.Heap(), o) ensures AliveValue(s1, v) {
      assert v in Fields(s.Heap(), o);
      if v != x { HeldAlive(s, v); }
    }
    ThreadSound(s1, th, o);
    PutThreadInv(s1, th, o);
  }

  lemma NewObjectInv(s: State, x: Ref, o: Object, run: Object)
    requires Inv(s) && Enabled(s, NewObject(x, o, run))
    ensures Inv(Put(Allocate(s, x, o), s.running, run))
  {
    hide Links, Kinds, PhaseOk, AliveClosed, Held, Allocate;
    forall v | v in Fields(s.Heap(), o) ensures AliveValue(s, v) { HeldAlive(s, v); }
    AllocateInv(s, x, o);
    AllocateState(s, x, o);
    SetThreadInv(s, Allocate(s, x, o), s.running, run, Gc(x));
  }

  lemma InternInv(s: State, x: Ref, run: Object)
    requires Inv(s) && Enabled(s, Intern(x, run))
    ensures Inv(Put(Resurrect(s, x), s.running, run))
  {
    hide Links, Kinds, PhaseOk, AliveClosed, Held;
    ResurrectInv(s, x);
    SetThreadInv(s, Resurrect(s, x), s.running, run, Gc(x));
  }

  lemma SetOpenUpvalInv(s: State, x: Ref, v: Value)
    requires Inv(s) && x in s.Heap() && s.Heap()[x].Open? && AliveValue(s, v)
    ensures Inv(Put(s, s.Heap()[x].th, SlotSet(s, x, v)))
  {
    hide RootList, Buckets, OpenLists, Ring, Listed, Kinds, Anchors, PhaseOk, AliveClosed;
    var th, i := s.Heap()[x].th, s.Heap()[x].idx;
    var t, o := s.Heap()[th], SlotSet(s, x, v);
    var h' := Put(s, th, o).Heap();
    assert Fits(s, th, o);
    forall y, z | Alive(s, y) && Edge(h', y, z) ensures Edge(s.Heap(), y, z) || Alive(s, z) {
      if y == th {
        ThreadSlot(t, i, v, Gc(z));
      } else if s.Heap()[y].Open? && s.Heap()[y].th == th && s.Heap()[y].idx == i {
        assert Gc(z) == v;
      } else {
        assert Gc(z) in Fields(s.Heap(), s.Heap()[y]);
      }
    }
    PutThreadInv(s, th, o);
  }

  lemma ThreadSlot(t: Object, i: nat, v: Value, w: Value)
    requires t.Thread? && i < t.top <= |t.stack|
    requires w in [t.gt] + t.stack[i := v][..t.top]
    ensures w == v || w in [t.gt] + t.stack[..t.top]
  {
    assert forall j :: 0 <= j < t.top ==> t.stack[i := v][..t.top][j] == if j == i then v else t.stack[..t.top][j];
  }

  lemma RootChangeInv(s: State, s': State)
    requires Inv(s) && s' == s.(mt := s'.mt, running := s'.running)
    requires forall x :: x in Roots(s') ==> Alive(s, x)
    requires s'.running in s.Heap() && s.Heap()[s'.running].Thread?
    ensures Inv(s')
  {
    hide RootList, Buckets, OpenLists, Ring, Listed, Kinds, StackOk, TopOk, Lists, BlackOk;
    forall x, y | Alive(s', x) && Edge(s'.Heap(), x, y) ensures Alive(s', y) { assert Alive(s, x) && Alive(s, y); }
    forall x | x in Roots(s') ensures Alive(s', x) { assert Alive(s, x); }
    forall x | x in s.Heap() && (s.phase == Sweep || s.phase == SweepString) && Pending(s, x) ensures Pending(s', x) { }
  }

  lemma SetBasicMtInv(s: State, i: nat, v: Value)
    requires Inv(s) && i < |s.mt| && AliveValue(s, v)
    ensures Inv(s.(mt := s.mt[i := v]))
  {
    hide Links, Kinds, PhaseOk;
    var s' := s.(mt := s.mt[i := v]);
    forall x | x in Roots(s') ensures Alive(s, x) {
      if x in RefsOf(s'.mt) {
        assert Gc(x) in s'.mt;
        if Gc(x) != v { assert Gc(x) in s.mt; assert x in RefsOf(s.mt); assert x in Roots(s); }
      } else { assert x in Roots(s); }
    }
    InvAnchors2(s);
    RootChangeInv(s, s');
  }

  lemma InvAnchors2(s: State)
    requires Inv(s)
    ensures s.running in s.Heap() && s.Heap()[s.running].Thread? && s.running in s.open
  {
  }

  /** Every event keeps the invariant. */
  lemma ApplyInv(s: State, e: Event)
    requires Inv(s) && Enabled(s, e)
    ensures Inv(Apply(s, e))
  {
    hide Links, Kinds, PhaseOk, AliveClosed, Held, Fits, Adds, ThreadFits, SingleStep, FullGC, Allocate, Put, CloseUpvals;
    InvAnchors2(s);
    match e
    case Step => SingleStepSafe(s);
    case Full => FullGCExact(s);
    case NewObject(x, o, run) => NewObjectInv(s, x, o, run);
    case Intern(x, run) => InternInv(s, x, run);
    case SetThread(x, o) => SetThreadRun(s, x, o);
    case SetOpenUpval(x, v) => HeldAlive(s, v); SetOpenUpvalInv(s, x, v);
    case StoreField(x, o, v) => HeldAlive(s, v); StoreFieldInv(s, x, o, v);
    case StoreTable(x, o, k, v) => HeldAlive(s, k); HeldAlive(s, v); StoreTableInv(s, x, o, k, v);
    case FindUpval(level, u) => FindUpvalInv(s, level, u);
    case Close(level) => CloseUpvalsInv(s, s.running, level);
    case SetBasicMt(i, v) => HeldAlive(s, v); SetBasicMtInv(s, i, v);
    case Resume(th) => ReachableAlive(s, th); ResumeInv(s, th);
    case FixString(x) => FixStringInv(s, x);
    case ResizeTable(size) => ResizeInv(s, size);
  }

  /** luaS_fix */
  lemma FixStringInv(s: State, x: Ref)
    requires Inv(s) && x in s.Heap() && s.Heap()[x].Str?
    ensures Inv(s.(fixed := s.fixed + {x}))
  {
    hide StackOk, TopOk, RootList, Buckets, OpenLists, Ring, Listed, Kinds, Lists, BlackOk, Edge;
    var s' := s.(fixed := s.fixed + {x});
    assert forall y :: Alive(s', y) <==> Alive(s, y);
    FixPhase(s, s');
  }

  lemma FixPhase(s: State, s': State)
    requires s' == s.(fixed := s'.fixed) && PhaseOk(s)
    ensures PhaseOk(s')
  {
    hide Lists, BlackOk;
    forall y | y in s.Heap() ensures IsCurrentWhite(s', y) == IsCurrentWhite(s, y) && Dead(s', y) == Dead(s, y) { }
    forall y | y in s.Heap() ensures Pending(s', y) == Pending(s, y) { }
  }

  lemma SetThreadRun(s: State, x: Ref, o: Object)
    requires Inv(s) && Enabled(s, SetThread(x, o))
    ensures Inv(Put(s, x, o))
  {
    hide Links, Kinds, PhaseOk, AliveClosed, Held, Fits;
    SetThreadInv(s, s, x, o, Nil);
  }

  lemma ResumeInv(s: State, th: Ref)
    requires Inv(s) && Alive(s, th) && s.Heap()[th].Thread?
    ensures Inv(s.(running := th))
  {
    hide Links, Kinds, PhaseOk;
    var s' := s.(running := th);
    forall x | x in Roots(s') ensures Alive(s, x) { if x != th { assert x in Roots(s); } }
    RootChangeInv(s, s');
  }

  /** No event frees an object that can be reached. */
  lemma ApplyFreesNothingReachable(s: State, e: Event, x: Ref)
    requires Inv(s) && Enabled(s, e) && Reachable(s, x)
    ensures x in s.Heap() && x in Apply(s, e).Heap()
  {
    hide Links, Kinds, PhaseOk, AliveClosed, Held, Fits, Adds, ThreadFits, SingleStep, FullGC, CloseUpvals, Reachable;
    ReachableAlive(s, x);
    InvAnchors2(s);
    match e
    case Step => SingleStepSafe(s);
    case Full => FullGCExact(s);
    case NewObject(y, o, run) => AllocateState(s, y, o);
    case FindUpval(level, u) => FindUpvalInv(s, level, u);
    case Close(level) => CloseUpvalsInv(s, s.running, level);
    case _ =>
  }

  // ----- runs -----

  /** The state after a run; events that are not possible where they stand are passed over. */
  ghost function After(s: State, es: seq<Event>): (s': State)
    requires Inv(s)
    ensures Inv(s')
    decreases |es|
  {
    if es == [] then s
    else if Enabled(s, es[0]) then
      ApplyInv(s, es[0]);
      After(Apply(s, es[0]), es[1..])
    else After(s, es[1..])
  }

  const NUM_TAGS: nat := 9
  const LUA_MINSTACK: nat := 20

  /** The state f_luaopen builds: the main thread with its table of globals, the registry, an empty string
      table and no basic metatable yet. */
  function Initial(main: Ref, globals: Ref, registry: Ref, stack: seq<Value>, buckets: nat): State
  {
    var h := map[main := Thread(Gc(globals), stack, 1, 1 + LUA_MINSTACK),
                 globals := Table(Nil, [], []), registry := Table(Nil, [], [])];
    State(Mk(h, map[main := White(false), globals := White(false), registry := White(false)], [], []),
          {main}, Pause, false, [registry, globals, main], seq(buckets, _ => []), map[main := []], [], 0, 0,
          main, Gc(registry), seq(NUM_TAGS, _ => Nil), main)
  }

  predicate Opened(main: Ref, globals: Ref, registry: Ref, stack: seq<Value>, buckets: nat) {
    && main != globals && main != registry && globals != registry
    && buckets > 0 && |stack| > 0 && stack[0] == Nil
  }

  lemma InitialInv(main: Ref, globals: Ref, registry: Ref, stack: seq<Value>, buckets: nat)
    requires Opened(main, globals, registry, stack, buckets)
    ensures Inv(Initial(main, globals, registry, stack, buckets))
  {
    hide Edge, Links, Kinds;
    InitialEdges(main, globals, registry, stack, buckets);
    InitialLinks(main, globals, registry, stack, buckets);
    InitialRoots(main, globals, registry, stack, buckets);
  }

  lemma InitialLinks(main: Ref, globals: Ref, registry: Ref, stack: seq<Value>, buckets: nat)
    requires Opened(main, globals, registry, stack, buckets)
    ensures var s := Initial(main, globals, registry, stack, buckets);
      Links(s) && Kinds(s.Heap(), s.Color())
  {
    hide RootList, Buckets, OpenLists, Ring, StackOk, TopOk, Kinds;
    InitialLists(main, globals, registry, stack, buckets);
    InitialObjects(main, globals, registry, stack, buckets);
  }

  lemma InitialLists(main: Ref, globals: Ref, registry: Ref, stack: seq<Value>, buckets: nat)
    requires Opened(main, globals, registry, stack, buckets)
    ensures var s := Initial(main, globals, registry, stack, buckets);
      Buckets(s.Heap(), s.strt) && OpenLists(s.Heap(), s.open) && Ring(s.Heap(), s.uvhead)
  {
    EmptyDescending(Initial(main, globals, registry, stack, buckets).Heap());
    hide Descending;
  }

  lemma InitialObjects(main: Ref, globals: Ref, registry: Ref, stack: seq<Value>, buckets: nat)
    requires Opened(main, globals, registry, stack, buckets)
    ensures var s := Initial(main, globals, registry, stack, buckets);
      RootList(s.Heap(), s.rootgc) && StackOk(s.Heap()) && TopOk(s.Heap()) && Kinds(s.Heap(), s.Color())
  {
  }

  lemma InitialRoots(main: Ref, globals: Ref, registry: Ref, stack: seq<Value>, buckets: nat)
    requires Opened(main, globals, registry, stack, buckets)
    ensures var s := Initial(main, globals, registry, stack, buckets);
      (forall x :: x in Roots(s) ==> Alive(s, x)) && Alive(s, globals) && PhaseOk(s)
  {
    var s := Initial(main, globals, registry, stack, buckets);
    assert forall v :: v in s.mt ==> v == Nil;
  }

  /** The only reference is that of the main thread to the globals. */
  lemma InitialEdges(main: Ref, globals: Ref, registry: Ref, stack: seq<Value>, buckets: nat)
    requires Opened(main, globals, registry, stack, buckets)
    ensures var h := Initial(main, globals, registry, stack, buckets).Heap();
      forall x, y :: Edge(h, x, y) ==> y == globals
  {
    var h := Initial(main, globals, registry, stack, buckets).Heap();
    assert Fields(h, h[globals]) == [Nil] && Fields(h, h[registry]) == [Nil];
    assert Fields(h, h[main]) == [Gc(globals), Nil];
  }

  /** Safety: in every run from a state of the invariant, whatever the order of allocations, stores, upvalue
      operations, changes of the basic metatables and of the string table, and collector steps, no event
      frees an object that can be reached at that point. */
  lemma RunSafe(s0: State, es: seq<Event>, e: Event)
    requires Inv(s0)
    ensures var s := After(s0, es);
      Enabled(s, e) ==> forall x :: Reachable(s, x) ==> x in s.Heap() && x in Apply(s, e).Heap()
  {
    hide Inv, Enabled, Apply, Reachable;
    var s := After(s0, es);
    if Enabled(s, e) {
      forall x | Reachable(s, x) ensures x in s.Heap() && x in Apply(s, e).Heap() {
        ApplyFreesNothingReachable(s, e, x);
      }
    }
  }

  /** The same for the runs of a new state. */
  lemma NewStateSafe(main: Ref, globals: Ref, registry: Ref, stack: seq<Value>, buckets: nat, es: seq<Event>, e: Event)
    requires Opened(main, globals, registry, stack, buckets)
    ensures Inv(Initial(main, globals, registry, stack, buckets))
    ensures var s := After(Initial(main, globals, registry, stack, buckets), es);
      Enabled(s, e) ==> forall x :: Reachable(s, x) ==> x in s.Heap() && x in Apply(s, e).Heap()
  {
    hide Inv, Enabled, Apply, Reachable, Initial, After;
    InitialInv(main, globals, registry, stack, buckets);
    RunSafe(Initial(main, globals, registry, stack, buckets), es, e);
  }

  /** A basic metatable can be set in a new state, and is a root from then on. */
  lemma BasicMtSet(main: Ref, globals: Ref, registry: Ref, stack: seq<Value>, buckets: nat, i: nat)
    requires Opened(main, globals, registry, stack, buckets) && i < NUM_TAGS
    ensures var s := Initial(main, globals, registry, stack, buckets);
      Inv(s) && Enabled(s, SetBasicMt(i, Gc(registry))) &&
      Gc(registry) in Apply(s, SetBasicMt(i, Gc(registry))).mt
  {
    hide Inv;
    var s := Initial(main, globals, registry, stack, buckets);
    InitialInv(main, globals, registry, stack, buckets);
    assert s.registry in [s.registry] && registry in Roots(s);
    ReachRoot(s.Heap(), Roots(s), registry);
    assert s.mt[i := Gc(registry)][i] == Gc(registry);
  }
}
