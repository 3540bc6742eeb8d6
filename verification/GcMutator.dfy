/** The mutator: stores with their barriers, allocation, upvalues; and the safety of every run that
    interleaves them with steps of the collector. */
module GcMutator {
  import opened GcHeap
  import opened GcMark
  import opened GcState
  import opened GcCycle
  import opened GcSweep
  import opened GcStep
  import opened GcCollect
  import opened GcFull

  // ----- barriers -----

  /** luaC_barrier and luaC_objbarrier: a black object that comes to refer to a white one has the
      white one marked, or, outside the mark phase, is made white itself. */
  function Barrier(s: State, x: Ref, v: Value): State
    requires s.Color().Keys == s.Heap().Keys && x in s.Heap()
  {
    if v.Gc? && v.r in s.Heap() && s.Color()[v.r].White? && s.Color()[x] == Black then
      if s.phase == Propagating then
        var m := Mark(s.Heap(), Marks(s.Color(), s.mk.gray), v.r);
        s.(mk := s.mk.(color := m.color, gray := m.gray))
      else s.(mk := s.mk.(color := s.Color()[x := White(s.white)]))
    else s
  }

  /** luaC_barriert: a black table that comes to refer to a white object turns gray again. */
  function BarrierBack(s: State, x: Ref, v: Value): State
    requires s.Color().Keys == s.Heap().Keys && x in s.Heap()
  {
    if v.Gc? && v.r in s.Heap() && s.Color()[v.r].White? && s.Color()[x] == Black then
      s.(mk := s.mk.(color := s.Color()[x := Gray], again := [x] + s.mk.again))
    else s
  }

  /** An object gets new contents. */
  function Put(s: State, x: Ref, o: Object): State {
    s.(mk := s.mk.(heap := s.Heap()[x := o]))
  }

  /** `o' may replace the contents of `x': same kind, and open upvalues stay below the stack top. */
  ghost predicate Fits(s: State, x: Ref, o: Object) {
    && x in s.Heap() && o.SameKind(s.Heap()[x])
    && (o.Thread? ==> o.top <= |o.stack| && forall u :: u in s.Heap() && s.Heap()[u].Open? && s.Heap()[u].th == x ==> s.Heap()[u].idx < o.top)
  }

  /** The new contents refer to what objects referred to before, and to objects that are not dead. */
  ghost predicate Sound(s: State, x: Ref, o: Object) {
    forall y, z :: Alive(s, y) && Edge(Put(s, x, o).Heap(), y, z) ==> Edge(s.Heap(), y, z) || Alive(s, z)
  }

  lemma PutLinks(s: State, x: Ref, o: Object)
    requires Shape(s) && Fits(s, x, o)
    ensures Shape(Put(s, x, o))
  {
    hide RootList, Buckets, OpenLists, Ring, Listed, StackOk, TopOk, Kinds, Anchors;
    var h, h' := s.Heap(), Put(s, x, o).Heap();
    forall y | y in h ensures h'[y].SameKind(h[y]) { }
    ListsSameKinds(h, h', s.rootgc, s.strt, s.open, s.uvhead);
    AnchorsSameKinds(s, Put(s, x, o));
    PutStacks(s, x, o);
  }

  lemma PutStacks(s: State, x: Ref, o: Object)
    requires Shape(s) && Fits(s, x, o)
    ensures var s' := Put(s, x, o); StackOk(s'.Heap()) && TopOk(s'.Heap()) && Kinds(s'.Heap(), s'.Color())
  {
    hide RootList, Buckets, OpenLists, Ring, Listed, Anchors;
    var h, h' := s.Heap(), Put(s, x, o).Heap();
    forall u | u in h' && h'[u].Open?
      ensures h'[u].th in h' && h'[h'[u].th].Thread? && h'[u].idx < h'[h'[u].th].top <= |h'[h'[u].th].stack|
    {
      assert h[u].Open? && h[u] == h'[u];
    }
  }

  lemma PutAlive(s: State, x: Ref, o: Object)
    requires AliveClosed(s) && x in s.Heap() && Sound(s, x, o)
    ensures AliveClosed(Put(s, x, o))
  {
    var s' := Put(s, x, o);
    forall y, z | Alive(s', y) && Edge(s'.Heap(), y, z) ensures Alive(s', z) {
      assert Alive(s, y);
      if Edge(s.Heap(), y, z) { assert Alive(s, z); }
    }
    forall y | y in Roots(s') ensures Alive(s', y) { assert Alive(s, y); }
  }

  /** Outside the mark phase the phase condition does not look at contents. */
  lemma PutPhase(s: State, x: Ref, o: Object)
    requires PhaseOk(s) && s.phase != Propagating && x in s.Heap() && o.SameKind(s.Heap()[x])
    ensures PhaseOk(Put(s, x, o))
  {
    var s' := Put(s, x, o);
    forall y | y in s.Heap() && (s.phase == Sweep || s.phase == SweepString) && Pending(s, y) ensures Pending(s', y) {
      assert s'.Heap()[y].SameKind(s.Heap()[y]);
    }
  }

  lemma PutMarks(s: State, x: Ref, o: Object)
    requires Inv(s) && s.phase == Propagating && x in s.Heap() && o.SameKind(s.Heap()[x])
    ensures var s' := Put(s, x, o);
      && Kinds(s'.Heap(), s'.Color()) && Lists(s'.Heap(), Marks(s'.Color(), s'.mk.gray), s'.mk.again)
      && Marked(s'.Color(), s'.main) && (s'.registry.Gc? ==> Marked(s'.Color(), s'.registry.r))
      && (forall y :: y in s'.Heap() ==> !Dead(s', y))
  {
    hide Links, AliveClosed, BlackOk;
    assert o.Container() == s.Heap()[x].Container();
  }

  /** Only the object stored into, if it is black, can break the tri-colour invariant. */
  lemma PutBlack(s: State, x: Ref, o: Object, c: Colors)
    requires Inv(s) && s.phase == Propagating && Fits(s, x, o)
    requires c.Keys == s.Heap().Keys
    requires forall y :: y in s.Heap() && c[y] == Black && y != x ==> s.Color()[y] == Black
    requires forall y :: Marked(s.Color(), y) ==> Marked(c, y)
    requires c[x] == Black ==> ChildrenMarked(Put(s, x, o).Heap(), c, x)
    ensures BlackOk(Put(s, x, o).Heap(), c)
  {
    hide Links, AliveClosed, Lists, Pending, StackOk;
    var h, h' := s.Heap(), Put(s, x, o).Heap();
    forall y | y in h' && y in c && c[y] == Black ensures ChildrenMarked(h', c, y) {
      if y != x {
        assert ChildrenMarked(h, s.Color(), y) && !h[y].Open?;
        forall z | Edge(h', y, z) && z in h' ensures Marked(c, z) {
          assert Edge(h, y, z) && Marked(s.Color(), z);
        }
      }
    }
  }

  /** An object that is never black may change without a barrier: threads and open upvalues. */
  lemma PutThreadInv(s: State, x: Ref, o: Object)
    requires Inv(s) && Fits(s, x, o) && Sound(s, x, o) && o.Thread?
    ensures Inv(Put(s, x, o))
  {
    hide Links, AliveClosed, Lists, BlackOk, Sound, Fits;
    PutLinks(s, x, o);
    FitsIn(s, x, o);
    PutAlive(s, x, o);
    if s.phase == Propagating {
      PutMarks(s, x, o);
      assert s.Color()[x] != Black;
      PutBlack(s, x, o, s.Color());
    } else {
      PutPhase(s, x, o);
    }
  }

  lemma FitsIn(s: State, x: Ref, o: Object)
    requires Fits(s, x, o)
    ensures x in s.Heap() && o.SameKind(s.Heap()[x])
  {
  }

  /** The contents of `x' refer to nothing new except possibly `v' and `w'. */
  ghost predicate Adds(s: State, x: Ref, o: Object, v: Value, w: Value) {
    && x in s.Heap()
    && forall u :: u in Fields(Put(s, x, o).Heap(), o) ==> u in Fields(s.Heap(), s.Heap()[x]) || u == v || u == w || !u.Gc?
  }

  ghost predicate AliveValue(s: State, v: Value) {
    v.Gc? ==> Alive(s, v.r)
  }

  lemma AddsSound(s: State, x: Ref, o: Object, v: Value, w: Value)
    requires AliveClosed(s) && Fits(s, x, o) && Adds(s, x, o, v, w) && AliveValue(s, v) && AliveValue(s, w)
    requires !o.Thread?
    ensures Sound(s, x, o)
  {
    var h' := Put(s, x, o).Heap();
    forall y, z | Alive(s, y) && Edge(h', y, z) ensures Edge(s.Heap(), y, z) || Alive(s, z) {
      if y == x {
        assert Gc(z) in Fields(h', o);
      } else {
        assert Gc(z) in Fields(s.Heap(), s.Heap()[y]);
      }
    }
  }

  /** A store into an object other than a table or thread, followed by the forward barrier. */
  lemma StoreFieldInv(s: State, x: Ref, o: Object, v: Value)
    requires Inv(s) && Fits(s, x, o) && Adds(s, x, o, v, Nil) && AliveValue(s, v)
    requires !o.Table? && !o.Thread? && !o.Open?
    ensures Inv(Barrier(Put(s, x, o), x, v))
  {
    hide Links, AliveClosed, Lists, BlackOk, Sound, Fits, Adds, Kinds, Pending;
    var p := Put(s, x, o);
    FitsIn(s, x, o);
    PutLinks(s, x, o);
    AddsSound(s, x, o, v, Nil);
    PutAlive(s, x, o);
    if s.phase == Propagating {
      StoreFieldPropagating(s, x, o, v);
    } else {
      PutPhase(s, x, o);
      assert Inv(p);
      if Barrier(p, x, v) != p { BarrierWhite(p, x); }
    }
  }

  /** Making a black object white again while the sweep goes on. */
  lemma BarrierWhite(p: State, x: Ref)
    requires Inv(p) && p.phase != Propagating && x in p.Color() && p.Color()[x] == Black
    ensures Inv(p.(mk := p.mk.(color := p.Color()[x := White(p.white)])))
  {
    hide Links, AliveClosed, Lists, BlackOk, Pending;
    assert !IsCurrentWhite(p, x);
    WhitenInv(p, [x]);
    assert Whiten(p, [x]).Color() == p.Color()[x := White(p.white)];
  }

  lemma StoreFieldPropagating(s: State, x: Ref, o: Object, v: Value)
    requires Inv(s) && s.phase == Propagating && Fits(s, x, o) && Adds(s, x, o, v, Nil) && AliveValue(s, v)
    requires !o.Table? && !o.Thread? && !o.Open? && x in s.Heap() && Shape(Put(s, x, o)) && AliveClosed(Put(s, x, o))
    ensures Inv(Barrier(Put(s, x, o), x, v))
  {
    hide Links, AliveClosed, Lists, BlackOk, Fits, Adds, Pending, Shades;
    var p := Put(s, x, o);
    FitsIn(s, x, o);
    PutMarks(s, x, o);
    var s' := Barrier(p, x, v);
    if s.Color()[x] == Black {
      var m := Marks(p.Color(), p.mk.gray);
      var n := MarkValue(p.Heap(), m, v);
      assert s'.Color() == n.color && s'.mk.gray == n.gray;
      MarkValueShades(p.Heap(), m, v);
      ShadesLists(p.Heap(), m, n, p.mk.again);
      ShadesMarked(p.Heap(), m, n);
      BarrierBlack(s, x, o, v, n);
      BarrierLinks(p, s');
    } else {
      PutBlack(s, x, o, s.Color());
    }
  }

  lemma BarrierLinks(p: State, s': State)
    requires Shape(p) && AliveClosed(p) && s' == p.(mk := p.mk.(color := s'.Color(), gray := s'.mk.gray))
    requires s'.Color().Keys == p.Color().Keys && Kinds(s'.Heap(), s'.Color())
    requires forall x :: x in p.Heap() ==> !Dead(p, x)
    requires forall x :: IsWhite(s'.Color(), x) ==> IsWhite(p.Color(), x) && s'.Color()[x] == p.Color()[x]
    ensures Shape(s') && AliveClosed(s') && forall x :: x in s'.Heap() ==> !Dead(s', x)
  {
    hide Kinds, Links;
    LinksIgnoreColor(p, s');
    forall x | x in s'.Heap() ensures !Dead(s', x) { assert !Dead(p, x); }
    assert forall x :: Dead(s', x) <==> Dead(p, x);
    AliveTransfer(p, s');
  }

  lemma BarrierBlack(s: State, x: Ref, o: Object, v: Value, n: Marks)
    requires Inv(s) && s.phase == Propagating && Fits(s, x, o) && Adds(s, x, o, v, Nil) && AliveValue(s, v)
    requires !o.Thread? && !o.Open? && x in s.Heap() && s.Color()[x] == Black
    requires var p := Put(s, x, o); var m := Marks(p.Color(), p.mk.gray); p.Color().Keys == p.Heap().Keys && n == MarkValue(p.Heap(), m, v)
    ensures BlackOk(Put(s, x, o).Heap(), n.color)
  {
    hide Links, AliveClosed, Lists, Pending, Adds, Fits, Shape, ChildrenMarked;
    var p := Put(s, x, o);
    var h' := p.Heap();
    var m := Marks(p.Color(), p.mk.gray);
    MarkValueShades(h', m, v);
    ShadesBlack(h', m, n, {});
    StoreChildren(s, x, o, v, n.color);
    forall y | y in h' && n.color[y] == Black ensures ChildrenMarked(h', n.color, y) {
      if y != x {
        if Marked(m.color, y) {
          assert s.Color()[y] == Black;
          OtherChildren(s, x, o, n.color, y);
        } else {
          assert IsWhite(m.color, y) && Marked(n.color, y);
          assert n.color[y] == Shade(h'[y]);
          assert !h'[y].Container();
        }
      }
    }
  }

  lemma OtherChildren(s: State, x: Ref, o: Object, c: Colors, y: Ref)
    requires Inv(s) && s.phase == Propagating && Fits(s, x, o) && !o.Thread? && y in s.Heap() && y != x && s.Color()[y] == Black
    requires forall z :: Marked(s.Color(), z) ==> Marked(c, z)
    ensures ChildrenMarked(Put(s, x, o).Heap(), c, y)
  {
    hide Links, AliveClosed, Lists, Pending;
    assert ChildrenMarked(s.Heap(), s.Color(), y);
    forall z | Edge(Put(s, x, o).Heap(), y, z) && z in s.Heap() ensures Marked(c, z) {
      assert Edge(s.Heap(), y, z) && Marked(s.Color(), z);
    }
  }

  lemma StoreChildren(s: State, x: Ref, o: Object, v: Value, c: Colors)
    requires Inv(s) && s.phase == Propagating && Fits(s, x, o) && Adds(s, x, o, v, Nil) && s.Color()[x] == Black
    requires forall y :: Marked(s.Color(), y) ==> Marked(c, y)
    requires v.Gc? && v.r in s.Heap() ==> Marked(c, v.r)
    ensures ChildrenMarked(Put(s, x, o).Heap(), c, x)
  {
    hide Links, AliveClosed, Lists, Pending;
    var h' := Put(s, x, o).Heap();
    assert ChildrenMarked(s.Heap(), s.Color(), x);
    forall y | Edge(h', x, y) && y in h' ensures Marked(c, y) {
      if Gc(y) != v {
        assert Edge(s.Heap(), x, y) && Marked(s.Color(), y);
      }
    }
  }

  // ----- tables -----

  /** The state after both back barriers of a table store. */
  function StoredTable(s: State, x: Ref, o: Object, k: Value, v: Value): State
    requires s.Color().Keys == s.Heap().Keys && x in s.Heap()
  {
    BarrierBack(BarrierBack(Put(s, x, o), x, k), x, v)
  }

  /** A store into a table, whatever it rearranges, with the back barriers for key and value. */
  lemma StoreTableInv(s: State, x: Ref, o: Object, k: Value, v: Value)
    requires Inv(s) && Fits(s, x, o) && Adds(s, x, o, k, v) && AliveValue(s, k) && AliveValue(s, v) && o.Table?
    ensures s.Color().Keys == s.Heap().Keys && x in s.Heap() && Inv(StoredTable(s, x, o, k, v))
  {
    hide Links, AliveClosed, Lists, BlackOk, Sound, Fits, Adds, Pending;
    var p := Put(s, x, o);
    FitsIn(s, x, o);
    PutLinks(s, x, o);
    AddsSound(s, x, o, k, v);
    PutAlive(s, x, o);
    var s' := StoredTable(s, x, o, k, v);
    if s.phase == Propagating {
      PutMarks(s, x, o);
      if s' == p {
        StoreTableQuiet(s, x, o, k, v);
        PutBlack(s, x, o, s.Color());
      } else {
        assert s'.mk == p.mk.(color := p.Color()[x := Gray], again := [x] + p.mk.again);
        GrayAgainLists(p.Heap(), Marks(p.Color(), p.mk.gray), p.mk.again, x);
        GrayAgainAlive(p, s', x);
        PutBlack(s, x, o, s'.Color());
      }
    } else {
      PutPhase(s, x, o);
      if s' != p {
        assert s'.mk == p.mk.(color := p.Color()[x := Gray], again := [x] + p.mk.again);
        GrayAgainAlive(p, s', x);
        GrayAgainPhase(p, s', x);
      }
    }
  }

  lemma StoreTableQuiet(s: State, x: Ref, o: Object, k: Value, v: Value)
    requires Inv(s) && s.phase == Propagating && Fits(s, x, o) && Adds(s, x, o, k, v) && o.Table?
    requires s.Color()[x] == Black ==> (k.Gc? && k.r in s.Heap() ==> Marked(s.Color(), k.r)) && (v.Gc? && v.r in s.Heap() ==> Marked(s.Color(), v.r))
    ensures s.Color()[x] == Black ==> ChildrenMarked(Put(s, x, o).Heap(), s.Color(), x)
  {
    hide Links, AliveClosed, Lists, Pending;
    var h' := Put(s, x, o).Heap();
    if s.Color()[x] == Black {
      assert ChildrenMarked(s.Heap(), s.Color(), x);
      forall y | Edge(h', x, y) && y in h' ensures Marked(s.Color(), y) {
        if Gc(y) != v && Gc(y) != k {
          assert Edge(s.Heap(), x, y) && Marked(s.Color(), y);
        }
      }
    }
  }

  lemma GrayAgainLists(h: Heap, m: Marks, again: seq<Ref>, x: Ref)
    requires Kinds(h, m.color) && Lists(h, m, again) && x in h && x in m.color && m.color[x] == Black && h[x].Table?
    ensures Kinds(h, m.color[x := Gray]) && Lists(h, Marks(m.color[x := Gray], m.gray), [x] + again)
  {
    assert x !in m.gray && x !in again;
  }

  lemma GrayAgainAlive(p: State, s': State, x: Ref)
    requires Shape(p) && AliveClosed(p) && x in p.Heap() && p.Color()[x] == Black && p.Heap()[x].Table?
    requires s' == p.(mk := p.mk.(color := p.Color()[x := Gray], again := [x] + p.mk.again))
    ensures Shape(s') && AliveClosed(s')
  {
    hide Links;
    LinksIgnoreColor(p, s');
    assert forall y :: Dead(s', y) <==> Dead(p, y);
    AliveTransfer(p, s');
  }

  lemma GrayAgainPhase(p: State, s': State, x: Ref)
    requires PhaseOk(p) && p.phase != Propagating && x in p.Heap() && x in p.Color() && p.Color()[x] == Black
    requires s' == p.(mk := p.mk.(color := p.Color()[x := Gray], again := [x] + p.mk.again))
    ensures PhaseOk(s')
  {
    assert !IsCurrentWhite(p, x);
    forall y | y in p.Heap() && (p.phase == Sweep || p.phase == SweepString) && Pending(p, y) ensures Pending(s', y) { }
  }
}
