/** Closing upvalues, sweeping `rootgc', and one step of the collector. */
module GcStep {
  import opened GcHeap
  import opened GcMark
  import opened GcState
  import opened GcCycle
  import opened GcSweep

  /** Nothing that was not dead is lost, recoloured dead, or changed in what it refers to. */
  ghost predicate Keeps(s: State, s': State) {
    && Roots(s') == Roots(s)
    && forall x :: Alive(s, x) ==> Alive(s', x) && Fields(s'.Heap(), s'.Heap()[x]) == Fields(s.Heap(), s.Heap()[x])
  }

  lemma DropKeeps(s: State, gone: set<Ref>)
    requires Shape(s) && Disposable(s, gone)
    ensures Keeps(s, Drop(s, gone))
  {
    DropFields(s, gone);
  }

  lemma SweepWholeKeeps(s: State, xs: seq<Ref>)
    requires Shape(s) && Disposable(s, DoomedOf(s, xs))
    ensures Keeps(s, SweepWhole(s, xs))
  {
    hide Shape, Disposable, Fields;
    SweepWholeAlive(s, xs);
    DropFields(s, DoomedOf(s, xs));
  }

  lemma SweepWholeAlive(s: State, xs: seq<Ref>)
    requires Shape(s)
    ensures Roots(SweepWhole(s, xs)) == Roots(s)
    ensures SweepWhole(s, xs).Heap() == Drop(s, DoomedOf(s, xs)).Heap()
    ensures forall x :: Alive(s, x) ==> Alive(SweepWhole(s, xs), x)
  {
    hide RootList, Buckets, OpenLists, Ring, Listed, StackOk, TopOk, Kinds, Keep, KeepEach;
  }

  // ----- closing upvalues -----

  /** Take the first open upvalue of a thread out of its list and of the ring, give it the value of
      its slot, and link it at the front of `rootgc'. */
  function Unhook(s: State, th: Ref): State
    requires th in s.open && s.open[th] != []
  {
    var uv := s.open[th][0];
    var v := if uv in s.Heap() && s.Heap()[uv].Open? then Slot(s.Heap(), th, s.Heap()[uv].idx) else Nil;
    s.(open := s.open[th := s.open[th][1..]], uvhead := Keep(s.uvhead, {uv}),
       mk := s.mk.(heap := s.Heap()[uv := Closed(v)]),
       rootgc := [uv] + s.rootgc, sweepgc := if s.sweepgc == 0 then 0 else s.sweepgc + 1)
  }

  /** luaC_linkupval, the colour of a closed upvalue: a gray one turns black behind a barrier while
      marking, and white while sweeping. */
  function Recolor(s: State, uv: Ref): State
    requires s.Color().Keys == s.Heap().Keys && uv in s.Heap() && s.Heap()[uv].Closed?
  {
    if s.Color()[uv] != Gray then s
    else if s.phase == Propagating then
      var m := MarkValue(s.Heap(), Marks(s.Color()[uv := Black], s.mk.gray), s.Heap()[uv].v);
      s.(mk := s.mk.(color := m.color, gray := m.gray))
    else s.(mk := s.mk.(color := s.Color()[uv := White(s.white)]))
  }

  /** One turn of the loop in luaF_close. */
  function CloseOne(s: State, th: Ref): State
    requires s.Color().Keys == s.Heap().Keys && th in s.open && s.open[th] != [] && s.open[th][0] in s.Heap()
  {
    var uv := s.open[th][0];
    if Dead(s, uv) then Drop(s, {uv}) else Recolor(Unhook(s, th), uv)
  }

  lemma HeadOfList(s: State, th: Ref)
    requires Shape(s) && th in s.open && s.open[th] != []
    ensures var uv := s.open[th][0]; uv in s.Heap() && s.Heap()[uv].Open? && s.Heap()[uv].th == th
    ensures th in s.Heap() && s.Heap()[th].Thread?
    ensures forall x :: x in s.open[th][1..] ==> x in s.open[th] && x != s.open[th][0] && x in s.Heap() && s.Heap()[x].idx < s.Heap()[s.open[th][0]].idx
  {
    assert s.open[th][0] in s.open[th];
    assert Descending(s.Heap(), s.open[th]);
  }

  lemma UnhookOpen(s: State, th: Ref)
    requires Shape(s) && th in s.open && s.open[th] != []
    ensures OpenLists(Unhook(s, th).Heap(), Unhook(s, th).open)
  {
    hide RootList, Buckets, Ring, Listed, Anchors, StackOk, TopOk, Kinds, Keep;
    var uv, s' := s.open[th][0], Unhook(s, th);
    HeadOfList(s, th);
    forall t | t in s'.open
      ensures Descending(s'.Heap(), s'.open[t]) && forall x :: x in s'.open[t] ==> x in s'.Heap() && s'.Heap()[x].Open? && s'.Heap()[x].th == t
    {
      assert Descending(s.Heap(), s'.open[t]);
      assert forall x :: x in s'.open[t] ==> x in s.open[t] && x != uv;
      DescendingIn(s.Heap(), s'.Heap(), s'.open[t]);
    }
  }

  lemma UnhookLists(s: State, th: Ref)
    requires Shape(s) && th in s.open && s.open[th] != []
    ensures var s' := Unhook(s, th);
      && RootList(s'.Heap(), s'.rootgc) && Buckets(s'.Heap(), s'.strt) && Ring(s'.Heap(), s'.uvhead) && Anchors(s')
  {
    hide OpenLists, Listed, StackOk, TopOk, Kinds, Keep;
    var uv, s' := s.open[th][0], Unhook(s, th);
    HeadOfList(s, th);
    KeepMembers(s.uvhead, {uv});
    assert uv !in s.rootgc;
    assert forall x :: x in s'.rootgc <==> x == uv || x in s.rootgc;
  }

  lemma UnhookListed(s: State, th: Ref)
    requires Shape(s) && th in s.open && s.open[th] != []
    ensures var s' := Unhook(s, th); forall x :: x in s'.Heap() ==> Listed(s'.Heap(), x, s'.rootgc, s'.strt, s'.open)
  {
    hide RootList, Buckets, Ring, Anchors, StackOk, TopOk, Kinds, Keep, Listed, OpenLists, Descending;
    var s' := Unhook(s, th);
    forall x | x in s'.Heap() ensures Listed(s'.Heap(), x, s'.rootgc, s'.strt, s'.open) {
      UnhookListedOne(s, th, x);
    }
  }

  lemma UnhookListedOne(s: State, th: Ref, x: Ref)
    requires Shape(s) && th in s.open && s.open[th] != [] && x in Unhook(s, th).Heap()
    ensures var s' := Unhook(s, th); Listed(s'.Heap(), x, s'.rootgc, s'.strt, s'.open)
  {
    hide RootList, Buckets, Ring, Anchors, StackOk, TopOk, Kinds, Keep, OpenLists, Descending;
    HeadOfList(s, th);
    assert x in s.Heap() && Listed(s.Heap(), x, s.rootgc, s.strt, s.open);
    if x != s.open[th][0] && x in s.open[th] { TailMember(s.open[th], x); }
  }

  lemma TailMember(xs: seq<Ref>, x: Ref)
    requires xs != [] && x in xs && x != xs[0]
    ensures x in xs[1..]
  {
  }

  lemma UnhookFields(s: State, th: Ref)
    requires Shape(s) && th in s.open && s.open[th] != []
    ensures var s' := Unhook(s, th);
      && s'.Heap().Keys == s.Heap().Keys && StackOk(s'.Heap()) && TopOk(s'.Heap())
      && (forall x :: x in s.Heap() ==> Fields(s'.Heap(), s'.Heap()[x]) == Fields(s.Heap(), s.Heap()[x]))
  {
    hide RootList, Buckets, Ring, Anchors, Listed, Kinds, Keep, OpenLists, Descending;
    HeadOfList(s, th);
    var s' := Unhook(s, th);
    forall x | x in s.Heap() ensures Fields(s'.Heap(), s'.Heap()[x]) == Fields(s.Heap(), s.Heap()[x]) {
      assert s.Heap()[x].Open? ==> s.Heap()[x].th != s.open[th][0];
    }
  }

  /** Closing an upvalue that is not dead keeps the lists well formed and every reference. */
  lemma UnhookShape(s: State, th: Ref)
    requires Shape(s) && th in s.open && s.open[th] != []
    ensures var s' := Unhook(s, th); var uv := s.open[th][0];
      && uv in s'.Heap() && s'.Heap()[uv].Closed?
      && Links(s')
  {
    hide RootList, Buckets, Ring, Anchors, Listed, Kinds, Keep, OpenLists, StackOk, TopOk;
    HeadOfList(s, th);
    UnhookOpen(s, th);
    UnhookLists(s, th);
    UnhookListed(s, th);
    UnhookFields(s, th);
  }

  /** While marking: the closed upvalue is black and its value is marked. */
  lemma RecolorPropagating(s: State, th: Ref)
    requires Inv(s) && s.phase == Propagating && th in s.open && s.open[th] != []
    ensures var uv := s.open[th][0]; var u := Unhook(s, th);
      && uv in u.Heap() && u.Heap()[uv].Closed? && u.Color().Keys == u.Heap().Keys
      && var s' := Recolor(u, uv);
         && Kinds(s'.Heap(), s'.Color()) && Lists(s'.Heap(), Marks(s'.Color(), s'.mk.gray), s'.mk.again) && BlackOk(s'.Heap(), s'.Color())
         && s'.Color().Keys == s.Color().Keys
         && (forall x :: x in s.Heap() && Marked(s.Color(), x) ==> Marked(s'.Color(), x))
         && (forall x :: x in s.Heap() && IsWhite(s'.Color(), x) ==> s'.Color()[x] == s.Color()[x])
  {
    hide RootList, Buckets, Ring, Anchors, Listed, Keep, OpenLists, StackOk, TopOk, Lists, BlackOk, Kinds, AliveClosed, Shades;
    var uv, u := s.open[th][0], Unhook(s, th);
    HeadOfList(s, th);
    UnhookFields(s, th);
    if s.Color()[uv] == Gray {
      var m := Marks(s.Color()[uv := Black], s.mk.gray);
      UnhookGray(s, th);
      MarkValueShades(u.Heap(), m, u.Heap()[uv].v);
      var n := MarkValue(u.Heap(), m, u.Heap()[uv].v);
      ShadesLists(u.Heap(), m, n, s.mk.again);
      RecolorBlack(s, th, n);
      ShadesMarked(u.Heap(), m, n);
      assert forall x :: Marked(s.Color(), x) <==> Marked(m.color, x);
    } else {
      UnhookWhite(s, th);
    }
  }

  lemma ShadesMarked(h: Heap, m: Marks, n: Marks)
    requires Shades(h, m, n) && m.color.Keys == h.Keys
    ensures n.color.Keys == h.Keys && forall x :: Marked(m.color, x) ==> Marked(n.color, x)
    ensures forall x :: IsWhite(n.color, x) ==> IsWhite(m.color, x) && n.color[x] == m.color[x]
  {
    forall x | IsWhite(n.color, x) ensures IsWhite(m.color, x) { if Marked(m.color, x) { } }
  }

  lemma UnhookGray(s: State, th: Ref)
    requires Inv(s) && s.phase == Propagating && th in s.open && s.open[th] != []
    requires s.open[th][0] in s.Color() && s.Color()[s.open[th][0]] == Gray
    ensures var m := Marks(s.Color()[s.open[th][0] := Black], s.mk.gray); var h := Unhook(s, th).Heap();
            Kinds(h, m.color) && Lists(h, m, s.mk.again)
  {
    hide RootList, Buckets, Ring, Anchors, Listed, Keep, OpenLists, StackOk, TopOk, BlackOk;
    HeadOfList(s, th);
  }

  lemma UnhookWhite(s: State, th: Ref)
    requires Inv(s) && s.phase == Propagating && th in s.open && s.open[th] != []
    requires s.open[th][0] in s.Color() && s.Color()[s.open[th][0]] != Gray
    ensures var m := Marks(s.Color(), s.mk.gray); var h := Unhook(s, th).Heap();
            Kinds(h, m.color) && Lists(h, m, s.mk.again) && BlackOk(h, m.color)
  {
    hide RootList, Buckets, Ring, Anchors, Listed, Keep, OpenLists, StackOk, TopOk;
    HeadOfList(s, th);
    UnhookFields(s, th);
    var h' := Unhook(s, th).Heap();
    forall x | x in h' && x in s.Color() && s.Color()[x] == Black ensures ChildrenMarked(h', s.Color(), x) {
      assert ChildrenMarked(s.Heap(), s.Color(), x);
      forall y | Edge(h', x, y) && y in h' ensures Marked(s.Color(), y) { assert Edge(s.Heap(), x, y); }
    }
  }

  lemma RecolorBlack(s: State, th: Ref, n: Marks)
    requires Inv(s) && s.phase == Propagating && th in s.open && s.open[th] != []
    requires var uv := s.open[th][0]; var h := Unhook(s, th).Heap(); var m := Marks(s.Color()[uv := Black], s.mk.gray);
      && uv in s.Color() && s.Color()[uv] == Gray && uv in h && h[uv].Closed? && h.Keys == s.Heap().Keys
      && Shades(h, m, n) && (h[uv].v.Gc? && h[uv].v.r in h ==> Marked(n.color, h[uv].v.r))
    ensures BlackOk(Unhook(s, th).Heap(), n.color)
  {
    hide RootList, Buckets, Ring, Anchors, Listed, Keep, OpenLists, StackOk, TopOk, Lists, Kinds;
    var uv, h := s.open[th][0], Unhook(s, th).Heap();
    var m := Marks(s.Color()[uv := Black], s.mk.gray);
    UnhookFields(s, th);
    forall x | x in h && x in n.color && n.color[x] == Black ensures ChildrenMarked(h, n.color, x) {
      if x == uv {
        assert Fields(h, h[uv]) == [h[uv].v];
      } else if Marked(m.color, x) {
        assert ChildrenMarked(s.Heap(), s.Color(), x);
        forall y | Edge(h, x, y) && y in h ensures Marked(n.color, y) {
          assert Edge(s.Heap(), x, y) && Marked(s.Color(), y) && Marked(m.color, y);
        }
      } else {
        assert IsWhite(m.color, x) && Marked(n.color, x);
        assert n.color[x] == Shade(h[x]);
        assert !h[x].Container();
      }
    }
  }

  lemma RecolorKinds(s: State, th: Ref)
    requires Inv(s) && s.phase != Propagating && th in s.open && s.open[th] != [] && !Dead(s, s.open[th][0])
    ensures var uv := s.open[th][0]; var u := Unhook(s, th);
      && uv in u.Heap() && u.Heap()[uv].Closed? && u.Color().Keys == u.Heap().Keys
      && Kinds(u.Heap(), Recolor(u, uv).Color()) && Recolor(u, uv).Color().Keys == u.Heap().Keys
      && IsCurrentWhite(Recolor(u, uv), uv)
      && forall x :: x in s.Heap() && x != uv ==> Recolor(u, uv).Color()[x] == s.Color()[x]
  {
    hide RootList, Buckets, Ring, Anchors, Listed, Keep, OpenLists, StackOk, TopOk, AliveClosed, PhaseOk, Unhook;
    HeadOfList(s, th);
    UnhookShape(s, th);
    UnhookFields(s, th);
    UnhookOthers(s, th);
  }

  lemma UnhookOthers(s: State, th: Ref)
    requires th in s.open && s.open[th] != []
    ensures var u := Unhook(s, th);
      u.Color() == s.Color() && u.phase == s.phase && u.white == s.white
      && forall x :: x in s.Heap() && x != s.open[th][0] ==> x in u.Heap() && u.Heap()[x] == s.Heap()[x]
  {
  }

  lemma RecolorPending(s: State, th: Ref, x: Ref)
    requires Inv(s) && (s.phase == Sweep || s.phase == SweepString) && th in s.open && s.open[th] != []
    requires x in s.Heap() && x != s.open[th][0] && Pending(s, x)
    ensures Pending(Unhook(s, th), x)
  {
    hide RootList, Buckets, Ring, Anchors, Listed, Keep, OpenLists, StackOk, TopOk, AliveClosed, Kinds;
    var u := Unhook(s, th);
    if s.sweepgc > 0 {
      assert u.rootgc[u.sweepgc..] == s.rootgc[s.sweepgc..];
    } else {
      assert s.rootgc[0..] == s.rootgc && u.rootgc[0..] == u.rootgc;
    }
  }

  lemma RecolorPhase(s: State, th: Ref)
    requires Inv(s) && s.phase != Propagating && th in s.open && s.open[th] != [] && !Dead(s, s.open[th][0])
    ensures var uv := s.open[th][0]; var u := Unhook(s, th);
      && uv in u.Heap() && u.Heap()[uv].Closed? && u.Color().Keys == u.Heap().Keys
      && PhaseOk(Recolor(u, uv))
  {
    hide RootList, Buckets, Ring, Anchors, Listed, Keep, OpenLists, StackOk, TopOk, AliveClosed, Kinds, Pending;
    var uv, u := s.open[th][0], Unhook(s, th);
    RecolorKinds(s, th);
    UnhookFields(s, th);
    var s' := Recolor(u, uv);
    forall x | x in s'.Heap() && x != uv && !IsCurrentWhite(s', x) ensures Pending(s', x) {
      assert !IsCurrentWhite(s, x);
      RecolorPending(s, th, x);
      PendingIgnoresColor(u, s', x);
    }
  }

  lemma PendingIgnoresColor(u: State, s': State, x: Ref)
    requires s'.Heap() == u.Heap() && s' == u.(mk := s'.mk) && x in u.Heap() && Pending(u, x)
    ensures Pending(s', x)
  {
  }

  /** Closing an upvalue that is not dead keeps the invariant. */
  lemma RecolorInv(s: State, th: Ref)
    requires Inv(s) && th in s.open && s.open[th] != [] && !Dead(s, s.open[th][0])
    ensures var uv := s.open[th][0]; var u := Unhook(s, th);
      && uv in u.Heap() && u.Heap()[uv].Closed? && u.Color().Keys == u.Heap().Keys
      && Inv(Recolor(u, uv)) && Keeps(s, Recolor(u, uv))
  {
    hide Links, Lists, BlackOk, Kinds, AliveClosed, Unhook, Pending, Fields, Edge, Keeps, IsCurrentWhite;
    var uv, u := s.open[th][0], Unhook(s, th);
    UnhookShape(s, th);
    UnhookFields(s, th);
    UnhookOthers(s, th);
    UnhookRoots(s, th);
    var s' := Recolor(u, uv);
    if s.phase == Propagating {
      RecolorPropagating(s, th);
      InvAnchors(s);
    } else {
      RecolorKinds(s, th);
      RecolorPhase(s, th);
    }
    LinksIgnoreColor(u, s');
    assert forall x :: Dead(s', x) <==> Dead(s, x);
    AliveTransfer(s, s');
  }

  lemma UnhookRoots(s: State, th: Ref)
    requires th in s.open && s.open[th] != []
    ensures var u := Unhook(s, th); Roots(u) == Roots(s) && u.main == s.main && u.registry == s.registry && u.mk.gray == s.mk.gray && u.mk.again == s.mk.again
  {
  }

  lemma InvAnchors(s: State)
    requires Inv(s)
    ensures s.main in s.Heap() && s.running in s.Heap() && (s.registry.Gc? ==> s.registry.r in s.Heap())
  {
    RegistryIn(s);
  }

  lemma LinksIgnoreColor(u: State, s': State)
    requires Links(u) && s'.Heap() == u.Heap() && s' == u.(mk := s'.mk)
    ensures Links(s')
  {
  }

  /** Deadness and references unchanged, so the objects that are not dead stay closed. */
  lemma AliveTransfer(s: State, s': State)
    requires AliveClosed(s) && Roots(s') == Roots(s) && s'.Heap().Keys == s.Heap().Keys
    requires forall x :: Dead(s', x) <==> Dead(s, x)
    requires forall x :: x in s.Heap() ==> Fields(s'.Heap(), s'.Heap()[x]) == Fields(s.Heap(), s.Heap()[x])
    ensures AliveClosed(s') && Keeps(s, s')
  {
    forall x, y | Alive(s', x) && Edge(s'.Heap(), x, y) ensures Alive(s', y) {
      assert Alive(s, x) && Edge(s.Heap(), x, y);
      assert Alive(s, y);
    }
    forall x | x in Roots(s') ensures Alive(s', x) { assert Alive(s, x); }
  }

  lemma CloseOneInv(s: State, th: Ref)
    requires Inv(s) && th in s.open && s.open[th] != []
    ensures s.open[th][0] in s.Heap()
    ensures var s' := CloseOne(s, th);
      && Inv(s') && Keeps(s, s') && s'.phase == s.phase && s'.white == s.white
      && th in s'.open && s'.open[th] == s.open[th][1..]
  {
    hide Links, Lists, BlackOk, Kinds, AliveClosed, Pending, PhaseOk;
    var uv := s.open[th][0];
    HeadOfList(s, th);
    if Dead(s, uv) {
      HeadDisposable(s, th);
      DropInv(s, {uv});
      DropKeeps(s, {uv});
    } else {
      RecolorInv(s, th);
    }
  }

  lemma HeadDisposable(s: State, th: Ref)
    requires Inv(s) && th in s.open && s.open[th] != [] && Dead(s, s.open[th][0])
    ensures Disposable(s, {s.open[th][0]}) && th in Drop(s, {s.open[th][0]}).open
    ensures Drop(s, {s.open[th][0]}).open[th] == s.open[th][1..]
  {
    hide Lists, BlackOk, Kinds, AliveClosed, Pending, PhaseOk, Buckets, Ring, StackOk, TopOk, RootList, Listed, Descending;
    HeadOfList(s, th);
    KeepAllOf(s.open[th][1..], {s.open[th][0]});
  }

  /** luaF_close: close the upvalues of a thread from its first one down to `level'. */
  function CloseUpvals(s: State, th: Ref, level: nat): State
    requires Inv(s) && th in s.open
    decreases |s.open[th]|
  {
    if s.open[th] == [] then s else
      CloseOneInv(s, th);
      HeadOfList(s, th);
      if s.Heap()[s.open[th][0]].idx < level then s
      else CloseUpvals(CloseOne(s, th), th, level)
  }

  lemma KeepsTrans(a: State, b: State, c: State)
    requires Keeps(a, b) && Keeps(b, c)
    ensures Keeps(a, c)
  {
  }

  lemma {:induction false} CloseUpvalsInv(s: State, th: Ref, level: nat)
    requires Inv(s) && th in s.open
    ensures var s' := CloseUpvals(s, th, level);
      && Inv(s') && Keeps(s, s') && s'.phase == s.phase && s'.white == s.white && th in s'.open
      && (level == 0 ==> s'.open[th] == [])
    decreases |s.open[th]|
  {
    hide Inv, Keeps, CloseOne, Fields;
    if s.open[th] != [] {
      CloseOneInv(s, th);
      ShapeOf(s);
      HeadOfList(s, th);
      if s.Heap()[s.open[th][0]].idx >= level {
        CloseUpvalsInv(CloseOne(s, th), th, level);
        KeepsTrans(s, CloseOne(s, th), CloseUpvals(s, th, level));
      } else { KeepsRefl(s); }
    } else { KeepsRefl(s); }
  }

  lemma ShapeOf(s: State)
    requires Inv(s)
    ensures Shape(s)
  {
  }

  lemma KeepsRefl(s: State)
    ensures Keeps(s, s)
  {
  }
}
