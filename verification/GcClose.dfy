/** What luaF_close does to the upvalues of a thread, to the lists and to the other objects. */
module GcClose {
  import opened GcHeap
  import opened GcMark
  import opened GcState
  import opened GcCycle
  import opened GcSweep
  import opened GcStep

  /** Freeing open upvalues of one thread touches no other list. */
  lemma OpenGoneLists(s: State, th: Ref, gone: set<Ref>)
    requires Shape(s) && th in s.open && forall x :: x in gone ==> x in s.open[th]
    ensures Keep(s.rootgc, gone) == s.rootgc && KeepEach(s.strt, gone) == s.strt
      && (map t | t in s.open && t !in gone :: Keep(s.open[t], gone)) == s.open[th := Keep(s.open[th], gone)]
  {
    hide StackOk, TopOk, Kinds, Ring, Listed, Anchors, Descending, Keep, NoDup;
    assert forall x :: x in gone ==> x in s.Heap() && s.Heap()[x].Open? && s.Heap()[x].th == th;
    KeepAllOf(s.rootgc, gone);
    forall c | 0 <= c < |s.strt| ensures Keep(s.strt[c], gone) == s.strt[c] { KeepAllOf(s.strt[c], gone); }
    forall t | t in s.open && t != th ensures Keep(s.open[t], gone) == s.open[t] { KeepAllOf(s.open[t], gone); }
  }

  lemma OpenMembers(s: State, th: Ref)
    requires Shape(s) && th in s.open
    ensures s.Color().Keys == s.Heap().Keys && NoDup(s.open[th]) && forall x :: x in s.open[th] ==> x in s.Heap()
  {
    assert Descending(s.Heap(), s.open[th]);
  }

  lemma HeadKept(xs: seq<Ref>)
    requires xs != [] && NoDup(xs)
    ensures Keep(xs, {xs[0]}) == xs[1..]
  {
    KeepAllOf(xs[1..], {xs[0]});
  }

  lemma HeadState(s: State, th: Ref)
    requires Shape(s) && th in s.open && s.open[th] != []
    ensures var uv := s.open[th][0];
      Drop(s, {uv}) == s.(mk := s.mk.(heap := s.Heap() - {uv}, color := s.Color() - {uv}),
                          open := s.open[th := s.open[th][1..]], uvhead := Keep(s.uvhead, {uv}))
  {
    hide KeepEach, Keep, NoDup, RootList, Buckets, OpenLists, Ring, Listed, Anchors, StackOk, TopOk, Kinds;
    var uv := s.open[th][0];
    OpenGoneLists(s, th, {uv});
    OpenMembers(s, th);
    HeadOfList(s, th);
    HeadKept(s.open[th]);
  }

  lemma HeadOk(s: State, th: Ref)
    requires Inv(s) && th in s.open
    ensures s.Color().Keys == s.Heap().Keys
    ensures s.open[th] != [] ==> s.open[th][0] in s.Heap() && s.Heap()[s.open[th][0]].Open? && s.Heap()[s.open[th][0]].th == th
  {
    if s.open[th] != [] { HeadOfList(s, th); }
  }

  ghost predicate EndOf(r: seq<Ref>, xs: seq<Ref>) {
    |r| <= |xs| && r == xs[|xs| - |r|..]
  }

  /** The upvalues of the thread at or above `level', still open in `s'. */
  ghost predicate ToClose(s: State, th: Ref, level: nat, x: Ref) {
    th in s.open && x in s.open[th] && x in s.Heap() && s.Heap()[x].Open? && s.Heap()[x].idx >= level
  }

  /** The upvalues below the level are left in the list of the thread, in their order; the lists of other
      threads and all objects but those at or above it are as they were. */
  ghost predicate RestKept(s: State, th: Ref, level: nat, s': State) {
    && s'.open.Keys == s.open.Keys && th in s.open
    && (forall t :: t in s.open && t != th ==> s'.open[t] == s.open[t])
    && EndOf(s'.open[th], s.open[th])
    && (forall x :: x in s.open[th] ==> (x in s'.open[th] <==> !ToClose(s, th, level, x)))
    && (forall x :: x in s.Heap() && !ToClose(s, th, level, x) ==> x in s'.Heap() && s'.Heap()[x] == s.Heap()[x])
    && s'.Heap().Keys <= s.Heap().Keys && s'.strt == s.strt
  }

  ghost predicate ClosedIn(s: State, th: Ref, x: Ref, s': State)
    requires x in s.Heap() && s.Heap()[x].Open?
  {
    if Dead(s, x) then x !in s'.Heap() else x in s'.Heap() && s'.Heap()[x] == Closed(Slot(s.Heap(), th, s.Heap()[x].idx))
  }

  ghost predicate UpvalsClosed(s: State, th: Ref, level: nat, s': State) {
    forall x :: ToClose(s, th, level, x) ==> ClosedIn(s, th, x, s')
  }

  /** The upvalues to close that are not dead. */
  ghost function Living(s: State, th: Ref, level: nat): set<Ref> {
    set x | x in s.Heap() && ToClose(s, th, level, x) && !Dead(s, x)
  }

  /** The upvalues closed are linked in front of the other objects. */
  ghost predicate LinkedAbove(s: State, th: Ref, level: nat, s': State) {
    EndOf(s.rootgc, s'.rootgc) && forall x :: x in s'.rootgc <==> x in s.rootgc || x in Living(s, th, level)
  }

  /** Those to close are out of the ring. */
  ghost predicate RingBelow(s: State, th: Ref, level: nat, s': State) {
    forall x :: x in s'.uvhead <==> x in s.uvhead && !ToClose(s, th, level, x)
  }

  /** Those at or above the level are freed if they were dead; the others own the value their slot had. */
  ghost predicate AboveClosed(s: State, th: Ref, level: nat, s': State) {
    UpvalsClosed(s, th, level, s') && LinkedAbove(s, th, level, s') && RingBelow(s, th, level, s')
  }

  /** One turn of the loop. */
  lemma CloseOneState(s: State, th: Ref)
    requires Inv(s) && th in s.open && s.open[th] != []
    ensures s.open[th][0] in s.Heap()
    ensures var uv, s' := s.open[th][0], CloseOne(s, th);
      && s'.open == s.open[th := s.open[th][1..]] && s'.uvhead == Keep(s.uvhead, {uv}) && s'.strt == s.strt
      && s'.rootgc == (if Dead(s, uv) then s.rootgc else [uv] + s.rootgc)
      && s'.Heap() == (if Dead(s, uv) then s.Heap() - {uv} else s.Heap()[uv := Closed(Slot(s.Heap(), th, s.Heap()[uv].idx))])
  {
    hide Inv, Shape, Keep, Slot;
    ShapeOf(s);
    HeadOk(s, th);
    HeadOfList(s, th);
    if Dead(s, s.open[th][0]) { HeadState(s, th); }
  }

  /** No other upvalue of the list dies or comes to life. */
  lemma DeadStays(s: State, th: Ref, x: Ref)
    requires Inv(s) && th in s.open && s.open[th] != [] && s.open[th][0] in s.Heap() && Inv(CloseOne(s, th))
    requires CloseOne(s, th).phase == s.phase && CloseOne(s, th).white == s.white
    requires x in s.Heap() && x in CloseOne(s, th).Heap() && x != s.open[th][0]
    ensures Dead(CloseOne(s, th), x) <==> Dead(s, x)
  {
    hide Shape, AliveClosed, Drop;
    HeadOk(s, th);
    ShapeOf(s);
    if s.phase != Propagating {
      if Dead(s, s.open[th][0]) { HeadState(s, th); } else { UnhookColor(s, th); }
    }
  }

  lemma UnhookColor(s: State, th: Ref)
    requires th in s.open && s.open[th] != []
    ensures Unhook(s, th).Color() == s.Color() && Unhook(s, th).phase == s.phase
  {
  }

  lemma OtherUpvals(s: State, th: Ref)
    requires Shape(s) && th in s.open
    ensures th in s.Heap() && s.Heap()[th].Thread?
    ensures forall t, x :: t in s.open && x in s.open[t] ==> x in s.Heap() && s.Heap()[x].Open? && s.Heap()[x].th == t
    ensures forall x :: x in s.Heap() && s.Heap()[x].Open? ==> x !in s.rootgc
    ensures forall x :: x in s.open[th] ==> x in s.uvhead
  {
    hide Descending, StackOk, TopOk, Kinds, Anchors;
  }

  /** The list is ordered by level, so all upvalues to close are in front. */
  lemma NoneToClose(s: State, th: Ref, level: nat)
    requires Shape(s) && th in s.open && (s.open[th] != [] ==> s.open[th][0] in s.Heap() && s.Heap()[s.open[th][0]].Open? && s.Heap()[s.open[th][0]].idx < level)
    ensures RestKept(s, th, level, s) && AboveClosed(s, th, level, s)
  {
    hide RootList, Buckets, Ring, Listed, StackOk, TopOk, Kinds, Anchors;
    if s.open[th] != [] { HeadOfList(s, th); }
    assert forall x :: x in s.open[th] ==> !ToClose(s, th, level, x) by {
      assert s.open[th] != [] ==> s.open[th] == [s.open[th][0]] + s.open[th][1..];
    }
  }

  lemma OneMoreKept(s: State, th: Ref, level: nat, s1: State, s': State)
    requires Inv(s) && th in s.open && s.open[th] != [] && s.open[th][0] in s.Heap() && s1 == CloseOne(s, th) && Inv(s1)
    requires ToClose(s, th, level, s.open[th][0])
    requires th in s1.open && RestKept(s1, th, level, s')
    ensures RestKept(s, th, level, s')
  {
    hide Inv, Shape, CloseOne, Keep, Slot;
    ShapeOf(s);
    HeadOfList(s, th);
    CloseOneState(s, th);
    ToCloseThen(s, th, level, s1);
    hide ToClose, Dead;
    var xs := s.open[th];
    assert EndOf(xs[1..], xs);
    EndThen(s'.open[th], xs[1..], xs);
    HeadGone(s'.open[th], xs);
    hide EndOf;
    forall x | x in xs ensures x in s'.open[th] <==> !ToClose(s, th, level, x) {
      assert x == xs[0] || x in xs[1..];
    }
  }

  lemma HeadGone(r: seq<Ref>, xs: seq<Ref>)
    requires xs != [] && EndOf(r, xs[1..]) && xs[0] !in xs[1..]
    ensures xs[0] !in r
  {
  }

  lemma ToCloseThen(s: State, th: Ref, level: nat, s1: State)
    requires Inv(s) && th in s.open && s.open[th] != [] && s.open[th][0] in s.Heap() && s1 == CloseOne(s, th) && Inv(s1)
    ensures forall x :: ToClose(s1, th, level, x) <==> ToClose(s, th, level, x) && x != s.open[th][0]
    ensures forall x :: ToClose(s1, th, level, x) ==> x in s.Heap() && s1.Heap()[x] == s.Heap()[x]
    ensures s.open[th][0] !in s.open[th][1..]
  {
    hide Inv, Shape, CloseOne, Keep, Slot;
    ShapeOf(s);
    HeadOfList(s, th);
    CloseOneState(s, th);
    OtherUpvals(s, th) by { ShapeOf(s); }
    var xs := s.open[th];
    assert xs == [xs[0]] + xs[1..];
  }

  lemma OneMoreUpval(s: State, th: Ref, level: nat, s1: State, s': State, x: Ref)
    requires Inv(s) && th in s.open && s.open[th] != [] && s.open[th][0] in s.Heap() && s1 == CloseOne(s, th) && Inv(s1)
    requires s1.phase == s.phase && s1.white == s.white && ToClose(s, th, level, s.open[th][0])
    requires th in s1.open && RestKept(s1, th, level, s') && UpvalsClosed(s1, th, level, s') && ToClose(s, th, level, x)
    ensures ClosedIn(s, th, x, s')
  {
    hide Inv, Shape, CloseOne, Keep, EndOf, Slot;
    var uv := s.open[th][0];
    ShapeOf(s);
    HeadOfList(s, th);
    CloseOneState(s, th);
    ToCloseThen(s, th, level, s1);
    OtherUpvals(s, th);
    SlotsSame(s, s1, th);
    if x == uv {
      assert !ToClose(s1, th, level, uv);
    } else {
      DeadStays(s, th, x);
    }
  }

  lemma LivingThen(s: State, th: Ref, level: nat, s1: State)
    requires Inv(s) && th in s.open && s.open[th] != [] && s.open[th][0] in s.Heap() && s1 == CloseOne(s, th) && Inv(s1)
    requires s1.phase == s.phase && s1.white == s.white && ToClose(s, th, level, s.open[th][0])
    ensures var uv := s.open[th][0]; Living(s, th, level) == Living(s1, th, level) + if Dead(s, uv) then {} else {uv}
  {
    hide Inv, Shape, CloseOne, Dead;
    ToCloseThen(s, th, level, s1);
    hide ToClose;
    forall x | ToClose(s1, th, level, x) ensures x in s1.Heap() && (Dead(s1, x) <==> Dead(s, x)) {
      StillThere(s1, th, level, x);
      DeadStays(s, th, x);
    }
    forall x ensures x in Living(s1, th, level) <==> ToClose(s1, th, level, x) && !Dead(s, x) { }
    forall x | ToClose(s, th, level, x) ensures x in s.Heap() { StillThere(s, th, level, x); }
  }

  lemma StillThere(s: State, th: Ref, level: nat, x: Ref)
    requires ToClose(s, th, level, x)
    ensures x in s.Heap()
  {
  }

  lemma OneMoreLinked(s: State, th: Ref, level: nat, s1: State, s': State)
    requires Inv(s) && th in s.open && s.open[th] != [] && s.open[th][0] in s.Heap() && s1 == CloseOne(s, th) && Inv(s1)
    requires s1.phase == s.phase && s1.white == s.white && ToClose(s, th, level, s.open[th][0])
    requires LinkedAbove(s1, th, level, s')
    ensures LinkedAbove(s, th, level, s')
  {
    hide Inv, Shape, CloseOne, Keep, Slot, Dead, ToClose, EndOf, Living;
    CloseOneState(s, th);
    LivingThen(s, th, level, s1);
    FrontEnd(s.rootgc, s1.rootgc, s.open[th][0]);
    EndThen(s.rootgc, s1.rootgc, s'.rootgc);
  }

  lemma FrontEnd(a: seq<Ref>, b: seq<Ref>, x: Ref)
    requires b == a || b == [x] + a
    ensures EndOf(a, b)
  {
  }

  lemma OneMoreRing(s: State, th: Ref, level: nat, s1: State, s': State)
    requires Inv(s) && th in s.open && s.open[th] != [] && s.open[th][0] in s.Heap() && s1 == CloseOne(s, th) && Inv(s1)
    requires ToClose(s, th, level, s.open[th][0]) && RingBelow(s1, th, level, s')
    ensures RingBelow(s, th, level, s')
  {
    hide Inv, Shape, CloseOne, Keep, Slot, Dead, ToClose;
    CloseOneState(s, th);
    ToCloseThen(s, th, level, s1);
    KeepMembers(s.uvhead, {s.open[th][0]});
  }

  lemma OneMoreClosed(s: State, th: Ref, level: nat, s1: State, s': State)
    requires Inv(s) && th in s.open && s.open[th] != [] && s.open[th][0] in s.Heap() && s1 == CloseOne(s, th) && Inv(s1)
    requires s1.phase == s.phase && s1.white == s.white && ToClose(s, th, level, s.open[th][0])
    requires th in s1.open && RestKept(s1, th, level, s') && AboveClosed(s1, th, level, s')
    ensures AboveClosed(s, th, level, s')
  {
    hide Inv, Shape, CloseOne, RestKept, ClosedIn, LinkedAbove, RingBelow, Dead;
    OneMoreLinked(s, th, level, s1, s');
    OneMoreRing(s, th, level, s1, s');
    forall x | ToClose(s, th, level, x) ensures ClosedIn(s, th, x, s') { OneMoreUpval(s, th, level, s1, s', x); }
  }

  lemma SlotsSame(s: State, s1: State, th: Ref)
    requires th in s.Heap() && th in s1.Heap() && s1.Heap()[th] == s.Heap()[th]
    ensures forall i: nat :: Slot(s1.Heap(), th, i) == Slot(s.Heap(), th, i)
  {
  }

  lemma EndThen(a: seq<Ref>, b: seq<Ref>, c: seq<Ref>)
    requires EndOf(a, b) && EndOf(b, c)
    ensures EndOf(a, c)
  {
    assert c[|c| - |b|..][|b| - |a|..] == c[|c| - |a|..];
  }

  /** luaF_close closes the upvalues at or above the level, and those only. */
  lemma {:induction false} CloseUpvalsExact(s: State, th: Ref, level: nat)
    requires Inv(s) && th in s.open
    ensures RestKept(s, th, level, CloseUpvals(s, th, level)) && AboveClosed(s, th, level, CloseUpvals(s, th, level))
    decreases |s.open[th]|
  {
    hide Inv, Shape, Keeps, CloseOne, RestKept, AboveClosed;
    ShapeOf(s);
    if s.open[th] != [] {
      HeadOfList(s, th);
      CloseOneInv(s, th);
    }
    if s.open[th] != [] && s.Heap()[s.open[th][0]].idx >= level {
      var s1 := CloseOne(s, th);
      CloseUpvalsExact(s1, th, level);
      assert ToClose(s, th, level, s.open[th][0]);
      OneMoreKept(s, th, level, s1, CloseUpvals(s1, th, level));
      OneMoreClosed(s, th, level, s1, CloseUpvals(s1, th, level));
    } else {
      NoneToClose(s, th, level);
    }
  }
}
