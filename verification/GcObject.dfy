/** The collector as the program text has it: an object whose fields its methods update, with loops
    over the lists. Every method computes the state its specification function gives. */
module GcObject {
  import opened GcHeap
  import opened GcMark
  import opened GcState
  import opened GcCycle
  import opened GcSweep
  import opened GcStep
  import opened GcMutator
  import opened GcClose
  import Collect = GcCollect
  import Full = GcFull
  import Run = GcRun
  import Safety = GcSafety
  import Strings = GcStrings

  lemma {:induction false} MarkAllAppend(h: Heap, m: Marks, a: seq<Value>, b: seq<Value>)
    requires m.color.Keys == h.Keys
    ensures MarkAll(h, m, a + b) == MarkAll(h, MarkAll(h, m, a), b)
    decreases |a|
  {
    if a == [] {
      assert a + b == b;
    } else {
      assert (a + b)[1..] == a[1..] + b;
      MarkAllAppend(h, MarkValue(h, m, a[0]), a[1..], b);
    }
  }

  /** Marking does not look inside tables. */
  ghost predicate SameButTables(h: Heap, h': Heap) {
    h.Keys == h'.Keys && forall x :: x in h ==> h'[x] == h[x] || (h[x].Table? && h'[x].Table?)
  }

  lemma {:induction false} MarkSameButTables(h: Heap, h': Heap, m: Marks, v: Value)
    requires m.color.Keys == h.Keys && SameButTables(h, h')
    ensures MarkValue(h', m, v) == MarkValue(h, m, v)
    decreases Whites(m.color)
  {
    if v.Gc? && v.r in h && m.color[v.r].White? {
      var r := v.r;
      Darker(m.color, r, Gray);
      Darker(m.color, r, Black);
      var gray := m.(color := m.color[r := Gray]);
      var black := m.(color := m.color[r := Black]);
      match h[r]
      case Udata(meta, env) =>
        MarkSameButTables(h, h', black, meta);
        MarkSameButTables(h, h', MarkValue(h, black, meta), env);
      case Open(th, idx) => MarkSameButTables(h, h', gray, Slot(h, th, idx));
      case Closed(w) => MarkSameButTables(h, h', gray, w);
      case _ =>
    }
  }

  lemma MarkTwo(h: Heap, m: Marks, v: Value, w: Value)
    requires m.color.Keys == h.Keys
    ensures MarkAll(h, m, [v, w]) == MarkValue(h, MarkValue(h, m, v), w)
  {
    var n := MarkValue(h, m, v);
    assert [v, w][1..] == [w] && [w][1..] == [];
    assert MarkAll(h, n, [w]) == MarkAll(h, MarkValue(h, n, w), []);
    assert MarkAll(h, m, [v, w]) == MarkAll(h, n, [w]);
  }

  /** Marking a node in the heap whose later nodes are already clean. */
  lemma NodeMarked(h0: Heap, h: Heap, m: Marks, node: seq<Node>, j: nat)
    requires m.color.Keys == h0.Keys && SameButTables(h0, h) && j < |node|
    ensures var n := node[j]; var vs := if n.val.Nil? then [] else [n.key, n.val];
      MarkAll(h0, m, NodeFields(node[..j + 1])) == MarkAll(h0, MarkAll(h, m, vs), NodeFields(node[..j]))
  {
    hide MarkAll;
    var n := node[j];
    var vs := if n.val.Nil? then [] else [n.key, n.val];
    assert node[..j + 1][..j] == node[..j];
    assert NodeFields(node[..j + 1]) == vs + NodeFields(node[..j]);
    MarkAllAppend(h0, m, vs, NodeFields(node[..j]));
    MarkTwo(h0, m, n.key, n.val);
    MarkTwo(h, m, n.key, n.val);
    MarkNone(h0, m);
    MarkNone(h, m);
    MarkSameButTables(h0, h, m, n.key);
    MarkSameButTables(h0, h, MarkValue(h0, m, n.key), n.val);
  }

  lemma MarkNone(h: Heap, m: Marks)
    requires m.color.Keys == h.Keys
    ensures MarkAll(h, m, []) == m
  {
  }

  /** The nodes from `j' on are traversed, in the heap `h' and with the marks `m'. */
  ghost predicate NodesDone(h0: Heap, m0: Marks, r: Ref, j: nat, h: Heap, m: Marks)
    requires r in h0 && h0[r].Table? && j <= |h0[r].node| && m0.color.Keys == h0.Keys && m.color.Keys == h0.Keys
  {
    var t := h0[r];
    && h == h0[r := Table(t.meta, t.arr, Cleaned(t.node, j))]
    && MarkAll(h0, m0, NodeFields(t.node)) == MarkAll(h0, m, NodeFields(t.node[..j]))
  }

  lemma NodesStart(h0: Heap, m0: Marks, r: Ref)
    requires r in h0 && h0[r].Table? && m0.color.Keys == h0.Keys
    ensures NodesDone(h0, m0, r, |h0[r].node|, h0, m0)
  {
    hide MarkAll, NodeFields, Cleaned, CleanNodes;
    var t := h0[r];
    CleanedEnds(t.node);
    assert t.node[..|t.node|] == t.node;
    assert h0[r := Table(t.meta, t.arr, t.node)] == h0;
  }

  lemma NodesStep(h0: Heap, m0: Marks, r: Ref, j: nat, h: Heap, m: Marks, m': Marks)
    requires r in h0 && h0[r].Table? && j < |h0[r].node| && m0.color.Keys == h0.Keys && m.color.Keys == h0.Keys && m'.color.Keys == h0.Keys
    requires NodesDone(h0, m0, r, j + 1, h, m) && r in h && h[r].Table? && h.Keys == h0.Keys && j < |h[r].node|
    requires var n := h[r].node[j]; m' == MarkAll(h, m, if n.val.Nil? then [] else [n.key, n.val])
    ensures var t := h[r]; NodesDone(h0, m0, r, j, h[r := Table(t.meta, t.arr, t.node[j := CleanNodes(t.node)[j]])], m')
  {
    hide MarkAll, NodeFields, Cleaned, CleanNodes;
    CleanedStep(h0[r].node, j);
    NodeMarked(h0, h, m, h0[r].node, j);
  }

  lemma NodesEnd(h0: Heap, m0: Marks, r: Ref, h: Heap, m: Marks)
    requires r in h0 && h0[r].Table? && m0.color.Keys == h0.Keys && m.color.Keys == h0.Keys && NodesDone(h0, m0, r, 0, h, m)
    ensures h == h0[r := Traversed(h0[r])] && m == MarkAll(h0, m0, NodeFields(h0[r].node))
  {
    hide MarkAll, NodeFields, Cleaned, CleanNodes;
    NoFields(h0, m, h0[r].node);
  }

  lemma NoFields(h: Heap, m: Marks, node: seq<Node>)
    requires m.color.Keys == h.Keys
    ensures MarkAll(h, m, NodeFields(node[..0])) == m && Cleaned(node, 0) == CleanNodes(node)
  {
  }

  lemma CleanedEnds(node: seq<Node>)
    ensures Cleaned(node, |node|) == node && Cleaned(node, 0) == CleanNodes(node)
  {
  }

  /** The nodes when those from `j' on have been cleaned. */
  function Cleaned(node: seq<Node>, j: nat): (r: seq<Node>)
    requires j <= |node|
    ensures |r| == |node|
  {
    node[..j] + CleanNodes(node)[j..]
  }

  lemma CleanedStep(node: seq<Node>, j: nat)
    requires j < |node|
    ensures var c := Cleaned(node, j + 1);
      c[j] == node[j] && CleanNodes(c)[j] == CleanNodes(node)[j] && c[j := CleanNodes(node)[j]] == Cleaned(node, j)
  {
  }

  lemma ShapeAnchors(s: State)
    requires Shape(s)
    ensures s.main in s.Heap() && s.Heap()[s.main].Thread? && s.Color().Keys == s.Heap().Keys
  {
  }

  lemma Keyed(k: Mk)
    requires Sane(k)
    ensures k.color.Keys == k.heap.Keys
  {
  }

  lemma PrefixStep(xs: seq<Ref>, i: nat)
    requires i < |xs| && NoDup(xs)
    ensures xs[..i + 1] == xs[..i] + [xs[i]] && xs[i] !in xs[..i]
    ensures forall x :: x in xs[..i + 1] <==> x in xs[..i] || x == xs[i]
  {
  }

  lemma DoomedMember(s: State, list: seq<Ref>, x: Ref)
    requires x in list && x in s.Color()
    ensures x in DoomedOf(s, list) <==> s.Color()[x] == White(!s.white) && x !in s.fixed
  {
  }

  /** The heap and the colours when the first `i' members of a list have been swept. */
  ghost predicate SweptPrefix(s: State, list: seq<Ref>, i: nat, h: Heap, c: Colors)
    requires i <= |list|
  {
    && c.Keys == h.Keys
    && (forall x :: x in h <==> x in s.Heap() && !(x in DoomedOf(s, list) && x in list[..i]))
    && (forall x :: x in h ==> h[x] == s.Heap()[x])
    && (forall x :: x in h && x in s.Color() ==> c[x] == if x in list[..i] then White(s.white) else s.Color()[x])
  }

  ghost function GoneIn(s: State, list: seq<Ref>, i: nat): set<Ref>
    requires i <= |list|
  {
    set x | x in DoomedOf(s, list) && x in list[..i]
  }

  lemma {:induction false} KeepTwice(xs: seq<Ref>, a: set<Ref>, b: set<Ref>)
    ensures Keep(Keep(xs, a), b) == Keep(xs, a + b)
  {
    if xs != [] {
      KeepTwice(xs[1..], a, b);
      var t := Keep(xs[1..], a);
      if xs[0] in a { assert Keep(xs, a) == t; } else { assert Keep(xs, a) == [xs[0]] + t && Keep(xs, a)[1..] == t; }
    }
  }

  /** The list and the ring when the first `i' members have been swept. */
  ghost predicate Rings(s: State, list: seq<Ref>, i: nat, uvhead: seq<Ref>, kept: seq<Ref>)
    requires i <= |list|
  {
    kept == Keep(list[..i], DoomedOf(s, list)) && uvhead == Keep(s.uvhead, GoneIn(s, list, i))
  }

  lemma RingStep(s: State, list: seq<Ref>, i: nat, uvhead: seq<Ref>, kept: seq<Ref>)
    requires i < |list| && Rings(s, list, i, uvhead, kept)
    ensures Rings(s, list, i + 1, if list[i] in DoomedOf(s, list) then Keep(uvhead, {list[i]}) else uvhead,
                  if list[i] in DoomedOf(s, list) then kept else kept + [list[i]])
  {
    hide Keep, DoomedOf;
    KeepNext(list, i, DoomedOf(s, list));
    assert list[..i + 1] == list[..i] + [list[i]];
    if list[i] in DoomedOf(s, list) {
      KeepTwice(s.uvhead, GoneIn(s, list, i), {list[i]});
      assert GoneIn(s, list, i + 1) == GoneIn(s, list, i) + {list[i]};
    } else {
      assert GoneIn(s, list, i + 1) == GoneIn(s, list, i);
    }
  }

  lemma SweptStart(s: State, list: seq<Ref>)
    requires s.Color().Keys == s.Heap().Keys
    ensures SweptPrefix(s, list, 0, s.Heap(), s.Color()) && Rings(s, list, 0, s.uvhead, [])
  {
    KeepAllOf(s.uvhead, GoneIn(s, list, 0));
  }

  lemma SweptEnd(s: State, list: seq<Ref>, k: Mk, uvhead: seq<Ref>, kept: seq<Ref>)
    requires s.Color().Keys == s.Heap().Keys && k.gray == s.mk.gray && k.again == s.mk.again
    requires SweptPrefix(s, list, |list|, k.heap, k.color) && Rings(s, list, |list|, uvhead, kept)
    ensures k == SweepWhole(s, list).mk && kept == Keep(list, DoomedOf(s, list)) && uvhead == Keep(s.uvhead, DoomedOf(s, list))
  {
    assert list[..|list|] == list;
    assert GoneIn(s, list, |list|) == DoomedOf(s, list);
    SweepMk(s, list, k);
  }

  lemma SweptStep(s: State, list: seq<Ref>, i: nat, h: Heap, c: Colors)
    requires i < |list| && NoDup(list) && (forall x :: x in list ==> x in s.Heap()) && s.Color().Keys == s.Heap().Keys
    requires SweptPrefix(s, list, i, h, c)
    ensures var x := list[i];
      && x in h && c.Keys == h.Keys && c[x] == s.Color()[x] && list[..i + 1] == list[..i] + [x]
      && (x in DoomedOf(s, list) <==> c[x] == White(!s.white) && x !in s.fixed)
      && (x in DoomedOf(s, list) ==> SweptPrefix(s, list, i + 1, h - {x}, c - {x}))
      && (x !in DoomedOf(s, list) ==> SweptPrefix(s, list, i + 1, h, c[x := White(s.white)]))
  {
    PrefixStep(list, i);
    DoomedMember(s, list, list[i]);
  }

  lemma KeepOne(x: Ref, gone: set<Ref>)
    ensures Keep([x], gone) == if x in gone then [] else [x]
  {
    assert [x][1..] == [];
  }

  lemma KeepNext(list: seq<Ref>, i: nat, gone: set<Ref>)
    requires i < |list|
    ensures Keep(list[..i + 1], gone) == if list[i] in gone then Keep(list[..i], gone) else Keep(list[..i], gone) + [list[i]]
  {
    assert list[..i + 1] == list[..i] + [list[i]];
    KeepAppend(list[..i], [list[i]], gone);
    KeepOne(list[i], gone);
  }

  lemma SweepMk(s: State, list: seq<Ref>, k: Mk)
    requires s.Color().Keys == s.Heap().Keys && k.color.Keys == k.heap.Keys && k.gray == s.mk.gray && k.again == s.mk.again
    requires forall x :: x in k.heap <==> x in s.Heap() && x !in DoomedOf(s, list)
    requires forall x :: x in k.heap ==> k.heap[x] == s.Heap()[x]
    requires forall x :: x in k.heap ==> k.color[x] == if x in list then White(s.white) else s.Color()[x]
    ensures k == SweepWhole(s, list).mk
  {
    var k' := SweepWhole(s, list).mk;
    assert k'.color.Keys == s.Color().Keys - DoomedOf(s, list);
    assert k.color == k'.color && k.heap == k'.heap;
  }

  lemma MarkRootState(s: State, m: Marks)
    requires Shape(s)
    requires m == MarkAll(s.Heap(), Marks(s.Color(), []), [Gc(s.main), s.Heap()[s.main].gt, s.registry] + s.mt)
    ensures s.(mk := Mk(s.Heap(), m.color, m.gray, []), phase := Propagating) == MarkRoot(s)
  {
    hide RootList, Buckets, OpenLists, Ring, Listed, StackOk, TopOk, Kinds, MarkAll;
  }

  /** Sweeping a bucket touches no other list. */
  lemma SweepBucketLists(s: State, b: nat)
    requires Shape(s) && b < |s.strt|
    ensures var gone := DoomedOf(s, s.strt[b]);
      Keep(s.rootgc, gone) == s.rootgc && KeepEach(s.strt, gone) == s.strt[b := Keep(s.strt[b], gone)]
      && (map th | th in s.open && th !in gone :: Keep(s.open[th], gone)) == s.open
  {
    hide StackOk, TopOk, Kinds, Ring, Listed, Anchors, Descending, Keep, NoDup;
    var gone := DoomedOf(s, s.strt[b]);
    assert forall x :: x in gone ==> x in s.strt[b] && x in s.Heap() && s.Heap()[x].Str?;
    KeepAllOf(s.rootgc, gone);
    forall c | 0 <= c < |s.strt| && c != b ensures Keep(s.strt[c], gone) == s.strt[c] { KeepAllOf(s.strt[c], gone); }
    forall th | th in s.open ensures Keep(s.open[th], gone) == s.open[th] { KeepAllOf(s.open[th], gone); }
  }

  /** Freeing one object of `rootgc' touches only `rootgc' and, for a thread, its empty list. */
  lemma RootGoneLists(s: State, x: Ref)
    requires Shape(s) && x in s.rootgc
    ensures Keep(s.uvhead, {x}) == s.uvhead && KeepEach(s.strt, {x}) == s.strt
      && (map t | t in s.open && t !in {x} :: Keep(s.open[t], {x})) == s.open - {x}
  {
    hide StackOk, TopOk, Kinds, Listed, Anchors, Descending, Keep, NoDup;
    KeepAllOf(s.uvhead, {x});
    forall c | 0 <= c < |s.strt| ensures Keep(s.strt[c], {x}) == s.strt[c] { KeepAllOf(s.strt[c], {x}); }
    forall t | t in s.open ensures Keep(s.open[t], {x}) == s.open[t] { KeepAllOf(s.open[t], {x}); }
  }

  lemma BucketState(s: State, k: Mk, uvhead: seq<Ref>, kept: seq<Ref>)
    requires Shape(s) && s.sweepstr < |s.strt|
    requires var xs := s.strt[s.sweepstr]; var gone := DoomedOf(s, xs);
      k == SweepWhole(s, xs).mk && uvhead == Keep(s.uvhead, gone) && kept == Keep(xs, gone)
    ensures s.(mk := k, uvhead := uvhead, strt := s.strt[s.sweepstr := kept]) == SweepWhole(s, s.strt[s.sweepstr])
  {
    hide Shape, Keep, KeepEach;
    SweepBucketLists(s, s.sweepstr);
  }

  lemma OpenState(s: State, th: Ref, k: Mk, uvhead: seq<Ref>, kept: seq<Ref>)
    requires Shape(s) && th in s.open
    requires var xs := s.open[th]; var gone := DoomedOf(s, xs);
      k == SweepWhole(s, xs).mk && uvhead == Keep(s.uvhead, gone) && kept == Keep(xs, gone)
    ensures s.(mk := k, uvhead := uvhead, open := s.open[th := kept]) == SweepWhole(s, s.open[th])
  {
    hide Shape, Keep, KeepEach;
    OpenGoneLists(s, th, DoomedOf(s, s.open[th]));
  }

  lemma RootState(s: State, x: Ref)
    requires Shape(s) && x in s.rootgc
    ensures Drop(s, {x}) == s.(mk := s.mk.(heap := s.Heap() - {x}, color := s.Color() - {x}), open := s.open - {x}, rootgc := Keep(s.rootgc, {x}))
  {
    hide KeepEach, Keep, RootList, Buckets, OpenLists, Ring, Listed, Anchors, StackOk, TopOk, Kinds;
    RootGoneLists(s, x);
  }

  lemma InvKeys(s: State)
    requires Inv(s)
    ensures s.Color().Keys == s.Heap().Keys
  {
  }

  lemma SameObject(s1: State, s2: State, x: Ref)
    requires Inv(s1) && Inv(s2) && Collect.OthersSame(s1, s2) && x in s1.Heap() && !s1.Heap()[x].Open? && !s1.Heap()[x].Str?
    ensures x in s2.rootgc
  {
    InvKeys(s1);
    Collect.ThreadsHaveLists(s1, s2, x);
  }

  lemma RunningUpvals(s: State, level: nat)
    requires Shape(s)
    ensures s.Color().Keys == s.Heap().Keys && s.running in s.open
    ensures var uvs := s.open[s.running];
      && (forall x :: x in uvs ==> x in s.Heap() && s.Heap()[x].Open? && s.Heap()[x].th == s.running)
      && Safety.Existing(s, level) == Safety.Position(s.Heap(), uvs, level)
  {
  }

  lemma WhitenOne(s: State, x: Ref)
    requires x in s.Color()
    ensures Whiten(s, [x]) == s.(mk := s.mk.(color := s.Color()[x := White(s.white)]))
  {
    assert Whiten(s, [x]).Color() == s.Color()[x := White(s.white)];
  }

  lemma BucketMembers(s: State)
    requires Inv(s) && s.phase == SweepString
    ensures Shape(s) && s.Color().Keys == s.Heap().Keys && s.sweepstr < |s.strt|
    ensures var xs := s.strt[s.sweepstr]; NoDup(xs) && forall x :: x in xs ==> x in s.Heap()
  {
    hide StackOk, TopOk, Kinds, OpenLists, Ring, Listed, RootList, AliveClosed;
  }

  lemma SweptBucket(s: State, s': State, k: Mk, uvhead: seq<Ref>, kept: seq<Ref>)
    requires Inv(s) && s.phase == SweepString && s.sweepstr < |s.strt|
    requires var xs := s.strt[s.sweepstr]; var gone := DoomedOf(s, xs);
      k == SweepWhole(s, xs).mk && uvhead == Keep(s.uvhead, gone) && kept == Keep(xs, gone)
    requires s' == s.(mk := k, uvhead := uvhead, strt := s.strt[s.sweepstr := kept], sweepstr := s.sweepstr + 1,
                      phase := if s.sweepstr + 1 >= |s.strt| then Sweep else SweepString)
    ensures s' == Collect.SweepStringStep(s)
  {
    hide Inv, Shape, Keep, KeepEach, SweepWhole, DoomedOf;
    ShapeOf(s);
    BucketState(s, k, uvhead, kept);
    SweepWholeStrt(s, s.strt[s.sweepstr]);
  }

  lemma SweepWholeStrt(s: State, xs: seq<Ref>)
    ensures |SweepWhole(s, xs).strt| == |s.strt|
  {
  }

  lemma GrayContainer(k: Mk)
    requires Tri(k) && k.gray != []
    ensures k.gray[0] in k.heap && k.heap[k.gray[0]].Container()
  {
    assert k.gray[0] in k.gray;
  }

  class GlobalState {
    var heap: Heap
    var color: Colors
    var gray: seq<Ref>
    var grayagain: seq<Ref>
    var fixed: set<Ref>
    var gcstate: Phase
    var currentwhite: bool
    var rootgc: seq<Ref>
    var strt: seq<seq<Ref>>
    var openupval: map<Ref, seq<Ref>>
    var uvhead: seq<Ref>
    var sweepgc: nat
    var sweepstrgc: nat
    var mainthread: Ref
    var registry: Value
    var mt: seq<Value>
    var running: Ref

    ghost function View(): State
      reads this
    {
      State(Mk(heap, color, gray, grayagain), fixed, gcstate, currentwhite, rootgc, strt, openupval, uvhead,
            sweepgc, sweepstrgc, mainthread, registry, mt, running)
    }

    ghost function Shading(): Marks
      reads this
    {
      Marks(color, gray)
    }

    /** reallymarkobject */
    method ReallyMarkObject(r: Ref)
      requires color.Keys == heap.Keys && r in heap && color[r].White?
      modifies this`color, this`gray
      ensures Shading() == Mark(heap, old(Shading()), r) && color.Keys == heap.Keys
      decreases Whites(color), 0
    {
      Darker(color, r, Gray);
      Darker(color, r, Black);
      color := color[r := Gray];
      match heap[r] {
        case Str(_) =>
        case Udata(meta, env) =>
          color := color[r := Black];
          assert color == old(color)[r := Black];
          MarkValueM(meta);
          MarkValueM(env);
        case Open(th, idx) =>
          MarkValueM(Slot(heap, th, idx));
        case Closed(v) =>
          MarkValueM(v);
          color := color[r := Black];
        case _ =>
          gray := [r] + gray;
      }
    }

    /** markvalue */
    method MarkValueM(v: Value)
      requires color.Keys == heap.Keys
      modifies this`color, this`gray
      ensures Shading() == MarkValue(heap, old(Shading()), v) && color.Keys == heap.Keys
      decreases Whites(color), 1
    {
      if v.Gc? && v.r in heap && color[v.r].White? {
        ReallyMarkObject(v.r);
      }
    }

    /** A traversal loop over an array of values. */
    method MarkSeq(vs: seq<Value>)
      requires color.Keys == heap.Keys
      modifies this`color, this`gray
      ensures Shading() == MarkAll(heap, old(Shading()), vs) && color.Keys == heap.Keys
    {
      var i := 0;
      while i < |vs|
        invariant 0 <= i <= |vs|
        invariant color.Keys == heap.Keys
        invariant MarkAll(heap, old(Shading()), vs) == MarkAll(heap, Shading(), vs[i..])
      {
        assert vs[i..][1..] == vs[i + 1..];
        MarkValueM(vs[i]);
        i := i + 1;
      }
    }

    /** The array part of a table, from its end. */
    method TraverseArray(arr: seq<Value>)
      requires color.Keys == heap.Keys
      modifies this`color, this`gray
      ensures Shading() == MarkAll(heap, old(Shading()), Rev(arr)) && color.Keys == heap.Keys
    {
      var i := |arr|;
      assert arr[..i] == arr;
      while i > 0
        invariant 0 <= i <= |arr| && color.Keys == heap.Keys
        invariant MarkAll(heap, old(Shading()), Rev(arr)) == MarkAll(heap, Shading(), Rev(arr[..i]))
      {
        assert arr[..i][..i - 1] == arr[..i - 1];
        i := i - 1;
        MarkValueM(arr[i]);
      }
    }

    /** One node: an empty one loses its key, of another one key and value are marked. */
    method TraverseNode(r: Ref, j: nat)
      requires color.Keys == heap.Keys && r in heap && heap[r].Table? && j < |heap[r].node|
      modifies this`color, this`gray, this`heap
      ensures var t := old(heap)[r]; heap == old(heap)[r := Table(t.meta, t.arr, t.node[j := CleanNodes(t.node)[j]])]
      ensures var n := old(heap)[r].node[j]; Shading() == MarkAll(old(heap), old(Shading()), if n.val.Nil? then [] else [n.key, n.val])
    {
      var t := heap[r];
      var n := t.node[j];
      if n.val.Nil? {
        var n' := if n.key.Gc? then n.(key := DeadKey(n.key.r)) else n;
        heap := heap[r := Table(t.meta, t.arr, t.node[j := n'])];
      } else {
        MarkTwo(heap, Shading(), n.key, n.val);
        MarkValueM(n.key);
        MarkValueM(n.val);
        assert t.node[j := n] == t.node && heap[r := t] == heap;
      }
    }

    /** The node part, from the last node. */
    method TraverseNodes(r: Ref)
      requires color.Keys == heap.Keys && r in heap && heap[r].Table?
      modifies this`color, this`gray, this`heap
      ensures heap == old(heap)[r := Traversed(old(heap)[r])] && color.Keys == heap.Keys
      ensures Shading() == MarkAll(old(heap), old(Shading()), NodeFields(old(heap)[r].node))
    {
      hide MarkAll, CleanNodes, NodeFields, Cleaned, Traversed, NodesDone;
      ghost var h0, m0 := heap, Shading();
      var t := heap[r];
      var j := |t.node|;
      NodesStart(h0, m0, r);
      while j > 0
        invariant 0 <= j <= |t.node| && color.Keys == heap.Keys == h0.Keys && heap[r].Table? && |heap[r].node| == |t.node|
        invariant NodesDone(h0, m0, r, j, heap, Shading())
      {
        ghost var m, h := Shading(), heap;
        j := j - 1;
        TraverseNode(r, j);
        NodesStep(h0, m0, r, j, h, m, Shading());
      }
      NodesEnd(h0, m0, r, heap, Shading());
    }

    /** traversetable */
    method TraverseTable(r: Ref)
      requires color.Keys == heap.Keys && r in heap && heap[r].Table?
      modifies this`color, this`gray, this`heap
      ensures heap == old(heap)[r := Traversed(old(heap)[r])]
      ensures Shading() == MarkAll(old(heap), old(Shading()), Fields(old(heap), old(heap)[r]))
    {
      var t := heap[r];
      ghost var m := Shading();
      MarkValueM(t.meta);
      assert Shading() == MarkAll(heap, m, [t.meta]);
      TraverseArray(t.arr);
      MarkAllAppend(heap, m, [t.meta], Rev(t.arr));
      MarkAllAppend(heap, m, [t.meta] + Rev(t.arr), NodeFields(t.node));
      TraverseNodes(r);
    }

    /** traversestack: the thread's globals and its stack up to the top; what lies above, up to the
        limit, is cleared. */
    method TraverseStack(r: Ref)
      requires color.Keys == heap.Keys && r in heap && heap[r].Thread? && heap[r].top <= |heap[r].stack|
      modifies this`color, this`gray, this`heap
      ensures heap == old(heap)[r := Traversed(old(heap)[r])]
      ensures Shading() == MarkAll(old(heap), old(Shading()), Fields(old(heap), old(heap)[r]))
    {
      var th := heap[r];
      assert Fields(heap, th) == [th.gt] + th.stack[..th.top];
      MarkValueM(th.gt);
      MarkSeq(th.stack[..th.top]);
      var stack, o := th.stack, th.top;
      while o <= th.limit && o < |stack|
        invariant th.top <= o && |stack| == |th.stack|
        invariant forall k :: 0 <= k < |stack| ==> stack[k] == if th.top <= k < o && k <= th.limit then Nil else th.stack[k]
      {
        stack := stack[o := Nil];
        o := o + 1;
      }
      assert stack == ClearStack(th.stack, th.top, th.limit);
      heap := heap[r := Thread(th.gt, stack, th.top, th.limit)];
    }

    /** traverseclosure */
    method TraverseClosure(r: Ref)
      requires color.Keys == heap.Keys && r in heap && (heap[r].CClosure? || heap[r].LClosure?)
      modifies this`color, this`gray
      ensures Shading() == MarkAll(heap, old(Shading()), Fields(heap, heap[r])) && color.Keys == heap.Keys
    {
      var cl := heap[r];
      MarkValueM(cl.env);
      if cl.CClosure? {
        assert ([cl.env] + cl.upvalue)[1..] == cl.upvalue;
        MarkSeq(cl.upvalue);
      } else {
        MarkValueM(cl.proto);
        assert ([cl.env, cl.proto] + cl.upvals)[1..] == [cl.proto] + cl.upvals && ([cl.proto] + cl.upvals)[1..] == cl.upvals;
        MarkSeq(cl.upvals);
      }
    }

    /** traverseproto */
    method TraverseProto(r: Ref)
      requires color.Keys == heap.Keys && r in heap && heap[r].Proto?
      modifies this`color, this`gray
      ensures Shading() == MarkAll(heap, old(Shading()), Fields(heap, heap[r])) && color.Keys == heap.Keys
    {
      hide MarkAll;
      var f := heap[r];
      ghost var m, h := Shading(), heap;
      MarkSeq([f.source]);
      MarkAllAppend(h, m, [f.source], f.k);
      MarkSeq(f.k);
      MarkAllAppend(h, m, [f.source] + f.k, f.upvalues);
      MarkSeq(f.upvalues);
      MarkAllAppend(h, m, [f.source] + f.k + f.upvalues, f.p);
      MarkSeq(f.p);
      MarkAllAppend(h, m, [f.source] + f.k + f.upvalues + f.p, f.locvars);
      MarkSeq(f.locvars);
    }

    method TraverseObject(r: Ref)
      requires color.Keys == heap.Keys && r in heap && heap[r].Container() && (heap[r].Thread? ==> heap[r].top <= |heap[r].stack|)
      modifies this`color, this`gray, this`heap
      ensures heap == old(heap)[r := Traversed(old(heap)[r])]
      ensures Shading() == MarkAll(old(heap), old(Shading()), Fields(old(heap), old(heap)[r]))
    {
      hide MarkAll, Fields, CleanNodes, ClearStack;
      match heap[r] {
        case Table(_, _, _) => TraverseTable(r);
        case CClosure(_, _) => TraverseClosure(r);
        case LClosure(_, _, _) => TraverseClosure(r);
        case Thread(_, _, _, _) => TraverseStack(r);
        case Proto(_, _, _, _, _) => TraverseProto(r);
        case _ => assert false;
      }
      assert old(heap)[r := old(heap)[r]] == old(heap);
    }

    /** A thread goes back to gray, to be traversed again in the atomic step. */
    method SetAside(r: Ref)
      modifies this`grayagain, this`color
      ensures grayagain == [r] + old(grayagain) && color == old(color)[r := Gray]
    {
      grayagain := [r] + grayagain;
      color := color[r := Gray];
    }

    /** propagatemark */
    method PropagateMark()
      requires Sane(View().mk) && Tri(View().mk) && gray != [] && TopOk(heap)
      modifies this`heap, this`color, this`gray, this`grayagain
      ensures View().mk == Propagate(old(View().mk))
    {
      hide Tri, MarkAll, Fields, Traversed;
      ghost var k := View().mk;
      GrayContainer(k);
      var r := gray[0];
      color := color[r := Black];
      gray := gray[1..];
      if heap[r].Thread? {
        SetAside(r);
        assert color == k.color[r := Gray];
      }
      TraverseObject(r);
    }

    /** propagateall */
    method PropagateAllM()
      requires Tri(View().mk) && Sane(View().mk) && StackOk(heap) && TopOk(heap)
      modifies this`heap, this`color, this`gray, this`grayagain
      ensures View().mk == PropagateAll(old(View().mk))
    {
      hide Tri, Sane, StackOk, TopOk, Propagate;
      while gray != []
        invariant Tri(View().mk) && Sane(View().mk) && StackOk(heap) && TopOk(heap)
        invariant PropagateAll(View().mk) == PropagateAll(old(View().mk))
        decreases Whites(color), |gray|
      {
        PropagateSane(View().mk);
        PropagateTri(View().mk, {});
        PropagateMark();
      }
    }

    // ----- the mark phase -----

    /** markroot, up to the change of phase */
    method MarkRoots()
      requires color.Keys == heap.Keys && mainthread in heap && heap[mainthread].Thread?
      modifies this`color, this`gray, this`grayagain
      ensures Shading() == MarkAll(heap, Marks(old(color), []), [Gc(mainthread), heap[mainthread].gt, registry] + mt)
      ensures grayagain == []
    {
      hide MarkAll;
      gray := [];
      grayagain := [];
      ghost var m := Shading();
      var first := [Gc(mainthread), heap[mainthread].gt, registry];
      MarkSeq(first);
      MarkSeq(mt);
      MarkAllAppend(heap, m, first, mt);
    }

    /** markroot */
    method MarkRootM()
      requires Shape(View())
      modifies this
      ensures View() == MarkRoot(old(View()))
    {
      hide Shape, MarkAll, Whites, MarkRoot;
      ghost var s := View();
      ShapeAnchors(s);
      MarkRoots();
      gcstate := Propagating;
      MarkRootState(s, Shading());
    }

    /** remarkupvals */
    method RemarkUpvalsM()
      requires Shape(View())
      modifies this`color, this`gray
      ensures View().mk == Remarked(old(View())) && color.Keys == heap.Keys
    {
      hide RootList, Buckets, OpenLists, Listed, Anchors, StackOk, TopOk, Kinds;
      ghost var m := Shading();
      assert forall x :: x in uvhead ==> x in heap && heap[x].Open?;
      var i := 0;
      while i < |uvhead|
        invariant 0 <= i <= |uvhead| && color.Keys == heap.Keys
        invariant forall x :: x in uvhead[i..] ==> x in heap && heap[x].Open?
        invariant RemarkUpvals(heap, m, uvhead) == RemarkUpvals(heap, Shading(), uvhead[i..])
      {
        hide Shape;
        var uv := uvhead[i];
        assert uv in uvhead[i..] && uvhead[i..][1..] == uvhead[i + 1..];
        if color[uv] == Gray {
          MarkValueM(Slot(heap, heap[uv].th, heap[uv].idx));
        }
        i := i + 1;
      }
    }

    /** The first part of `atomic': upvalues, the running thread, the basic metatables. */
    method AtomicRootsM()
      requires Shape(View()) && Tri(View().mk)
      modifies this`heap, this`color, this`gray, this`grayagain
      ensures View().mk == AtomicRoots(old(View()))
    {
      hide Links, Kinds, Tri, Sane, SameRefs, StackOk, TopOk, GrayOk, PropagateAll, MarkAll, Remarked;
      ghost var s := View();
      RemarkedOk(s);
      RemarkUpvalsM();
      PropagateAllTri(View().mk, {});
      PropagateAllM();
      ghost var k2 := View().mk;
      MarkMoreOk(k2, [Gc(running)] + mt, {});
      Keyed(k2);
      MarkAllAppend(heap, Shading(), [Gc(running)], mt);
      MarkSeq([Gc(running)]);
      MarkSeq(mt);
      assert View().mk == MarkMore(k2, [Gc(running)] + mt);
      PropagateAllTri(View().mk, {});
      PropagateAllM();
    }

    /** atomic */
    method AtomicM()
      requires Shape(View()) && Tri(View().mk)
      modifies this
      ensures View() == Atomic(old(View()))
    {
      hide Links, Kinds, Tri, Sane, SameRefs, StackOk, TopOk, GrayOk, PropagateAll, AtomicRoots, Marked, Whites;
      ghost var s := View();
      AtomicRootsM();
      AtomicRootsOk(s);
      TakeAgain(View().mk);
      gray := grayagain;
      grayagain := [];
      PropagateAllM();
      currentwhite := !currentwhite;
      sweepstrgc := 0;
      sweepgc := 0;
      gcstate := SweepString;
    }

    // ----- the sweep -----

    /** The body of the loop in `sweeplist': free a dead object, make another one white. */
    method SweepMember(curr: Ref) returns (dead: bool)
      requires color.Keys == heap.Keys && curr in heap
      modifies this`heap, this`color, this`uvhead
      ensures dead <==> old(color)[curr] == White(!currentwhite) && curr !in fixed
      ensures heap == if dead then old(heap) - {curr} else old(heap)
      ensures color == if dead then old(color) - {curr} else old(color)[curr := White(currentwhite)]
      ensures uvhead == if dead then Keep(old(uvhead), {curr}) else old(uvhead)
    {
      dead := color[curr] == White(!currentwhite) && curr !in fixed;
      if dead {
        heap := heap - {curr};
        color := color - {curr};
        uvhead := Keep(uvhead, {curr});  // luaF_freeupval takes an open upvalue out of the ring
      } else {
        color := color[curr := White(currentwhite)];
      }
    }

    /** sweeplist over one bucket of the string table or one list of open upvalues: dead members are
        freed and unlinked, the others become current white. */
    method SweepMembers(list: seq<Ref>) returns (kept: seq<Ref>)
      requires color.Keys == heap.Keys && NoDup(list) && forall x :: x in list ==> x in heap
      modifies this`heap, this`color, this`uvhead
      ensures uvhead == Keep(old(uvhead), DoomedOf(old(View()), list))
      ensures var s := old(View()); kept == Keep(list, DoomedOf(s, list)) && View().mk == SweepWhole(s, list).mk
    {
      hide NoDup, DoomedOf, Keep, SweptPrefix, GoneIn, SweepWhole;
      ghost var s := View();
      SweptStart(s, list);
      kept := [];
      var i := 0;
      while i < |list|
        invariant 0 <= i <= |list|
        invariant SweptPrefix(s, list, i, heap, color)
        invariant Rings(s, list, i, uvhead, kept)
      {
        SweptStep(s, list, i, heap, color);
        RingStep(s, list, i, uvhead, kept);
        var dead := SweepMember(list[i]);
        kept := if dead then kept else kept + [list[i]];
        i := i + 1;
      }
      SweptEnd(s, list, View().mk, uvhead, kept);
    }

    /** The next bucket, or the sweep of `rootgc' after the last one. */
    method NextBucket()
      modifies this`sweepstrgc, this`gcstate
      ensures sweepstrgc == old(sweepstrgc) + 1 && gcstate == if sweepstrgc >= |strt| then Sweep else old(gcstate)
    {
      sweepstrgc := sweepstrgc + 1;
      if sweepstrgc >= |strt| {
        gcstate := Sweep;
      }
    }

    /** GCSsweepstring */
    method SweepBucket()
      requires Inv(View()) && gcstate == SweepString
      modifies this
      ensures View() == Collect.SweepStringStep(old(View()))
    {
      hide Inv, Shape, Keep, KeepEach, SweepWhole, DoomedOf, NoDup, Collect.SweepStringStep;
      ghost var s := View();
      BucketMembers(s);
      var kept := SweepMembers(strt[sweepstrgc]);
      ghost var k := View().mk;
      strt := strt[sweepstrgc := kept];
      NextBucket();
      SweptBucket(s, View(), k, uvhead, kept);
    }

    /** luaS_resize */
    method ResizeStrings(newsize: nat)
      requires |strt| > 0 && newsize > 0
      modifies this`strt
      ensures View() == Strings.ResizeStrings(old(View()), newsize)
    {
      if gcstate == SweepString { return; }
      var newhash := Strings.EmptyBuckets(newsize);
      ghost var all := Strings.Rehashed(heap, newhash, strt);
      var i := 0;
      assert strt[0..] == strt;
      while i < |strt|
        invariant 0 <= i <= |strt| && |newhash| == newsize && strt == old(strt)
        invariant Strings.Rehashed(heap, newhash, strt[i..]) == all
      {
        var p := strt[i];
        ghost var table := Strings.PushAll(heap, newhash, p);
        assert strt[i..][0] == p && strt[i..][1..] == strt[i + 1..];
        while p != []
          invariant |newhash| == newsize && Strings.PushAll(heap, newhash, p) == table
          decreases |p|
        {
          var b := (if p[0] in heap && heap[p[0]].Str? then heap[p[0]].hash else 0) % newsize;
          newhash := newhash[b := [p[0]] + newhash[b]];
          p := p[1..];
        }
        i := i + 1;
      }
      strt := newhash;
    }

    /** The open upvalues of a thread, when the sweep comes to the thread. */
    method SweepOpen(th: Ref)
      requires Inv(View()) && th in openupval
      modifies this
      ensures View() == SweepWhole(old(View()), old(openupval[th]))
    {
      hide Shape, AliveClosed, Keep, KeepEach, PhaseOk, SweepWhole;
      ghost var s := View();
      OpenMembers(s, th);
      var kept := SweepMembers(openupval[th]);
      OpenState(s, th, View().mk, uvhead, kept);
      openupval := openupval[th := kept];
    }

    /** luaC_linkupval */
    method LinkUpval(uv: Ref)
      requires color.Keys == heap.Keys && uv in heap && heap[uv].Closed?
      modifies this`rootgc, this`sweepgc, this`color, this`gray
      ensures var s := old(View());
        View() == Recolor(s.(rootgc := [uv] + s.rootgc, sweepgc := if s.sweepgc == 0 then 0 else s.sweepgc + 1), uv)
    {
      rootgc := [uv] + rootgc;
      if sweepgc != 0 { sweepgc := sweepgc + 1; }
      RecolorUpval(uv);
    }

    method RecolorUpval(uv: Ref)
      requires color.Keys == heap.Keys && uv in heap && heap[uv].Closed?
      modifies this`color, this`gray
      ensures View() == Recolor(old(View()), uv)
    {
      if color[uv] == Gray {
        if gcstate == Propagating {
          color := color[uv := Black];
          BarrierM(uv, heap[uv].v);
        } else {
          color := color[uv := White(currentwhite)];
        }
      }
    }

    /** luaF_close, also run when a thread is freed. */
    method CloseM(th: Ref, level: nat)
      requires Inv(View()) && th in openupval
      modifies this
      ensures View() == CloseUpvals(old(View()), th, level)
      ensures RestKept(old(View()), th, level, View()) && AboveClosed(old(View()), th, level, View())
    {
      hide RestKept, AboveClosed;
      ghost var s := View();
      CloseUpvalsExact(s, th, level);
      HeadOk(s, th);
      while openupval[th] != [] && heap[openupval[th][0]].idx >= level
        invariant Inv(View()) && th in openupval
        invariant openupval[th] != [] ==> openupval[th][0] in heap && heap[openupval[th][0]].Open? && heap[openupval[th][0]].th == th
        invariant CloseUpvals(View(), th, level) == CloseUpvals(s, th, level)
        decreases |openupval[th]|
      {
        hide Inv, CloseOne;
        CloseOneInv(View(), th);
        CloseFirst(th);
        HeadOk(View(), th);
      }
    }

    /** One turn of that loop: the first open upvalue is freed if it is dead and closed otherwise. */
    method CloseFirst(th: Ref)
      requires Inv(View()) && th in openupval && openupval[th] != []
      modifies this
      ensures old(openupval[th][0] in heap) && View() == CloseOne(old(View()), th)
    {
      hide Inv, Shape, Drop, Recolor, Keep, Slot;
      ShapeOf(View());
      ghost var s := View();
      HeadOk(s, th);
      var uv := openupval[th][0];
      var dead := color[uv] == White(!currentwhite);
      HeadState(s, th);
      openupval := openupval[th := openupval[th][1..]];
      uvhead := Keep(uvhead, {uv});
      if dead {
        heap := heap - {uv};
        color := color - {uv};
      } else {
        CloseUpval(uv, th);
      }
    }

    /** The upvalue takes the value of its slot over and is linked with the collectable objects. */
    method CloseUpval(uv: Ref, th: Ref)
      requires color.Keys == heap.Keys && uv in heap && heap[uv].Open?
      modifies this`heap, this`rootgc, this`sweepgc, this`color, this`gray
      ensures var s := old(View()); var v := Slot(s.Heap(), th, s.Heap()[uv].idx);
        View() == Recolor(s.(mk := s.mk.(heap := s.Heap()[uv := Closed(v)]), rootgc := [uv] + s.rootgc,
                             sweepgc := if s.sweepgc == 0 then 0 else s.sweepgc + 1), uv)
    {
      hide Slot, Recolor;
      heap := heap[uv := Closed(Slot(heap, th, heap[uv].idx))];
      LinkUpval(uv);
    }

    // ----- barriers and stores -----

    /** luaC_barrier, with luaC_barrierf inlined. */
    method BarrierM(x: Ref, v: Value)
      requires color.Keys == heap.Keys && x in heap
      modifies this`color, this`gray
      ensures View() == Barrier(old(View()), x, v)
      ensures old(v.Gc? && v.r in heap && color[v.r].White? && color[x] == Black) && gcstate == Propagating ==> Marked(color, v.r)
      ensures old(v.Gc? && v.r in heap && color[v.r].White? && color[x] == Black) && gcstate != Propagating ==>
        color == old(color)[x := White(currentwhite)] && gray == old(gray)
    {
      if v.Gc? && v.r in heap && color[v.r].White? && color[x] == Black {
        if gcstate == Propagating {
          MarkShades(heap, Shading(), v.r);
          hide Mark;
          ReallyMarkObject(v.r);
        } else {
          color := color[x := White(currentwhite)];
        }
      }
    }

    /** luaC_barriert */
    method BarrierBackM(x: Ref, v: Value)
      requires color.Keys == heap.Keys && x in heap
      modifies this`color, this`grayagain
      ensures View() == BarrierBack(old(View()), x, v)
    {
      if v.Gc? && v.r in heap && color[v.r].White? && color[x] == Black {
        color := color[x := Gray];
        grayagain := [x] + grayagain;
      }
    }

    /** A store into an object other than a table or thread, with its barrier. */
    method StoreField(x: Ref, o: Object, v: Value)
      requires Inv(View()) && Fits(View(), x, o) && Adds(View(), x, o, v, Nil) && AliveValue(View(), v)
      requires !o.Table? && !o.Thread? && !o.Open?
      modifies this`heap, this`color, this`gray
      ensures View() == Barrier(Put(old(View()), x, o), x, v) && Inv(View())
    {
      hide Shape, AliveClosed, PhaseOk, Adds;
      ghost var s := View();
      StoreFieldInv(s, x, o, v);
      FitsIn(s, x, o);
      InvKeys(s);
      heap := heap[x := o];
      BarrierM(x, v);
    }

    /** A store into a table: luaH_set with its barrier for the key, then the barrier for the value. */
    method StoreTable(x: Ref, o: Object, k: Value, v: Value)
      requires Inv(View()) && Fits(View(), x, o) && Adds(View(), x, o, k, v) && AliveValue(View(), k) && AliveValue(View(), v)
      requires o.Table?
      modifies this`heap, this`color, this`grayagain
      ensures old(color.Keys == heap.Keys && x in heap) && View() == StoredTable(old(View()), x, o, k, v) && Inv(View())
    {
      hide Shape, AliveClosed, PhaseOk, Adds;
      ghost var s := View();
      StoreTableInv(s, x, o, k, v);
      FitsIn(s, x, o);
      InvKeys(s);
      heap := heap[x := o];
      BarrierBackM(x, k);
      BarrierBackM(x, v);
    }

    /** The loop of luaF_findupval over the open list of the running thread. */
    method FindPosition(level: nat) returns (i: nat)
      requires Shape(View())
      ensures i == Safety.Existing(View(), level)
    {
      hide Shape, Safety.Existing;
      RunningUpvals(View(), level);
      var uvs := openupval[running];
      i := 0;
      while i < |uvs| && heap[uvs[i]].idx > level
        invariant 0 <= i <= |uvs|
        invariant forall x :: x in uvs[i..] ==> x in heap && heap[x].Open?
        invariant Safety.Position(heap, uvs, level) == i + Safety.Position(heap, uvs[i..], level)
      {
        assert uvs[i..][1..] == uvs[i + 1..];
        i := i + 1;
      }
    }

    /** luaF_findupval, when no open upvalue is found: a new one, linked in its list and in the ring */
    method OpenUpval(uv: Ref, level: nat, list: seq<Ref>)
      modifies this`heap, this`color, this`openupval, this`uvhead
      ensures heap == old(heap)[uv := Open(running, level)] && color == old(color)[uv := White(currentwhite)]
      ensures openupval == old(openupval)[running := list] && uvhead == [uv] + old(uvhead)
    {
      heap := heap[uv := Open(running, level)];
      color := color[uv := White(currentwhite)];
      openupval := openupval[running := list];
      uvhead := [uv] + uvhead;
    }

    /** luaF_findupval */
    method FindUpvalM(level: nat, unused: Ref) returns (uv: Ref)
      requires Inv(View()) && unused !in heap && running in heap && heap[running].Thread? && level < heap[running].top
      modifies this`heap, this`color, this`openupval, this`uvhead
      ensures View() == Safety.FindUpval(old(View()), level, unused) && Inv(View())
      ensures uv == Safety.FoundUpval(old(View()), level, unused) && uv in heap && heap[uv] == Open(running, level)
      ensures forall y :: y in heap && heap[y] == Open(running, level) ==> y == uv
    {
      hide Inv, Shape, Descending, Safety.Existing;
      ghost var s := View();
      ShapeOf(s);
      Safety.FindUpvalInv(s, level, unused);
      RunningUpvals(s, level);
      var th := running;
      var i := FindPosition(level);
      var uvs := openupval[th];
      if i < |uvs| && heap[uvs[i]].idx == level {
        uv := uvs[i];
        if color[uv] == White(!currentwhite) {
          color := color[uv := White(currentwhite)];
        }
      } else {
        uv := unused;
        OpenUpval(uv, level, uvs[..i] + [uv] + uvs[i..]);
      }
    }

    // ----- the collector -----

    /** The body of the loop in `sweeplist' over `rootgc'. The object is unlinked after the upvalues of
        a freed thread have been linked in front of the list; the two do not touch each other. */
    method SweepCurrent()
      requires Inv(View()) && gcstate == Sweep && sweepgc < |rootgc|
      modifies this
      ensures View() == Collect.SweepStep(old(View())) && Inv(View())
    {
      hide Inv, CloseUpvals, SweepWhole, Drop, Keeps, Collect.Left, Collect.NoRevival;
      ghost var s := View();
      Collect.AtHandInv(s);
      Collect.SweepStepInv(s);
      var curr := rootgc[sweepgc];
      if curr in openupval {
        SweepOpen(curr);
      }
      Collect.KeepsPhase(s, View());
      InvKeys(View());
      if color[curr] == White(!currentwhite) && curr !in fixed {
        FreeCurrent(curr);
      } else {
        WhitenOne(View(), curr);
        color := color[curr := White(currentwhite)];
        sweepgc := sweepgc + 1;
      }
    }

    /** freeobj, and the unlinking of the object. */
    method FreeCurrent(curr: Ref)
      requires Inv(View()) && gcstate == Sweep && curr in heap && !heap[curr].Open? && !heap[curr].Str?
      modifies this
      ensures var s := old(View()); View() == Drop(if curr in s.open then CloseUpvals(s, curr, 0) else s, {curr})
    {
      hide Inv, Shape, CloseUpvals, Drop, Keep, Keeps, Collect.Left, Collect.NoRevival, Collect.OthersSame;
      ghost var s := View();
      Collect.OthersSameRefl(s);
      if curr in openupval {
        CloseUpvalsInv(s, curr, 0);
        Collect.CloseUpvalsOthers(s, curr, 0);
        CloseM(curr, 0);
      }
      SameObject(s, View(), curr);
      ShapeOf(View());
      Unlink(curr);
    }

    method Unlink(curr: Ref)
      requires Shape(View()) && curr in rootgc
      modifies this
      ensures View() == Drop(old(View()), {curr})
    {
      hide Shape, Drop, Keep;
      RootState(View(), curr);
      rootgc := Keep(rootgc, {curr});
      heap := heap - {curr};
      color := color - {curr};
      openupval := openupval - {curr};
    }

    /** sweeplist over `rootgc' */
    method SweepList(limit: nat)
      requires Inv(View()) && gcstate == Sweep
      modifies this
      ensures View() == Collect.SweepChunk(old(View()), limit) && Inv(View())
    {
      hide Inv, Collect.SweepStep, Keeps;
      ghost var s := View();
      var count := limit;
      while sweepgc < |rootgc| && count > 0
        invariant Inv(View()) && gcstate == Sweep
        invariant Collect.SweepChunk(View(), count) == Collect.SweepChunk(s, limit)
        decreases count
      {
        Collect.SweepStepInv(View());
        Collect.KeepsPhase(View(), Collect.SweepStep(View()));
        SweepCurrent();
        count := count - 1;
      }
    }

    /** singlestep: the invariant is kept, and nothing that can be reached is freed or altered. */
    method SingleStep()
      requires Inv(View())
      modifies this
      ensures View() == Collect.SingleStep(old(View()))
      ensures Inv(View()) && Collect.Preserves(old(View()), View())
    {
      hide Inv, Shape, Collect.Preserves, MarkRoot, Atomic, Propagate;
      ghost var s := View();
      ShapeOf(s);
      Collect.SingleStepSafe(s);
      match gcstate {
        case Pause => MarkRootM();
        case Propagating =>
          InvTri(s);
          if gray != [] {
            PropagateMark();
          } else {
            AtomicM();
          }
        case SweepString => SweepBucket();
        case Sweep =>
          SweepList(GCSWEEPMAX);
          if sweepgc >= |rootgc| { gcstate := Finalize; }
        case Finalize => gcstate := Pause;
      }
    }

    /** Single steps until a phase is reached. */
    method RunTo(stop: Phase)
      requires Inv(View()) && (stop == Pause || (stop == Finalize && gcstate != Pause))
      modifies this
      ensures View() == Full.RunTo(old(View()), stop) && Inv(View()) && gcstate == stop
    {
      hide Inv, Collect.SingleStep, Collect.Preserves, Full.Shaded, Full.Work;
      ghost var s := View();
      while gcstate != stop
        invariant Inv(View()) && (stop == Pause || (stop == Finalize && gcstate != Pause))
        invariant Full.RunTo(View(), stop) == Full.RunTo(s, stop)
        decreases Full.Rank(gcstate), Full.Shaded(View()), Full.Work(View())
      {
        Full.StepTerminates(View());
        SingleStep();
      }
    }

    /** The first part of luaC_fullgc. */
    method ResetSweepM()
      modifies this
      ensures View() == Full.ResetSweep(old(View()))
    {
      if gcstate == Pause || gcstate == Propagating {
        sweepstrgc := 0;
        sweepgc := 0;
        gray := [];
        grayagain := [];
        gcstate := SweepString;
      }
    }

    /** luaC_fullgc: exactly the reachable and the fixed objects are left, all current white. */
    method FullGC()
      requires Inv(View())
      modifies this
      ensures View() == Full.FullGC(old(View())) && Inv(View()) && gcstate == Pause
      ensures forall x :: x in heap <==> Reachable(old(View()), x) || x in old(fixed)
      ensures forall x :: x in heap ==> color[x] == White(currentwhite)
    {
      hide Inv, Shape, Full.RunTo, Full.ResetSweep, MarkRoot, Collect.Preserves, Reachable;
      ghost var s := View();
      Full.FullGCExact(s);
      InvKeys(Full.FullGC(s));
      Full.ResetSweepInv(s);
      ResetSweepM();
      RunTo(Finalize);
      MarkRootInv(View());
      ShapeOf(View());
      MarkRootM();
      RunTo(Pause);
    }
  }
}
