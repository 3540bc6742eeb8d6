/** The marking half of the collector: shading objects, propagating gray ones, and the
    tri-colour invariant, for a heap in which no mutator runs between two calls. */
module GcMark {
  import opened GcHeap

  /** The two white bits, neither, or the black bit. */
  datatype Color = White(w: bool) | Gray | Black

  type Colors = map<Ref, Color>

  ghost predicate IsWhite(c: Colors, x: Ref) {
    x in c && c[x].White?
  }

  ghost predicate Marked(c: Colors, x: Ref) {
    x in c && !c[x].White?
  }

  function Whites(c: Colors): set<Ref> {
    set x | x in c && c[x].White?
  }

  lemma Darker(c: Colors, r: Ref, d: Color)
    requires r in c && c[r].White? && !d.White?
    ensures Whites(c[r := d]) < Whites(c)
  {
    assert r in Whites(c) && r !in Whites(c[r := d]);
  }

  datatype Marks = Marks(color: Colors, gray: seq<Ref>)

  /** markvalue and markobject: shade the object a value refers to, if it is white. */
  function MarkValue(h: Heap, m: Marks, v: Value): (n: Marks)
    requires m.color.Keys == h.Keys
    ensures n.color.Keys == h.Keys
    ensures n == m || Whites(n.color) < Whites(m.color)
    decreases Whites(m.color), 1
  {
    if v.Gc? && v.r in h && m.color[v.r].White? then Mark(h, m, v.r) else m
  }

  /** reallymarkobject */
  function Mark(h: Heap, m: Marks, r: Ref): (n: Marks)
    requires m.color.Keys == h.Keys && r in h && m.color[r].White?
    ensures n.color.Keys == h.Keys
    ensures Whites(n.color) < Whites(m.color)
    decreases Whites(m.color), 0
  {
    var gray := m.(color := m.color[r := Gray]);
    var black := m.(color := m.color[r := Black]);
    Darker(m.color, r, Gray);
    Darker(m.color, r, Black);
    match h[r]
    case Str(_) => gray
    case Udata(meta, env) => MarkValue(h, MarkValue(h, black, meta), env)
    case Open(th, idx) => MarkValue(h, gray, Slot(h, th, idx))
    case Closed(v) =>
      var n := MarkValue(h, gray, v);
      assert Whites(n.color[r := Black]) <= Whites(n.color);
      n.(color := n.color[r := Black])
    case _ => gray.(gray := [r] + m.gray)
  }

  function MarkAll(h: Heap, m: Marks, vs: seq<Value>): (n: Marks)
    requires m.color.Keys == h.Keys
    ensures n.color.Keys == h.Keys
    ensures n == m || Whites(n.color) < Whites(m.color)
    decreases |vs|
  {
    if vs == [] then m else MarkAll(h, MarkValue(h, m, vs[0]), vs[1..])
  }

  /** The colour an object gets when it is shaded. */
  function Shade(o: Object): Color {
    if o.Udata? || o.Closed? then Black else Gray
  }

  ghost predicate NoDup(s: seq<Ref>) {
    forall i, j :: 0 <= i < j < |s| ==> s[i] != s[j]
  }

  ghost predicate ChildrenMarked(h: Heap, c: Colors, x: Ref) {
    forall y :: Edge(h, x, y) && y in h ==> Marked(c, y)
  }

  /** What shading may do: white objects get their shade, containers among them wait in the
      gray list, and what shaded non-containers refer to is shaded too. Nothing else changes. */
  ghost predicate Shades(h: Heap, m: Marks, n: Marks) {
    && n.color.Keys == m.color.Keys
    && (forall x :: Marked(m.color, x) ==> n.color[x] == m.color[x])
    && (forall x :: IsWhite(m.color, x) && IsWhite(n.color, x) ==> n.color[x] == m.color[x])
    && (forall x :: x in h && IsWhite(m.color, x) && Marked(n.color, x) ==>
          && n.color[x] == Shade(h[x])
          && (h[x].Container() ==> x in n.gray)
          && (!h[x].Container() ==> ChildrenMarked(h, n.color, x)))
    && (forall x :: x in m.gray ==> x in n.gray)
    && (forall x :: x in n.gray ==> x in m.gray || (x in h && h[x].Container() && IsWhite(m.color, x) && Marked(n.color, x)))
    && (NoDup(m.gray) && (forall x :: x in m.gray ==> Marked(m.color, x)) ==> NoDup(n.gray))
  }

  lemma ShadesTrans(h: Heap, a: Marks, b: Marks, c: Marks)
    requires a.color.Keys == h.Keys
    requires Shades(h, a, b) && Shades(h, b, c)
    ensures Shades(h, a, c)
  {
    forall x | x in h && IsWhite(a.color, x) && Marked(c.color, x) && !h[x].Container()
      ensures ChildrenMarked(h, c.color, x)
    {
      if Marked(b.color, x) {
        forall y | Edge(h, x, y) && y in h ensures Marked(c.color, y) { assert Marked(b.color, y); }
      }
    }
  }

  lemma {:induction false} MarkValueShades(h: Heap, m: Marks, v: Value)
    requires m.color.Keys == h.Keys
    ensures Shades(h, m, MarkValue(h, m, v))
    ensures v.Gc? && v.r in h ==> Marked(MarkValue(h, m, v).color, v.r)
    decreases Whites(m.color), 2
  {
    if v.Gc? && v.r in h && m.color[v.r].White? {
      MarkShades(h, m, v.r);
    }
  }

  lemma ShadeChildren(h: Heap, m: Marks, r: Ref, c: Color, b: Marks, n: Marks, n': Marks, x: Ref)
    requires m.color.Keys == h.Keys && r in h && m.color[r].White? && !h[r].Container()
    requires !c.White? && b == m.(color := m.color[r := c])
    requires Shades(h, b, n)
    requires forall v :: v in Fields(h, h[r]) && v.Gc? && v.r in h ==> Marked(n.color, v.r)
    requires n' == n.(color := n.color[r := Shade(h[r])])
    requires x in h && IsWhite(m.color, x) && Marked(n'.color, x) && !h[x].Container()
    ensures ChildrenMarked(h, n'.color, x)
  {
    hide Fields;
    assert forall y :: Marked(n.color, y) <==> Marked(n'.color, y);
    assert x == r || IsWhite(b.color, x);
    assert ChildrenMarked(h, n.color, x);
  }

  lemma ShadesKeep(h: Heap, m: Marks, n: Marks, r: Ref)
    requires Shades(h, m, n) && Marked(m.color, r)
    ensures Marked(n.color, r) && n.color[r] == m.color[r] && n.color.Keys == m.color.Keys
  {
  }

  lemma ShadeColors(h: Heap, m: Marks, r: Ref, c: Color, b: Marks, n: Marks, n': Marks)
    requires m.color.Keys == h.Keys && r in h && m.color[r].White?
    requires !c.White? && b == m.(color := m.color[r := c]) && Shades(h, b, n)
    requires n' == n.(color := n.color[r := Shade(h[r])])
    ensures n'.color.Keys == m.color.Keys && Marked(n'.color, r) && n'.color[r] == Shade(h[r])
    ensures forall x :: Marked(m.color, x) ==> n'.color[x] == m.color[x]
    ensures forall x :: IsWhite(m.color, x) && IsWhite(n'.color, x) ==> n'.color[x] == m.color[x]
    ensures forall x :: x in h && IsWhite(m.color, x) && Marked(n'.color, x) && x != r ==>
              n'.color[x] == Shade(h[x]) && (h[x].Container() ==> x in n'.gray)
  {
    hide ChildrenMarked, Fields;
  }

  lemma ShadeGray(h: Heap, m: Marks, r: Ref, c: Color, b: Marks, n: Marks, n': Marks)
    requires m.color.Keys == h.Keys && r in h && m.color[r].White?
    requires !c.White? && b == m.(color := m.color[r := c]) && Shades(h, b, n)
    requires n' == n.(color := n.color[r := Shade(h[r])])
    ensures forall x :: x in m.gray ==> x in n'.gray
    ensures forall x :: x in n'.gray ==> x in m.gray || (x in h && h[x].Container() && IsWhite(m.color, x) && Marked(n'.color, x))
    ensures NoDup(m.gray) && (forall x :: x in m.gray ==> Marked(m.color, x)) ==> NoDup(n'.gray)
  {
    hide ChildrenMarked, Fields, NoDup;
    assert forall x :: Marked(m.color, x) ==> x != r && Marked(b.color, x);
  }

  /** Shading a non-container: first the object, then what it refers to, then its final colour. */
  lemma ShadeObject(h: Heap, m: Marks, r: Ref, c: Color, b: Marks, n: Marks, n': Marks)
    requires m.color.Keys == h.Keys && r in h && m.color[r].White? && !h[r].Container()
    requires !c.White? && b == m.(color := m.color[r := c])
    requires Shades(h, b, n)
    requires forall v :: v in Fields(h, h[r]) && v.Gc? && v.r in h ==> Marked(n.color, v.r)
    requires n' == n.(color := n.color[r := Shade(h[r])])
    ensures Shades(h, m, n') && Marked(n'.color, r)
  {
    forall x | x in h && IsWhite(m.color, x) && Marked(n'.color, x) && !h[x].Container()
      ensures ChildrenMarked(h, n'.color, x)
    {
      ShadeChildren(h, m, r, c, b, n, n', x);
    }
    hide ChildrenMarked, Fields;
    ShadeColors(h, m, r, c, b, n, n');
    ShadeGray(h, m, r, c, b, n, n');
  }

  lemma MarkContainer(h: Heap, m: Marks, r: Ref)
    requires m.color.Keys == h.Keys && r in h && m.color[r].White? && h[r].Container()
    ensures Shades(h, m, Marks(m.color[r := Gray], [r] + m.gray))
  {
    var n := Marks(m.color[r := Gray], [r] + m.gray);
    assert forall x :: x in n.gray <==> x == r || x in m.gray;
    assert forall x :: x != r ==> (IsWhite(n.color, x) <==> IsWhite(m.color, x));
    if NoDup(m.gray) && (forall x :: x in m.gray ==> Marked(m.color, x)) {
      assert r !in m.gray;
      assert forall i :: 0 < i < |n.gray| ==> n.gray[i] == m.gray[i - 1];
    }
  }

  lemma {:induction false} UdataShades(h: Heap, m: Marks, r: Ref)
    requires m.color.Keys == h.Keys && r in h && m.color[r].White? && h[r].Udata?
    ensures Shades(h, m, Mark(h, m, r)) && Marked(Mark(h, m, r).color, r)
    decreases Whites(m.color), 0
  {
    hide Shades;
    var black := m.(color := m.color[r := Black]);
    Darker(m.color, r, Black);
    var b := MarkValue(h, black, h[r].meta);
    MarkValueShades(h, black, h[r].meta);
    var n := MarkValue(h, b, h[r].env);
    MarkValueShades(h, b, h[r].env);
    ShadesTrans(h, black, b, n);
    ShadesKeep(h, black, n, r);
    assert n.color == n.color[r := Black];
    ShadeObject(h, m, r, Black, black, n, n);
  }

  lemma {:induction false} UpvalShades(h: Heap, m: Marks, r: Ref)
    requires m.color.Keys == h.Keys && r in h && m.color[r].White? && (h[r].Open? || h[r].Closed?)
    ensures Shades(h, m, Mark(h, m, r)) && Marked(Mark(h, m, r).color, r)
    decreases Whites(m.color), 0
  {
    var gray := m.(color := m.color[r := Gray]);
    Darker(m.color, r, Gray);
    var v := if h[r].Open? then Slot(h, h[r].th, h[r].idx) else h[r].v;
    assert Fields(h, h[r]) == [v];
    var n := MarkValue(h, gray, v);
    MarkValueShades(h, gray, v);
    assert Marked(gray.color, r) && n.color[r] == Gray && n.color == n.color[r := Gray];
    ShadeObject(h, m, r, Gray, gray, n, n.(color := n.color[r := Shade(h[r])]));
  }

  lemma {:induction false} MarkShades(h: Heap, m: Marks, r: Ref)
    requires m.color.Keys == h.Keys && r in h && m.color[r].White?
    ensures Shades(h, m, Mark(h, m, r)) && Marked(Mark(h, m, r).color, r)
    decreases Whites(m.color), 1
  {
    match h[r]
    case Str(_) =>
      var gray := m.(color := m.color[r := Gray]);
      ShadeObject(h, m, r, Gray, gray, gray, gray);
    case Udata(_, _) => UdataShades(h, m, r);
    case Open(_, _) => UpvalShades(h, m, r);
    case Closed(_) => UpvalShades(h, m, r);
    case _ => MarkContainer(h, m, r);
  }

  lemma {:induction false} MarkAllShades(h: Heap, m: Marks, vs: seq<Value>)
    requires m.color.Keys == h.Keys
    ensures Shades(h, m, MarkAll(h, m, vs))
    ensures forall v :: v in vs && v.Gc? && v.r in h ==> Marked(MarkAll(h, m, vs).color, v.r)
    decreases |vs|
  {
    if vs != [] {
      var b := MarkValue(h, m, vs[0]);
      MarkValueShades(h, m, vs[0]);
      MarkAllShades(h, b, vs[1..]);
      ShadesTrans(h, m, b, MarkAll(h, b, vs[1..]));
      assert forall v :: v in vs ==> v == vs[0] || v in vs[1..];
    }
  }

  /** Only objects of a closed set are shaded when shading starts inside it. */
  ghost predicate Within(c: Colors, X: set<Ref>) {
    forall x :: Marked(c, x) ==> x in X
  }

  lemma {:induction false} MarkValueWithin(h: Heap, m: Marks, v: Value, X: set<Ref>)
    requires m.color.Keys == h.Keys && ClosedSet(h, X) && Within(m.color, X)
    requires v.Gc? ==> v.r in X
    ensures Within(MarkValue(h, m, v).color, X)
    decreases Whites(m.color), 1
  {
    if v.Gc? && v.r in h && m.color[v.r].White? {
      var r := v.r;
      var gray := m.(color := m.color[r := Gray]);
      var black := m.(color := m.color[r := Black]);
      Darker(m.color, r, Gray);
      Darker(m.color, r, Black);
      assert forall w :: w in Fields(h, h[r]) && w.Gc? ==> Edge(h, r, w.r);
      match h[r]
      case Udata(meta, env) =>
        assert meta in Fields(h, h[r]) && env in Fields(h, h[r]);
        MarkValueWithin(h, black, meta, X);
        MarkValueWithin(h, MarkValue(h, black, meta), env, X);
      case Open(th, idx) =>
        assert Slot(h, th, idx) in Fields(h, h[r]);
        MarkValueWithin(h, gray, Slot(h, th, idx), X);
      case Closed(w) =>
        assert w in Fields(h, h[r]);
        MarkValueWithin(h, gray, w, X);
      case _ =>
    }
  }

  lemma {:induction false} MarkAllWithin(h: Heap, m: Marks, vs: seq<Value>, X: set<Ref>)
    requires m.color.Keys == h.Keys && ClosedSet(h, X) && Within(m.color, X)
    requires forall v :: v in vs && v.Gc? ==> v.r in X
    ensures Within(MarkAll(h, m, vs).color, X)
    decreases |vs|
  {
    if vs != [] {
      MarkValueWithin(h, m, vs[0], X);
      assert forall v :: v in vs[1..] ==> v in vs;
      MarkAllWithin(h, MarkValue(h, m, vs[0]), vs[1..], X);
    }
  }

  // ----- traversing gray objects -----

  /** removeentry on every empty node. */
  function CleanNodes(node: seq<Node>): (r: seq<Node>)
    ensures |r| == |node|
  {
    seq(|node|, i requires 0 <= i < |node| =>
      if node[i].val.Nil? && node[i].key.Gc? then node[i].(key := DeadKey(node[i].key.r)) else node[i])
  }

  /** The part of the stack at and above `top`, up to `limit`, is set to nil. */
  function ClearStack(stack: seq<Value>, top: nat, limit: nat): (r: seq<Value>)
    ensures |r| == |stack|
  {
    seq(|stack|, i requires 0 <= i < |stack| => if top <= i <= limit then Nil else stack[i])
  }

  /** What the traversal of an object changes in the object itself. */
  function Traversed(o: Object): Object {
    match o
    case Table(meta, arr, node) => Table(meta, arr, CleanNodes(node))
    case Thread(gt, stack, top, limit) => Thread(gt, ClearStack(stack, top, limit), top, limit)
    case _ => o
  }

  /** A value stored in the table or the stack, looked at by the traversal or not; above the top of a stack
      only what the traversal clears counts. */
  ghost predicate Stores(o: Object, v: Value) {
    match o
    case Table(meta, arr, node) => v == meta || v in arr || exists i :: 0 <= i < |node| && (v == node[i].key || v == node[i].val)
    case Thread(gt, stack, top, limit) => v == gt || exists i :: 0 <= i < |stack| && (i < top || i <= limit) && v == stack[i]
    case _ => false
  }

  lemma {:induction false} RevMembers(s: seq<Value>, v: Value)
    ensures v in Rev(s) <==> v in s
  {
    if s != [] {
      RevMembers(s[..|s| - 1], v);
      assert s == s[..|s| - 1] + [s[|s| - 1]];
    }
  }

  ghost predicate InNode(n: Node, v: Value) {
    !n.val.Nil? && (v == n.key || v == n.val)
  }

  ghost predicate InSome(node: seq<Node>, v: Value) {
    exists i :: 0 <= i < |node| && InNode(node[i], v)
  }

  lemma InLast(node: seq<Node>, v: Value)
    requires node != []
    ensures InSome(node, v) <==> InNode(node[|node| - 1], v) || InSome(node[..|node| - 1], v)
  {
    hide InNode;
    var rest := node[..|node| - 1];
    if InSome(rest, v) {
      var i :| 0 <= i < |rest| && InNode(rest[i], v);
      assert InNode(node[i], v);
    }
    if InSome(node, v) {
      var i :| 0 <= i < |node| && InNode(node[i], v);
      if i < |rest| { assert InNode(rest[i], v); }
    }
  }

  lemma LastFields(node: seq<Node>, v: Value)
    requires node != []
    ensures v in NodeFields(node) <==> InNode(node[|node| - 1], v) || v in NodeFields(node[..|node| - 1])
  {
  }

  lemma {:induction false} NodeFieldsMembers(node: seq<Node>, v: Value)
    ensures v in NodeFields(node) <==> InSome(node, v)
  {
    if node != [] {
      NodeFieldsMembers(node[..|node| - 1], v);
      hide InNode, InSome, NodeFields;
      InLast(node, v);
      LastFields(node, v);
    }
  }

  /** What an object refers to, kind by kind; of a table the entries that are not empty, of a stack what is below
      its top, and for an open upvalue the slot of its thread. */
  ghost predicate RefersTo(h: Heap, o: Object, v: Value) {
    match o
    case Str(_) => false
    case Udata(meta, env) => v == meta || v == env
    case Closed(w) => v == w
    case Open(th, idx) => th in h && h[th].Thread? && idx < |h[th].stack| && v == h[th].stack[idx]
    case CClosure(env, upvalue) => v == env || v in upvalue
    case LClosure(env, proto, upvals) => v == env || v == proto || v in upvals
    case Table(meta, arr, node) => v == meta || v in arr || exists i :: 0 <= i < |node| && node[i].val != Nil && (v == node[i].key || v == node[i].val)
    case Thread(gt, stack, top, _) => v == gt || exists i :: 0 <= i < top && i < |stack| && v == stack[i]
    case Proto(source, k, upvalues, p, locvars) => v == source || v in k || v in upvalues || v in p || v in locvars
  }

  lemma FieldsAre(h: Heap, o: Object, v: Value)
    requires v.Gc?
    ensures v in Fields(h, o) <==> RefersTo(h, o, v)
  {
    if o.Table? {
      RevMembers(o.arr, v);
      NodeFieldsMembers(o.node, v);
    }
    if o.Thread? {
      var below := UpTo(o.stack, o.top);
      assert |below| <= |o.stack| && forall i :: 0 <= i < |below| ==> below[i] == o.stack[i];
    }
  }

  /** After the traversal a table or a stack stores exactly the references the traversal marks: the keys of
      empty nodes and what lies above the top of the stack are gone. */
  lemma TraversedStores(h: Heap, o: Object, v: Value)
    requires v.Gc? && (o.Table? || o.Thread?) && (o.Thread? ==> o.top <= |o.stack|)
    ensures Stores(Traversed(o), v) <==> v in Fields(h, o)
  {
    if o.Table? {
      var node := CleanNodes(o.node);
      RevMembers(o.arr, v);
      NodeFieldsMembers(o.node, v);
      assert forall i :: 0 <= i < |node| && v == node[i].key ==> !o.node[i].val.Nil? && v == o.node[i].key;
      assert forall i :: 0 <= i < |node| && !o.node[i].val.Nil? ==> node[i] == o.node[i];
    } else {
      var stack := ClearStack(o.stack, o.top, o.limit);
      assert forall i :: 0 <= i < o.top ==> stack[i] == o.stack[i];
      if v in UpTo(o.stack, o.top) {
        var i :| 0 <= i < o.top && o.stack[i] == v;
        assert stack[i] == v;
      }
    }
  }

  datatype Mk = Mk(heap: Heap, color: Colors, gray: seq<Ref>, again: seq<Ref>)

  ghost predicate Sane(k: Mk) {
    && k.color.Keys == k.heap.Keys
    && (forall x :: x in k.gray || x in k.again ==> x in k.heap)
  }

  /** propagatemark: the first gray object is traversed; threads stay gray, for the atomic step. */
  function Propagate(k: Mk): (k': Mk)
    requires Sane(k) && k.gray != []
  {
    var r := k.gray[0];
    var o := k.heap[r];
    var m := MarkAll(k.heap, Marks(k.color[r := if o.Thread? then Gray else Black], k.gray[1..]), Fields(k.heap, o));
    Mk(k.heap[r := Traversed(o)], m.color, m.gray, if o.Thread? then [r] + k.again else k.again)
  }

  lemma PropagateSane(k: Mk)
    requires Sane(k) && k.gray != []
    ensures Sane(Propagate(k))
    ensures Whites(Propagate(k).color) <= Whites(k.color)
    ensures Whites(Propagate(k).color) == Whites(k.color) ==> |Propagate(k).gray| < |k.gray|
  {
    var r := k.gray[0];
    var o := k.heap[r];
    var m := Marks(k.color[r := if o.Thread? then Gray else Black], k.gray[1..]);
    assert Whites(m.color) <= Whites(k.color);
    MarkAllShades(k.heap, m, Fields(k.heap, o));
  }

  /** propagateall */
  function PropagateAll(k: Mk): (k': Mk)
    requires Sane(k)
    decreases Whites(k.color), |k.gray|
  {
    if k.gray == [] then k else
      PropagateSane(k);
      PropagateAll(Propagate(k))
  }

  // ----- the tri-colour invariant -----

  /** Colours an object of each kind can have: threads, open upvalues and strings are never black,
      userdata and closed upvalues are never gray. */
  ghost predicate Kinds(h: Heap, c: Colors) {
    forall x :: x in h && x in c ==>
      && (c[x] == Black ==> !h[x].Thread? && !h[x].Open? && !h[x].Str?)
      && (c[x] == Gray ==> !h[x].Udata? && !h[x].Closed?)
  }

  /** A gray container is in exactly one of the two lists, once: the single `gclist' link suffices. */
  ghost predicate Lists(h: Heap, m: Marks, again: seq<Ref>) {
    && (forall x :: x in m.gray || x in again ==> x in h && x in m.color && h[x].Container() && m.color[x] == Gray)
    && NoDup(m.gray) && NoDup(again)
    && (forall x :: x in m.gray ==> x !in again)
    && (forall x :: x in h && x in m.color && m.color[x] == Gray && h[x].Container() ==> x in m.gray || x in again)
  }

  /** No black object refers to a white one. */
  ghost predicate BlackOk(h: Heap, c: Colors) {
    forall x :: x in h && x in c && c[x] == Black ==> ChildrenMarked(h, c, x)
  }

  ghost predicate Tri(k: Mk) {
    && k.color.Keys == k.heap.Keys
    && Kinds(k.heap, k.color)
    && Lists(k.heap, Marks(k.color, k.gray), k.again)
    && BlackOk(k.heap, k.color)
  }

  /** Every gray object that is neither waiting to be traversed nor in `pend' refers to marked objects only. */
  ghost predicate GrayOk(h: Heap, m: Marks, pend: set<Ref>) {
    forall x :: x in h && x in m.color && m.color[x] == Gray && x !in m.gray && x !in pend ==> ChildrenMarked(h, m.color, x)
  }

  lemma ShadesLists(h: Heap, m: Marks, n: Marks, again: seq<Ref>)
    requires m.color.Keys == h.Keys && Shades(h, m, n)
    requires Kinds(h, m.color) && Lists(h, m, again)
    ensures Kinds(h, n.color) && Lists(h, n, again)
  {
    forall x | x in n.gray || x in again
      ensures x in h && x in n.color && h[x].Container() && n.color[x] == Gray && !(x in n.gray && x in again)
    {
      if x in m.gray || x in again { assert Marked(m.color, x); } else { assert IsWhite(m.color, x); }
    }
    forall x | x in h && n.color[x] == Gray && h[x].Container() ensures x in n.gray || x in again {
      if Marked(m.color, x) { } else { assert IsWhite(m.color, x) && Marked(n.color, x); }
    }
    assert forall x :: x in m.gray ==> Marked(m.color, x);
    forall x | x in h && x in n.color
      ensures n.color[x] == Black ==> !h[x].Thread? && !h[x].Open?
      ensures n.color[x] == Gray ==> !h[x].Udata? && !h[x].Closed?
    {
      if !Marked(m.color, x) && Marked(n.color, x) { assert IsWhite(m.color, x); }
    }
  }

  lemma ShadesBlack(h: Heap, m: Marks, n: Marks, pend: set<Ref>)
    requires m.color.Keys == h.Keys && Shades(h, m, n)
    ensures BlackOk(h, m.color) ==> BlackOk(h, n.color)
    ensures GrayOk(h, m, pend) ==> GrayOk(h, n, pend)
  {
    forall x | x in h && Marked(n.color, x) && (Marked(m.color, x) ==> ChildrenMarked(h, m.color, x)) && x !in n.gray
      ensures ChildrenMarked(h, n.color, x)
    {
      if Marked(m.color, x) {
        forall y | Edge(h, x, y) && y in h ensures Marked(n.color, y) { assert Marked(m.color, y); }
      } else {
        assert IsWhite(m.color, x);
      }
    }
    if BlackOk(h, m.color) {
      forall x | x in h && n.color[x] == Black ensures ChildrenMarked(h, n.color, x) {
        if Marked(m.color, x) {
          forall y | Edge(h, x, y) && y in h ensures Marked(n.color, y) { assert Marked(m.color, y); }
        } else {
          assert IsWhite(m.color, x) && Marked(n.color, x);
        }
      }
    }
  }

  // ----- traversal leaves references alone -----

  ghost predicate StackOk(h: Heap) {
    forall x :: x in h && h[x].Open? ==>
      && h[x].th in h && h[h[x].th].Thread?
      && h[x].idx < h[h[x].th].top <= |h[h[x].th].stack|
  }

  /** The same objects, of the same kinds, referring to the same values. */
  ghost predicate SameRefs(h: Heap, h': Heap) {
    && h'.Keys == h.Keys
    && (forall x :: x in h ==> h'[x].SameKind(h[x]) && Fields(h', h'[x]) == Fields(h, h[x]))
  }

  lemma {:induction false} CleanNodesFields(node: seq<Node>)
    ensures NodeFields(CleanNodes(node)) == NodeFields(node)
  {
    if node != [] {
      var c := CleanNodes(node);
      assert c[..|c| - 1] == CleanNodes(node[..|node| - 1]);
      CleanNodesFields(node[..|node| - 1]);
    }
  }

  /** Clearing empty nodes and the free part of a stack changes no reference. */
  lemma TraversedSelf(h: Heap, h': Heap, r: Ref)
    requires r in h && !h[r].Open? && (h[r].Thread? ==> h[r].top <= |h[r].stack|)
    ensures Traversed(h[r]).SameKind(h[r]) && Fields(h', Traversed(h[r])) == Fields(h, h[r])
  {
    match h[r]
    case Table(_, _, node) => CleanNodesFields(node);
    case Thread(_, stack, top, limit) => assert ClearStack(stack, top, limit)[..top] == stack[..top];
    case _ =>
  }

  lemma TraversedOpen(h: Heap, r: Ref, x: Ref)
    requires r in h && StackOk(h) && (h[r].Thread? ==> h[r].top <= |h[r].stack|) && x in h && h[x].Open?
    ensures var h' := h[r := Traversed(h[r])]; Fields(h', h[x]) == Fields(h, h[x])
  {
    var h' := h[r := Traversed(h[r])];
    if h[x].th == r {
      var t := h[r];
      assert ClearStack(t.stack, t.top, t.limit)[..t.top] == t.stack[..t.top];
      assert h'[r].stack[..t.top][h[x].idx] == t.stack[..t.top][h[x].idx];
    }
  }

  lemma TraversedSameRefs(h: Heap, r: Ref)
    requires r in h && StackOk(h) && (h[r].Thread? ==> h[r].top <= |h[r].stack|)
    ensures SameRefs(h, h[r := Traversed(h[r])]) && StackOk(h[r := Traversed(h[r])])
  {
    hide CleanNodes, ClearStack;
    var h' := h[r := Traversed(h[r])];
    forall x | x in h ensures h'[x].SameKind(h[x]) && Fields(h', h'[x]) == Fields(h, h[x]) {
      if h[x].Open? { TraversedOpen(h, r, x); } else if x == r { TraversedSelf(h, h', r); }
    }
  }

  lemma SameRefsChildren(h: Heap, h': Heap, c: Colors, x: Ref)
    requires SameRefs(h, h') && x in h
    ensures ChildrenMarked(h, c, x) ==> ChildrenMarked(h', c, x)
    ensures h'[x].Container() == h[x].Container()
  {
    forall y | Edge(h', x, y) && y in h' && ChildrenMarked(h, c, x) ensures Marked(c, y) {
      assert Edge(h, x, y) && y in h;
    }
  }

  lemma SameRefsLists(h: Heap, h': Heap, m: Marks, again: seq<Ref>)
    requires SameRefs(h, h') && m.color.Keys == h.Keys
    requires Kinds(h, m.color) && Lists(h, m, again)
    ensures Kinds(h', m.color) && Lists(h', m, again)
  {
    forall x | x in h ensures h'[x].SameKind(h[x]) && h'[x].Container() == h[x].Container() {
      SameRefsChildren(h, h', m.color, x);
    }
  }

  lemma SameRefsBlack(h: Heap, h': Heap, m: Marks, pend: set<Ref>)
    requires SameRefs(h, h') && m.color.Keys == h.Keys
    ensures BlackOk(h, m.color) ==> BlackOk(h', m.color)
    ensures GrayOk(h, m, pend) ==> GrayOk(h', m, pend)
  {
    forall x | x in h ensures ChildrenMarked(h, m.color, x) ==> ChildrenMarked(h', m.color, x) {
      SameRefsChildren(h, h', m.color, x);
    }
  }

  lemma SameRefsTrans(h: Heap, h1: Heap, h2: Heap)
    requires SameRefs(h, h1) && SameRefs(h1, h2)
    ensures SameRefs(h, h2)
  {
    forall x | x in h ensures h2[x].SameKind(h[x]) && Fields(h2, h2[x]) == Fields(h, h[x]) {
      assert h1[x].SameKind(h[x]) && h2[x].SameKind(h1[x]);
    }
  }

  // ----- one propagation step and the whole propagation -----

  /** The stack top of every thread lies inside its stack. */
  ghost predicate TopOk(h: Heap) {
    forall x :: x in h && h[x].Thread? ==> h[x].top <= |h[x].stack|
  }

  /** The marks between popping the first gray object and the end of its traversal. */
  function Popped(k: Mk): Marks
    requires Sane(k) && k.gray != []
  {
    Marks(k.color[k.gray[0] := if k.heap[k.gray[0]].Thread? then Gray else Black], k.gray[1..])
  }

  function Spread(k: Mk): Marks
    requires Sane(k) && k.gray != []
  {
    MarkAll(k.heap, Popped(k), Fields(k.heap, k.heap[k.gray[0]]))
  }

  lemma PropagateLists(k: Mk)
    requires Tri(k) && Sane(k) && k.gray != []
    ensures Kinds(k.heap, Spread(k).color) && Lists(k.heap, Spread(k), Propagate(k).again)
    ensures forall x :: Marked(k.color, x) ==> Marked(Spread(k).color, x)
  {
    hide Shades;
    var h, r := k.heap, k.gray[0];
    PoppedLists(k);
    MarkAllShades(h, Popped(k), Fields(h, h[r]));
    ShadesLists(h, Popped(k), Spread(k), Propagate(k).again);
    SpreadMarked(k);
  }

  lemma PoppedKinds(k: Mk)
    requires Tri(k) && Sane(k) && k.gray != []
    ensures Kinds(k.heap, Popped(k).color)
  {
    hide BlackOk;
    assert k.gray[0] in k.gray;
  }

  lemma FirstOfGray(k: Mk)
    requires Tri(k) && k.gray != []
    ensures NoDup(k.gray[1..]) && forall x :: x in k.gray <==> x == k.gray[0] || x in k.gray[1..]
    ensures k.gray[0] !in k.gray[1..]
  {
    hide BlackOk, Kinds;
  }

  lemma PoppedRest(k: Mk)
    requires Tri(k) && Sane(k) && k.gray != []
    requires NoDup(k.gray[1..]) && (forall x :: x in k.gray <==> x == k.gray[0] || x in k.gray[1..])
    requires k.gray[0] !in k.gray[1..]
    ensures Lists(k.heap, Popped(k), Propagate(k).again)
  {
    hide BlackOk, Kinds, MarkAll;
  }

  lemma PoppedLists(k: Mk)
    requires Tri(k) && Sane(k) && k.gray != []
    ensures Kinds(k.heap, Popped(k).color) && Lists(k.heap, Popped(k), Propagate(k).again)
  {
    hide BlackOk, Kinds, MarkAll, Lists;
    PoppedKinds(k);
    FirstOfGray(k);
    PoppedRest(k);
  }

  lemma SpreadMarked(k: Mk)
    requires Sane(k) && k.gray != []
    ensures forall x :: Marked(k.color, x) ==> Marked(Spread(k).color, x)
  {
    MarkAllShades(k.heap, Popped(k), Fields(k.heap, k.heap[k.gray[0]]));
    assert forall x :: Marked(k.color, x) ==> Marked(Popped(k).color, x);
  }

  /** What the traversal leaves black or set aside refers to marked objects only. */
  lemma SpreadChildren(k: Mk, x: Ref)
    requires Tri(k) && Sane(k) && k.gray != []
    requires x in k.heap && Marked(Spread(k).color, x) && x !in Spread(k).gray
    requires x != k.gray[0] && Marked(k.color, x) ==> ChildrenMarked(k.heap, k.color, x)
    ensures ChildrenMarked(k.heap, Spread(k).color, x)
  {
    var h, r := k.heap, k.gray[0];
    var m, n := Popped(k), Spread(k);
    MarkAllShades(h, m, Fields(h, h[r]));
    if x == r {
    } else if Marked(k.color, x) {
      forall y | Edge(h, x, y) && y in h ensures Marked(n.color, y) {
        assert Marked(k.color, y) && Marked(m.color, y);
      }
    } else {
      assert IsWhite(m.color, x);
    }
  }

  lemma PropagateBlack(k: Mk)
    requires Tri(k) && Sane(k) && k.gray != []
    ensures BlackOk(k.heap, Spread(k).color)
  {
    PropagateLists(k);
    forall x | x in k.heap && Spread(k).color[x] == Black ensures ChildrenMarked(k.heap, Spread(k).color, x) {
      assert Marked(Spread(k).color, x);
      if x != k.gray[0] && Marked(k.color, x) {
        MarkAllShades(k.heap, Popped(k), Fields(k.heap, k.heap[k.gray[0]]));
        assert Marked(Popped(k).color, x);
      }
      SpreadChildren(k, x);
    }
  }

  lemma InTail(s: seq<Ref>, x: Ref)
    requires s != [] && x != s[0]
    ensures x in s <==> x in s[1..]
  {
  }

  lemma PropagateGray(k: Mk, pend: set<Ref>)
    requires Tri(k) && Sane(k) && k.gray != []
    requires GrayOk(k.heap, Marks(k.color, k.gray), pend)
    ensures GrayOk(k.heap, Spread(k), pend)
  {
    forall x | x in k.heap && Spread(k).color[x] == Gray && x !in Spread(k).gray && x !in pend
      ensures ChildrenMarked(k.heap, Spread(k).color, x)
    {
      assert Marked(Spread(k).color, x);
      if x != k.gray[0] && Marked(k.color, x) {
        MarkAllShades(k.heap, Popped(k), Fields(k.heap, k.heap[k.gray[0]]));
        assert Marked(Popped(k).color, x);
        InTail(k.gray, x);
      }
      SpreadChildren(k, x);
    }
  }

  /** Traversing one gray object keeps the tri-colour invariant and what every object refers to. */
  lemma PropagateTri(k: Mk, pend: set<Ref>)
    requires Tri(k) && Sane(k) && k.gray != [] && StackOk(k.heap) && TopOk(k.heap)
    ensures Tri(Propagate(k)) && Sane(Propagate(k))
    ensures SameRefs(k.heap, Propagate(k).heap) && StackOk(Propagate(k).heap) && TopOk(Propagate(k).heap)
    ensures forall x :: Marked(k.color, x) ==> Marked(Propagate(k).color, x)
    ensures GrayOk(k.heap, Marks(k.color, k.gray), pend) ==>
              GrayOk(Propagate(k).heap, Marks(Propagate(k).color, Propagate(k).gray), pend)
    ensures forall x :: x in k.again ==> x in Propagate(k).again
  {
    hide BlackOk, GrayOk, Kinds, Lists, StackOk, MarkAll, Whites;
    var h', n := Propagate(k).heap, Spread(k);
    assert SameRefs(k.heap, h') && StackOk(h') by { TraversedSameRefs(k.heap, k.gray[0]); }
    assert Kinds(h', n.color) && Lists(h', n, Propagate(k).again) && (forall x :: Marked(k.color, x) ==> Marked(n.color, x)) by {
      PropagateLists(k);
      SameRefsLists(k.heap, h', n, Propagate(k).again);
    }
    assert BlackOk(h', n.color) by {
      PropagateBlack(k);
      SameRefsBlack(k.heap, h', n, pend);
    }
    if GrayOk(k.heap, Marks(k.color, k.gray), pend) {
      PropagateGray(k, pend);
      SameRefsBlack(k.heap, h', n, pend);
    }
    PropagateSane(k);
  }

  lemma {:induction false} PropagateAllTri(k: Mk, pend: set<Ref>)
    requires Tri(k) && Sane(k) && StackOk(k.heap) && TopOk(k.heap)
    ensures var k' := PropagateAll(k);
      && Tri(k') && Sane(k') && k'.gray == []
      && SameRefs(k.heap, k'.heap) && StackOk(k'.heap) && TopOk(k'.heap)
      && (forall x :: Marked(k.color, x) ==> Marked(k'.color, x))
      && (GrayOk(k.heap, Marks(k.color, k.gray), pend) ==> GrayOk(k'.heap, Marks(k'.color, []), pend))
      && (forall x :: x in k.again ==> x in k'.again)
    decreases Whites(k.color), |k.gray|
  {
    if k.gray != [] {
      PropagateSane(k);
      PropagateTri(k, pend);
      PropagateAllTri(Propagate(k), pend);
      SameRefsTrans(k.heap, Propagate(k).heap, PropagateAll(k).heap);
    }
  }

  lemma {:induction false} PropagateAllWithin(k: Mk, X: set<Ref>)
    requires Tri(k) && Sane(k) && StackOk(k.heap) && TopOk(k.heap)
    requires ClosedSet(k.heap, X) && Within(k.color, X)
    ensures Within(PropagateAll(k).color, X)
    decreases Whites(k.color), |k.gray|
  {
    if k.gray != [] {
      PropagateSane(k);
      PropagateTri(k, {});
      PropagateWithin(k, X);
      PropagateAllWithin(Propagate(k), X);
    }
  }

  lemma PropagateWithin(k: Mk, X: set<Ref>)
    requires Tri(k) && Sane(k) && k.gray != [] && SameRefs(k.heap, Propagate(k).heap)
    requires ClosedSet(k.heap, X) && Within(k.color, X)
    ensures ClosedSet(Propagate(k).heap, X) && Within(Propagate(k).color, X)
  {
    var h, r := k.heap, k.gray[0];
    assert r in k.gray && Marked(k.color, r);
    forall v | v in Fields(h, h[r]) && v.Gc? ensures v.r in X { assert Edge(h, r, v.r); }
    assert forall x :: Marked(Popped(k).color, x) <==> Marked(k.color, x);
    MarkAllWithin(h, Popped(k), Fields(h, h[r]), X);
    assert forall x, y :: Edge(Propagate(k).heap, x, y) ==> Edge(h, x, y);
  }
}
