/** Collectable objects, the references they hold, and reachability. */
module GcHeap {
  type Ref = nat

  /** A tagged value, as far as the collector looks at it. `DeadKey` is the tag LUA_TDEADKEY. */
  datatype Value = Nil | Scalar | Gc(r: Ref) | DeadKey(r: Ref)

  datatype Node = Node(key: Value, val: Value)

  /** The object kinds. A pointer that may be NULL is a `Value` that may be `Nil`.
      An open upvalue names the stack slot it points to; a closed one owns its value. */
  datatype Object =
    | Str(hash: nat)
    | Udata(meta: Value, env: Value)
    | Closed(v: Value)
    | Open(th: Ref, idx: nat)
    | CClosure(env: Value, upvalue: seq<Value>)
    | LClosure(env: Value, proto: Value, upvals: seq<Value>)
    | Table(meta: Value, arr: seq<Value>, node: seq<Node>)
    | Thread(gt: Value, stack: seq<Value>, top: nat, limit: nat)
    | Proto(source: Value, k: seq<Value>, upvalues: seq<Value>, p: seq<Value>, locvars: seq<Value>)
  {
    /** Kinds that wait in a gray list to be traversed. */
    predicate Container() {
      CClosure? || LClosure? || Table? || Thread? || Proto?
    }

    /** Kinds that keep the same tag; closing an upvalue is the one change of tag there is. */
    predicate SameKind(o: Object) {
      || (Str? && o.Str? && hash == o.hash) || (Udata? && o.Udata?) || (Closed? && o.Closed?)
      || (Open? && this == o) || (CClosure? && o.CClosure?) || (LClosure? && o.LClosure?)
      || (Table? && o.Table?) || (Thread? && o.Thread?) || (Proto? && o.Proto?)
    }
  }

  type Heap = map<Ref, Object>

  function Rev(s: seq<Value>): (r: seq<Value>) {
    if s == [] then [] else [s[|s| - 1]] + Rev(s[..|s| - 1])
  }

  /** Keys and values of the non-empty entries, last node first. */
  function NodeFields(node: seq<Node>): (vs: seq<Value>) {
    if node == [] then []
    else
      var n := node[|node| - 1];
      (if n.val.Nil? then [] else [n.key, n.val]) + NodeFields(node[..|node| - 1])
  }

  /** The stack slot an open upvalue stands for. */
  function Slot(h: Heap, th: Ref, idx: nat): Value {
    if th in h && h[th].Thread? && idx < |h[th].stack| then h[th].stack[idx] else Nil
  }

  function UpTo(stack: seq<Value>, top: nat): seq<Value> {
    if top <= |stack| then stack[..top] else stack
  }

  /** The values an object refers to, in the order the traversal visits them. */
  function Fields(h: Heap, o: Object): seq<Value> {
    match o
    case Str(_) => []
    case Udata(meta, env) => [meta, env]
    case Closed(v) => [v]
    case Open(th, idx) => [Slot(h, th, idx)]
    case CClosure(env, upvalue) => [env] + upvalue
    case LClosure(env, p, upvals) => [env, p] + upvals
    case Table(meta, arr, node) => [meta] + Rev(arr) + NodeFields(node)
    case Thread(gt, stack, top, _) => [gt] + UpTo(stack, top)
    case Proto(source, k, upvalues, p, locvars) => [source] + k + upvalues + p + locvars
  }

  ghost predicate Edge(h: Heap, x: Ref, y: Ref) {
    x in h && Gc(y) in Fields(h, h[x])
  }

  ghost predicate Path(h: Heap, p: seq<Ref>) {
    forall i :: 0 <= i < |p| - 1 ==> Edge(h, p[i], p[i + 1])
  }

  /** `x` can be reached from one of the roots along references. */
  ghost predicate Reach(h: Heap, roots: set<Ref>, x: Ref) {
    exists p: seq<Ref> :: p != [] && p[0] in roots && p[|p| - 1] == x && Path(h, p)
  }

  /** `X` contains everything its members refer to. */
  ghost predicate ClosedSet(h: Heap, X: set<Ref>) {
    forall x, y :: x in X && Edge(h, x, y) ==> y in X
  }

  lemma ReachRoot(h: Heap, roots: set<Ref>, x: Ref)
    requires x in roots
    ensures Reach(h, roots, x)
  {
    var p := [x];
    assert p[0] in roots && p[|p| - 1] == x && Path(h, p);
  }

  lemma ReachStep(h: Heap, roots: set<Ref>, x: Ref, y: Ref)
    requires Reach(h, roots, x) && Edge(h, x, y)
    ensures Reach(h, roots, y)
  {
    var p: seq<Ref> :| p != [] && p[0] in roots && p[|p| - 1] == x && Path(h, p);
    var q := p + [y];
    assert q[0] in roots && q[|q| - 1] == y;
    assert Path(h, q) by {
      forall i | 0 <= i < |q| - 1 ensures Edge(h, q[i], q[i + 1]) {
        if i < |p| - 1 { assert Edge(h, p[i], p[i + 1]); }
      }
    }
  }

  /** A closed set that contains the roots contains all that can be reached. */
  lemma {:induction false} ClosedSetHasPath(h: Heap, X: set<Ref>, p: seq<Ref>)
    requires ClosedSet(h, X) && p != [] && p[0] in X && Path(h, p)
    ensures p[|p| - 1] in X
  {
    if |p| > 1 {
      var q := p[..|p| - 1];
      assert Path(h, q) by {
        forall i | 0 <= i < |q| - 1 ensures Edge(h, q[i], q[i + 1]) {
          assert Edge(h, p[i], p[i + 1]);
        }
      }
      ClosedSetHasPath(h, X, q);
      assert Edge(h, p[|p| - 2], p[|p| - 1]);
    }
  }

  lemma ReachInClosedSet(h: Heap, roots: set<Ref>, X: set<Ref>, x: Ref)
    requires ClosedSet(h, X) && roots <= X && Reach(h, roots, x)
    ensures x in X
  {
    var p: seq<Ref> :| p != [] && p[0] in roots && p[|p| - 1] == x && Path(h, p);
    ClosedSetHasPath(h, X, p);
  }

  /** Reachability depends only on the references of reachable objects. */
  lemma {:induction false} PathAgree(h: Heap, h': Heap, roots: set<Ref>, p: seq<Ref>)
    requires p != [] && p[0] in roots && Path(h, p)
    requires forall x, y :: Reach(h, roots, x) && Edge(h, x, y) ==> Edge(h', x, y)
    ensures Path(h', p)
  {
    forall i | 0 <= i < |p| - 1 ensures Edge(h', p[i], p[i + 1]) {
      var q := p[..i + 1];
      assert Path(h, q) by {
        forall j | 0 <= j < |q| - 1 ensures Edge(h, q[j], q[j + 1]) { assert Edge(h, p[j], p[j + 1]); }
      }
      assert q[0] in roots && q[|q| - 1] == p[i];
      assert Reach(h, roots, p[i]);
      assert Edge(h, p[i], p[i + 1]);
    }
  }

  lemma ReachAgree(h: Heap, h': Heap, roots: set<Ref>, x: Ref)
    requires Reach(h, roots, x)
    requires forall x, y :: Reach(h, roots, x) && Edge(h, x, y) ==> Edge(h', x, y)
    ensures Reach(h', roots, x)
  {
    var p: seq<Ref> :| p != [] && p[0] in roots && p[|p| - 1] == x && Path(h, p);
    PathAgree(h, h', roots, p);
  }
}
