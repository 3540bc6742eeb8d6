/** Package priorities: the recursive visit that gives every package needed by a root its place. */
module PkgGraph {

  /** The dependency lists of the known packages, by package name. */
  type Deps = map<string, seq<string>>
  type Priorities = map<string, int>

  // ----- reference definitions -----

  /** A walk along dependencies through known packages. */
  ghost predicate Chain(g: Deps, p: seq<string>) {
    && p != []
    && (forall k :: 0 <= k < |p| ==> p[k] in g)
    && (forall k, l :: 0 <= k && l == k + 1 && l < |p| ==> p[l] in g[p[k]])
  }

  ghost predicate ChainFrom(g: Deps, p: seq<string>, a: string, b: string) {
    Chain(g, p) && p[0] == a && p[|p| - 1] == b
  }

  ghost predicate Reaches(g: Deps, a: string, b: string) {
    exists p :: ChainFrom(g, p, a, b)
  }

  /** A package that depends on itself, through one dependency or many. */
  ghost predicate OnCycle(g: Deps, a: string) {
    exists p :: ChainFrom(g, p, a, a) && |p| > 1
  }

  ghost predicate CycleFrom(g: Deps, root: string) {
    exists a :: Reaches(g, root, a) && OnCycle(g, a)
  }

  /** The root, or a dependency of a package it needs, is not known. */
  ghost predicate MissingFrom(g: Deps, root: string) {
    root !in g || exists a, d :: Reaches(g, root, a) && d in g[a] && d !in g
  }

  /** The number of packages on the longest chain that starts at a package. */
  ghost predicate Longest(g: Deps, a: string, n: int) {
    && (exists p :: Chain(g, p) && p[0] == a && |p| == n)
    && (forall p :: Chain(g, p) && p[0] == a ==> |p| <= n)
  }

  lemma ReachesSelf(g: Deps, a: string)
    requires a in g
    ensures Reaches(g, a, a)
  {
    assert ChainFrom(g, [a], a, a);
  }

  lemma ChainJoin(g: Deps, p: seq<string>, q: seq<string>)
    requires Chain(g, p) && Chain(g, q) && q[0] in g[p[|p| - 1]]
    ensures Chain(g, p + q)
  {
    var r := p + q;
    forall k, l | 0 <= k && l == k + 1 && l < |r|
      ensures r[l] in g[r[k]]
    {
      if l > |p| { assert r[k] == q[k - |p|] && r[l] == q[l - |p|]; }
    }
  }

  lemma ReachesStep(g: Deps, a: string, b: string, c: string)
    requires a in g && b in g[a] && Reaches(g, b, c)
    ensures Reaches(g, a, c)
  {
    var p :| ChainFrom(g, p, b, c);
    ChainJoin(g, [a], p);
    assert ChainFrom(g, [a] + p, a, c);
  }

  /** What is found from a dependency is found from its dependent. */
  lemma FromDependency(g: Deps, a: string, b: string)
    requires a in g && b in g[a]
    ensures CycleFrom(g, b) ==> CycleFrom(g, a)
    ensures MissingFrom(g, b) ==> MissingFrom(g, a)
  {
    if CycleFrom(g, b) {
      var c :| Reaches(g, b, c) && OnCycle(g, c);
      ReachesStep(g, a, b, c);
    }
    if MissingFrom(g, b) {
      ReachesSelf(g, a);
      if b in g {
        var c, d :| Reaches(g, b, c) && d in g[c] && d !in g;
        ReachesStep(g, a, b, c);
      }
    }
  }

  // ----- the invariant of the visit -----

  /** -1: not visited. -2, or 0 once a warning was given for it: being visited. From 1 on: finished. */
  predicate White(pri: Priorities, a: string) { a in pri && pri[a] == -1 }
  predicate Gray(pri: Priorities, a: string) { a in pri && (pri[a] == -2 || pri[a] == 0) }
  predicate Black(pri: Priorities, a: string) { a in pri && pri[a] >= 1 }

  ghost function Whites(pri: Priorities): set<string> { set a | a in pri && pri[a] == -1 }

  /** One more than the highest priority among the dependencies, 1 when there are none. */
  ghost predicate Exact(g: Deps, pri: Priorities, a: string)
    requires a in g && a in pri
  {
    && (forall d :: d in g[a] && d in g ==> Black(pri, d) && pri[d] < pri[a])
    && (pri[a] == 1 || exists d :: d in g[a] && d in g && d in pri && pri[d] == pri[a] - 1)
  }

  /** `stack' holds the packages being visited, outermost first; `circular' and `missing' say
      whether a warning of that kind was given so far. */
  ghost predicate Visiting(g: Deps, pri: Priorities, stack: seq<string>, circular: bool, missing: bool) {
    && pri.Keys == g.Keys
    && (forall a :: a in g ==> pri[a] >= -2)
    && (stack != [] ==> Chain(g, stack))
    && (forall a :: a in g ==> (Gray(pri, a) <==> a in stack))
    && (forall a, d :: Black(pri, a) && d in g[a] && d in g ==> !White(pri, d))
    && (!circular ==> forall a :: Black(pri, a) ==> Exact(g, pri, a))
    && (!circular ==> forall a :: a in g ==> pri[a] != 0)
    && (!missing ==> forall a, d :: Black(pri, a) && d in g[a] ==> d in g)
  }

  lemma Range(g: Deps, pri: Priorities, stack: seq<string>, circular: bool, missing: bool, a: string)
    requires Visiting(g, pri, stack, circular, missing) && a in g
    ensures a in pri && pri[a] >= -2
    ensures White(pri, a) ==> a !in stack
  {
    assert a in stack ==> Gray(pri, a);
  }

  /** What visits from `pkg' did: finished packages keep their priority, and what gets finished is
      needed by `pkg'. */
  ghost predicate Grown(g: Deps, pri: Priorities, pri': Priorities, pkg: string) {
    && pri'.Keys == pri.Keys == g.Keys
    && (forall a :: a in g && !White(pri, a) ==> !White(pri', a))
    && (forall a :: Black(pri, a) ==> pri'[a] == pri[a])
    && (forall a :: Gray(pri, a) ==> Gray(pri', a))
    && (forall a :: White(pri, a) ==> White(pri', a) || (Black(pri', a) && Reaches(g, pkg, a)))
  }

  ghost predicate Visited(g: Deps, pri: Priorities, pri': Priorities, pkg: string) {
    Grown(g, pri, pri', pkg) && (pkg in g ==> !White(pri', pkg))
  }

  lemma Enter(g: Deps, pri: Priorities, stack: seq<string>, circular: bool, missing: bool, a: string)
    requires Visiting(g, pri, stack, circular, missing)
    requires a in g && White(pri, a)
    requires stack != [] ==> a in g[stack[|stack| - 1]]
    ensures Visiting(g, pri[a := -2], stack + [a], circular, missing)
    ensures Whites(pri[a := -2]) < Whites(pri)
  {
    if stack != [] { ChainJoin(g, stack, [a]); }
    var pri' := pri[a := -2];
    assert a in Whites(pri) && a !in Whites(pri');
    forall b | Black(pri', b)
      ensures !circular ==> Exact(g, pri', b)
    {
      assert Black(pri, b);
      assert !circular ==> Exact(g, pri, b);
    }
  }

  /** Meeting a package that is being visited closes a cycle. */
  lemma Circle(g: Deps, pri: Priorities, stack: seq<string>, circular: bool, missing: bool, a: string)
    requires Visiting(g, pri, stack, circular, missing)
    requires a in g && Gray(pri, a)
    requires stack != [] ==> a in g[stack[|stack| - 1]]
    ensures CycleFrom(g, a)
  {
    var k :| 0 <= k < |stack| && stack[k] == a;
    var p := stack[k..];
    assert Chain(g, p) by {
      forall i, j | 0 <= i && j == i + 1 && j < |p| ensures p[j] in g[p[i]] {
        var x, y := k + i, k + j;
        assert stack[y] in g[stack[x]];
      }
    }
    ChainJoin(g, p, [a]);
    assert ChainFrom(g, p + [a], a, a);
    ReachesSelf(g, a);
  }

  /** The highest priority met among the first `n' dependencies. */
  ghost predicate HighestOf(g: Deps, pri: Priorities, deps: seq<string>, n: int, high: int) {
    && 0 <= n <= |deps| && high >= 0
    && (forall k :: 0 <= k < n && deps[k] in g ==> Black(pri, deps[k]) && pri[deps[k]] <= high)
    && (high == 0 || exists k :: 0 <= k < n && deps[k] in g && deps[k] in pri && pri[deps[k]] == high)
  }

  ghost predicate Known(g: Deps, pri: Priorities, deps: seq<string>, n: int, missing: bool) {
    && 0 <= n <= |deps|
    && (forall k :: 0 <= k < n && deps[k] in g ==> !White(pri, deps[k]))
    && (!missing ==> forall k :: 0 <= k < n ==> deps[k] in g)
  }

  lemma LeaveStack(g: Deps, pri: Priorities, stack: seq<string>, a: string)
    requires Chain(g, stack + [a])
    ensures stack != [] ==> Chain(g, stack)
  {
    var st := stack + [a];
    forall k | 0 <= k < |stack| ensures stack[k] in g {
      assert st[k] in g;
    }
    forall k, l | 0 <= k && l == k + 1 && l < |stack| ensures stack[l] in g[stack[k]] {
      assert st[l] in g[st[k]];
    }
  }

  lemma ExactKept(g: Deps, pri: Priorities, a: string, v: int, b: string)
    requires a in g && Gray(pri, a) && b in g && Black(pri, b) && Exact(g, pri, b)
    ensures Exact(g, pri[a := v], b)
  {
    var pri' := pri[a := v];
    forall d | d in g[b] && d in g
      ensures Black(pri', d) && pri'[d] < pri'[b]
    {
      assert Black(pri, d);
    }
    if pri[b] != 1 {
      var d :| d in g[b] && d in g && d in pri && pri[d] == pri[b] - 1;
      assert Black(pri, d);
      assert d in pri' && pri'[d] == pri'[b] - 1;
    }
  }

  lemma ExactNew(g: Deps, pri: Priorities, a: string, high: int)
    requires a in g && Gray(pri, a) && HighestOf(g, pri, g[a], |g[a]|, high)
    ensures Exact(g, pri[a := high + 1], a)
  {
    var deps, pri' := g[a], pri[a := high + 1];
    forall d | d in deps && d in g
      ensures Black(pri', d) && pri'[d] < pri'[a]
    {
      var k :| 0 <= k < |deps| && deps[k] == d;
      assert Black(pri, deps[k]);
    }
    if high > 0 {
      var k :| 0 <= k < |deps| && deps[k] in g && deps[k] in pri && pri[deps[k]] == high;
      var d := deps[k];
      assert d in pri' && pri'[d] == pri'[a] - 1;
    }
  }

  lemma LeaveGray(g: Deps, pri: Priorities, stack: seq<string>, circular: bool, missing: bool, a: string, v: int)
    requires Visiting(g, pri, stack + [a], circular, missing)
    requires a in g && a !in stack && v >= 1
    ensures Gray(pri, a)
    ensures forall b :: b in g ==> (Gray(pri[a := v], b) <==> b in stack)
  {
    var st := stack + [a];
    assert st[|stack|] == a;
    forall b | b in g
      ensures b in st <==> b in stack || b == a
    {
    }
  }

  lemma Leave(g: Deps, pri: Priorities, stack: seq<string>, circular: bool, missing: bool, a: string, high: int)
    requires Visiting(g, pri, stack + [a], circular, missing)
    requires a in g && a !in stack && high >= 0
    requires Known(g, pri, g[a], |g[a]|, missing)
    requires !circular ==> HighestOf(g, pri, g[a], |g[a]|, high)
    ensures Visiting(g, pri[a := high + 1], stack, circular, missing)
  {
    hide Exact, HighestOf, Chain;
    var pri' := pri[a := high + 1];
    LeaveStack(g, pri, stack, a);
    LeaveGray(g, pri, stack, circular, missing, a, high + 1);
    forall b | Black(pri', b)
      ensures !circular ==> Exact(g, pri', b)
      ensures forall d :: d in g[b] && d in g ==> !White(pri', d)
      ensures !missing ==> forall d :: d in g[b] ==> d in g
    {
      if b == a {
        if !circular { ExactNew(g, pri, a, high); }
        var deps := g[a];
        assert forall d :: d in deps ==> exists k :: 0 <= k < |deps| && deps[k] == d;
      } else {
        assert Black(pri, b);
        if !circular { ExactKept(g, pri, a, high + 1, b); }
      }
    }
  }

  lemma GrownWhites(g: Deps, pri: Priorities, pri': Priorities, pkg: string)
    requires Grown(g, pri, pri', pkg)
    ensures Whites(pri') <= Whites(pri)
  {
    forall a | a in Whites(pri') ensures a in Whites(pri) {
      assert White(pri', a);
      assert White(pri, a);
    }
  }

  lemma GrownTrans(g: Deps, pri: Priorities, pri': Priorities, pri'': Priorities, pkg: string, dep: string)
    requires Grown(g, pri, pri', pkg) && Grown(g, pri', pri'', dep)
    requires pkg in g && dep in g[pkg]
    ensures Grown(g, pri, pri'', pkg)
  {
    forall a | White(pri, a)
      ensures White(pri'', a) || (Black(pri'', a) && Reaches(g, pkg, a))
    {
      if Reaches(g, dep, a) { ReachesStep(g, pkg, dep, a); }
    }
  }

  lemma LeaveGrown(g: Deps, pri: Priorities, last: Priorities, pkg: string, v: int)
    requires pkg in g && White(pri, pkg) && v >= 1
    requires Grown(g, pri[pkg := -2], last, pkg)
    ensures Visited(g, pri, last[pkg := v], pkg)
  {
    ReachesSelf(g, pkg);
    var entered := pri[pkg := -2];
    forall a | a in g && a != pkg
      ensures Black(pri, a) ==> Black(entered, a)
      ensures Gray(pri, a) ==> Gray(entered, a)
      ensures White(pri, a) ==> White(entered, a)
    {
    }
  }

  lemma NextKnown(g: Deps, pri: Priorities, pri': Priorities, deps: seq<string>, i: int, missing: bool, missing': bool)
    requires Known(g, pri, deps, i, missing) && i < |deps|
    requires Visited(g, pri, pri', deps[i])
    requires (missing ==> missing') && (deps[i] !in g ==> missing')
    ensures Known(g, pri', deps, i + 1, missing')
  {
    forall k | 0 <= k < i + 1 && deps[k] in g
      ensures !White(pri', deps[k])
    {
      assert deps[k] in pri;
    }
  }

  lemma NextHighest(g: Deps, pri: Priorities, pri': Priorities, deps: seq<string>, i: int, high: int,
                    p: int, stack: seq<string>, missing: bool)
    requires HighestOf(g, pri, deps, i, high) && i < |deps|
    requires Visited(g, pri, pri', deps[i]) && Visiting(g, pri', stack, false, missing)
    requires p == (if deps[i] in g then pri'[deps[i]] else 0) && p >= 0
    ensures HighestOf(g, pri', deps, i + 1, if high < p then p else high)
  {
    if p > high {
      assert deps[i] in g && pri'[deps[i]] == p;
    }
  }

  /** `pkg' is being visited and its first `i' dependencies are done. */
  ghost predicate Stage(g: Deps, entered: Priorities, pri: Priorities, stack: seq<string>, pkg: string,
                        deps: seq<string>, i: int, high: int,
                        circular0: bool, missing0: bool, circular: bool, missing: bool) {
    && high >= 0 && pkg in g && g[pkg] == deps && stack != [] && stack[|stack| - 1] == pkg
    && Visiting(g, pri, stack, circular, missing)
    && Grown(g, entered, pri, pkg)
    && Known(g, pri, deps, i, missing)
    && (!circular ==> HighestOf(g, pri, deps, i, high))
    && (circular0 ==> circular) && (missing0 ==> missing)
    && (circular ==> circular0 || CycleFrom(g, pkg))
    && (missing ==> missing0 || MissingFrom(g, pkg))
  }

  /** What a visit of `pkg' promises: the new priorities, the returned one, and the two warnings. */
  ghost predicate Returned(g: Deps, pri: Priorities, pri': Priorities, stack: seq<string>, pkg: string, r: int,
                           circular0: bool, missing0: bool, circular: bool, missing: bool) {
    && Visiting(g, pri', stack, circular, missing)
    && Visited(g, pri, pri', pkg)
    && r >= 0 && r == (if pkg in g then pri'[pkg] else 0)
    && (circular0 ==> circular) && (missing0 ==> missing)
    && (circular ==> circular0 || CycleFrom(g, pkg))
    && (missing ==> missing0 || MissingFrom(g, pkg))
    && (pkg !in g ==> missing)
  }

  lemma Circular(g: Deps, pri: Priorities, stack: seq<string>, circular: bool, missing: bool, pkg: string)
    requires Visiting(g, pri, stack, circular, missing)
    requires pkg in g && pri[pkg] == -2
    requires stack != [] ==> pkg in g[stack[|stack| - 1]]
    ensures Returned(g, pri, pri[pkg := 0], stack, pkg, 0, circular, missing, true, missing)
  {
    Circle(g, pri, stack, circular, missing, pkg);
    hide CycleFrom, MissingFrom, Chain, Exact;
  }

  lemma AlreadyKnown(g: Deps, pri: Priorities, stack: seq<string>, circular: bool, missing: bool, pkg: string)
    requires Visiting(g, pri, stack, circular, missing)
    requires pkg in g && pri[pkg] != -2 && pri[pkg] != -1
    ensures Returned(g, pri, pri, stack, pkg, pri[pkg], circular, missing, circular, missing)
  {
    hide CycleFrom, MissingFrom, Chain, Exact;
  }

  lemma MissingRoot(g: Deps, pri: Priorities, stack: seq<string>, circular: bool, missing: bool, pkg: string)
    requires Visiting(g, pri, stack, circular, missing) && pkg !in g
    ensures Returned(g, pri, pri, stack, pkg, 0, circular, missing, circular, true)
  {
  }

  lemma StageWhites(g: Deps, entered: Priorities, pri: Priorities, stack: seq<string>, pkg: string,
                    deps: seq<string>, i: int, high: int,
                    circular0: bool, missing0: bool, circular: bool, missing: bool)
    requires Stage(g, entered, pri, stack, pkg, deps, i, high, circular0, missing0, circular, missing)
    ensures Whites(pri) <= Whites(entered)
    ensures Visiting(g, pri, stack, circular, missing)
    ensures stack != [] && g[stack[|stack| - 1]] == deps
  {
    GrownWhites(g, entered, pri, pkg);
  }

  lemma NextStage(g: Deps, entered: Priorities, pri: Priorities, pri': Priorities, stack: seq<string>, pkg: string,
                  deps: seq<string>, i: int, high: int, p: int, circular0: bool, missing0: bool,
                  circular1: bool, missing1: bool, circular: bool, missing: bool)
    requires Stage(g, entered, pri, stack, pkg, deps, i, high, circular0, missing0, circular1, missing1)
    requires i < |deps|
    requires Returned(g, pri, pri', stack, deps[i], p, circular1, missing1, circular, missing)
    ensures Stage(g, entered, pri', stack, pkg, deps, i + 1, if high < p then p else high,
                  circular0, missing0, circular, missing)
  {
    hide Visiting, CycleFrom, MissingFrom, HighestOf;
    FromDependency(g, pkg, deps[i]);
    GrownTrans(g, entered, pri, pri', pkg, deps[i]);
    NextKnown(g, pri, pri', deps, i, missing1, missing);
    if !circular { NextHighest(g, pri, pri', deps, i, high, p, stack, missing); }
  }

  lemma Begin(g: Deps, pri: Priorities, stack: seq<string>, pkg: string, circular: bool, missing: bool)
    requires Visiting(g, pri, stack, circular, missing) && pkg in g
    requires stack != [] && stack[|stack| - 1] == pkg
    ensures Stage(g, pri, pri, stack, pkg, g[pkg], 0, 0, circular, missing, circular, missing)
  {
  }

  lemma Finish(g: Deps, pri: Priorities, last: Priorities, stack: seq<string>, pkg: string, high: int,
               circular0: bool, missing0: bool, circular: bool, missing: bool)
    requires pkg in g && White(pri, pkg) && pkg !in stack
    requires Stage(g, pri[pkg := -2], last, stack + [pkg], pkg, g[pkg], |g[pkg]|, high,
                   circular0, missing0, circular, missing)
    ensures Returned(g, pri, last[pkg := high + 1], stack, pkg, high + 1, circular0, missing0, circular, missing)
  {
    hide Visiting, Grown, Visited, CycleFrom, MissingFrom, HighestOf;
    Leave(g, last, stack, circular, missing, pkg, high);
    LeaveGrown(g, pri, last, pkg, high + 1);
  }

  // ----- what the finished visit means -----

  /** The state a visit of `root' leaves behind when nothing was visited before it. */
  ghost predicate Evaluated(g: Deps, pri: Priorities, root: string, circular: bool, missing: bool) {
    && Visiting(g, pri, [], circular, missing)
    && (root in g ==> Black(pri, root))
    && (forall a :: Black(pri, a) ==> Reaches(g, root, a))
    && (circular ==> CycleFrom(g, root))
    && (missing ==> MissingFrom(g, root))
    && (root !in g ==> missing)
  }

  lemma {:induction false} ChainBlack(g: Deps, pri: Priorities, circular: bool, missing: bool, p: seq<string>, k: int)
    requires Visiting(g, pri, [], circular, missing)
    requires Chain(g, p) && Black(pri, p[0]) && 0 <= k < |p|
    ensures Black(pri, p[k])
    ensures !circular ==> pri[p[k]] + k <= pri[p[0]]
  {
    if k > 0 {
      var j := k - 1;
      ChainBlack(g, pri, circular, missing, p, j);
      assert p[k] in g[p[j]];
      assert !circular ==> Exact(g, pri, p[j]);
    }
  }

  /** Before the first visit. */
  lemma NothingVisited(g: Deps, pri: Priorities)
    requires pri.Keys == g.Keys && forall a :: a in g ==> White(pri, a)
    ensures Visiting(g, pri, [], false, false)
  {
  }

  lemma VisitedAll(g: Deps, pri: Priorities, pri': Priorities, root: string, circular: bool, missing: bool)
    requires forall a :: a in g ==> White(pri, a)
    requires Visited(g, pri, pri', root) && Visiting(g, pri', [], circular, missing)
    requires circular ==> CycleFrom(g, root)
    requires missing ==> MissingFrom(g, root)
    requires root !in g ==> missing
    ensures Evaluated(g, pri', root, circular, missing)
  {
    hide CycleFrom, MissingFrom;
    if root in g { assert !Gray(pri', root); }
  }

  /** Exactly the packages the root needs, itself included, have got a priority. */
  lemma NeededPackages(g: Deps, pri: Priorities, root: string, circular: bool, missing: bool, a: string)
    requires Evaluated(g, pri, root, circular, missing) && a in g
    ensures pri[a] >= 0 <==> Reaches(g, root, a)
  {
    if Reaches(g, root, a) {
      var p :| ChainFrom(g, p, root, a);
      ChainBlack(g, pri, circular, missing, p, |p| - 1);
    }
    if pri[a] >= 0 { assert !Gray(pri, a); }
  }

  /** The warning about circular dependencies is given exactly when the root needs a cycle. */
  lemma CircularWarning(g: Deps, pri: Priorities, root: string, circular: bool, missing: bool)
    requires Evaluated(g, pri, root, circular, missing)
    ensures circular <==> CycleFrom(g, root)
  {
    if !circular && CycleFrom(g, root) {
      var a :| Reaches(g, root, a) && OnCycle(g, a);
      var p :| ChainFrom(g, p, root, a);
      ChainBlack(g, pri, circular, missing, p, |p| - 1);
      var q :| ChainFrom(g, q, a, a) && |q| > 1;
      ChainBlack(g, pri, circular, missing, q, |q| - 1);
    }
  }

  /** The warning about unknown packages is given exactly when the root needs one. */
  lemma MissingWarning(g: Deps, pri: Priorities, root: string, circular: bool, missing: bool)
    requires Evaluated(g, pri, root, circular, missing)
    ensures missing <==> MissingFrom(g, root)
  {
    if !missing && MissingFrom(g, root) {
      var a, d :| Reaches(g, root, a) && d in g[a] && d !in g;
      NeededPackages(g, pri, root, circular, missing, a);
    }
  }

  /** A chain as long as the priority. */
  lemma {:induction false} LongChain(g: Deps, pri: Priorities, missing: bool, a: string) returns (p: seq<string>)
    requires Visiting(g, pri, [], false, missing) && Black(pri, a)
    ensures Chain(g, p) && p[0] == a && |p| == pri[a]
    decreases pri[a]
  {
    assert Exact(g, pri, a);
    if pri[a] == 1 {
      p := [a];
    } else {
      var d :| d in g[a] && d in g && d in pri && pri[d] == pri[a] - 1;
      var q := LongChain(g, pri, missing, d);
      ChainJoin(g, [a], q);
      p := [a] + q;
    }
  }

  /** Without a cycle the priority of a needed package is the length of its longest dependency chain. */
  lemma LongestPath(g: Deps, pri: Priorities, root: string, circular: bool, missing: bool, a: string)
    requires Evaluated(g, pri, root, circular, missing)
    requires !CycleFrom(g, root) && Reaches(g, root, a)
    ensures a in pri && Longest(g, a, pri[a])
  {
    var r :| ChainFrom(g, r, root, a);
    CircularWarning(g, pri, root, circular, missing);
    NeededPackages(g, pri, root, circular, missing, a);
    assert Black(pri, a);
    var q := LongChain(g, pri, missing, a);
    forall p | Chain(g, p) && p[0] == a
      ensures |p| <= pri[a]
    {
      ChainBlack(g, pri, circular, missing, p, |p| - 1);
    }
  }

  /** Priorities order the needed packages along every dependency. */
  ghost predicate Topological(g: Deps, pri: Priorities, root: string) {
    pri.Keys == g.Keys
    && forall a, d :: a in g && Reaches(g, root, a) && d in g[a] && d in g ==> pri[d] < pri[a]
  }

  /** The order by priority respects every dependency exactly when the root needs no cycle. */
  lemma TopologicalOrder(g: Deps, pri: Priorities, root: string, circular: bool, missing: bool)
    requires Evaluated(g, pri, root, circular, missing)
    ensures Topological(g, pri, root) <==> !CycleFrom(g, root)
  {
    CircularWarning(g, pri, root, circular, missing);
    if !circular {
      forall a, d | a in g && Reaches(g, root, a) && d in g[a] && d in g
        ensures pri[d] < pri[a]
      {
        NeededPackages(g, pri, root, circular, missing, a);
        assert Exact(g, pri, a);
      }
    } else if Topological(g, pri, root) {
      var a :| Reaches(g, root, a) && OnCycle(g, a);
      var q :| ChainFrom(g, q, a, a) && |q| > 1;
      FallingChain(g, pri, root, q, |q| - 1);
    }
  }

  lemma {:induction false} FallingChain(g: Deps, pri: Priorities, root: string, q: seq<string>, k: int)
    requires Topological(g, pri, root) && Chain(g, q) && Reaches(g, root, q[0]) && 0 <= k < |q|
    ensures Reaches(g, root, q[k]) && pri[q[k]] + k <= pri[q[0]]
  {
    if k > 0 {
      var j := k - 1;
      FallingChain(g, pri, root, q, j);
      assert q[k] in g[q[j]];
      var p :| ChainFrom(g, p, root, q[j]);
      ChainJoin(g, p, [q[k]]);
      assert ChainFrom(g, p + [q[k]], root, q[k]);
    }
  }

  // ----- the graph the program builds -----

  class PkgNode {
    const name: string
    var depend: seq<string>
    var priority: int

    constructor (name: string)
      ensures this.name == name && depend == [] && priority == -1
    {
      this.name := name;
      depend := [];
      priority := -1;
    }

    method AddDependency(dep: string)
      modifies this`depend
      ensures depend == old(depend) + [dep]
    {
      depend := depend + [dep];
    }
  }

  class Graph {
    var nodes: map<string, PkgNode>
    var circular: bool
    var missing: bool

    ghost predicate Valid()
      reads this`nodes
    {
      forall n :: n in nodes ==> nodes[n].name == n
    }

    ghost function Depends(): Deps
      reads this`nodes, nodes.Values`depend
    {
      map n | n in nodes :: nodes[n].depend
    }

    ghost function Priority(): Priorities
      reads this`nodes, nodes.Values`priority
    {
      map n | n in nodes :: nodes[n].priority
    }

    constructor ()
      ensures Valid() && nodes == map[] && !circular && !missing
    {
      nodes := map[];
      circular, missing := false, false;
    }

    method AddPkg(pkg: PkgNode)
      requires Valid()
      modifies this`nodes
      ensures Valid() && nodes == old(nodes)[pkg.name := pkg]
    {
      nodes := nodes[pkg.name := pkg];
    }

    method SetPriority(pkgname: string, priority: int)
      requires Valid() && pkgname in nodes
      modifies nodes.Values`priority
      ensures Depends() == old(Depends())
      ensures Priority() == old(Priority())[pkgname := priority]
      ensures nodes[pkgname].priority == priority
    {
      nodes[pkgname].priority := priority;
      assert forall n :: n in nodes && n != pkgname ==> nodes[n] != nodes[pkgname];
    }

    method GetPriority(pkgname: string, ghost stack: seq<string>) returns (r: int)
      requires Valid() && Visiting(Depends(), Priority(), stack, circular, missing)
      requires stack != [] && pkgname in Depends() ==> pkgname in Depends()[stack[|stack| - 1]]
      modifies this`circular, this`missing, nodes.Values`priority
      ensures Depends() == old(Depends())
      ensures Returned(Depends(), old(Priority()), Priority(), stack, pkgname, r,
                       old(circular), old(missing), circular, missing)
      decreases Whites(Priority()), 1
    {
      hide Visiting, Returned, Grown, Stage, Whites, Black;
      ghost var g, pri := Depends(), Priority();
      if pkgname !in nodes {
        missing := true;
        MissingRoot(g, pri, stack, circular, old(missing), pkgname);
        r := 0;
        return;
      }
      Range(g, pri, stack, circular, missing, pkgname);
      var node := nodes[pkgname];
      if node.priority == -2 {
        Circular(g, pri, stack, circular, missing, pkgname);
        circular := true;
        assert Priority() == pri && Depends() == g;
        SetPriority(pkgname, 0);
        r := node.priority;
        assert Returned(g, pri, Priority(), stack, pkgname, r, old(circular), old(missing), circular, missing);
      } else if node.priority == -1 {
        Enter(g, pri, stack, circular, missing, pkgname);
        SetPriority(pkgname, -2);
        var newPriority := HighestDependency(node, stack + [pkgname]);
        Finish(g, pri, Priority(), stack, pkgname, newPriority, old(circular), old(missing), circular, missing);
        SetPriority(pkgname, newPriority + 1);
        r := node.priority;
        assert Returned(g, pri, Priority(), stack, pkgname, r, old(circular), old(missing), circular, missing);
      } else {
        AlreadyKnown(g, pri, stack, circular, missing, pkgname);
        r := node.priority;
        assert Returned(g, pri, Priority(), stack, pkgname, r, old(circular), old(missing), circular, missing);
      }
    }

    /** The loop over the dependencies of a package that is being visited. */
    method HighestDependency(node: PkgNode, ghost stack: seq<string>) returns (newPriority: int)
      requires Valid() && Visiting(Depends(), Priority(), stack, circular, missing)
      requires node.name in nodes && nodes[node.name] == node
      requires stack != [] && stack[|stack| - 1] == node.name
      modifies this`circular, this`missing, nodes.Values`priority
      ensures Depends() == old(Depends())
      ensures Stage(Depends(), old(Priority()), Priority(), stack, node.name, node.depend, |node.depend|,
                    newPriority, old(circular), old(missing), circular, missing)
      decreases Whites(Priority()), 2
    {
      hide Visiting, Returned, Grown, Stage, Whites, Black;
      ghost var g, entered := Depends(), Priority();
      newPriority := 0;
      var i := 0;
      Begin(g, entered, stack, node.name, circular, missing);
      while i < |node.depend|
        invariant Depends() == g && 0 <= i <= |node.depend|
        invariant Stage(g, entered, Priority(), stack, node.name, node.depend, i, newPriority,
                        old(circular), old(missing), circular, missing)
      {
        ghost var before, circular0, missing0 := Priority(), circular, missing;
        StageWhites(g, entered, before, stack, node.name, node.depend, i, newPriority,
                    old(circular), old(missing), circular, missing);
        var p := GetPriority(node.depend[i], stack);
        NextStage(g, entered, before, Priority(), stack, node.name, node.depend, i, newPriority, p,
                  old(circular), old(missing), circular0, missing0, circular, missing);
        newPriority := if newPriority < p then p else newPriority;
        i := i + 1;
      }
    }

    /** The one evaluation the program starts, on a graph nothing was visited in. */
    method EvaluateRoot(root: string)
      requires Valid() && !circular && !missing
      requires forall n :: n in Priority() ==> White(Priority(), n)
      modifies this`circular, this`missing, nodes.Values`priority
      ensures Depends() == old(Depends())
      ensures Evaluated(Depends(), Priority(), root, circular, missing)
    {
      hide Visiting, Visited, Evaluated;
      ghost var g, pri := Depends(), Priority();
      NothingVisited(g, pri);
      var r := GetPriority(root, []);
      VisitedAll(g, pri, Priority(), root, circular, missing);
    }
  }
}
