/** Placing the packages on a page: one row a package, ordered by priority, and beside the rows an arrow
    for every package down to the last row that depends on it, in as few columns as possible. */
module PkgLayout {
  import opened PkgGraph

  // ----- how far down an arrow goes -----

  ghost predicate Distinct(names: seq<string>) {
    forall i, j :: 0 <= i < j < |names| ==> names[i] != names[j]
  }

  ghost predicate Needs(names: seq<string>, deps: seq<seq<string>>, j: int, k: int)
    requires |names| == |deps|
  {
    0 <= j < |names| && 0 <= k < |names| && names[k] in deps[j]
  }

  ghost predicate NeedsAmong(names: seq<string>, dep: seq<string>, d: int, k: int) {
    0 <= d <= |dep| && 0 <= k < |names| && names[k] in dep[..d]
  }

  /** `e' is the last row up to `i' that needs row `k', or row `k' itself; of row `i' only the first `d'
      dependencies count. */
  ghost predicate EndAt(names: seq<string>, deps: seq<seq<string>>, k: int, e: int, i: int, d: int)
    requires |names| == |deps|
  {
    && k <= e
    && (forall j :: k <= j < i && Needs(names, deps, j, k) ==> j <= e)
    && (i < |names| && i >= 0 && NeedsAmong(names, deps[i], d, k) ==> i <= e)
    && (e == k || (e < i && Needs(names, deps, e, k)) || (e == i && 0 <= i < |names| && NeedsAmong(names, deps[i], d, k)))
  }

  /** Every arrow ends at the last row that needs its package. */
  ghost predicate Measured(names: seq<string>, deps: seq<seq<string>>, ends: seq<int>) {
    && |names| == |deps| == |ends|
    && (forall k :: 0 <= k < |ends| ==> EndAt(names, deps, k, ends[k], |names|, 0))
  }

  lemma EndAtRow(names: seq<string>, deps: seq<seq<string>>, k: int, e: int, i: int)
    requires |names| == |deps| && 0 <= k <= i < |names|
    requires EndAt(names, deps, k, e, i, |deps[i]|)
    ensures EndAt(names, deps, k, e, i + 1, 0)
  {
    assert deps[i][..|deps[i]|] == deps[i];
  }

  lemma EndAtNext(names: seq<string>, deps: seq<seq<string>>, k: int, e: int, i: int, d: int)
    requires |names| == |deps| && 0 <= k <= i < |names| && 0 <= d < |deps[i]|
    requires EndAt(names, deps, k, e, i, d)
    ensures names[k] != deps[i][d] ==> EndAt(names, deps, k, e, i, d + 1)
    ensures names[k] == deps[i][d] ==> EndAt(names, deps, k, if e < i then i else e, i, d + 1)
  {
    assert deps[i][..d + 1] == deps[i][..d] + [deps[i][d]];
  }

  /** The arrows of the rows up to `i', of whose dependencies the first `d' are done. */
  ghost predicate MeasuredTo(names: seq<string>, deps: seq<seq<string>>, ends: seq<int>, i: int, d: int) {
    && |names| == |deps| && |ends| <= |names|
    && forall k :: 0 <= k < |ends| ==> EndAt(names, deps, k, ends[k], i, d)
  }

  /** Row `i' needs `dep'; when it is drawn, its arrow goes down to row `i'. */
  ghost predicate Noted(names: seq<string>, ends: seq<int>, ends': seq<int>, i: int, dep: string) {
    && |ends'| == |ends| == i + 1 <= |names|
    && forall k :: 0 <= k <= i ==> ends'[k] == if names[k] == dep && ends[k] < i then i else ends[k]
  }

  lemma NextNeed(names: seq<string>, deps: seq<seq<string>>, ends: seq<int>, ends': seq<int>, i: int, d: int)
    requires MeasuredTo(names, deps, ends, i, d)
    requires 0 <= i < |names| && 0 <= d < |deps[i]| && Noted(names, ends, ends', i, deps[i][d])
    ensures MeasuredTo(names, deps, ends', i, d + 1)
  {
    forall k | 0 <= k <= i
      ensures EndAt(names, deps, k, ends'[k], i, d + 1)
    {
      EndAtNext(names, deps, k, ends[k], i, d);
    }
  }

  lemma NewRow(names: seq<string>, deps: seq<seq<string>>, ends: seq<int>, i: int)
    requires MeasuredTo(names, deps, ends, i, 0) && |ends| == i < |names|
    ensures MeasuredTo(names, deps, ends + [i], i, 0)
  {
  }

  lemma RowDone(names: seq<string>, deps: seq<seq<string>>, ends: seq<int>, i: int)
    requires |names| == |deps| && 0 <= i < |names| && |ends| == i + 1
    requires MeasuredTo(names, deps, ends, i, |deps[i]|)
    ensures MeasuredTo(names, deps, ends, i + 1, 0)
  {
    forall k | 0 <= k <= i ensures EndAt(names, deps, k, ends[k], i + 1, 0) {
      EndAtRow(names, deps, k, ends[k], i);
    }
  }

  lemma AllDone(names: seq<string>, deps: seq<seq<string>>, ends: seq<int>)
    requires |ends| == |names| && MeasuredTo(names, deps, ends, |names|, 0)
    ensures Measured(names, deps, ends)
  {
  }

  // ----- columns -----

  /** No two arrows that meet are drawn in one column. */
  ghost predicate Proper(ends: seq<int>, cols: seq<nat>) {
    |cols| <= |ends| && forall i, j :: 0 <= i < j < |cols| && ends[i] >= j ==> cols[i] != cols[j]
  }

  ghost predicate Taken(ends: seq<int>, cols: seq<nat>, i: int, c: int) {
    exists j :: 0 <= j < i && j < |cols| && j < |ends| && cols[j] == c && ends[j] >= i
  }

  /** Every column left of the chosen one was taken. */
  ghost predicate Greedy(ends: seq<int>, cols: seq<nat>) {
    |cols| <= |ends| && forall i, c :: 0 <= i < |cols| && 0 <= c < cols[i] ==> Taken(ends, cols, i, c)
  }

  /** The arrows beside row `x'. */
  ghost function Beside(ends: seq<int>, x: int): set<int> {
    set i | 0 <= i < |ends| && i <= x <= ends[i]
  }

  lemma {:induction false} TakenBy(ends: seq<int>, cols: seq<nat>, i: int, h: nat) returns (s: set<int>)
    requires forall c :: 0 <= c < h ==> Taken(ends, cols, i, c)
    ensures |s| == h
    ensures forall j :: j in s ==> 0 <= j < i && j < |cols| && j < |ends| && cols[j] < h && ends[j] >= i
  {
    if h == 0 {
      s := {};
    } else {
      s := TakenBy(ends, cols, i, h - 1);
      assert Taken(ends, cols, i, h - 1);
      var j :| 0 <= j < i && j < |cols| && j < |ends| && cols[j] == h - 1 && ends[j] >= i;
      s := s + {j};
    }
  }

  lemma {:induction false} SubsetSize<T>(s: set<T>, t: set<T>)
    requires s <= t
    ensures |s| <= |t|
    decreases s
  {
    if s != {} {
      var x :| x in s;
      SubsetSize(s - {x}, t - {x});
    }
  }

  lemma {:induction false} Below(s: set<int>, n: nat)
    requires forall x :: x in s ==> 0 <= x < n
    ensures |s| <= n
  {
    if n == 0 {
      assert forall x :: x !in s;
    } else {
      Below(s - {n - 1}, n - 1);
      assert s == s - {n - 1} || s == (s - {n - 1}) + {n - 1};
    }
  }

  lemma NothingPlaced(ends: seq<int>)
    ensures Proper(ends, []) && Greedy(ends, [])
  {
  }

  lemma PlaceNext(ends: seq<int>, cols: seq<nat>, c: nat)
    requires Proper(ends, cols) && Greedy(ends, cols) && |cols| < |ends|
    requires !Taken(ends, cols, |cols|, c) && forall b :: 0 <= b < c ==> Taken(ends, cols, |cols|, b)
    ensures Proper(ends, cols + [c]) && Greedy(ends, cols + [c])
  {
    var cols' := cols + [c];
    forall i, b | 0 <= i < |cols'| && 0 <= b < cols'[i]
      ensures Taken(ends, cols', i, b)
    {
      assert Taken(ends, cols, i, b);
      var j :| 0 <= j < i && j < |cols| && j < |ends| && cols[j] == b && ends[j] >= i;
      assert cols'[j] == b;
    }
  }

  /** The search for a free column ends: no more columns are taken than there are rows above. */
  lemma TakenBound(ends: seq<int>, cols: seq<nat>, i: int, h: nat)
    requires 0 <= i && forall c :: 0 <= c < h ==> Taken(ends, cols, i, c)
    ensures h <= i
  {
    var s := TakenBy(ends, cols, i, h);
    Below(s, i);
  }

  /** Where an arrow was put in column c, at least c + 1 arrows meet. */
  lemma GreedyMeets(ends: seq<int>, cols: seq<nat>, i: int)
    requires Greedy(ends, cols) && 0 <= i < |cols| && i <= ends[i]
    ensures cols[i] < |Beside(ends, i)|
  {
    var s := TakenBy(ends, cols, i, cols[i]);
    SubsetSize(s + {i}, Beside(ends, i));
  }

  lemma {:induction false} InjectiveSize(s: set<int>, cols: seq<nat>, n: nat)
    requires forall i :: i in s ==> 0 <= i < |cols| && cols[i] < n
    requires forall i, j :: i in s && j in s && i != j ==> cols[i] != cols[j]
    ensures |s| <= n
    decreases n
  {
    if n == 0 {
      assert forall i :: i !in s;
    } else if i :| i in s && cols[i] == n - 1 {
      InjectiveSize(s - {i}, cols, n - 1);
    } else {
      InjectiveSize(s, cols, n - 1);
    }
  }

  /** As many columns are needed as arrows meet in one row. */
  lemma MeetingNeedsColumns(ends: seq<int>, cols: seq<nat>, x: int, n: nat)
    requires Proper(ends, cols) && |cols| == |ends|
    requires forall i :: 0 <= i < |cols| ==> cols[i] < n
    ensures |Beside(ends, x)| <= n
  {
    forall i, j | i in Beside(ends, x) && j in Beside(ends, x) && i < j
      ensures cols[i] != cols[j]
    {
    }
    InjectiveSize(Beside(ends, x), cols, n);
  }

  /** The greedy placement uses exactly as many columns as arrows meet in some row. */
  lemma ColumnsUsed(ends: seq<int>, cols: seq<nat>, n: nat)
    requires Greedy(ends, cols) && Proper(ends, cols) && |cols| == |ends|
    requires forall i :: 0 <= i < |ends| ==> i <= ends[i]
    requires forall i :: 0 <= i < |cols| ==> cols[i] < n
    requires n > 0 ==> exists i :: 0 <= i < |cols| && cols[i] == n - 1
    ensures forall x :: |Beside(ends, x)| <= n
    ensures n > 0 ==> exists x :: |Beside(ends, x)| == n
  {
    forall x ensures |Beside(ends, x)| <= n {
      MeetingNeedsColumns(ends, cols, x, n);
    }
    if n > 0 {
      var i :| 0 <= i < |cols| && cols[i] == n - 1;
      GreedyMeets(ends, cols, i);
      assert |Beside(ends, i)| == n;
    }
  }

  /** A placement in the columns 0 to n - 1 that keeps arrows that meet apart. */
  ghost predicate Placement(ends: seq<int>, cols: seq<nat>, n: nat) {
    |cols| == |ends| && Proper(ends, cols) && forall i :: 0 <= i < |cols| ==> cols[i] < n
  }

  /** No other placement needs fewer columns. */
  lemma GreedyOptimal(ends: seq<int>, cols: seq<nat>, other: seq<nat>, n: nat)
    requires Greedy(ends, cols) && Proper(ends, cols) && |cols| == |ends|
    requires forall i :: 0 <= i < |ends| ==> i <= ends[i]
    requires Placement(ends, other, n)
    ensures Placement(ends, cols, n)
  {
    forall i | 0 <= i < |cols|
      ensures cols[i] < n
    {
      GreedyMeets(ends, cols, i);
      MeetingNeedsColumns(ends, other, i, n);
    }
  }

  // ----- rows and dependencies -----

  /** The rows: the packages with a priority, each once, lower priorities first. */
  ghost predicate Rows(g: Deps, pri: Priorities, names: seq<string>, deps: seq<seq<string>>) {
    && |names| == |deps| && Distinct(names) && pri.Keys == g.Keys
    && (forall k :: 0 <= k < |names| ==> names[k] in g && deps[k] == g[names[k]])
    && (forall a :: a in g ==> (pri[a] >= 0 <==> a in names))
    && (forall j, k :: 0 <= j < k < |names| ==> pri[names[j]] <= pri[names[k]])
  }

  /** Every arrow runs strictly downwards, and past every row that needs its package. */
  ghost predicate AllCovered(names: seq<string>, deps: seq<seq<string>>, ends: seq<int>)
    requires |names| == |deps| == |ends|
  {
    forall j, k :: Needs(names, deps, j, k) ==> k < j <= ends[k]
  }

  lemma {:induction false} FallingRows(g: Deps, pri: Priorities, root: string, circular: bool, missing: bool,
                                       names: seq<string>, deps: seq<seq<string>>, ends: seq<int>,
                                       q: seq<string>, l: int) returns (i: int, j: int)
    requires Evaluated(g, pri, root, circular, missing) && Rows(g, pri, names, deps) && |ends| == |names|
    requires AllCovered(names, deps, ends)
    requires Chain(g, q) && Reaches(g, root, q[0]) && 0 <= l < |q|
    ensures 0 <= j <= i < |names| && names[i] == q[0] && names[j] == q[l]
    ensures l > 0 ==> j < i
  {
    if l == 0 {
      NeededPackages(g, pri, root, circular, missing, q[0]);
      i :| 0 <= i < |names| && names[i] == q[0];
      j := i;
    } else {
      var m := l - 1;
      i, j := FallingRows(g, pri, root, circular, missing, names, deps, ends, q, m);
      assert q[l] in g[q[m]];
      var p :| ChainFrom(g, p, root, q[0]);
      NeededPackages(g, pri, root, circular, missing, q[0]);
      ChainBlack(g, pri, circular, missing, q, l);
      assert q[l] in names;
      var k :| 0 <= k < |names| && names[k] == q[l];
      assert Needs(names, deps, j, k);
      j := k;
    }
  }

  lemma CoveredWithoutCycle(g: Deps, pri: Priorities, root: string, circular: bool, missing: bool,
                            names: seq<string>, deps: seq<seq<string>>, ends: seq<int>)
    requires Evaluated(g, pri, root, circular, missing) && Rows(g, pri, names, deps)
    requires Measured(names, deps, ends) && !CycleFrom(g, root)
    ensures AllCovered(names, deps, ends)
  {
    hide CycleFrom, Evaluated;
    TopologicalOrder(g, pri, root, circular, missing);
    forall j, k | Needs(names, deps, j, k)
      ensures k < j <= ends[k]
    {
      NeededPackages(g, pri, root, circular, missing, names[j]);
      assert pri[names[k]] < pri[names[j]];
      assert EndAt(names, deps, k, ends[k], |names|, 0);
    }
  }

  lemma NotCoveredInCycle(g: Deps, pri: Priorities, root: string, circular: bool, missing: bool,
                          names: seq<string>, deps: seq<seq<string>>, ends: seq<int>)
    requires Evaluated(g, pri, root, circular, missing) && Rows(g, pri, names, deps)
    requires |ends| == |names| && CycleFrom(g, root)
    ensures !AllCovered(names, deps, ends)
  {
    hide Evaluated;
    if AllCovered(names, deps, ends) {
      var a :| Reaches(g, root, a) && OnCycle(g, a);
      var q :| ChainFrom(g, q, a, a) && |q| > 1;
      var i, j := FallingRows(g, pri, root, circular, missing, names, deps, ends, q, |q| - 1);
      assert false;
    }
  }

  /** Every arrow runs down past all the rows that need it exactly when the root needs no cycle. */
  lemma ArrowsCoverDependents(g: Deps, pri: Priorities, root: string, circular: bool, missing: bool,
                              names: seq<string>, deps: seq<seq<string>>, ends: seq<int>)
    requires Evaluated(g, pri, root, circular, missing) && Rows(g, pri, names, deps)
    requires Measured(names, deps, ends)
    ensures AllCovered(names, deps, ends) <==> !CycleFrom(g, root)
  {
    if CycleFrom(g, root) {
      NotCoveredInCycle(g, pri, root, circular, missing, names, deps, ends);
    } else {
      CoveredWithoutCycle(g, pri, root, circular, missing, names, deps, ends);
    }
  }

  // ----- the program -----

  class DownArrow {
    var start: int
    var end: int
    var hPos: nat

    constructor (row: int)
      ensures start == row && end == row
    {
      start, end := row, row;
    }

    method SetNeed(row: int)
      modifies this`end
      ensures end == if old(end) < row then row else old(end)
    {
      end := if end < row then row else end;
    }

    predicate Compatible(a: DownArrow)
      reads this, a
    {
      a.start > end || a.end < start
    }
  }

  ghost predicate BesideRow(a: DownArrow, x: int)
    reads a
  {
    a.start <= x <= a.end
  }

  /** Two arrows can share a column exactly when no row is beside both. */
  lemma CompatibleArrows(a: DownArrow, b: DownArrow)
    requires a.start <= a.end && b.start <= b.end
    ensures a.Compatible(b) <==> !exists x :: BesideRow(a, x) && BesideRow(b, x)
  {
    if !a.Compatible(b) {
      var x := if a.start < b.start then b.start else a.start;
      assert BesideRow(a, x) && BesideRow(b, x);
    }
  }

  ghost predicate RowsOf(nodes: seq<PkgNode>, names: seq<string>, deps: seq<seq<string>>)
    reads nodes
  {
    && |nodes| == |names| == |deps| && Distinct(names)
    && forall k :: 0 <= k < |nodes| ==> nodes[k].name == names[k] && nodes[k].depend == deps[k]
  }

  class Layout {
    var downArrows: map<string, DownArrow>
    /** The arrow of every row drawn so far. */
    ghost var rows: seq<DownArrow>

    constructor ()
      ensures downArrows == map[] && rows == []
    {
      downArrows := map[];
      rows := [];
    }

    ghost predicate Indexed(names: seq<string>)
      reads this
    {
      && |rows| <= |names|
      && (forall k :: 0 <= k < |rows| ==> names[k] in downArrows && downArrows[names[k]] == rows[k])
      && (forall a :: a in downArrows ==> exists k :: 0 <= k < |rows| && names[k] == a)
      && (forall j, k :: 0 <= j < k < |rows| ==> rows[j] != rows[k])
    }

    /** The arrow of row k starts there and ends at ends[k]. */
    ghost predicate Reach(ends: seq<int>)
      reads this, rows
    {
      |ends| == |rows| && forall k :: 0 <= k < |rows| ==> rows[k].start == k && rows[k].end == ends[k]
    }

    ghost predicate Columns(cols: seq<nat>)
      reads this, rows
    {
      |cols| <= |rows| && forall k :: 0 <= k < |cols| ==> rows[k].hPos == cols[k]
    }

    method Measure(nodes: seq<PkgNode>, ghost names: seq<string>, ghost deps: seq<seq<string>>)
      returns (ghost ends: seq<int>)
      requires RowsOf(nodes, names, deps) && downArrows == map[] && rows == []
      modifies this
      ensures Indexed(names) && Reach(ends) && Measured(names, deps, ends)
      ensures forall k :: 0 <= k < |rows| ==> fresh(rows[k])
    {
      hide Indexed, Reach, MeasuredTo, EndAt;
      NothingDrawn(names, deps);
      ends := [];
      var i := 0;
      while i < |nodes|
        invariant 0 <= i <= |nodes| && |rows| == |ends| == i
        invariant RowsOf(nodes, names, deps) && Indexed(names) && Reach(ends)
        invariant forall k :: 0 <= k < |rows| ==> fresh(rows[k])
        invariant MeasuredTo(names, deps, ends, i, 0)
      {
        Draw(nodes[i].name, i, names, ends);
        NewRow(names, deps, ends, i);
        ends := MeasureRow(nodes[i], i, nodes, names, deps, ends + [i]);
        RowDone(names, deps, ends, i);
        i := i + 1;
      }
      AllDone(names, deps, ends);
    }

    lemma NothingDrawn(names: seq<string>, deps: seq<seq<string>>)
      requires downArrows == map[] && rows == [] && |names| == |deps|
      ensures Indexed(names) && Reach([]) && MeasuredTo(names, deps, [], 0, 0)
    {
    }

    method Draw(name: string, i: int, ghost names: seq<string>, ghost ends: seq<int>)
      requires Distinct(names) && Indexed(names) && Reach(ends)
      requires i == |rows| < |names| && names[i] == name
      modifies this
      ensures Indexed(names) && Reach(ends + [i])
      ensures |rows| == i + 1 && fresh(rows[i]) && rows[..i] == old(rows)
    {
      ghost var was := rows;
      var arrow := new DownArrow(i);
      downArrows := downArrows[name := arrow];
      rows := rows + [arrow];
      assert forall k :: 0 <= k < i ==> names[k] != name;
      forall k | 0 <= k <= i
        ensures rows[k].start == k && rows[k].end == (ends + [i])[k]
      {
        if k < i { assert rows[k] == was[k] && was[k].start == k && was[k].end == ends[k]; }
      }
      assert rows[..i] == was;
      assert rows[i] == arrow && downArrows[name] == arrow;
      forall a | a in downArrows
        ensures exists k :: 0 <= k <= i && names[k] == a
      {
        if a == name { assert names[i] == a; }
      }
    }

    /** The rows the package in row `i' depends on are needed there. */
    method MeasureRow(current: PkgNode, i: int, ghost nodes: seq<PkgNode>,
                      ghost names: seq<string>, ghost deps: seq<seq<string>>, ghost ends0: seq<int>)
      returns (ghost ends: seq<int>)
      requires RowsOf(nodes, names, deps) && Indexed(names) && Reach(ends0)
      requires 0 <= i < |nodes| && nodes[i] == current && |rows| == i + 1
      requires |ends0| == i + 1 && MeasuredTo(names, deps, ends0, i, 0)
      modifies rows
      ensures Indexed(names) && Reach(ends)
      ensures |ends| == i + 1 && MeasuredTo(names, deps, ends, i, |deps[i]|)
    {
      hide MeasuredTo, Indexed, Reach;
      ends := ends0;
      var d := 0;
      while d < |current.depend|
        invariant 0 <= d <= |current.depend| && |ends| == i + 1
        invariant RowsOf(nodes, names, deps) && Indexed(names) && Reach(ends)
        invariant MeasuredTo(names, deps, ends, i, d)
      {
        ghost var before := ends;
        ends := Need(current.depend[d], i, names, ends);
        NextNeed(names, deps, before, ends, i, d);
        d := d + 1;
      }
    }

    method Need(depOn: string, i: int, ghost names: seq<string>, ghost ends0: seq<int>) returns (ghost ends: seq<int>)
      requires Distinct(names) && Indexed(names) && Reach(ends0) && |rows| == i + 1 <= |names|
      modifies rows
      ensures Indexed(names) && Reach(ends)
      ensures Noted(names, ends0, ends, i, depOn)
    {
      ends := ends0;
      if depOn in downArrows {
        ghost var k :| 0 <= k < |rows| && names[k] == depOn;
        downArrows[depOn].SetNeed(i);
        ends := ends[k := if ends[k] < i then i else ends[k]];
      }
    }

    /** The lowest column in which an arrow meets none of the arrows above it. */
    method Arrange(nodes: seq<PkgNode>, ghost names: seq<string>, ghost deps: seq<seq<string>>, ghost ends: seq<int>)
      returns (ghost cols: seq<nat>)
      requires RowsOf(nodes, names, deps) && Indexed(names) && Reach(ends) && |rows| == |ends| == |names|
      requires forall k :: 0 <= k < |ends| ==> k <= ends[k]
      modifies rows
      ensures |cols| == |ends| && Indexed(names) && Reach(ends) && Columns(cols)
      ensures Proper(ends, cols) && Greedy(ends, cols)
    {
      hide Proper, Greedy, Taken, Indexed, Reach, Columns;
      cols := [];
      NothingPlaced(ends);
      NoColumn();
      var i := 0;
      while i < |nodes|
        invariant 0 <= i <= |nodes| && |cols| == i
        invariant RowsOf(nodes, names, deps) && Indexed(names) && Reach(ends) && Columns(cols)
        invariant Proper(ends, cols) && Greedy(ends, cols)
      {
        var hPos := FreeColumn(nodes, i, names, deps, ends, cols);
        Place(nodes[i].name, hPos, i, names, ends, cols);
        PlaceNext(ends, cols, hPos);
        cols := cols + [hPos];
        i := i + 1;
      }
    }

    lemma NoColumn()
      ensures Columns([])
    {
    }

    method Place(name: string, hPos: nat, i: int, ghost names: seq<string>, ghost ends: seq<int>, ghost cols: seq<nat>)
      requires Indexed(names) && Reach(ends) && Columns(cols)
      requires 0 <= i < |rows| && |cols| == i && names[i] == name
      modifies rows
      ensures Indexed(names) && Reach(ends) && Columns(cols + [hPos])
    {
      assert downArrows[name] == rows[i];
      downArrows[name].hPos := hPos;
    }

    /** The search for the column of the arrow of row `i'. */
    method FreeColumn(nodes: seq<PkgNode>, i: int, ghost names: seq<string>, ghost deps: seq<seq<string>>,
                      ghost ends: seq<int>, ghost cols: seq<nat>) returns (hPos: nat)
      requires RowsOf(nodes, names, deps) && Indexed(names) && Reach(ends) && |rows| == |names|
      requires forall k :: 0 <= k < |ends| ==> k <= ends[k]
      requires 0 <= i < |nodes| && |cols| == i && Columns(cols)
      ensures !Taken(ends, cols, i, hPos) && forall c :: 0 <= c < hPos ==> Taken(ends, cols, i, c)
    {
      var cur := downArrows[nodes[i].name];
      hPos := 0;
      var posFound := false;
      while !posFound
        invariant forall c :: 0 <= c < hPos ==> Taken(ends, cols, i, c)
        invariant posFound ==> !Taken(ends, cols, i, hPos)
        decreases i - hPos, !posFound
      {
        posFound := true;
        var j := 0;
        while j < i
          invariant 0 <= j <= i
          invariant posFound ==> forall l :: 0 <= l < j ==> !(cols[l] == hPos && ends[l] >= i)
          invariant !posFound ==> Taken(ends, cols, i, hPos)
        {
          var above := downArrows[nodes[j].name];
          if above.hPos == hPos && !above.Compatible(cur) {
            posFound := false;
          }
          j := j + 1;
        }
        if !posFound {
          hPos := hPos + 1;
          TakenBound(ends, cols, i, hPos);
        }
      }
    }

    /** The whole layout of the rows. */
    method LayOut(nodes: seq<PkgNode>, ghost names: seq<string>, ghost deps: seq<seq<string>>)
      returns (ghost ends: seq<int>, ghost cols: seq<nat>)
      requires RowsOf(nodes, names, deps) && downArrows == map[] && rows == []
      modifies this
      ensures Indexed(names) && |rows| == |names| && Reach(ends) && Columns(cols)
      ensures Measured(names, deps, ends)
      ensures |cols| == |ends| && Proper(ends, cols) && Greedy(ends, cols)
      ensures forall other, n: nat :: Placement(ends, other, n) ==> Placement(ends, cols, n)
    {
      ends := Measure(nodes, names, deps);
      hide Proper, Greedy, Placement, Indexed, Columns;
      cols := Arrange(nodes, names, deps, ends);
      forall other, n: nat | Placement(ends, other, n)
        ensures Placement(ends, cols, n)
      {
        GreedyOptimal(ends, cols, other, n);
      }
    }
  }

  // ----- from the graph to the page -----

  /** Each package once, from the graph, with a priority. */
  ghost predicate Gathered(graph: Graph, nodes: seq<PkgNode>)
    reads graph, graph.nodes.Values
  {
    && (forall i, j :: 0 <= i < j < |nodes| ==> nodes[i] != nodes[j])
    && (forall i :: 0 <= i < |nodes| ==>
         nodes[i].name in graph.nodes && graph.nodes[nodes[i].name] == nodes[i] && nodes[i].priority >= 0)
  }

  ghost predicate InOrder(nodes: seq<PkgNode>)
    reads nodes
  {
    forall i, j :: 0 <= i < j < |nodes| ==> nodes[i].priority <= nodes[j].priority
  }

  /** The packages with a priority; a map gives them in any order. */
  method Collect(graph: Graph) returns (needed: seq<PkgNode>)
    requires graph.Valid()
    ensures Gathered(graph, needed)
    ensures forall a :: a in graph.nodes && graph.nodes[a].priority >= 0 ==> graph.nodes[a] in needed
  {
    needed := [];
    var left := graph.nodes.Keys;
    while left != {}
      invariant left <= graph.nodes.Keys && Gathered(graph, needed)
      invariant forall i :: 0 <= i < |needed| ==> needed[i].name !in left
      invariant forall a :: a in graph.nodes && a !in left && graph.nodes[a].priority >= 0 ==> graph.nodes[a] in needed
      decreases left
    {
      var a :| a in left;
      left := left - {a};
      if graph.nodes[a].priority >= 0 { needed := needed + [graph.nodes[a]]; }
    }
  }

  /** Any sort by priority will do. */
  method SortByPriority(graph: Graph, nodes: seq<PkgNode>) returns (sorted: seq<PkgNode>)
    requires Gathered(graph, nodes)
    ensures Gathered(graph, sorted) && InOrder(sorted)
    ensures forall x :: x in sorted <==> x in nodes
  {
    sorted := [];
    var i := 0;
    while i < |nodes|
      invariant 0 <= i <= |nodes| && Gathered(graph, sorted) && InOrder(sorted)
      invariant forall x :: x in sorted <==> x in nodes[..i]
    {
      sorted := Insert(graph, sorted, nodes[i]);
      assert nodes[..i + 1] == nodes[..i] + [nodes[i]];
      i := i + 1;
    }
    assert nodes[..i] == nodes;
  }

  lemma InsertedInOrder(nodes: seq<PkgNode>, x: PkgNode, k: nat)
    requires k <= |nodes| && InOrder(nodes) && (k > 0 ==> nodes[k - 1].priority <= x.priority)
    requires forall j :: k <= j < |nodes| ==> nodes[j].priority > x.priority
    ensures InOrder(nodes[..k] + [x] + nodes[k..])
  {
    var r := nodes[..k] + [x] + nodes[k..];
    forall i, j | 0 <= i < j < |r| ensures r[i].priority <= r[j].priority {
      assert r[i] == if i < k then nodes[i] else if i == k then x else nodes[i - 1];
      assert r[j] == if j < k then nodes[j] else if j == k then x else nodes[j - 1];
    }
  }

  lemma InsertedGathered(graph: Graph, nodes: seq<PkgNode>, x: PkgNode, k: nat)
    requires k <= |nodes| && Gathered(graph, nodes) && x !in nodes
    requires x.name in graph.nodes && graph.nodes[x.name] == x && x.priority >= 0
    ensures Gathered(graph, nodes[..k] + [x] + nodes[k..])
  {
    var r := nodes[..k] + [x] + nodes[k..];
    assert forall i :: 0 <= i < |r| ==> r[i] == if i < k then nodes[i] else if i == k then x else nodes[i - 1];
  }

  lemma InsertedMembers<T>(nodes: seq<T>, x: T, k: nat)
    requires k <= |nodes|
    ensures forall y :: y in nodes[..k] + [x] + nodes[k..] <==> y in nodes || y == x
  {
    assert nodes == nodes[..k] + nodes[k..];
  }

  method Insert(graph: Graph, nodes: seq<PkgNode>, x: PkgNode) returns (r: seq<PkgNode>)
    requires Gathered(graph, nodes) && InOrder(nodes) && x !in nodes
    requires x.name in graph.nodes && graph.nodes[x.name] == x && x.priority >= 0
    ensures Gathered(graph, r) && InOrder(r)
    ensures forall y :: y in r <==> y in nodes || y == x
  {
    hide Gathered, InOrder;
    var k := |nodes|;
    while k > 0 && nodes[k - 1].priority > x.priority
      invariant 0 <= k <= |nodes|
      invariant forall j :: k <= j < |nodes| ==> nodes[j].priority > x.priority
    {
      k := k - 1;
    }
    r := nodes[..k] + [x] + nodes[k..];
    InsertedInOrder(nodes, x, k);
    InsertedGathered(graph, nodes, x, k);
    InsertedMembers(nodes, x, k);
  }

  ghost function NamesOf(nodes: seq<PkgNode>): (r: seq<string>)
    ensures |r| == |nodes| && forall k :: 0 <= k < |nodes| ==> r[k] == nodes[k].name
  {
    if nodes == [] then [] else [nodes[0].name] + NamesOf(nodes[1..])
  }

  ghost function DependsOf(nodes: seq<PkgNode>): (r: seq<seq<string>>)
    reads nodes
    ensures |r| == |nodes| && forall k :: 0 <= k < |nodes| ==> r[k] == nodes[k].depend
  {
    if nodes == [] then [] else [nodes[0].depend] + DependsOf(nodes[1..])
  }

  lemma GatheredRows(graph: Graph, nodes: seq<PkgNode>)
    requires graph.Valid() && Gathered(graph, nodes) && InOrder(nodes)
    requires forall a :: a in graph.nodes && graph.nodes[a].priority >= 0 ==> graph.nodes[a] in nodes
    ensures RowsOf(nodes, NamesOf(nodes), DependsOf(nodes))
    ensures Rows(graph.Depends(), graph.Priority(), NamesOf(nodes), DependsOf(nodes))
  {
    var names := NamesOf(nodes);
    forall i, j | 0 <= i < j < |names| ensures names[i] != names[j] {
      assert nodes[i] != nodes[j];
    }
    forall a | a in graph.nodes ensures graph.nodes[a].priority >= 0 <==> a in names {
      if graph.nodes[a].priority >= 0 {
        var k :| 0 <= k < |nodes| && nodes[k] == graph.nodes[a];
        assert names[k] == a;
      }
    }
  }

  /** The rows of the page. */
  method BuildRows(graph: Graph) returns (needed: seq<PkgNode>)
    requires graph.Valid()
    ensures RowsOf(needed, NamesOf(needed), DependsOf(needed))
    ensures Rows(graph.Depends(), graph.Priority(), NamesOf(needed), DependsOf(needed))
  {
    needed := Collect(graph);
    needed := SortByPriority(graph, needed);
    GatheredRows(graph, needed);
  }

  /** The program after the evaluation of the root: the rows are the packages the root needs, in order of
      priority; the arrows take as few columns as any placement can, and every arrow passes all the rows
      that need its package exactly when the root needs no cycle. */
  method PrintGraph(graph: Graph, ghost root: string)
    returns (needed: seq<PkgNode>, layout: Layout, ghost ends: seq<int>, ghost cols: seq<nat>)
    requires graph.Valid() && Evaluated(graph.Depends(), graph.Priority(), root, graph.circular, graph.missing)
    ensures fresh(layout) && layout.Indexed(NamesOf(needed)) && layout.Reach(ends) && layout.Columns(cols)
    ensures Rows(graph.Depends(), graph.Priority(), NamesOf(needed), DependsOf(needed))
    ensures Measured(NamesOf(needed), DependsOf(needed), ends)
    ensures |cols| == |ends| && Proper(ends, cols)
    ensures forall other, n: nat :: Placement(ends, other, n) ==> Placement(ends, cols, n)
    ensures AllCovered(NamesOf(needed), DependsOf(needed), ends) <==> !CycleFrom(graph.Depends(), root)
  {
    hide *;
    needed := BuildRows(graph);
    ghost var g, pri := graph.Depends(), graph.Priority();
    ghost var names, deps := NamesOf(needed), DependsOf(needed);
    layout := new Layout();
    ends, cols := layout.LayOut(needed, names, deps);
    assert graph.Depends() == g && graph.Priority() == pri && DependsOf(needed) == deps;
    ArrowsCoverDependents(g, pri, root, graph.circular, graph.missing, names, deps, ends);
  }

  // ----- two packages that need each other -----

  lemma PairOnCycle(g: Deps, a: string, b: string)
    requires a != b && g == map[a := [b], b := [a]]
    ensures CycleFrom(g, a)
  {
    ReachesSelf(g, a);
    assert ChainFrom(g, [a, b, a], a, a);
  }

  /** Whatever priorities the evaluation gives, whatever rows are made of them, some arrow misses a row. */
  lemma PairNotCovered(g: Deps, a: string, b: string, pri: Priorities, circular: bool, missing: bool,
                       names: seq<string>, deps: seq<seq<string>>, ends: seq<int>)
    requires a != b && g == map[a := [b], b := [a]] && Evaluated(g, pri, a, circular, missing)
    requires Rows(g, pri, names, deps) && Measured(names, deps, ends)
    ensures circular && !AllCovered(names, deps, ends)
  {
    PairOnCycle(g, a, b);
    CircularWarning(g, pri, a, circular, missing);
    ArrowsCoverDependents(g, pri, a, circular, missing, names, deps, ends);
  }

  method BuildPair(a: string, b: string) returns (graph: Graph)
    requires a != b
    ensures fresh(graph) && fresh(graph.nodes.Values) && graph.Valid() && !graph.circular && !graph.missing
    ensures graph.Depends() == map[a := [b], b := [a]]
    ensures forall n :: n in graph.Priority() ==> White(graph.Priority(), n)
  {
    var first := new PkgNode(a);
    first.AddDependency(b);
    var second := new PkgNode(b);
    second.AddDependency(a);
    graph := new Graph();
    graph.AddPkg(first);
    graph.AddPkg(second);
    assert graph.nodes == map[a := first, b := second];
    assert first.depend == [b] && second.depend == [a];
  }

  /** The graph of the two, built, evaluated and printed. */
  method PrintPair(a: string, b: string) returns (graph: Graph, needed: seq<PkgNode>, layout: Layout, ghost ends: seq<int>)
    requires a != b
    ensures graph.Valid() && graph.Depends() == map[a := [b], b := [a]] && graph.circular
    ensures Measured(NamesOf(needed), DependsOf(needed), ends) && !AllCovered(NamesOf(needed), DependsOf(needed), ends)
  {
    hide *;
    graph := BuildPair(a, b);
    graph.EvaluateRoot(a);
    ghost var g, pri := graph.Depends(), graph.Priority();
    ghost var cols;
    needed, layout, ends, cols := PrintGraph(graph, a);
    assert graph.Depends() == g && graph.Priority() == pri;
    PairNotCovered(g, a, b, pri, graph.circular, graph.missing, NamesOf(needed), DependsOf(needed), ends);
  }
}
