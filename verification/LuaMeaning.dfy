/** What the machine returns for each operator, said without the functions the machine and the evaluation
    of expressions share. */
module LuaMeaning {
  import opened LuaVm
  import opened LuaCode
  import opened LuaReturn
  import opened LuaText
  import opened LuaLoss
  import opened LuaError

  predicate IsFalse(v: Value) { v == Nil || v == Bool(false) }

  predicate Numbers(x: Value, y: Value) { x.Num? && y.Num? }

  predicate IsOrder(op: BinOp) { op.LtOp? || op.LeOp? || op.GtOp? || op.GeOp? }

  /** How a run may end that applies a binary operator to `a' and `b'. */
  ghost predicate BinaryEnds(m: Machine, op: BinOp, a: Value, b: Value, o: Config) {
    match op
    case ArithBin(aop) => o == if Numbers(a, b) then Returned([Num(m.arith(aop, a.n, b.n))]) else Error
    case EqOp => o == Returned([Bool(a == b)])
    case NeOp => o == Returned([Bool(!(a == b))])
    case LtOp => o == if Numbers(a, b) then Returned([Bool(a.n < b.n)]) else Error
    case LeOp => o == if Numbers(a, b) then Returned([Bool(a.n < b.n || a.n == b.n)]) else Error
    case GtOp => o == if Numbers(a, b) then Returned([Bool(a.n > b.n)]) else Error
    case GeOp => o == if Numbers(a, b) then Returned([Bool(a.n > b.n || a.n == b.n)]) else Error
    case AndOp => o == Returned([if IsFalse(a) then a else b])
    case OrOp => o == Returned([if IsFalse(a) then b else a])
  }

  function ReturnOf(m: Machine, n: nat, e: Expr): Proto {
    Finished(ReturnExpr(m, NewFunction(n), e).0)
  }

  /** The function can be run: it has the locals of the expression, exceeds no limit and uses no wrong value. */
  ghost predicate Runs(m: Machine, n: nat, e: Expr, regs: Regs) {
    && LocalsIn(e, n) && TextOk(m, e) && !ReturnExpr(m, NewFunction(n), e).0.failed
    && forall x :: x >= n ==> Read(regs, x) == Nil
  }

  /** A run of the finished function comes to its end, and how. */
  lemma RunEnds(m: Machine, n: nat, e: Expr, regs: Regs) returns (steps: nat)
    requires Runs(m, n, e, regs)
    ensures var v := Eval(m, e, regs); Run(m, ReturnOf(m, n, e), At(0, regs), steps) == if v.Ok? then Returned([v.v]) else Error
  {
    hide ReturnExpr, Eval, TextOk, Run, Finished, LocalsIn;
    var v := Eval(m, e, regs);
    if v.Ok? {
      var last;
      steps, last := TextReturnCorrect(m, n, e, regs, v.v);
      steps := steps + 1;
    } else {
      steps := ErrorCorrect(m, n, e, regs);
    }
  }

  /** `return l op r' applies the operator to the values of the operands. */
  lemma ReturnBinary(m: Machine, n: nat, op: BinOp, l: Expr, r: Expr, regs: Regs, a: Value, b: Value) returns (steps: nat)
    requires Runs(m, n, EBin(op, l, r), regs) && Eval(m, l, regs) == Ok(a) && Eval(m, r, regs) == Ok(b)
    ensures BinaryEnds(m, op, a, b, Run(m, ReturnOf(m, n, EBin(op, l, r)), At(0, regs), steps))
  {
    hide ReturnOf, Run, Runs;
    steps := RunEnds(m, n, EBin(op, l, r), regs);
  }

  /** `and' and `or' do not evaluate the second operand when the first one decides. */
  lemma ReturnShort(m: Machine, n: nat, op: BinOp, l: Expr, r: Expr, regs: Regs, a: Value) returns (steps: nat)
    requires Runs(m, n, EBin(op, l, r), regs) && Eval(m, l, regs) == Ok(a)
    requires (op.AndOp? && IsFalse(a)) || (op.OrOp? && !IsFalse(a))
    ensures Run(m, ReturnOf(m, n, EBin(op, l, r)), At(0, regs), steps) == Returned([a])
  {
    hide ReturnOf, Run, Runs;
    steps := RunEnds(m, n, EBin(op, l, r), regs);
  }

  /** An operand without a value stops the run, unless it is not needed. */
  lemma ReturnStopped(m: Machine, n: nat, op: BinOp, l: Expr, r: Expr, regs: Regs) returns (steps: nat)
    requires Runs(m, n, EBin(op, l, r), regs)
    requires Eval(m, l, regs).Err? || (Eval(m, r, regs).Err? && !(op.AndOp? && IsFalse(Eval(m, l, regs).v)) && !(op.OrOp? && !IsFalse(Eval(m, l, regs).v)))
    ensures Run(m, ReturnOf(m, n, EBin(op, l, r)), At(0, regs), steps) == Error
  {
    hide ReturnOf, Run, Runs;
    steps := RunEnds(m, n, EBin(op, l, r), regs);
  }

  lemma ReturnUnary(m: Machine, n: nat, op: UnOp, e: Expr, regs: Regs, a: Value) returns (steps: nat)
    requires Runs(m, n, EUn(op, e), regs) && Eval(m, e, regs) == Ok(a)
    ensures var o := Run(m, ReturnOf(m, n, EUn(op, e)), At(0, regs), steps);
      match op
      case NotOp => o == Returned([Bool(IsFalse(a))])
      case Minus => o == if a.Num? then Returned([Num(0 - a.n)]) else Error
  {
    hide ReturnOf, Run, Runs;
    steps := RunEnds(m, n, EUn(op, e), regs);
  }

  /** A literal stands for its value, a local for what its register holds, and parentheses for what is in them. */
  lemma ReturnLeaf(m: Machine, n: nat, e: Expr, regs: Regs) returns (steps: nat)
    requires Runs(m, n, e, regs)
    ensures var o := Run(m, ReturnOf(m, n, e), At(0, regs), steps);
      match e
      case ENil => o == Returned([Nil])
      case ETrue => o == Returned([Bool(true)])
      case EFalse => o == Returned([Bool(false)])
      case ENum(x) => o == Returned([Num(x)])
      case ELocal(x) => o == Returned([if x in regs then regs[x] else Nil])
      case EParen(e1) => Eval(m, e1, regs).Ok? ==> o == Returned([Eval(m, e1, regs).v])
      case _ => true
  {
    hide ReturnOf, Run, Runs;
    steps := RunEnds(m, n, e, regs);
  }

  // ----- results of more than one value -----

  /** RETURN gives the values of consecutive registers in their order. */
  lemma {:induction false} ReturnsMany(m: Machine, p: Proto, pc: int, regs: Regs, a: int, count: nat)
    requires 0 <= pc < |p.code| && p.code[pc] == Return(a, count)
    ensures var o := Step(m, p, At(pc, regs));
      o.Returned? && |o.results| == count && forall i :: 0 <= i < count ==> o.results[i] == Read(regs, a + i)
  {
    RangeAt(regs, a, count);
  }

  lemma {:induction false} RangeAt(regs: Regs, a: int, count: nat)
    ensures var r := ReadRange(regs, a, count); |r| == count && forall i :: 0 <= i < count ==> r[i] == Read(regs, a + i)
  {
    if count > 0 { RangeAt(regs, a, count - 1); }
  }

  // ----- the numeric for loop -----

  /** The arithmetic the loop does. */
  ghost predicate Counts(m: Machine) {
    forall x, y :: m.arith(Add, x, y) == x + y && m.arith(Sub, x, y) == x - y
  }

  /** FORPREP at `pc', the body behind it, and FORLOOP at `last', which jumps back to the body. */
  predicate IsLoop(p: Proto, pc: int, last: int, a: int) {
    && 0 <= pc < last < |p.code| && p.code[pc] == ForPrep(a, last - pc - 1) && p.code[last] == ForLoop(a, pc - last)
  }

  ghost predicate Comes(m: Machine, p: Proto, c: Config, d: Config) {
    exists n: nat :: Run(m, p, c, n) == d
  }

  /** A run of the body comes to its end, having changed `regs' to body(regs) and none of the three registers
      of the loop. */
  ghost predicate BodyRuns(m: Machine, p: Proto, pc: int, last: int, a: int, body: Regs -> Regs) {
    forall r: Regs ::
      && Comes(m, p, At(pc + 1, r), At(last, body(r)))
      && Read(body(r), a) == Read(r, a) && Read(body(r), a + 1) == Read(r, a + 1) && Read(body(r), a + 2) == Read(r, a + 2)
  }

  /** The index has not passed the limit. */
  predicate Within(i: int, limit: int, step: int) {
    if step > 0 then i <= limit else i >= limit
  }

  lemma ForStep(m: Machine, p: Proto, pc: int, last: int, a: int, regs: Regs, i: int, limit: int, step: int)
    requires IsLoop(p, pc, last, a) && Counts(m)
    requires Read(regs, a) == Num(i) && Read(regs, a + 1) == Num(limit) && Read(regs, a + 2) == Num(step)
    ensures var next := i + step;
      Step(m, p, At(last, regs)) ==
        if Within(next, limit, step) then At(pc + 1, regs[a := Num(next)][a + 3 := Num(next)]) else At(last + 1, regs)
  {
  }

  /** The body is started with the initial value, then with one step more each time, as long as the limit is not
      passed; then the loop is left. */
  lemma {:induction false} ForLoopRuns(m: Machine, p: Proto, pc: int, last: int, a: int, body: Regs -> Regs, regs: Regs,
                                      init: int, limit: int, step: int, k: nat) returns (n: nat, r: Regs)
    requires IsLoop(p, pc, last, a) && Counts(m) && BodyRuns(m, p, pc, last, a, body)
    requires Read(regs, a) == Num(init) && Read(regs, a + 1) == Num(limit) && Read(regs, a + 2) == Num(step)
    requires forall i :: 0 <= i < k ==> Within(init + i * step, limit, step)
    ensures Run(m, p, At(pc, regs), n) == if Within(init + k * step, limit, step) then At(pc + 1, r) else At(last + 1, r)
    ensures Within(init + k * step, limit, step) ==>
      Read(r, a) == Read(r, a + 3) == Num(init + k * step) && Read(r, a + 1) == Num(limit) && Read(r, a + 2) == Num(step)
  {
    hide Run;
    if k == 0 {
      var r0 := regs[a := Num(init - step)];
      assert Step(m, p, At(pc, regs)) == At(last, r0);
      ForStep(m, p, pc, last, a, r0, init - step, limit, step);
      TwoSteps(m, p, At(pc, regs));
      n := 2;
      r := if Within(init, limit, step) then r0[a := Num(init)][a + 3 := Num(init)] else r0;
    } else {
      var n1, r1 := ForLoopRuns(m, p, pc, last, a, body, regs, init, limit, step, k - 1);
      var i := init + (k - 1) * step;
      assert Within(i, limit, step);
      assert Comes(m, p, At(pc + 1, r1), At(last, body(r1)));
      var n2: nat :| Run(m, p, At(pc + 1, r1), n2) == At(last, body(r1));
      var r2 := body(r1);
      RunMore(m, p, At(pc, regs), n1, n2);
      ForStep(m, p, pc, last, a, r2, i, limit, step);
      assert init + k * step == i + step;
      OneStep(m, p, At(pc, regs), n1 + n2);
      n := n1 + n2 + 1;
      r := if Within(i + step, limit, step) then r2[a := Num(i + step)][a + 3 := Num(i + step)] else r2;
    }
  }

  lemma OneStep(m: Machine, p: Proto, c: Config, n: nat)
    ensures Run(m, p, c, n + 1) == Step(m, p, Run(m, p, c, n))
  {
  }

  lemma TwoSteps(m: Machine, p: Proto, c: Config)
    ensures Run(m, p, c, 2) == Step(m, p, Step(m, p, c))
  {
    OneStep(m, p, c, 0);
    OneStep(m, p, c, 1);
  }

  /** A loop over what is not a number is an error. */
  lemma ForNotNumber(m: Machine, p: Proto, pc: int, last: int, a: int, regs: Regs)
    requires IsLoop(p, pc, last, a) && (!Read(regs, a).Num? || !Read(regs, a + 1).Num? || !Read(regs, a + 2).Num?)
    ensures Step(m, p, At(pc, regs)) == Error
  {
  }
}
