/** Functions that return an expression: the generated code, run by the virtual machine. */
module LuaReturn {
  import opened LuaVm
  import opened LuaCode
  import opened LuaExec
  import opened LuaEmit
  import opened LuaExp
  import opened LuaClose
  import opened LuaReg
  import opened LuaOperand
  import opened LuaCond
  import opened LuaOps
  import opened LuaBinary
  import opened LuaCompile

  // ----- the machine follows Exec -----

  lemma {:induction false} RunMore(m: Machine, p: Proto, c: Config, a: nat, b: nat)
    ensures Run(m, p, Run(m, p, c, a), b) == Run(m, p, c, a + b)
  {
    if b > 0 { RunMore(m, p, c, a, b - 1); }
  }

  lemma StepThen(m: Machine, p: Proto, c: Config, n: nat)
    ensures Run(m, p, Step(m, p, c), n) == Run(m, p, c, n + 1)
  {
    assert Run(m, p, c, 1) == Step(m, p, Run(m, p, c, 0));
    RunMore(m, p, c, 1, n);
  }

  /** One instruction of the code, as the machine executes it. */
  lemma PlainStep(m: Machine, p: Proto, pc: int, regs: Regs)
    requires 0 <= pc < |p.code| && !p.code[pc].Jmp? && !IsTest(p.code[pc])
    ensures var o := Effect(m, p.k, p.code[pc], regs);
            o.Fall? ==> Step(m, p, At(pc, regs)) == At(pc + Width(p.code[pc]), o.regs)
  {
  }

  lemma TestStep(m: Machine, p: Proto, pc: int, regs: Regs)
    requires 0 <= pc < |p.code| && IsTest(p.code[pc]) && Taken(p.k, p.code[pc], regs).Ok?
    ensures Step(m, p, At(pc, regs)) == AfterTest(p.code, pc, Taken(p.k, p.code[pc], regs).v, p.code[pc], regs)
  {
  }

  function AfterTest(code: seq<Instr>, pc: int, taken: Value, i: Instr, regs: Regs): Config {
    if taken == Bool(false) then At(pc + 2, regs)
    else if 0 <= pc + 1 < |code| && code[pc + 1].Jmp? then At(pc + 2 + code[pc + 1].sbx, Kept(i, regs))
    else Lost
  }

  lemma JmpStep(m: Machine, p: Proto, pc: int, regs: Regs)
    requires 0 <= pc < |p.code| && p.code[pc].Jmp?
    ensures Step(m, p, At(pc, regs)) == At(pc + 1 + p.code[pc].sbx, regs)
  {
  }

  /** Where Exec comes to the end of a piece of the code, the machine comes there too. */
  lemma {:induction false} ExecRuns(m: Machine, p: Proto, code: seq<Instr>, pc: int, regs: Regs) returns (n: nat)
    requires code <= p.code && Exec(m, p.k, code, pc, regs).Fall?
    ensures Run(m, p, At(pc, regs), n) == At(|code|, Exec(m, p.k, code, pc, regs).regs)
    decreases |code| - pc, 1
  {
    hide Step, Taken, Effect;
    if pc == |code| { return 0; }
    var i := code[pc];
    assert p.code[pc] == i;
    if IsTest(i) {
      n := ExecRunsTest(m, p, code, pc, regs);
      return;
    }
    var n1;
    if i.Jmp? {
      JmpStep(m, p, pc, regs);
      n1 := ExecRuns(m, p, code, pc + 1 + i.sbx, regs);
    } else {
      PlainStep(m, p, pc, regs);
      n1 := ExecRuns(m, p, code, pc + Width(i), Effect(m, p.k, i, regs).regs);
    }
    StepThen(m, p, At(pc, regs), n1);
    n := n1 + 1;
  }

  lemma {:induction false} ExecRunsTest(m: Machine, p: Proto, code: seq<Instr>, pc: int, regs: Regs) returns (n: nat)
    requires code <= p.code && Exec(m, p.k, code, pc, regs).Fall? && 0 <= pc < |code| && IsTest(code[pc])
    ensures Run(m, p, At(pc, regs), n) == At(|code|, Exec(m, p.k, code, pc, regs).regs)
    decreases |code| - pc, 0
  {
    hide Step, Taken, Run;
    var i := code[pc];
    assert p.code[pc] == i;
    var t := Taken(p.k, i, regs);
    TestStep(m, p, pc, regs);
    var n1;
    if t.v == Bool(false) {
      n1 := ExecRuns(m, p, code, pc + 2, regs);
    } else {
      assert p.code[pc + 1] == code[pc + 1];
      n1 := ExecRuns(m, p, code, pc + 2 + code[pc + 1].sbx, Kept(i, regs));
    }
    StepThen(m, p, At(pc, regs), n1);
    n := n1 + 1;
  }

  // ----- return e -----

  /** return e, as retstat generates it: the value in some register, and the instruction. */
  function ReturnExpr(m: Machine, fs: Fs, e: Expr): (Fs, int) {
    var (fs1, x) := Compile(m, fs, e);
    var (fs2, y) := Exp2AnyReg(fs1, x);
    (Emit(fs2, Return(RegOf(y), 1)), RegOf(y))
  }

  /** close_func: the final return. */
  function CloseFunc(fs: Fs): Fs {
    Emit(fs, Return(0, 0))
  }

  /** The function when all its code is there. */
  function Finished(fs: Fs): Proto {
    var fs' := CloseFunc(fs);
    Proto(fs'.code, fs'.k, fs'.maxstack, 0, 0, |fs'.code|)
  }

  /** The code ends with its last statement, here a return, and the final return. */
  lemma FinishedCode(fs: Fs, i: Instr)
    ensures CloseFunc(Emit(fs, i)) == Emit(fs, i).(code := DischargeJpc(fs).code + [i, Return(0, 0)])
    ensures Finished(Emit(fs, i)).code == DischargeJpc(fs).code + [i, Return(0, 0)]
    ensures Finished(Emit(fs, i)).k == Emit(fs, i).k && Finished(Emit(fs, i)).maxstack == Emit(fs, i).maxstack
  {
    var fs' := Emit(fs, i);
    assert DischargeJpc(fs') == fs';
    assert (DischargeJpc(fs).code + [i]) + [Return(0, 0)] == DischargeJpc(fs).code + [i, Return(0, 0)];
  }

  lemma ReturnConsts(m: Machine, fs: Fs, e: Expr)
    ensures var (fs1, x) := Compile(m, fs, e);
            fs1.k <= Exp2AnyReg(fs1, x).0.k == ReturnExpr(m, fs, e).0.k
  {
    hide Compile, Exp2AnyReg, Emit;
    var (fs1, x) := Compile(m, fs, e);
    var (fs2, y) := Exp2AnyReg(fs1, x);
    Exp2AnyRegConsts(fs1, x);
    EmitFields(fs2, Return(RegOf(y), 1));
  }

  /** No wrong value gets to an operand or into the result. */
  ghost predicate NothingLost(m: Machine, fs: Fs, e: Expr, wrong: set<int>) {
    NoLoss(m, fs, e, wrong) && var (fs1, x) := Compile(m, fs, e); Unspoilt(wrong + Wrong(m, fs, e), fs1, x)
  }

  /** An expression compiled anywhere in a function: wherever a run comes to its start, it comes to
      its end with the value in a register, and with all locals and registers in use as they were. */
  lemma ExpressionCorrect(c: Ctx, e: Expr, v: Value)
    requires Start(c, e) && NothingLost(c.m, c.fs, e, c.wrong)
    requires var (fs1, x) := Compile(c.m, c.fs, e); Consts(c, Exp2AnyReg(fs1, x).0.k)
    requires Arrives(c) && Eval(c.m, e, Begin(c).regs) == Ok(v)
    ensures var (fs1, x) := Compile(c.m, c.fs, e); var (fs2, y) := Exp2AnyReg(fs1, x);
            && FsOk(fs2) && y.k.VNonReloc?
            && var o := RunFs(c.m, c.k, fs2, c.regs);
               o.Fall? && Read(o.regs, RegOf(y)) == v && Frame(Begin(c).regs, o.regs, c.fs.freereg)
  {
    hide Denotes, Compile, Exp2AnyReg, RunFs, FsOk, Clean, NoLoss, Wrong, Reliable, Eval;
    var (fs1, x) := Compile(c.m, c.fs, e);
    var (fs2, y) := Exp2AnyReg(fs1, x);
    Exp2AnyRegConsts(fs1, x);
    CompileDenotes(c, e, v);
    Exp2AnyRegDenotes(After(c, e), fs1, x, v);
    SecondStart(After(c, e), fs2, y, v);
  }

  lemma NewFunctionOk(m: Machine, k: seq<Value>, n: nat, regs: Regs)
    ensures FsOk(NewFunction(n)) && RunFs(m, k, NewFunction(n), regs) == Fall(regs)
  {
  }

  /** The code of `return e': the machine runs to the instruction and returns the value of `e',
      having changed no local. The registers above the parameters are nil when a function is entered. */
  lemma ReturnCorrect(m: Machine, n: nat, e: Expr, regs: Regs, v: Value) returns (steps: nat, last: Regs)
    requires LocalsIn(e, n) && NothingLost(m, NewFunction(n), e, {})
    requires forall x :: x >= n ==> Read(regs, x) == Nil
    requires Eval(m, e, regs) == Ok(v)
    ensures var p := Finished(ReturnExpr(m, NewFunction(n), e).0);
            && Run(m, p, At(0, regs), steps) == At(|p.code| - 2, last)
            && Run(m, p, At(0, regs), steps + 1) == Returned([v])
            && (forall x :: x < n ==> Read(last, x) == Read(regs, x))
  {
    var fs := NewFunction(n);
    var (fs3, r) := ReturnExpr(m, fs, e);
    var p := Finished(fs3);
    var c := Ctx(m, p.k, fs, regs, true, {});
    NewFunctionOk(m, p.k, n, regs);
    ReturnConsts(m, fs, e);
    FinishedKeeps(fs3);
    ExpressionCorrect(c, e, v);
    hide Compile, Exp2AnyReg, FsOk, Emit, NothingLost;
    var (fs1, x) := Compile(m, fs, e);
    var (fs2, y) := Exp2AnyReg(fs1, x);
    last := RunFs(m, p.k, fs2, regs).regs;
    DischargeRun(m, p.k, fs2, regs);
    var d := DischargeJpc(fs2).code;
    FinishedCode(fs2, Return(r, 1));
    assert p.code == d + [Return(r, 1), Return(0, 0)];
    steps := ExecRuns(m, p, d, 0, regs);
    ReturnsOne(m, p, |d|, last, r);
  }

  lemma FinishedKeeps(fs: Fs)
    ensures Finished(fs).k == fs.k && Finished(fs).maxstack == fs.maxstack
  {
    EmitFields(fs, Return(0, 0));
  }

  lemma EmitCode(fs: Fs, i: Instr)
    ensures Emit(fs, i).code == DischargeJpc(fs).code + [i]
  {
  }

  lemma ReturnsOne(m: Machine, p: Proto, pc: int, regs: Regs, r: int)
    requires 0 <= pc < |p.code| && p.code[pc] == Return(r, 1)
    ensures Step(m, p, At(pc, regs)) == Returned([Read(regs, r)])
  {
    assert ReadRange(regs, r, 1) == ReadRange(regs, r, 0) + [Read(regs, r)];
  }
}
