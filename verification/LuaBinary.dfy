/** Operators over two operands. */
module LuaBinary {
  import opened LuaVm
  import opened LuaCode
  import opened LuaExec
  import opened LuaEmit
  import opened LuaExp
  import opened LuaClose
  import opened LuaReg
  import opened LuaOperand
  import opened LuaCond
  import opened LuaOps

  /** Both operands are in place, and freeing them gives back all registers taken since the start. */
  ghost predicate Pair(c: Ctx, fs: Fs, x1: Exp, x2: Exp, v1: Value, v2: Value) {
    && FsOk(c.fs) && Clean(c) && 0 <= c.fs.nactvar <= c.fs.freereg
    && FsOk(fs) && Grown(c.fs, fs) && IsOperand(x1) && IsOperand(x2)
    && FreeExp(FreeExp(fs, x2), x1).freereg == c.fs.freereg
    && (Elsewhere(c) ==> RunFs(c.m, c.k, fs, c.regs) == Begin(c))
    && (Arrives(c) ==> PairResult(c, x1, x2, v1, v2, RunFs(c.m, c.k, fs, c.regs)))
  }

  ghost predicate PairResult(c: Ctx, x1: Exp, x2: Exp, v1: Value, v2: Value, o: Outcome)
    requires Arrives(c)
  {
    && o.Fall? && Frame(Begin(c).regs, o.regs, c.fs.freereg)
    && RkVal(c.k, o.regs, Operand(x1)) == v1 && RkVal(c.k, o.regs, Operand(x2)) == v2
  }

  /** A value in place, no jumps. */
  predicate InPlace(e: Exp) {
    (e.k.VNonReloc? || e.k.VK? || e.k.VKNum?) && e.t == [] && e.f == []
  }

  /** Generation of a second operand starts where that of the first has ended. */
  lemma SecondStart(c: Ctx, fs: Fs, e: Exp, v: Value)
    requires Denotes(c, fs, e, v) && InPlace(e)
    ensures var c2 := c.(fs := fs);
            && FsOk(fs) && Clean(c2) && 0 <= fs.nactvar <= fs.freereg && Grown(c.fs, fs) && fs.nactvar == c.fs.nactvar
            && (Elsewhere(c) ==> Begin(c2) == Begin(c))
            && (Arrives(c) ==> Arrives(c2) && Frame(Begin(c).regs, Begin(c2).regs, c.fs.freereg) && ValueNow(c.m, c.k, fs, e, Begin(c2).regs) == Ok(v))
  {
    assert RunPre(c, fs, e) == RunFs(c.m, c.k, fs, c.regs);
    hide Exec, RunPre, RunFs, PatchList, StillOpen;
  }

  lemma OperandFacts(c: Ctx, fs: Fs, e: Exp, v: Value)
    requires Denotes(c, fs, e, v) && IsOperand(e)
    ensures FsOk(fs) && Grown(c.fs, fs) && FsOk(c.fs) && Clean(c) && 0 <= c.fs.nactvar <= c.fs.freereg && RegOk(c.fs, fs, e)
    ensures e.k.VK? ==> 0 <= e.k.info < |fs.k|
    ensures Elsewhere(c) ==> RunFs(c.m, c.k, fs, c.regs) == Begin(c)
    ensures Arrives(c) ==> var o := RunFs(c.m, c.k, fs, c.regs);
              o.Fall? && Frame(Begin(c).regs, o.regs, c.fs.freereg) && RkVal(c.k, o.regs, Operand(e)) == v
  {
    assert RunPre(c, fs, e) == RunFs(c.m, c.k, fs, c.regs);
    hide Exec, RunPre, RunFs, PatchList, StillOpen;
  }

  lemma MakePair(c: Ctx, fs1: Fs, x1: Exp, v1: Value, fs2: Fs, x2: Exp, v2: Value)
    requires Denotes(c, fs1, x1, v1) && IsOperand(x1) && Denotes(c.(fs := fs1), fs2, x2, v2) && IsOperand(x2)
    ensures Pair(c, fs2, x1, x2, v1, v2)
  {
    var c2 := c.(fs := fs1);
    SecondStart(c, fs1, x1, v1);
    OperandFacts(c, fs1, x1, v1);
    OperandFacts(c2, fs2, x2, v2);
    GrownTrans(c.fs, fs1, fs2);
    hide Denotes, RunFs, Clean, FsOk, StillOpen;
  }

  lemma NumeralHere(c: Ctx, fs: Fs, e: Exp, n: int)
    requires FsOk(fs) && Clean(c.(fs := fs)) && 0 <= fs.nactvar <= fs.freereg && e == Exp(VKNum(n), [], [])
    ensures Denotes(c.(fs := fs), fs, e, Num(n))
  {
    var c2 := c.(fs := fs);
    GrownSelf(fs);
    ExecGood(c.m, c.k, fs.code, fs.lasttarget, 0, c.regs);
    assert RunPre(c2, fs, e) == Begin(c2);
    hide Exec, PatchList, StillOpen, FsOk;
  }

  lemma NumeralValue(c: Ctx, fs: Fs, e: Exp, v: Value)
    requires Denotes(c, fs, e, v) && IsNumeral(e) && Arrives(c)
    ensures v == Num(e.k.n)
  {
    assert RunPre(c, fs, e) == RunFs(c.m, c.k, fs, c.regs);
    hide Exec, RunPre, RunFs, PatchList, StillOpen, FsOk;
  }

  /** The first operand is a number put in place after the second. */
  lemma MakePairNumeral(c: Ctx, fs1: Fs, e1: Exp, v1: Value, fs2: Fs, x2: Exp, v2: Value)
    requires Denotes(c, fs1, e1, v1) && IsNumeral(e1) && Denotes(c.(fs := fs1), fs2, x2, v2) && IsOperand(x2)
    requires Consts(c, Exp2RK(fs2, e1).0.k)
    ensures var (fs3, x1) := Exp2RK(fs2, e1); Pair(c, fs3, x1, x2, v1, v2)
  {
    hide Denotes, RunFs, Clean, FsOk, StillOpen, Exp2RK;
    var c2, c3 := c.(fs := fs1), c.(fs := fs2);
    DenotesFs0(c, fs1, e1, v1);
    SecondStart(c, fs1, e1, v1);
    OperandFacts(c2, fs2, x2, v2);
    SecondStart(c2, fs2, x2, v2);
    NumeralHere(c2, fs2, e1, e1.k.n);
    var (fs3, x1) := Exp2RK(fs2, e1);
    Exp2RKDenotes(c3, fs2, e1, Num(e1.k.n));
    OperandFacts(c3, fs3, x1, Num(e1.k.n));
    if Arrives(c) { NumeralValue(c, fs1, e1, v1); }
    GrownTrans(c.fs, fs1, fs2);
    GrownTrans(c.fs, fs2, fs3);
    assert RegOk(c.fs, fs1, e1) by { DenotesReg(c, fs1, e1, v1); }
    assert RegOk(c2.fs, fs2, x2) && RegOk(c3.fs, fs3, x1);
    NumeralRegs(c.fs, fs1, e1, fs2, x2, fs3, x1);
  }

  lemma DenotesReg(c: Ctx, fs: Fs, e: Exp, v: Value)
    requires Denotes(c, fs, e, v)
    ensures RegOk(c.fs, fs, e)
  {
  }

  lemma NumeralRegs(fs0: Fs, fs1: Fs, e1: Exp, fs2: Fs, x2: Exp, fs3: Fs, x1: Exp)
    requires RegOk(fs0, fs1, e1) && IsNumeral(e1) && RegOk(fs1, fs2, x2) && IsOperand(x2) && RegOk(fs2, fs3, x1) && IsOperand(x1)
    requires Grown(fs0, fs1) && Grown(fs1, fs2) && Grown(fs2, fs3)
    ensures FreeExp(FreeExp(fs3, x2), x1).freereg == fs0.freereg
    ensures x2.k.VNonReloc? ==> x2.k.r < fs2.freereg
  {
  }

  /** Freeing in either order gives back the same registers. */
  lemma FreeOrder(fs: Fs, x1: Exp, x2: Exp)
    ensures FreeBoth(fs, x1, x2) == FreeExp(FreeExp(fs, x2), x1)
    ensures RegsOnly(fs, FreeBoth(fs, x1, x2))
  {
  }

  /** The state with both operands freed, ready for the instruction. */
  lemma PairFreed(c: Ctx, fs: Fs, x1: Exp, x2: Exp, v1: Value, v2: Value)
    requires Pair(c, fs, x1, x2, v1, v2)
    ensures var fs2 := FreeBoth(fs, x1, x2);
            && fs2.freereg == c.fs.freereg && fs2.code == fs.code && fs2.k == fs.k
            && FsOk(fs2) && TwoLists(fs2, [], []) && Grown(c.fs, fs2) && FsOk(c.fs) && Clean(c) && 0 <= c.fs.nactvar <= c.fs.freereg
            && (Elsewhere(c) ==> RunFs(c.m, c.k, fs2, c.regs) == Begin(c))
            && (Arrives(c) ==> PairResult(c, x1, x2, v1, v2, RunFs(c.m, c.k, fs2, c.regs)))
  {
    FreeOrder(fs, x1, x2);
    var fs2 := FreeBoth(fs, x1, x2);
    assert RunFs(c.m, c.k, fs2, c.regs) == RunFs(c.m, c.k, fs, c.regs);
    hide Exec, RunFs, Clean;
  }

  // ----- arithmetic -----

  lemma ArithPair(c: Ctx, fs: Fs, op: ArithOp, x1: Exp, x2: Exp, v1: Value, v2: Value, v: Value)
    requires Pair(c, fs, x1, x2, v1, v2) && (Arrives(c) ==> ArithVal(c.m, op, v1, v2) == Ok(v))
    ensures var fs2 := Emit(FreeBoth(fs, x1, x2), Arith(op, 0, Operand(x1), Operand(x2)));
            Denotes(c, fs2, Exp(VReloc(|fs2.code| - 1), [], []), v)
  {
    hide Pair, RunFs, FsOk, Clean, Emit, FreeBoth, TwoLists, Grown, Half;
    PairFreed(c, fs, x1, x2, v1, v2);
    var fs2, i := FreeBoth(fs, x1, x2), Arith(op, 0, Operand(x1), Operand(x2));
    EmitLength(fs2, i, Exp(VNil, [], []));
    EmitHalf(c, fs2, [], [], i, v, v);
    HalfDenotes(c, Emit(fs2, i), Exp(VReloc(|fs2.code|), [], []), v);
  }

  /** Two numbers fold into one. */
  lemma FoldDenotes(c: Ctx, fs1: Fs, e1: Exp, v1: Value, fs2: Fs, e2: Exp, v2: Value, op: ArithOp, v: Value)
    requires Denotes(c, fs1, e1, v1) && Denotes(c.(fs := fs1), fs2, e2, v2) && IsNumeral(e1) && IsNumeral(e2)
    requires Arrives(c) ==> ArithVal(c.m, op, v1, v2) == Ok(v)
    ensures Denotes(c, fs2, e1.(k := VKNum(c.m.arith(op, e1.k.n, e2.k.n))), v)
  {
    hide RunFs, Clean, FsOk, StillOpen, Denotes;
    var c2 := c.(fs := fs1);
    SecondStart(c, fs1, e1, v1);
    SecondStart(c2, fs2, e2, v2);
    DenotesReg(c, fs1, e1, v1);
    DenotesReg(c2, fs2, e2, v2);
    GrownTrans(c.fs, fs1, fs2);
    DenotesFs0(c, fs1, e1, v1);
    if Arrives(c) {
      NumeralValue(c, fs1, e1, v1);
      NumeralValue(c2, fs2, e2, v2);
    }
    NumeralDenotes(c, fs2, c.m.arith(op, e1.k.n, e2.k.n), v);
  }

  lemma DenotesFs0(c: Ctx, fs: Fs, e: Exp, v: Value)
    requires Denotes(c, fs, e, v)
    ensures FsOk(c.fs) && Clean(c) && 0 <= c.fs.nactvar <= c.fs.freereg
  {
  }

  lemma NumeralDenotes(c: Ctx, fs: Fs, n: int, v: Value)
    requires FsOk(c.fs) && Clean(c) && 0 <= c.fs.nactvar <= c.fs.freereg == fs.freereg && FsOk(fs) && Grown(c.fs, fs)
    requires Elsewhere(c) ==> RunFs(c.m, c.k, fs, c.regs) == Begin(c)
    requires Arrives(c) ==> v == Num(n) && RunFs(c.m, c.k, fs, c.regs).Fall? && Frame(Begin(c).regs, RunFs(c.m, c.k, fs, c.regs).regs, c.fs.freereg)
    ensures Denotes(c, fs, Exp(VKNum(n), [], []), v)
  {
    assert RunPre(c, fs, Exp(VKNum(n), [], [])) == RunFs(c.m, c.k, fs, c.regs);
    hide Exec, RunPre, RunFs, StillOpen, FsOk;
  }

  lemma OperandStays(fs: Fs, e: Exp)
    requires IsOperand(e)
    ensures Exp2RK(fs, e) == (fs, e)
  {
  }

  /** codearith */
  lemma CodeArithDenotes(c: Ctx, fs1: Fs, e1: Exp, v1: Value, fs2: Fs, e2: Exp, v2: Value, op: ArithOp, v: Value)
    requires Denotes(c, fs1, e1, v1) && (IsOperand(e1) || IsNumeral(e1)) && Denotes(c.(fs := fs1), fs2, e2, v2)
    requires Arrives(c) ==> ArithVal(c.m, op, v1, v2) == Ok(v)
    requires Consts(c, CodeArith(c.m, fs2, op, e1, e2).0.k) && Trusted(c, fs2.code, e2)
    ensures var (fs3, e) := CodeArith(c.m, fs2, op, e1, e2); Denotes(c, fs3, e, v) && !e.k.VK?
  {
    hide Denotes, Exp2RK, Emit, FreeBoth, Pair;
    if Folds(op, e1, e2) {
      FoldDenotes(c, fs1, e1, v1, fs2, e2, v2, op, v);
    } else {
      var (fs3, x2) := Exp2RK(fs2, e2);
      var (fs4, x1) := Exp2RK(fs3, e1);
      Exp2RKFields(fs3, e1);
      FreeOrder(fs4, x1, x2);
      EmitFields(FreeBoth(fs4, x1, x2), Arith(op, 0, Operand(x1), Operand(x2)));
      Exp2RKDenotes(c.(fs := fs1), fs2, e2, v2);
      if IsOperand(e1) {
        OperandStays(fs3, e1);
        MakePair(c, fs1, e1, v1, fs3, x2, v2);
      } else {
        MakePairNumeral(c, fs1, e1, v1, fs3, x2, v2);
      }
      ArithPair(c, fs4, op, x1, x2, v1, v2, v);
      assert x1.t == [] && x1.f == [] by { PairLists(c, fs4, x1, x2, v1, v2); }
    }
  }

  lemma PairLists(c: Ctx, fs: Fs, x1: Exp, x2: Exp, v1: Value, v2: Value)
    requires Pair(c, fs, x1, x2, v1, v2)
    ensures x1.t == [] && x1.f == []
  {
  }

  lemma Exp2RKFields(fs: Fs, e: Exp)
    ensures fs.k <= Exp2RK(fs, e).0.k
  {
    Exp2RKConsts(fs, e);
  }

  // ----- minus -----

  /** A literal that is not a number has no negative. */
  lemma ConstantValue(c: Ctx, fs: Fs, e: Exp, v: Value)
    requires Denotes(c, fs, e, v) && (e.k.VNil? || e.k.VTrue? || e.k.VFalse?) && !HasJumps(e)
    ensures Arrives(c) ==> v == Constant(e.k)
  {
    assert RunPre(c, fs, e) == RunFs(c.m, c.k, fs, c.regs);
    hide Exec, RunPre, RunFs, PatchList, StillOpen, FsOk;
  }

  lemma MinusOperand(c: Ctx, fs: Fs, x: Exp, v: Value, w: Value)
    requires Denotes(c, fs, x, v) && IsOperand(x)
    requires Arrives(c) ==> UnmVal(v) == Ok(w) && x.k.VNonReloc?
    ensures var fs2 := Emit(FreeExp(fs, x), Unm(0, Operand(x))); Denotes(c, fs2, Exp(VReloc(|fs2.code| - 1), [], []), w)
  {
    hide RunFs, FsOk, Clean, Emit, Grown, Half, Denotes;
    OperandFacts(c, fs, x, v);
    var fs2, i := FreeExp(fs, x), Unm(0, Operand(x));
    assert FsOk(fs2) && Grown(c.fs, fs2) && TwoLists(fs2, [], []) && fs2.freereg == c.fs.freereg && RunFs(c.m, c.k, fs2, c.regs) == RunFs(c.m, c.k, fs, c.regs) by {
      FreedOperand(c, fs, x);
    }
    EmitLength(fs2, i, Exp(VNil, [], []));
    EmitHalf(c, fs2, [], [], i, w, w);
    HalfDenotes(c, Emit(fs2, i), Exp(VReloc(|fs2.code|), [], []), w);
  }

  lemma FreedOperand(c: Ctx, fs: Fs, x: Exp)
    requires FsOk(fs) && Grown(c.fs, fs) && RegOk(c.fs, fs, x)
    ensures var fs2 := FreeExp(fs, x);
            FsOk(fs2) && Grown(c.fs, fs2) && TwoLists(fs2, [], []) && fs2.freereg == c.fs.freereg
    ensures RunFs(c.m, c.k, FreeExp(fs, x), c.regs) == RunFs(c.m, c.k, fs, c.regs)
  {
  }

  lemma CodeMinusDenotes(c: Ctx, fs: Fs, e: Exp, v: Value, w: Value)
    requires Denotes(c, fs, e, v) && !e.k.VK? && Consts(c, CodeMinus(fs, e).0.k) && Trusted(c, fs.code, e)
    requires Arrives(c) ==> UnmVal(v) == Ok(w)
    ensures var (fs2, e2) := CodeMinus(fs, e); Denotes(c, fs2, e2, w) && !e2.k.VK?
  {
    hide Denotes, Exp2RK, Emit, FreeExp;
    if IsNumeral(e) {
      MinusNumeral(c, fs, e, v, w);
    } else {
      var (fs1, x) := Exp2RK(fs, e);
      FreeExpFields(fs1, x);
      EmitFields(FreeExp(fs1, x), Unm(0, Operand(x)));
      Exp2RKDenotes(c, fs, e, v);
      if x.k.VK? { MinusConstant(c, fs, e, v); }
      MinusOperand(c, fs1, x, v, w);
    }
  }

  lemma FreeExpFields(fs: Fs, x: Exp)
    ensures FreeExp(fs, x).k == fs.k
  {
  }

  lemma MinusConstant(c: Ctx, fs: Fs, e: Exp, v: Value)
    requires Denotes(c, fs, e, v) && !e.k.VK? && !IsNumeral(e) && Exp2RK(fs, e).1.k.VK?
    ensures Arrives(c) ==> !v.Num?
  {
    hide CloseLists, Discharge2Reg, Denotes;
    ConstantValue(c, fs, e, v);
  }

  lemma MinusNumeral(c: Ctx, fs: Fs, e: Exp, v: Value, w: Value)
    requires Denotes(c, fs, e, v) && IsNumeral(e) && (Arrives(c) ==> UnmVal(v) == Ok(w))
    ensures Denotes(c, fs, e.(k := VKNum(-e.k.n)), w)
  {
    hide RunFs, Clean, FsOk, StillOpen, Denotes;
    SecondStart(c, fs, e, v);
    DenotesReg(c, fs, e, v);
    DenotesFs0(c, fs, e, v);
    if Arrives(c) { NumeralValue(c, fs, e, v); }
    NumeralDenotes(c, fs, -e.k.n, w);
  }

  // ----- comparisons -----

  lemma ComparePair(c: Ctx, fs: Fs, x1: Exp, x2: Exp, v1: Value, v2: Value, test: Instr, v: Value)
    requires Pair(c, fs, x1, x2, v1, v2) && test.Cmp?
    requires forall r :: RkVal(c.k, r, Operand(x1)) == v1 && RkVal(c.k, r, Operand(x2)) == v2 && Arrives(c) ==> Taken(c.k, test, r) == Ok(v)
    ensures var fs2 := FreeExp(FreeExp(fs, x2), x1); var (fs3, list) := CondJump(fs2, test);
            list == [|fs.code| + 1] && Denotes(c, fs3, Exp(VJmp(list[0]), [], []), v)
  {
    hide Exec, Pair, FsOk, Clean, Grown, StillOpen;
    FreeOrder(fs, x1, x2);
    PairFreed(c, fs, x1, x2, v1, v2);
    var fs2 := FreeBoth(fs, x1, x2);
    var (fs3, list) := CondJump(fs2, test);
    CompareShape(c.fs, fs2, test);
    ComparePre(c, fs2, test);
    hide RunFs, RunPre, CondJump, Shape, FreeBoth;
    CompareCode(c.fs, fs3, Exp(VJmp(list[0]), [], []));
  }

  lemma CompareCode(fs0: Fs, fs: Fs, e: Exp)
    requires Shape(fs0, fs, e) && e.k.VJmp?
    ensures 1 <= e.k.pc <= |fs.code|
  {
  }

  lemma CompareShape(fs0: Fs, fs: Fs, test: Instr)
    requires FsOk(fs) && Grown(fs0, fs) && test.Cmp?
    ensures var (fs3, list) := CondJump(fs, test); var n := |fs.code|;
            && list == [n + 1] && Shape(fs0, fs3, Exp(VJmp(n + 1), [], []))
            && |fs3.code| == n + 2 && fs3.code[n] == test && fs3.freereg == fs.freereg
  {
    CondJumpOk(fs, test);
    GrownTrans(fs0, fs, CondJump(fs, test).0);
  }

  lemma ComparePre(c: Ctx, fs: Fs, test: Instr)
    requires FsOk(fs) && test.Cmp?
    ensures RunPre(c, CondJump(fs, test).0, Exp(VJmp(|fs.code| + 1), [], [])) == RunFs(c.m, c.k, fs, c.regs)
  {
    CondJumpOk(fs, test);
    DischargeRun(c.m, c.k, fs, c.regs);
  }

  /** The comparison operators with the operation and condition codecomp is given for them. */
  function CompOf(op: BinOp): (CmpOp, bool) {
    match op
    case EqOp => (Eq, true)
    case NeOp => (Eq, false)
    case LtOp => (Lt, true)
    case LeOp => (Le, true)
    case GtOp => (Lt, false)
    case _ => (Le, false)
  }

  predicate IsComp(op: BinOp) {
    !op.ArithBin? && !op.AndOp? && !op.OrOp?
  }

  /** codecomp */
  lemma CodeCompDenotes(c: Ctx, fs1: Fs, e1: Exp, v1: Value, fs2: Fs, e2: Exp, v2: Value, op: BinOp, v: Value)
    requires Denotes(c, fs1, e1, v1) && IsOperand(e1) && Denotes(c.(fs := fs1), fs2, e2, v2) && IsComp(op)
    requires Arrives(c) ==> EvalBin(c.m, op, v1, v2) == Ok(v)
    requires Consts(c, CodeComp(fs2, CompOf(op).0, CompOf(op).1, e1, e2).0.k) && Trusted(c, fs2.code, e2)
    ensures var (fs3, e) := CodeComp(fs2, CompOf(op).0, CompOf(op).1, e1, e2); Denotes(c, fs3, e, v) && e.k.VJmp?
  {
    hide Denotes, Exp2RK, Emit, FreeExp, Pair, CondJump;
    var (cop, cond) := CompOf(op);
    OperandStays(fs2, e1);
    var (fs3, x2) := Exp2RK(fs2, e2);
    var swap := !cond && !cop.Eq?;
    var o1, o2 := if swap then Operand(x2) else Operand(e1), if swap then Operand(e1) else Operand(x2);
    var test := Cmp(cop, cond || swap, o1, o2);
    FreeExpFields(fs3, x2);
    FreeExpFields(FreeExp(fs3, x2), e1);
    CondFields(FreeExp(FreeExp(fs3, x2), e1), test);
    Exp2RKDenotes(c.(fs := fs1), fs2, e2, v2);
    MakePair(c, fs1, e1, v1, fs3, x2, v2);
    ComparePair(c, fs3, e1, x2, v1, v2, test, v);
  }
}
