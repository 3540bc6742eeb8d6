/** Expressions that have no value: the machine stops with an error where their evaluation does. */
module LuaError {
  import opened LuaVm
  import opened LuaCode
  import opened LuaExec
  import opened LuaEmit
  import opened LuaExp
  import opened LuaClose
  import opened LuaReg
  import opened LuaOperand
  import opened LuaCond
  import opened LuaOps
  import opened LuaBinary
  import opened LuaCompile
  import opened LuaForm
  import G = LuaGen
  import O = LuaGenOps
  import J = LuaGenCond
  import B = LuaGenBinary
  import D = LuaDriver
  import P = LuaOpen
  import opened LuaReturn
  import opened LuaText
  import opened LuaLoss
  import opened LuaFits
  import LuaCheck

  // ----- a run that has stopped -----

  /** The run of the code so far ends in a run-time error. */
  ghost predicate Stops(c: Ctx, fs: Fs) {
    Exec(c.m, c.k, fs.code, 0, c.regs) == Stop
  }

  lemma StopsIs(c: Ctx, fs: Fs)
    ensures Stops(c, fs) <==> RunFs(c.m, c.k, fs, c.regs) == Stop
  {
  }

  lemma EmitStops(c: Ctx, fs: Fs, i: Instr)
    requires Stops(c, fs) && FsOk(fs) && Plain(i)
    ensures Stops(c, Emit(fs, i))
  {
    EmitRun(c.m, c.k, fs, i, c.regs);
  }

  lemma JumpStops(c: Ctx, fs: Fs)
    requires Stops(c, fs) && FsOk(fs)
    ensures Stops(c, Jump(fs).0)
  {
    JumpRun(c.m, c.k, fs, c.regs);
  }

  lemma CondJumpStops(c: Ctx, fs: Fs, test: Instr)
    requires Stops(c, fs) && FsOk(fs) && IsTest(test) && (test.TestSet? ==> test.dest.NoReg?)
    ensures Stops(c, CondJump(fs, test).0)
  {
    CondJumpRun(c.m, c.k, fs, test, c.regs);
  }

  /** Another last instruction that stops wherever the one before does. */
  lemma LastStops(c: Ctx, p: seq<Instr>, limit: int, i: Instr, i': Instr)
    requires WellFormed(p, limit) && Plain(i) && Plain(i')
    requires forall r :: Effect(c.m, c.k, i, r) == Stop ==> Effect(c.m, c.k, i', r) == Stop
    requires Exec(c.m, c.k, p + [i], 0, c.regs) == Stop
    ensures Exec(c.m, c.k, p + [i'], 0, c.regs) == Stop
  {
    ExecGood(c.m, c.k, p, limit, 0, c.regs);
    ExecLast(c.m, c.k, p, i, c.regs);
    ExecLast(c.m, c.k, p, i', c.regs);
  }

  lemma RelocStops(c: Ctx, fs: Fs, e: Exp, reg: int)
    requires Stops(c, fs) && FsOk(fs) && KindOk(fs, e) && e.k.VReloc?
    ensures Stops(c, fs.(code := fs.code[e.k.pc := SetA(fs.code[e.k.pc], reg)]))
  {
    PrefixGood(fs, e);
    var p, i := PreCode(fs, e), fs.code[e.k.pc];
    assert fs.code == p + [i] && fs.code[e.k.pc := SetA(i, reg)] == p + [SetA(i, reg)];
    LastStops(c, p, fs.lasttarget, i, SetA(i, reg));
  }

  lemma CodeNilStops(c: Ctx, fs: Fs, reg: int)
    requires Stops(c, fs) && FsOk(fs)
    ensures Stops(c, CodeNil(fs, reg))
  {
    EmitStops(c, fs, LoadNil(reg, reg));
    if Mergeable(fs, reg) {
      NilPrefix(fs, reg);
      var n := |fs.code|;
      var p, i := fs.code[..n - 1], fs.code[n - 1];
      assert InstrOk(fs.code, n - 1, fs.lasttarget);
      assert fs.code == p + [i] && fs.code[n - 1 := LoadNil(i.a, reg)] == p + [LoadNil(i.a, reg)];
      if reg > i.b { LastStops(c, p, fs.lasttarget, i, LoadNil(i.a, reg)); }
    }
    hide Emit, Exec;
  }

  lemma Discharge2RegStops(c: Ctx, fs: Fs, e: Exp, reg: int)
    requires Stops(c, fs) && FsOk(fs) && KindOk(fs, e)
    ensures Stops(c, Discharge2Reg(fs, e, reg).0)
  {
    hide Emit, CodeNil, Exec, WellFormed;
    var e1 := DischargeVars(e);
    match e1.k {
      case VNil => CodeNilStops(c, fs, reg);
      case VFalse => EmitStops(c, fs, LoadBool(reg, false, false));
      case VTrue => EmitStops(c, fs, LoadBool(reg, true, false));
      case VK(i) => EmitStops(c, fs, LoadK(reg, i));
      case VKNum(n) => AddKOk(fs, Num(n)); EmitStops(c, AddK(fs, Num(n)).0, LoadK(reg, AddK(fs, Num(n)).1));
      case VReloc(pc) => RelocStops(c, fs, e, reg);
      case VNonReloc(r) => EmitStops(c, fs, Move(reg, r));
      case _ =>
    }
  }

  lemma CloseListsStops(c: Ctx, fs: Fs, t: seq<int>, f: seq<int>, reg: int, isJmp: bool)
    requires Stops(c, fs) && TwoLists(fs, t, f) && (isJmp ==> fs.jpc == [] && NeedValue(fs.code, t))
    ensures Stops(c, CloseLists(fs, t, f, reg, isJmp))
  {
    hide Exec, NeedValue, PatchList, StillOpen, PatchBoth, FsOk, BeforePatch, CloseLists;
    var p, pf := BeforePatch(fs, t, f, reg, isJmp), PlaceFalse(fs, t, f, isJmp);
    BeforePatchOk(fs, t, f, reg, isJmp);
    BeforePatchRun(c.m, c.k, fs, t, f, reg, isJmp, c.regs);
    StopsIs(c, fs);
    StopsIs(c, p);
    if t != [] || f != [] {
      PatchBothRun(c.m, c.k, p, t, f, reg, pf, c.regs);
      StopsIs(c, PatchBoth(p, t, f, reg, pf));
    }
  }

  lemma Exp2RegStops(c: Ctx, fs0: Fs, fs: Fs, e: Exp, reg: int)
    requires Stops(c, fs) && Formed0(fs0, fs, e) && reg >= fs0.freereg && reg >= fs.nactvar
    ensures Stops(c, Exp2Reg(fs, e, reg).0)
  {
    hide Stops, CloseLists, Discharge2Reg, TwoLists, NeedValue, WellFormed;
    FormedFacts(fs0, fs, e);
    Discharge2RegStops(c, fs, e, reg);
    hide Formed0;
    G.Discharged(c.m, fs0, fs, e, reg);
    var (fs1, e1) := Discharge2Reg(fs, e, reg);
    G.ExpLists(c.m, fs0, fs1, e1, reg);
    CloseListsStops(c, fs1, G.ClosedT(e1), e1.f, reg, e1.k.VJmp?);
  }

  lemma AnyRegStops(c: Ctx, fs0: Fs, fs: Fs, e: Exp)
    requires Stops(c, fs) && Formed(fs0, fs, e)
    ensures Stops(c, Exp2AnyReg(fs, e).0)
  {
    hide Stops, Exp2Reg, Formed0, RegOk;
    O.NextRegs(fs0, fs, e);
    O.DischargedVars(fs0, fs, e);
    var e1 := DischargeVars(e);
    if HasJumps(e) || !e1.k.VNonReloc? {
      if e1.k.VNonReloc? && e1.k.r >= fs.nactvar {
        O.AnyReg(fs0, fs, e1);
        FsOkOf(fs0, fs, e1);
        Exp2RegStops(c, fs0, fs, e1, e1.k.r);
      } else {
        var fs1 := ReserveRegs(FreeExp(fs, e1), 1);
        SameStops(c, fs, fs1);
        Exp2RegStops(c, fs0, fs1, e1, fs1.freereg - 1);
      }
    }
  }

  lemma SameStops(c: Ctx, fs: Fs, fs': Fs)
    requires fs'.code == fs.code
    ensures Stops(c, fs') <==> Stops(c, fs)
  {
  }

  lemma Exp2RKStops(c: Ctx, fs0: Fs, fs: Fs, e: Exp)
    requires Stops(c, fs) && Formed(fs0, fs, e)
    ensures Stops(c, Exp2RK(fs, e).0)
  {
    hide Stops, Exp2AnyReg, Formed0, RegOk;
    AnyRegStops(c, fs0, fs, e);
    var (fs1, e1) := Exp2Val(fs, e);
    if HasJumps(e) {
      O.AnyFormed(c.m, fs0, fs, e);
      InRegStays(fs1, e1);
    } else {
      O.DischargedVars(fs0, fs, e);
      AnyRegStops(c, fs0, fs, e1);
      SameStops(c, fs, AddK(fs, Constant(e1.k)).0);
    }
  }

  // ----- operators -----

  lemma InvertStops(c: Ctx, fs0: Fs, fs: Fs, e: Exp)
    requires Stops(c, fs) && Formed(fs0, fs, e) && e.k.VJmp?
    ensures Stops(c, InvertJump(fs, e))
  {
    PrefixGood(fs, e);
    var p, i := PreCode(fs, e), fs.code[e.k.pc - 1];
    var i' := Cmp(i.cop, !i.cond, i.rb, i.rc);
    ExecGood(c.m, c.k, p, fs.lasttarget, 0, c.regs);
    assert fs.code == p + [i, Jmp(NO_JUMP)] && InvertJump(fs, e).code == p + [i', Jmp(NO_JUMP)];
    ExecTest(c.m, c.k, p, i, c.regs);
    ExecTest(c.m, c.k, p, i', c.regs);
  }

  lemma Discharge2AnyStops(c: Ctx, fs0: Fs, fs: Fs, e: Exp)
    requires Stops(c, fs) && Formed(fs0, fs, e)
    ensures Stops(c, Discharge2AnyReg(fs, e).0)
  {
    hide Stops, Discharge2Reg, WellFormed;
    var fs1 := ReserveRegs(fs, 1);
    SameStops(c, fs, fs1);
    if !e.k.VNonReloc? {
      O.FormedRegs(fs0, fs, e, fs1);
      FormedFacts(fs0, fs1, e);
      Discharge2RegStops(c, fs1, e, fs1.freereg - 1);
    }
  }

  lemma NotStops(c: Ctx, fs0: Fs, fs: Fs, e0: Exp)
    requires Stops(c, fs) && Formed(fs0, fs, e0) && !e0.k.VK?
    ensures Stops(c, CodeNot(fs, e0).0)
  {
    hide Stops, RemoveValues, Formed, B.NotHalf, CodeNot, FsOk;
    var e := DischargeVars(e0);
    O.DischargedVars(fs0, fs, e0);
    B.NotIs(fs, e0);
    B.NotHalfFormed(c.m, fs0, fs, e);
    NotHalfStops(c, fs0, fs, e);
    var (fs1, e1) := B.NotHalf(fs, e);
    HasLists(fs0, fs1, e1);
    RemoveBoth(fs1, e1);
    RemovedStops(c, fs1, e1, RemoveValues(RemoveValues(fs1, e1.t), e1.f));
  }

  lemma NotHalfStops(c: Ctx, fs0: Fs, fs: Fs, e: Exp)
    requires Stops(c, fs) && Formed(fs0, fs, e) && !e.k.VK? && !e.k.VLocal?
    ensures Stops(c, B.NotHalf(fs, e).0)
  {
    hide Stops, Emit, Formed, Discharge2AnyReg, InvertJump, FreeExp;
    if e.k.VJmp? {
      InvertStops(c, fs0, fs, e);
    } else if e.k.VReloc? || e.k.VNonReloc? {
      Discharge2AnyStops(c, fs0, fs, e);
      J.AnyRegOpen(c.m, fs0, fs, e);
      var (fs1, e1) := Discharge2AnyReg(fs, e);
      FsOkOf(fs0, fs1, e1);
      J.FreedSame(fs1, e1);
      SameStops(c, fs1, FreeExp(fs1, e1));
      EmitStops(c, FreeExp(fs1, e1), Not(0, RegOf(e1)));
    }
  }

  lemma RemovedStops(c: Ctx, fs: Fs, e: Exp, fs': Fs)
    requires Stops(c, fs) && FsOk(fs) && ExOk(fs, e) && |fs'.code| == |fs.code| && fs' == fs.(code := fs'.code)
    requires forall i :: 0 <= i < |fs.code| ==> fs'.code[i] == Plainly(fs.code, e, i)
    ensures Stops(c, fs')
  {
    var e0 := e.(k := VNil);
    RemovePre(c, fs, fs', e0);
    assert RunPre(c, fs, e0) == RunFs(c.m, c.k, fs, c.regs) && RunPre(c, fs', e0.(t := e0.f, f := e0.t)) == RunFs(c.m, c.k, fs', c.regs);
    StopsIs(c, fs);
    StopsIs(c, fs');
  }

  lemma CondStops(c: Ctx, fs0: Fs, fs: Fs, e: Exp, cond: bool)
    requires Stops(c, fs) && Formed(fs0, fs, e) && !e.k.VJmp? && !e.k.VLocal?
    ensures Stops(c, JumpOnCond(fs, e, cond).0)
  {
    hide Stops, Discharge2AnyReg, CondJump, Formed, FreeExp;
    if e.k.VReloc? && e.k.pc == |fs.code| - 1 && 0 <= e.k.pc && fs.code[e.k.pc].Not? {
      DropStops(c, fs0, fs, e);
      CondJumpStops(c, fs.(code := fs.code[..e.k.pc]), Test(fs.code[e.k.pc].b, !cond));
    } else {
      Discharge2AnyStops(c, fs0, fs, e);
      J.AnyRegOpen(c.m, fs0, fs, e);
      var (fs1, e1) := Discharge2AnyReg(fs, e);
      FsOkOf(fs0, fs1, e1);
      J.FreedSame(fs1, e1);
      SameStops(c, fs1, FreeExp(fs1, e1));
      CondJumpStops(c, FreeExp(fs1, e1), TestSet(NoReg, RegOf(e1), cond));
    }
  }

  /** NOT never stops. */
  lemma DropStops(c: Ctx, fs0: Fs, fs: Fs, e: Exp)
    requires Stops(c, fs) && Formed(fs0, fs, e) && e.k.VReloc? && fs.code[e.k.pc].Not?
    ensures var fs1 := fs.(code := fs.code[..e.k.pc]); FsOk(fs1) && Stops(c, fs1)
  {
    FormedIs(c.m, fs0, fs, e);
    DropNot(Shapes(c.m, fs0), fs, e, Nil);
    PrefixGood(fs, e);
    var p, i := PreCode(fs, e), fs.code[e.k.pc];
    assert fs.code == p + [i];
    ExecGood(c.m, c.k, p, fs.lasttarget, 0, c.regs);
    ExecLast(c.m, c.k, p, i, c.regs);
  }

  lemma GoStops(c: Ctx, fs0: Fs, fs: Fs, e0: Exp, go: bool)
    requires Stops(c, fs) && Formed(fs0, fs, e0) && !e0.k.VK?
    ensures Stops(c, if go then GoIfTrue(fs, e0).0 else GoIfFalse(fs, e0).0)
  {
    hide Stops, Formed, JumpOnCond, GoIfTrue, GoIfFalse, InvertJump, Jump;
    var e := DischargeVars(e0);
    O.DischargedVars(fs0, fs, e0);
    J.GoIfIs(c.m, fs0, fs, e0, go);
    FsOkOf(fs0, fs, e);
    JumpStops(c, fs);
    if e.k.VJmp? { InvertStops(c, fs0, fs, e); } else { CondStops(c, fs0, fs, e, !go); }
    var fs1 := J.FirstHalf(fs, e, go).0;
    SameStops(c, fs1, PatchToHere(fs1, Stay(e, go)));
  }

  lemma InfixStops(c: Ctx, fs0: Fs, fs: Fs, e: Exp, op: BinOp)
    requires Stops(c, fs) && Formed(fs0, fs, e) && !e.k.VK?
    ensures Stops(c, Infix(fs, op, e).0)
  {
    hide Stops, Formed, GoIfTrue, GoIfFalse, Exp2RK;
    if op.AndOp? { GoStops(c, fs0, fs, e, true); }
    else if op.OrOp? { GoStops(c, fs0, fs, e, false); }
    else { Exp2RKStops(c, fs0, fs, e); }
  }

  lemma PrefixStops(c: Ctx, fs0: Fs, fs: Fs, e: Exp, op: UnOp)
    requires Stops(c, fs) && Formed(fs0, fs, e) && !e.k.VK?
    ensures Stops(c, Prefix(fs, op, e).0)
  {
    hide Stops, Formed, CodeNot, Exp2RK, Emit, FreeExp;
    if op.NotOp? {
      NotStops(c, fs0, fs, e);
    } else if !IsNumeral(e) {
      Exp2RKStops(c, fs0, fs, e);
      O.RKFormed(c.m, fs0, fs, e);
      var (fs1, x) := Exp2RK(fs, e);
      FsOkOf(fs0, fs1, x);
      J.FreedSame(fs1, x);
      SameStops(c, fs1, FreeExp(fs1, x));
      EmitStops(c, FreeExp(fs1, x), Unm(0, Operand(x)));
    }
  }

  lemma FirstStops(c: Ctx, fs0: Fs, fs1: Fs, y: Exp, fs: Fs, x: Exp)
    requires Stops(c, fs) && Formed(fs0, fs1, y) && (IsOperand(y) || IsNumeral(y)) && Formed(fs1, fs, x)
    ensures Stops(c, Exp2RK(fs, y).0) && FsOk(Exp2RK(fs, y).0)
  {
    hide Stops, Exp2RK, Formed0;
    FsOkOf(fs1, fs, x);
    if IsOperand(y) {
      OperandStays(fs, y);
    } else {
      B.NumeralFormed(c.m, fs0, fs1, y, fs, x);
      Exp2RKStops(c, fs, fs, y);
      O.RKFormed(c.m, fs, fs, y);
      FsOkOf(fs, Exp2RK(fs, y).0, Exp2RK(fs, y).1);
    }
  }

  lemma PosfixStops(c: Ctx, fs0: Fs, fs1: Fs, y: Exp, fs: Fs, x: Exp, op: BinOp)
    requires Stops(c, fs) && B.Waiting(fs0, fs1, op, y) && Formed(fs1, fs, x)
    ensures Stops(c, Posfix(c.m, fs, op, y, x).0)
  {
    hide Stops, Formed, GuardFormed, CodeArith, CodeComp, Exp2RK, FreeBoth, Emit, CondJump, FreeExp;
    if op.ArithBin? {
      if Folds(op.op, y, x) {
        B.FoldIs(c.m, fs, op.op, y, x);
      } else {
        B.ArithIs(c.m, fs, op.op, y, x);
        Exp2RKStops(c, fs1, fs, x);
        O.RKFormed(c.m, fs1, fs, x);
        var (fs2, x2) := Exp2RK(fs, x);
        FirstStops(c, fs0, fs1, y, fs2, x2);
        var (fs3, x1) := Exp2RK(fs2, y);
        B.BothFreed(fs3, x1, x2);
        SameStops(c, fs3, FreeBoth(fs3, x1, x2));
        EmitStops(c, FreeBoth(fs3, x1, x2), Arith(op.op, 0, Operand(x1), Operand(x2)));
      }
    } else if IsComp(op) {
      B.CompIs(fs, op, y, x);
      Exp2RKStops(c, fs1, fs, x);
      O.RKFormed(c.m, fs1, fs, x);
      var (fs2, x2) := Exp2RK(fs, x);
      FsOkOf(fs1, fs2, x2);
      J.FreedSame(fs2, x2);
      J.FreedSame(FreeExp(fs2, x2), y);
      var fs3 := FreeExp(FreeExp(fs2, x2), y);
      SameStops(c, fs2, fs3);
      var swap := !CompOf(op).1 && !CompOf(op).0.Eq?;
      var o1, o2 := if swap then Operand(x2) else Operand(y), if swap then Operand(y) else Operand(x2);
      CondJumpStops(c, fs3, Cmp(CompOf(op).0, CompOf(op).1 || swap, o1, o2));
    }
  }

  // ----- operands without a result -----

  /** Registers above the frame are not written. */
  ghost predicate SameAbove(r0: Regs, r1: Regs, ms: int) {
    forall x :: x >= ms ==> Read(r1, x) == Read(r0, x)
  }

  lemma EffectAbove(m: Machine, k: seq<Value>, i: Instr, regs: Regs, ms: int, kn: int)
    requires InstrFits(i, ms, kn) && Effect(m, k, i, regs).Fall?
    ensures SameAbove(regs, Effect(m, k, i, regs).regs, ms)
  {
    if i.LoadNil? { LuaCheck.SetNilsWrites(regs, i.a, i.b); }
  }

  lemma {:induction false} ExecAbove(m: Machine, k: seq<Value>, code: seq<Instr>, pc: int, regs: Regs, ms: int, kn: int)
    requires AllFit(code, ms, kn)
    ensures var o := Exec(m, k, code, pc, regs); o.Fall? || o.Out? ==> SameAbove(regs, o.regs, ms)
    decreases |code| - pc
  {
    if 0 <= pc < |code| {
      var i := code[pc];
      assert InstrFits(i, ms, kn);
      if i.Jmp? {
        if i.sbx >= 0 { ExecAbove(m, k, code, pc + 1 + i.sbx, regs, ms, kn); }
      } else if IsTest(i) {
        hide Taken;
        ExecAbove(m, k, code, pc + 2, regs, ms, kn);
        ExecAbove(m, k, code, pc + 1, Kept(i, regs), ms, kn);
      } else if Effect(m, k, i, regs).Fall? {
        EffectAbove(m, k, i, regs, ms, kn);
        ExecAbove(m, k, code, pc + Width(i), Effect(m, k, i, regs).regs, ms, kn);
      }
    }
  }

  /** The registers a constant operand of the minus is mistaken for are nil. */
  ghost predicate NilAbove(regs: Regs) {
    forall x :: x >= BITRK ==> Read(regs, x) == Nil
  }

  lemma FormedFrom(c: Ctx, fs: Fs, e: Exp, v: Value)
    requires Denotes(c, fs, e, v)
    ensures Formed(c.fs, fs, e)
  {
    hide FsOk, Shape, Means, Clean;
  }

  lemma MinusErr(c: Ctx, fs: Fs, e: Exp, v: Value)
    requires Denotes(c, fs, e, v) && !e.k.VK? && Arrives(c) && UnmVal(v).Err? && Consts(c, CodeMinus(fs, e).0.k) && Trusted(c, fs.code, e)
    requires Fits(fs) && !CodeMinus(fs, e).0.failed && NilAbove(c.regs)
    ensures Stops(c, CodeMinus(fs, e).0)
  {
    hide Denotes, Exp2RK, Emit, FreeExp, Formed, Fits;
    if IsNumeral(e) {
      NumeralValue(c, fs, e, v);
    } else {
      FormedFrom(c, fs, e, v);
      var (fs1, x) := Exp2RK(fs, e);
      FreeExpFields(fs1, x);
      EmitFields(FreeExp(fs1, x), Unm(0, Operand(x)));
      Exp2RKDenotes(c, fs, e, v);
      Exp2RKFits(c.m, c.fs, fs, e);
      MinusGrows(c.m, c.fs, fs, e);
      KeepsFits(fs, fs1);
      MinusReads(c, fs1, x, v);
    }
  }

  lemma MinusReads(c: Ctx, fs: Fs, x: Exp, v: Value)
    requires Denotes(c, fs, x, v) && IsOperand(x) && Arrives(c) && UnmVal(v).Err?
    requires Fits(fs) && OperandFits(fs, x) && !fs.failed && NilAbove(c.regs)
    ensures Stops(c, Emit(FreeExp(fs, x), Unm(0, Operand(x))))
  {
    hide Denotes, Emit, FreeExp, FsOk, Grown, Clean;
    OperandFacts(c, fs, x, v);
    FreedOperand(c, fs, x);
    var i := Unm(0, Operand(x));
    EmitRun(c.m, c.k, FreeExp(fs, x), i, c.regs);
    StopsIs(c, Emit(FreeExp(fs, x), i));
    ExecAbove(c.m, c.k, fs.code, 0, c.regs, fs.maxstack, |fs.k|);
    var o := RunFs(c.m, c.k, fs, c.regs);
    assert SameAbove(c.regs, o.regs, MAXSTACK);
    assert Operand(x).Kst? ==> Read(o.regs, RegIndex(Operand(x))) == Read(c.regs, RegIndex(Operand(x))) == Nil;
  }

  lemma PairRun(c: Ctx, fs: Fs, x1: Exp, x2: Exp, v1: Value, v2: Value)
    requires Pair(c, fs, x1, x2, v1, v2) && Arrives(c)
    ensures var fs2 := FreeBoth(fs, x1, x2); var o := RunFs(c.m, c.k, fs2, c.regs);
      && FsOk(fs2) && o.Fall? && RkVal(c.k, o.regs, Operand(x1)) == v1 && RkVal(c.k, o.regs, Operand(x2)) == v2
  {
    PairFreed(c, fs, x1, x2, v1, v2);
  }

  lemma ArithErr(c: Ctx, fs1: Fs, e1: Exp, v1: Value, fs2: Fs, e2: Exp, v2: Value, op: ArithOp)
    requires Denotes(c, fs1, e1, v1) && (IsOperand(e1) || IsNumeral(e1)) && Denotes(c.(fs := fs1), fs2, e2, v2)
    requires Arrives(c) && Arrives(c.(fs := fs1)) && ArithVal(c.m, op, v1, v2).Err?
    requires Consts(c, CodeArith(c.m, fs2, op, e1, e2).0.k) && Trusted(c, fs2.code, e2)
    ensures Stops(c, CodeArith(c.m, fs2, op, e1, e2).0)
  {
    hide Denotes, Exp2RK, Emit, FreeBoth, Pair, FsOk;
    if Folds(op, e1, e2) {
      NumeralValue(c, fs1, e1, v1);
      NumeralValue(c.(fs := fs1), fs2, e2, v2);
    } else {
      var (fs3, x2) := Exp2RK(fs2, e2);
      var (fs4, x1) := Exp2RK(fs3, e1);
      Exp2RKFields(fs3, e1);
      FreeOrder(fs4, x1, x2);
      EmitFields(FreeBoth(fs4, x1, x2), Arith(op, 0, Operand(x1), Operand(x2)));
      Exp2RKDenotes(c.(fs := fs1), fs2, e2, v2);
      if IsOperand(e1) {
        OperandStays(fs3, e1);
        MakePair(c, fs1, e1, v1, fs3, x2, v2);
      } else {
        MakePairNumeral(c, fs1, e1, v1, fs3, x2, v2);
      }
      PairRun(c, fs4, x1, x2, v1, v2);
      EmitRun(c.m, c.k, FreeBoth(fs4, x1, x2), Arith(op, 0, Operand(x1), Operand(x2)), c.regs);
      StopsIs(c, CodeArith(c.m, fs2, op, e1, e2).0);
    }
  }

  lemma CompErr(c: Ctx, fs1: Fs, e1: Exp, v1: Value, fs2: Fs, e2: Exp, v2: Value, op: BinOp)
    requires Denotes(c, fs1, e1, v1) && IsOperand(e1) && Denotes(c.(fs := fs1), fs2, e2, v2) && IsComp(op)
    requires Arrives(c) && EvalBin(c.m, op, v1, v2).Err?
    requires Consts(c, CodeComp(fs2, CompOf(op).0, CompOf(op).1, e1, e2).0.k) && Trusted(c, fs2.code, e2)
    ensures Stops(c, CodeComp(fs2, CompOf(op).0, CompOf(op).1, e1, e2).0)
  {
    hide Denotes, Exp2RK, Emit, FreeExp, Pair, CondJump, FsOk, FreeBoth;
    var (cop, cond) := CompOf(op);
    OperandStays(fs2, e1);
    var (fs3, x2) := Exp2RK(fs2, e2);
    var swap := !cond && !cop.Eq?;
    var o1, o2 := if swap then Operand(x2) else Operand(e1), if swap then Operand(e1) else Operand(x2);
    var test := Cmp(cop, cond || swap, o1, o2);
    var fs4 := FreeExp(FreeExp(fs3, x2), e1);
    FreeExpFields(fs3, x2);
    FreeExpFields(FreeExp(fs3, x2), e1);
    CondFields(fs4, test);
    Exp2RKDenotes(c.(fs := fs1), fs2, e2, v2);
    MakePair(c, fs1, e1, v1, fs3, x2, v2);
    FreeOrder(fs3, e1, x2);
    PairRun(c, fs3, e1, x2, v1, v2);
    CondJumpRun(c.m, c.k, fs4, test, c.regs);
    StopsIs(c, CondJump(fs4, test).0);
  }

  // ----- expressions -----

  /** A state in which a part of the expression has stopped: the rest is generated behind it and never run. */
  lemma RestStops(c: Ctx, fs: Fs, e: Expr)
    requires Stops(c, fs) && D.Settled(fs) && LocalsIn(e, fs.nactvar) && Clean(c.(fs := fs)) && c.live
    requires NoLoss(c.m, fs, e, c.wrong) && Consts(c, Compile(c.m, fs, e).0.k)
    ensures Stops(c, Compile(c.m, fs, e).0)
  {
    var c2 := c.(fs := fs);
    CompileDenotes(c2, e, Nil);
    var (fs1, x) := Compile(c.m, fs, e);
    hide Compile, NoLoss, Clean;
    PreStops(c, After(c2, e), fs1, x);
  }

  lemma PreStops(c: Ctx, c2: Ctx, fs: Fs, e: Exp)
    requires Denotes(c2, fs, e, Nil) && Elsewhere(c2) && Begin(c2) == Stop && c2.m == c.m && c2.k == c.k && c2.regs == c.regs
    ensures Stops(c, fs)
  {
    var p := PreCode(fs, e);
    assert fs.code == p + fs.code[|p|..];
    ExecAppend(c.m, c.k, p, fs.code[|p|..], 0, c.regs);
  }

  lemma CleanLater(c: Ctx, fs: Fs)
    requires Clean(c) && |c.fs.code| <= |fs.code| && fs.nactvar == c.fs.nactvar
    ensures Clean(c.(fs := fs))
  {
  }

  ghost function PlaceOf(fs: Fs): (s: Place)
    ensures PlaceIs(fs, s)
  {
    Place(Carried(fs.code, fs.jpc), fs.h.Keys, |fs.k|)
  }

  /** The states generation of an operator goes through. */
  ghost predicate Stages(m: Machine, fs0: Fs, e: Expr)
    requires e.EBin?
  {
    var (fs1, x1) := Compile(m, fs0, e.lhs);
    var (fs2, y1) := Infix(fs1, e.bop, x1);
    var (fs3, x2) := Compile(m, fs2, e.rhs);
    var fs4 := Posfix(m, fs3, e.bop, y1, x2).0;
    && Formed(fs0, fs1, x1) && !x1.k.VK? && Fits(fs1) && D.Settled(fs2) && Fits(fs2) && fs2.nactvar == fs0.nactvar
    && B.Waiting(fs0, fs2, e.bop, y1) && Formed(fs2, fs3, x2) && !x2.k.VK? && Fits(fs3)
    && |fs0.code| <= |fs2.code| && (fs1.failed ==> fs4.failed) && (fs3.failed ==> fs4.failed)
  }

  lemma StagesHold(m: Machine, fs0: Fs, e: Expr)
    requires D.Settled(fs0) && LocalsIn(e, fs0.nactvar) && Fits(fs0) && e.EBin?
    ensures Stages(m, fs0, e)
  {
    hide Formed, Infix, Posfix, B.Waiting, Fits, OperandFits, D.Settled;
    var (op, l, r) := (e.bop, e.lhs, e.rhs);
    var (fs1, x1) := Compile(m, fs0, l);
    var (fs2, y1) := Infix(fs1, op, x1);
    var (fs3, x2) := Compile(m, fs2, r);
    CompileFits(m, fs0, PlaceOf(fs0), l);
    P.CompileFormed(m, fs0, l);
    InfixFits(m, fs0, fs1, x1, op);
    P.InfixFormed(m, fs0, fs1, x1, op);
    D.WaitingGrown(fs0, fs2, op, y1);
    KeepsFits(fs1, fs2);
    CompileFits(m, fs2, PlaceOf(fs2), r);
    P.CompileFormed(m, fs2, r);
    if op.ArithBin? { NumeralStays(fs1, op, x1); }
    if !op.AndOp? && !op.OrOp? && !(op.ArithBin? && IsNumeral(y1)) { OperandLater(fs2, fs3, y1); }
    PosfixFits(m, fs0, fs2, y1, fs3, x2, op);
    CodeGrows(fs0, fs1, x1, fs2, op, y1);
  }

  lemma CodeGrows(fs0: Fs, fs1: Fs, x1: Exp, fs2: Fs, op: BinOp, y1: Exp)
    requires Formed(fs0, fs1, x1) && B.Waiting(fs0, fs2, op, y1)
    ensures |fs0.code| <= |fs2.code| && fs2.nactvar == fs0.nactvar
  {
  }

  /** Evaluating has no result. */
  ghost predicate Fails(c: Ctx, e: Expr) { Arrives(c) && Eval(c.m, e, Begin(c).regs).Err? }

  ghost predicate Ready(c: Ctx, e: Expr) {
    && Start(c, e) && NoLoss(c.m, c.fs, e, c.wrong) && Consts(c, Compile(c.m, c.fs, e).0.k)
    && Fits(c.fs) && !Compile(c.m, c.fs, e).0.failed && NilAbove(c.regs)
  }

  /** Where the evaluation of an expression stops, so does the run of its code. */
  lemma {:induction false} CompileStops(c: Ctx, e: Expr)
    requires Ready(c, e) && Fails(c, e)
    ensures Stops(c, Compile(c.m, c.fs, e).0)
    decreases e
  {
    hide Stops, Prefix, FsOk, Clean, RunFs, Fits, NilAbove;
    match e
    case EParen(e1) => CompileStops(c, e1);
    case EUn(op, e1) => UnaryStops(c, e);
    case EBin(op, l, r) =>
      StagesHold(c.m, c.fs, e);
      PartsReady(c, e);
      if Eval(c.m, l, Begin(c).regs).Err? { FirstPartStops(c, e); }
      else if op.AndOp? || op.OrOp? { LogicStops(c, e); }
      else { StrictStops(c, e); }
    case _ =>
  }

  lemma {:induction false} UnaryStops(c: Ctx, e: Expr)
    requires Ready(c, e) && Fails(c, e) && e.EUn?
    ensures Stops(c, Compile(c.m, c.fs, e).0)
    decreases e, 0
  {
    hide Stops, Denotes, CodeNot, CodeMinus, FsOk, Clean, RunFs, Fits, NilAbove, Formed, TextIs;
    var (op, e1) := (e.uop, e.e);
    var (fs1, x) := Compile(c.m, c.fs, e1);
    PrefixConsts(fs1, op, x);
    P.CompileFormed(c.m, c.fs, e1);
    var s := PlaceOf(c.fs);
    CompileFits(c.m, c.fs, s, e1);
    ReadRight(c.m, c.fs, s, e1);
    UnaryFits(c.m, c.fs, fs1, x, op, ReadExpr(c.m, s, e1));
    var v := Eval(c.m, e1, Begin(c).regs);
    if v.Err? {
      CompileStops(c, e1);
      PrefixStops(c, c.fs, fs1, x, op);
    } else {
      CompileDenotes(c, e1, v.v);
      MinusErr(After(c, e1), fs1, x, v.v);
      SameStops2(c, After(c, e1), Compile(c.m, c.fs, e).0);
    }
  }

  /** What the parts of an operator may assume. */
  lemma PartsReady(c: Ctx, e: Expr)
    requires Ready(c, e) && e.EBin? && Stages(c.m, c.fs, e)
    ensures var (fs1, x1) := Compile(c.m, c.fs, e.lhs);
      var (fs2, y1) := Infix(fs1, e.bop, x1);
      var fs3 := Compile(c.m, fs2, e.rhs).0;
      var c2 := WithSwallowed(c, fs1, e.bop, e.lhs, x1).(fs := fs2);
      && Ready(c, e.lhs) && Clean(c2) && NoLoss(c.m, fs2, e.rhs, c2.wrong) && Consts(c, fs3.k) && Consts(c, fs2.k)
      && !fs3.failed && LocalsIn(e.rhs, fs2.nactvar) && Ready(c2, e.rhs)
  {
    hide Formed, Infix, Posfix, B.Waiting, Fits, NilAbove, FsOk;
    var (op, l, r) := (e.bop, e.lhs, e.rhs);
    var (fs1, x1) := Compile(c.m, c.fs, l);
    var (fs2, y1) := Infix(fs1, op, x1);
    var (fs3, x2) := Compile(c.m, fs2, r);
    InfixConsts(fs1, op, x1);
    CompileConsts(c.m, fs2, r);
    PosfixConsts(c.m, fs3, op, y1, x2);
    CleanLater(c, fs2);
  }

  lemma {:induction false} FirstPartStops(c: Ctx, e: Expr)
    requires Ready(c, e) && Fails(c, e) && e.EBin? && Stages(c.m, c.fs, e) && Fails(c, e.lhs)
    ensures Stops(c, Compile(c.m, c.fs, e).0)
    decreases e, 0
  {
    hide Stops, Infix, Posfix, FsOk, Clean, RunFs, Fits, NilAbove, Formed, B.Waiting, Start, NoLoss, Eval;
    var (op, l, r) := (e.bop, e.lhs, e.rhs);
    var (fs1, x1) := Compile(c.m, c.fs, l);
    var (fs2, y1) := Infix(fs1, op, x1);
    var (fs3, x2) := Compile(c.m, fs2, r);
    PartsReady(c, e);
    CompileStops(c, l);
    InfixStops(c, c.fs, fs1, x1, op);
    var c1 := WithSwallowed(c, fs1, op, l, x1);
    SameStops2(c, c1, fs2);
    RestStops(c1, fs2, r);
    SameStops2(c, c1, fs3);
    PosfixStops(c, c.fs, fs2, y1, fs3, x2, op);
  }

  lemma {:induction false} LogicStops(c: Ctx, e: Expr)
    requires Ready(c, e) && Fails(c, e) && e.EBin? && Stages(c.m, c.fs, e) && (e.bop.AndOp? || e.bop.OrOp?)
    requires Eval(c.m, e.lhs, Begin(c).regs).Ok?
    ensures Stops(c, Compile(c.m, c.fs, e).0)
    decreases e, 0
  {
    hide Stops, Denotes, Guard, GoIfTrue, GoIfFalse, FsOk, Clean, RunFs, Formed, Fits, NilAbove;
    var (op, l, r) := (e.bop, e.lhs, e.rhs);
    var go := op.AndOp?;
    var (fs1, x1) := Compile(c.m, c.fs, l);
    var (fs2, y1) := Infix(fs1, op, x1);
    var c1 := WithSwallowed(c, fs1, op, l, x1);
    var c2 := c1.(fs := fs2);
    PartsReady(c, e);
    InfixConsts(fs1, op, x1);
    var v1 := Eval(c.m, l, Begin(c).regs).v;
    CompileDenotes(c, l, v1);
    MoreWrong(After(c, l), fs1, x1, v1, c1.wrong);
    var list := if go then y1.f else y1.t;
    FirstGuard(c1, fs1, x1, v1, op);
    GuardStart(c1, fs2, list, v1, go);
    assert Truthy(v1) == go && Arrives(c2);
    EvalFrame(c.m, r, c.fs.nactvar, Begin(c).regs, Begin(c2).regs);
    CompileStops(c2, r);
    var (fs3, x2) := Compile(c.m, fs2, r);
    SameStops2(c, c2, fs3);
    SameStops(c, fs3, Posfix(c.m, fs3, op, y1, x2).0);
  }

  lemma SameStops2(c: Ctx, c2: Ctx, fs: Fs)
    requires c2.m == c.m && c2.k == c.k && c2.regs == c.regs
    ensures Stops(c2, fs) <==> Stops(c, fs)
  {
  }

  lemma {:induction false} StrictStops(c: Ctx, e: Expr)
    requires Ready(c, e) && Fails(c, e) && e.EBin? && Stages(c.m, c.fs, e) && !e.bop.AndOp? && !e.bop.OrOp?
    requires Eval(c.m, e.lhs, Begin(c).regs).Ok?
    ensures Stops(c, Compile(c.m, c.fs, e).0)
    decreases e, 0
  {
    hide Stops, Denotes, Exp2RK, CodeArith, CodeComp, FsOk, Clean, RunFs, Formed, Fits, NilAbove;
    var (op, l, r) := (e.bop, e.lhs, e.rhs);
    var (fs1, x1) := Compile(c.m, c.fs, l);
    var (fs2, y1) := Infix(fs1, op, x1);
    var (fs3, x2) := Compile(c.m, fs2, r);
    var c1 := After(c, l);
    var c2 := c1.(fs := fs2);
    PartsReady(c, e);
    assert WithSwallowed(c, fs1, op, l, x1) == c1;
    var v1 := Eval(c.m, l, Begin(c).regs).v;
    CompileDenotes(c, l, v1);
    if !(op.ArithBin? && IsNumeral(x1)) { Exp2RKDenotes(c1, fs1, x1, v1); }
    SecondStart(c1, fs2, y1, v1);
    EvalFrame(c.m, r, c.fs.nactvar, Begin(c).regs, Begin(c2).regs);
    var v2 := Eval(c.m, r, Begin(c).regs);
    if v2.Err? {
      CompileStops(c2, r);
      SameStops2(c, c2, fs3);
      PosfixStops(c, c.fs, fs2, y1, fs3, x2, op);
    } else {
      CompileDenotes(c2, r, v2.v);
      assert After(c2, r).wrong == After(c, e).wrong;
      MoreWrong(c1, fs2, y1, v1, After(c, e).wrong);
      if op.ArithBin? { ArithErr(After(c, e), fs2, y1, v1, fs3, x2, v2.v, op.op); }
      else { CompErr(After(c, e), fs2, y1, v1, fs3, x2, v2.v, op); }
      SameStops2(c, After(c, e), Compile(c.m, c.fs, e).0);
    }
  }

  // ----- the machine -----

  /** Where Exec stops with an error, so does the machine. */
  lemma {:induction false} ExecStops(m: Machine, p: Proto, code: seq<Instr>, pc: int, regs: Regs) returns (n: nat)
    requires code <= p.code && Exec(m, p.k, code, pc, regs) == Stop
    ensures Run(m, p, At(pc, regs), n) == Error
    decreases |code| - pc, 1
  {
    hide Step, Taken, Effect;
    var i := code[pc];
    assert p.code[pc] == i;
    if IsTest(i) {
      n := ExecStopsTest(m, p, code, pc, regs);
      return;
    }
    var n1;
    if i.Jmp? {
      JmpStep(m, p, pc, regs);
      n1 := ExecStops(m, p, code, pc + 1 + i.sbx, regs);
    } else if Effect(m, p.k, i, regs).Fall? {
      PlainStep(m, p, pc, regs);
      n1 := ExecStops(m, p, code, pc + Width(i), Effect(m, p.k, i, regs).regs);
    } else {
      ErrorStep(m, p, pc, regs);
      n1 := 0;
    }
    StepThen(m, p, At(pc, regs), n1);
    n := n1 + 1;
  }

  lemma ErrorStep(m: Machine, p: Proto, pc: int, regs: Regs)
    requires 0 <= pc < |p.code|
    ensures !p.code[pc].Jmp? && !IsTest(p.code[pc]) && Effect(m, p.k, p.code[pc], regs) == Stop ==> Step(m, p, At(pc, regs)) == Error
    ensures IsTest(p.code[pc]) && Taken(p.k, p.code[pc], regs).Err? ==> Step(m, p, At(pc, regs)) == Error
  {
  }

  lemma {:induction false} ExecStopsTest(m: Machine, p: Proto, code: seq<Instr>, pc: int, regs: Regs) returns (n: nat)
    requires code <= p.code && Exec(m, p.k, code, pc, regs) == Stop && 0 <= pc < |code| && IsTest(code[pc])
    ensures Run(m, p, At(pc, regs), n) == Error
    decreases |code| - pc, 0
  {
    hide Step, Taken, Run;
    var i := code[pc];
    assert p.code[pc] == i;
    var t := Taken(p.k, i, regs);
    var n1;
    if t.Err? {
      ErrorStep(m, p, pc, regs);
      n1 := 0;
      NoSteps(m, p, Error);
    } else {
      TestStep(m, p, pc, regs);
      if t.v == Bool(false) {
        n1 := ExecStops(m, p, code, pc + 2, regs);
      } else {
        assert p.code[pc + 1] == code[pc + 1];
        n1 := ExecStops(m, p, code, pc + 2 + code[pc + 1].sbx, Kept(i, regs));
      }
    }
    StepThen(m, p, At(pc, regs), n1);
    n := n1 + 1;
  }

  lemma NoSteps(m: Machine, p: Proto, c: Config)
    ensures Run(m, p, c, 0) == c
  {
  }

  lemma NewFunctionWithin(m: Machine, n: nat, e: Expr)
    requires LocalsIn(e, n) && !ReturnExpr(m, NewFunction(n), e).0.failed
    ensures n <= BITRK && !Compile(m, NewFunction(n), e).0.failed
  {
    hide Compile, Exp2AnyReg, Formed, Fits, Odd, FsOk, D.Settled, ReadExpr;
    NewFunctionFits(n);
    CompileFits(m, NewFunction(n), Fresh, e);
    P.CompileFormed(m, NewFunction(n), e);
    var (fs1, x) := Compile(m, NewFunction(n), e);
    AnyRegFits(m, NewFunction(n), fs1, x);
    var (fs2, y) := Exp2AnyReg(fs1, x);
    EmitFailed(fs2, Return(RegOf(y), 1));
  }

  /** The code of `return e', where `e' has no value: the machine ends in a run-time error. */
  lemma ErrorCorrect(m: Machine, n: nat, e: Expr, regs: Regs) returns (steps: nat)
    requires LocalsIn(e, n) && TextOk(m, e) && !ReturnExpr(m, NewFunction(n), e).0.failed
    requires forall x :: x >= n ==> Read(regs, x) == Nil
    requires Eval(m, e, regs).Err?
    ensures Run(m, Finished(ReturnExpr(m, NewFunction(n), e).0), At(0, regs), steps) == Error
  {
    hide Compile, Exp2AnyReg, FsOk, Emit, NoLoss, Wrong, Unspoilt, Eval, TextOk, Fits, Formed, Stops;
    var fs := NewFunction(n);
    var (fs3, r) := ReturnExpr(m, fs, e);
    var p := Finished(fs3);
    var c := Ctx(m, p.k, fs, regs, true, {});
    NewFunctionOk(m, p.k, n, regs);
    NewFunctionFits(n);
    NewFunctionWithin(m, n, e);
    TextOkExact(m, n, e);
    ReturnConsts(m, fs, e);
    FinishedKeeps(fs3);
    CompileStops(c, e);
    var (fs1, x) := Compile(m, fs, e);
    P.CompileFormed(m, fs, e);
    AnyRegStops(c, fs, fs1, x);
    O.AnyFormed(m, fs, fs1, x);
    var (fs2, y) := Exp2AnyReg(fs1, x);
    FsOkOf(fs, fs2, y);
    FinishedCode(fs2, Return(r, 1));
    StopsIs(c, fs2);
    DischargeRun(m, p.k, fs2, regs);
    steps := ExecStops(m, p, DischargeJpc(fs2).code, 0, regs);
  }
}
