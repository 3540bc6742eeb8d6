/** Expressions as operands: in some register, or as a constant. */
module LuaOperand {
  import opened LuaVm
  import opened LuaCode
  import opened LuaExec
  import opened LuaEmit
  import opened LuaExp
  import opened LuaClose
  import opened LuaReg

  /** The descriptor `e' in state `fs' stands for the value `v', and the registers are accounted for. */
  ghost predicate Denotes(c: Ctx, fs: Fs, e: Exp, v: Value) {
    Denotes0(c, fs, e, v) && RegOk(c.fs, fs, e)
  }

  /** The same, whatever registers are reserved. */
  ghost predicate Denotes0(c: Ctx, fs: Fs, e: Exp, v: Value) {
    FsOk(c.fs) && Clean(c) && 0 <= c.fs.nactvar <= c.fs.freereg && Shape(c.fs, fs, e) && Means(c, fs, e, v)
  }

  /** Only the count of registers differs. */
  predicate RegsOnly(fs: Fs, fs2: Fs) {
    fs2 == fs.(freereg := fs2.freereg, maxstack := fs2.maxstack, failed := fs2.failed)
  }

  lemma Denotes0Regs(c: Ctx, fs: Fs, e: Exp, fs2: Fs, v: Value)
    requires Denotes0(c, fs, e, v) && RegsOnly(fs, fs2)
    ensures Denotes0(c, fs2, e, v)
  {
  }

  lemma Denotes0Vars(c: Ctx, fs: Fs, e: Exp, v: Value)
    requires Denotes0(c, fs, e, v)
    ensures Denotes0(c, fs, DischargeVars(e), v)
  {
    DischargeVarsMeans(c, fs, e, v);
  }

  lemma Exp2RegDenotes(c: Ctx, fs: Fs, e: Exp, v: Value)
    requires Denotes0(c, fs, e, v) && fs.freereg == c.fs.freereg + 1 && Consts(c, Exp2Reg(fs, e, c.fs.freereg).0.k) && Trusted(c, fs.code, e)
    ensures var (fs2, e2) := Exp2Reg(fs, e, c.fs.freereg);
            Denotes(c, fs2, e2, v) && e2 == Exp(VNonReloc(c.fs.freereg), [], [])
  {
    hide Shape, Means, Clean, Exp2Reg, FsOk;
    assert fs.nactvar == c.fs.nactvar by { ShapeVars(c.fs, fs, e); }
    Exp2RegMeans(c, fs, e, c.fs.freereg, v);
    Exp2RegConsts(fs, e, c.fs.freereg);
  }

  lemma ShapeVars(fs0: Fs, fs: Fs, e: Exp)
    requires Shape(fs0, fs, e)
    ensures fs.nactvar == fs0.nactvar && fs0.k <= fs.k
  {
  }

  lemma Exp2NextRegDenotes(c: Ctx, fs: Fs, e: Exp, v: Value)
    requires Denotes(c, fs, e, v) && Consts(c, Exp2NextReg(fs, e).0.k) && Trusted(c, fs.code, e)
    ensures var (fs2, e2) := Exp2NextReg(fs, e); Denotes(c, fs2, e2, v) && e2 == Exp(VNonReloc(c.fs.freereg), [], [])
  {
    hide Denotes0, Exp2Reg;
    var e1 := DischargeVars(e);
    var fs1 := ReserveRegs(FreeExp(fs, e1), 1);
    assert fs.nactvar == c.fs.nactvar by { DenotesVars(c, fs, e, v); }
    Denotes0Vars(c, fs, e, v);
    Denotes0Regs(c, fs, e1, fs1, v);
    Exp2RegDenotes(c, fs1, e1, v);
  }

  lemma DenotesVars(c: Ctx, fs: Fs, e: Exp, v: Value)
    requires Denotes0(c, fs, e, v)
    ensures fs.nactvar == c.fs.nactvar <= c.fs.freereg && 0 <= fs.nactvar && c.fs.k <= fs.k && FsOk(fs) && FsOk(c.fs) && Grown(c.fs, fs) && Clean(c)
    ensures e.k.VK? ==> 0 <= e.k.info < |fs.k|
  {
  }

  predicate InReg(e: Exp) {
    e.k.VNonReloc? && e.t == [] && e.f == []
  }

  lemma Exp2AnyRegDenotes(c: Ctx, fs: Fs, e: Exp, v: Value)
    requires Denotes(c, fs, e, v) && Consts(c, Exp2AnyReg(fs, e).0.k) && Trusted(c, fs.code, e)
    ensures var (fs2, e2) := Exp2AnyReg(fs, e); Denotes(c, fs2, e2, v) && InReg(e2)
  {
    hide Denotes0, Exp2Reg;
    var e1 := DischargeVars(e);
    assert fs.nactvar == c.fs.nactvar by { DenotesVars(c, fs, e, v); }
    Denotes0Vars(c, fs, e, v);
    if e1.k.VNonReloc? && !HasJumps(e1) {
    } else if e1.k.VNonReloc? && e1.k.r >= fs.nactvar {
      Exp2RegDenotes(c, fs, e1, v);
    } else {
      Exp2NextRegDenotes(c, fs, e1, v);
    }
  }

  lemma Exp2ValDenotes(c: Ctx, fs: Fs, e: Exp, v: Value)
    requires Denotes(c, fs, e, v) && Consts(c, Exp2Val(fs, e).0.k) && Trusted(c, fs.code, e)
    ensures var (fs2, e2) := Exp2Val(fs, e); Denotes(c, fs2, e2, v) && !HasJumps(e2) && !e2.k.VLocal?
  {
    hide Denotes0, Exp2AnyReg;
    if HasJumps(e) { Exp2AnyRegDenotes(c, fs, e, v); } else { Denotes0Vars(c, fs, e, v); }
  }

  /** A register or a constant. */
  predicate IsOperand(e: Exp) {
    (e.k.VNonReloc? || (e.k.VK? && e.k.info <= MAXINDEXRK)) && e.t == [] && e.f == []
  }

  lemma ToConstant(c: Ctx, fs: Fs, e: Exp, v: Value)
    requires Denotes(c, fs, e, v) && (e.k.VKNum? || e.k.VTrue? || e.k.VFalse? || e.k.VNil?) && !HasJumps(e)
    requires Consts(c, AddK(fs, Constant(e.k)).0.k)
    ensures var (fs2, i) := AddK(fs, Constant(e.k)); Denotes(c, fs2, e.(k := VK(i)), v)
  {
    var n := Constant(e.k);
    AddKOk(fs, n);
    AddKMeans(c, fs, e, n, v);
    var (fs2, i) := AddK(fs, n);
    assert c.live ==> c.k[i] == n;
    hide FsOk, Exec;
  }

  lemma Exp2RKConsts(fs: Fs, e: Exp)
    ensures Exp2Val(fs, e).0.k <= Exp2RK(fs, e).0.k
    ensures fs.k <= Exp2Val(fs, e).0.k
  {
    hide Exp2Reg;
    var (fs1, e1) := Exp2Val(fs, e);
    Exp2AnyRegConsts(fs, e);
    Exp2AnyRegConsts(fs1, e1);
  }

  lemma Exp2AnyRegConsts(fs: Fs, e: Exp)
    ensures fs.k <= Exp2AnyReg(fs, e).0.k
  {
    hide Exp2Reg;
    var e1 := DischargeVars(e);
    Exp2RegConsts(fs, e1, if e1.k.VNonReloc? then e1.k.r else 0);
    var fs1 := ReserveRegs(FreeExp(fs, e1), 1);
    Exp2RegConsts(fs1, e1, fs1.freereg - 1);
  }

  /** luaK_exp2RK leaves an operand with the value of the expression. */
  lemma Exp2RKDenotes(c: Ctx, fs: Fs, e: Exp, v: Value)
    requires Denotes(c, fs, e, v) && Consts(c, Exp2RK(fs, e).0.k) && Trusted(c, fs.code, e)
    ensures var (fs2, e2) := Exp2RK(fs, e); Denotes(c, fs2, e2, v) && IsOperand(e2)
  {
    hide Denotes, Exp2AnyReg, Exp2Val, AddK;
    Exp2RKConsts(fs, e);
    Exp2ValDenotes(c, fs, e, v);
    var (fs1, e1) := Exp2Val(fs, e);
    if (e1.k.VKNum? || e1.k.VTrue? || e1.k.VFalse? || e1.k.VNil?) && |fs1.k| <= MAXINDEXRK {
      ToConstant(c, fs1, e1, v);
      AddKOk(fs1, Constant(e1.k)) by { DenotesFs(c, fs1, e1, v); }
    } else if e1.k.VK? && e1.k.info <= MAXINDEXRK {
    } else {
      Exp2AnyRegDenotes(c, fs1, e1, v);
    }
  }

  lemma DenotesFs(c: Ctx, fs: Fs, e: Exp, v: Value)
    requires Denotes(c, fs, e, v)
    ensures FsOk(fs)
  {
  }
}
