/** Operands, conditions and operators over the function being compiled. */
module LuaGenOps {
  import opened LuaVm
  import opened LuaExec
  import opened LuaEmit
  import opened LuaExp
  import opened LuaClose
  import opened LuaReg
  import opened LuaOperand
  import opened LuaCond
  import opened LuaOps
  import opened LuaBinary
  import opened LuaCompile
  import opened LuaFunc
  import opened LuaForm
  import G = LuaGen
  import opened LuaGen
  import C = LuaCode
  import opened LuaCode

  // ----- operands -----

  lemma NextRegs(fs0: Fs, fs: Fs, e: Exp)
    requires Formed(fs0, fs, e)
    ensures var e1 := DischargeVars(e); var fs1 := C.ReserveRegs(C.FreeExp(fs, e1), 1);
            Formed0(fs0, fs1, e1) && fs1.freereg - 1 == fs0.freereg >= fs1.nactvar && fs1.code == fs.code && fs1.jpc == fs.jpc
  {
    DischargedVars(fs0, fs, e);
    FormedRegs(fs0, fs, DischargeVars(e), C.ReserveRegs(C.FreeExp(fs, DischargeVars(e)), 1));
  }

  lemma DischargedVars(fs0: Fs, fs: Fs, e: Exp)
    requires Formed(fs0, fs, e)
    ensures Formed(fs0, fs, DischargeVars(e))
  {
  }

  lemma FormedRegs(fs0: Fs, fs: Fs, e: Exp, fs2: Fs)
    requires Formed0(fs0, fs, e) && RegsOnly(fs, fs2)
    ensures Formed0(fs0, fs2, e) && fs2.nactvar == fs0.nactvar
  {
  }

  lemma OwnVars(e: Exp)
    ensures Own(DischargeVars(e)) == Own(e)
  {
  }

  method Exp2NextReg(s: FuncState, d0: ExpDesc, ghost fs0: Fs, ghost e: Exp) returns (d: ExpDesc)
    requires Holds(s, fs0, d0, e)
    modifies s
    ensures var r := C.Exp2NextReg(old(s.abs), e); s.abs == r.0 && Holds(s, fs0, d, r.1) && r.1.k.VNonReloc?
    ensures Untouched(old(s.code), old(s.abs).code, Own(e), old(s.abs).jpc, s.code) && |s.code| >= |old(s.code)|
  {
    hide Formed, Formed0, IsList, Untouched, CodeRel, C.Exp2Reg, C.FreeExp, C.ReserveRegs;
    NextRegs(fs0, s.abs, e);
    NextFormed(s.m, fs0, s.abs, e);
    OwnVars(e);
    var d1 := Vars(d0);
    VarsRep(s.code, d0, e);
    G.FreeExp(s, d1, DischargeVars(e));
    G.ReserveRegs(s, 1);
    d := G.Exp2Reg(s, d1, s.freereg - 1, fs0, DischargeVars(e));
  }

  lemma NextFormed(m: Machine, fs0: Fs, fs: Fs, e: Exp)
    requires Formed(fs0, fs, e)
    ensures var (fs2, e2) := C.Exp2NextReg(fs, e); Formed(fs0, fs2, e2)
  {
    FormedIs(m, fs0, fs, e);
    Exp2NextRegDenotes(Shapes(m, fs0), fs, e, Nil);
    FormedIs(m, fs0, C.Exp2NextReg(fs, e).0, C.Exp2NextReg(fs, e).1);
  }

  lemma AnyFormed(m: Machine, fs0: Fs, fs: Fs, e: Exp)
    requires Formed(fs0, fs, e)
    ensures var (fs2, e2) := C.Exp2AnyReg(fs, e); Formed(fs0, fs2, e2) && InReg(e2)
  {
    FormedIs(m, fs0, fs, e);
    Exp2AnyRegDenotes(Shapes(m, fs0), fs, e, Nil);
    FormedIs(m, fs0, C.Exp2AnyReg(fs, e).0, C.Exp2AnyReg(fs, e).1);
  }

  method Exp2AnyReg(s: FuncState, d0: ExpDesc, ghost fs0: Fs, ghost e: Exp) returns (d: ExpDesc)
    requires Holds(s, fs0, d0, e)
    modifies s
    ensures var r := C.Exp2AnyReg(old(s.abs), e); s.abs == r.0 && Holds(s, fs0, d, r.1) && d.k.VNonReloc?
    ensures Untouched(old(s.code), old(s.abs).code, Own(e), old(s.abs).jpc, s.code) && |s.code| >= |old(s.code)|
  {
    hide Formed0, IsList, Untouched, CodeRel, C.Exp2Reg, C.Exp2NextReg, RegOk;
    ghost var e1 := DischargeVars(e);
    AnyFormed(s.m, fs0, s.abs, e);
    DischargedVars(fs0, s.abs, e);
    FormedFacts(fs0, s.abs, e1);
    OwnVars(e);
    SelfUntouched(s.code, s.abs, Own(e));
    d := Vars(d0);
    VarsRep(s.code, d0, e);
    HeadsDiffer(s.code, d, e1);
    if d.k.VNonReloc? {
      if d.t == d.f { return; }
      if d.k.r >= s.nactvar {
        AnyReg(fs0, s.abs, e1);
        d := G.Exp2Reg(s, d, d.k.r, fs0, e1);
        return;
      }
    }
    AnyNext(s.abs, e);
    d := Exp2NextReg(s, d, fs0, e1);
  }

  lemma AnyReg(fs0: Fs, fs: Fs, e: Exp)
    requires Formed(fs0, fs, e) && e.k.VNonReloc? && e.k.r >= fs.nactvar
    ensures e.k.r == fs0.freereg
  {
  }

  lemma AnyNext(fs: Fs, e: Exp)
    ensures C.Exp2NextReg(fs, DischargeVars(e)) == C.Exp2NextReg(fs, e)
  {
  }

  method Exp2Val(s: FuncState, d0: ExpDesc, ghost fs0: Fs, ghost e: Exp) returns (d: ExpDesc)
    requires Holds(s, fs0, d0, e)
    modifies s
    ensures var r := C.Exp2Val(old(s.abs), e); s.abs == r.0 && Holds(s, fs0, d, r.1)
    ensures Untouched(old(s.code), old(s.abs).code, Own(e), old(s.abs).jpc, s.code) && |s.code| >= |old(s.code)|
  {
    hide Formed0, IsList, Untouched, CodeRel, C.Exp2AnyReg, RegOk;
    FormedFacts(fs0, s.abs, e);
    HeadsDiffer(s.code, d0, e);
    SelfUntouched(s.code, s.abs, Own(e));
    DischargedVars(fs0, s.abs, e);
    VarsRep(s.code, d0, e);
    if d0.t != d0.f { d := Exp2AnyReg(s, d0, fs0, e); } else { d := Vars(d0); }
  }

  lemma RKFormed(m: Machine, fs0: Fs, fs: Fs, e: Exp)
    requires Formed(fs0, fs, e)
    ensures var (fs2, e2) := C.Exp2RK(fs, e); Formed(fs0, fs2, e2) && IsOperand(e2)
  {
    FormedIs(m, fs0, fs, e);
    Exp2RKDenotes(Shapes(m, fs0), fs, e, Nil);
    FormedIs(m, fs0, C.Exp2RK(fs, e).0, C.Exp2RK(fs, e).1);
  }

  function OperandOf(d: ExpDesc): RK {
    match d.k
    case VK(info) => Kst(info)
    case VNonReloc(r) => Reg(r)
    case _ => Reg(0)
  }

  method Exp2RK(s: FuncState, d0: ExpDesc, ghost fs0: Fs, ghost e: Exp) returns (d: ExpDesc, rk: RK)
    requires Holds(s, fs0, d0, e)
    modifies s
    ensures var r := C.Exp2RK(old(s.abs), e); s.abs == r.0 && Holds(s, fs0, d, r.1) && rk == Operand(r.1) && IsOperand(r.1) && d.k == r.1.k
    ensures Untouched(old(s.code), old(s.abs).code, Own(e), old(s.abs).jpc, s.code) && |s.code| >= |old(s.code)|
  {
    hide Formed, IsList, Untouched, CodeRel, C.Exp2AnyReg, C.Exp2Val, RegOk;
    RKFormed(s.m, fs0, s.abs, e);
    ghost var code0, fs := s.code, s.abs;
    d := Exp2Val(s, d0, fs0, e);
    ghost var fs1, e1 := s.abs, C.Exp2Val(fs, e).1;
    if (d.k.VKNum? || d.k.VTrue? || d.k.VFalse? || d.k.VNil?) && |s.k| <= MAXINDEXRK {
      var i := G.AddK(s, Constant(d.k));
      d := d.(k := VK(i));
    } else if d.k.VK? && d.k.info <= MAXINDEXRK {
    } else {
      ghost var code1 := s.code;
      ValLater(s.m, fs0, fs, e);
      d := Exp2AnyReg(s, d, fs0, e1);
      LaterUntouched(fs0, fs, e, fs1, e1, code0, code1, s.code);
    }
    rk := OperandOf(d);
  }

  /** Open jumps that are not of the expression stay open and are not of what comes of it. */
  ghost predicate Later(fs: Fs, fs1: Fs, own: seq<int>, own1: seq<int>) {
    forall j :: OpenAt(fs.code, j) && j !in own && j !in fs.jpc ==> OpenAt(fs1.code, j) && j !in own1 && j !in fs1.jpc
  }

  lemma LaterUntouched(fs0: Fs, fs: Fs, e: Exp, fs1: Fs, e1: Exp, code0: seq<Instr>, code1: seq<Instr>, code2: seq<Instr>)
    requires Untouched(code0, fs.code, Own(e), fs.jpc, code1) && Untouched(code1, fs1.code, Own(e1), fs1.jpc, code2)
    requires Later(fs, fs1, Own(e), Own(e1))
    ensures Untouched(code0, fs.code, Own(e), fs.jpc, code2)
  {
  }

  lemma CloseLater(m: Machine, fs: Fs, t: seq<int>, f: seq<int>, reg: int, isJmp: bool)
    requires TwoLists(fs, t, f) && (isJmp ==> fs.jpc == [] && C.NeedValue(fs.code, t))
    ensures Later(fs, C.CloseLists(fs, t, f, reg, isJmp), t + f, [])
  {
    hide BeforePatch, PlaceFalse, FsOk, PatchBoth, PatchList, C.NeedValue, Ready, C.CloseLists;
    var p, pf := BeforePatch(fs, t, f, reg, isJmp), PlaceFalse(fs, t, f, isJmp);
    BeforePatchOk(fs, t, f, reg, isJmp);
    if t != [] || f != [] {
      PatchBothRun(m, [], p, t, f, reg, pf, map[]);
      LaterTwo(fs, p, PatchBoth(p, t, f, reg, pf), t + f);
    }
  }

  lemma LaterTwo(fs: Fs, p: Fs, q: Fs, list: seq<int>)
    requires StillOpen(fs.code, fs.jpc, p.code) && StillOpen(p.code, list, q.code) && Within(p.jpc, fs) && q.jpc == p.jpc
    ensures Later(fs, q, list, [])
  {
    forall j | OpenAt(fs.code, j) && j !in list && j !in fs.jpc ensures OpenAt(q.code, j) && j !in q.jpc { assert OpenAt(p.code, j); }
  }

  lemma Exp2RegLater(m: Machine, fs0: Fs, fs: Fs, e: Exp, reg: int)
    requires Formed0(fs0, fs, e) && reg >= fs0.freereg && reg >= fs.nactvar
    ensures Later(fs, C.Exp2Reg(fs, e, reg).0, Own(e), [])
  {
    hide Formed0, C.CloseLists, C.Discharge2Reg, StillOpen;
    Discharged(m, fs0, fs, e, reg);
    FormedShape(fs0, fs, e);
    DischargeOpen(fs0, fs, e, reg);
    var (fs1, e1) := C.Discharge2Reg(fs, e, reg);
    ExpLists(m, fs0, fs1, e1, reg);
    CloseLater(m, fs1, ClosedT(e1), e1.f, reg, e1.k.VJmp?);
    RegLater(fs, fs1, C.Exp2Reg(fs, e, reg).0, e, e1);
  }

  lemma RegLater(fs: Fs, fs1: Fs, fs2: Fs, e: Exp, e1: Exp)
    requires StillOpen(fs.code, fs.jpc, fs1.code) && (fs1.jpc == fs.jpc || fs1.jpc == [])
    requires Later(fs1, fs2, ClosedT(e1) + e1.f, [])
    requires e1.t == e.t && e1.f == e.f && (e1.k == e.k || (!e.k.VJmp? && !e1.k.VJmp?))
    ensures Later(fs, fs2, Own(e), [])
  {
    forall j | OpenAt(fs.code, j) && j !in Own(e) && j !in fs.jpc ensures OpenAt(fs2.code, j) && j !in fs2.jpc {
      assert OpenAt(fs1.code, j) && j !in ClosedT(e1) + e1.f;
    }
  }

  lemma AnyLater(m: Machine, fs0: Fs, fs: Fs, e: Exp)
    requires Formed(fs0, fs, e)
    ensures var (fs1, e1) := C.Exp2AnyReg(fs, e); Later(fs, fs1, Own(e), Own(e1)) && Own(e1) == []
  {
    hide Formed0, C.Exp2Reg, RegOk;
    var e1 := DischargeVars(e);
    OwnVars(e);
    DischargedVars(fs0, fs, e);
    NextRegs(fs0, fs, e);
    if e1.k.VNonReloc? && !HasJumps(e1) {
    } else if e1.k.VNonReloc? && e1.k.r >= fs.nactvar {
      AnyReg(fs0, fs, e1);
      FormedRegs(fs0, fs, e1, fs);
      Exp2RegFormed(m, fs0, fs, e1, e1.k.r);
      Exp2RegLater(m, fs0, fs, e1, e1.k.r);
    } else {
      var fs1 := C.ReserveRegs(C.FreeExp(fs, e1), 1);
      Exp2RegFormed(m, fs0, fs1, e1, fs1.freereg - 1);
      Exp2RegLater(m, fs0, fs1, e1, fs1.freereg - 1);
    }
  }

  lemma RKLater(m: Machine, fs0: Fs, fs: Fs, e: Exp)
    requires Formed(fs0, fs, e)
    ensures var (fs1, e1) := C.Exp2RK(fs, e); Later(fs, fs1, Own(e), [])
  {
    hide C.Exp2AnyReg, Formed0, RegOk;
    var (fs1, e1) := C.Exp2Val(fs, e);
    ValLater(m, fs0, fs, e);
    if !((e1.k.VKNum? || e1.k.VTrue? || e1.k.VFalse? || e1.k.VNil?) && |fs1.k| <= MAXINDEXRK) && !(e1.k.VK? && e1.k.info <= MAXINDEXRK) {
      AnyLater(m, fs0, fs1, e1);
    }
  }

  lemma ValLater(m: Machine, fs0: Fs, fs: Fs, e: Exp)
    requires Formed(fs0, fs, e)
    ensures var (fs1, e1) := C.Exp2Val(fs, e); Later(fs, fs1, Own(e), Own(e1)) && Formed(fs0, fs1, e1)
  {
    hide C.Exp2AnyReg, Formed0, RegOk;
    OwnVars(e);
    if HasJumps(e) {
      AnyLater(m, fs0, fs, e);
      AnyFormed(m, fs0, fs, e);
    } else {
      DischargedVars(fs0, fs, e);
      OwnOpen(fs, e);
    }
  }

  lemma OwnOpen(fs: Fs, e: Exp)
    ensures Later(fs, fs, Own(e), Own(e))
  {
  }
}
