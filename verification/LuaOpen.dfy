/** Every jump without a target is on some list: none is left when an expression is finished. */
module LuaOpen {
  import opened LuaVm
  import opened LuaExec
  import opened LuaEmit
  import opened LuaExp
  import opened LuaClose
  import opened LuaReg
  import opened LuaOperand
  import opened LuaCond
  import opened LuaOps
  import opened LuaBinary
  import opened LuaCompile
  import opened LuaFunc
  import opened LuaForm
  import G = LuaGen
  import opened LuaGen
  import O = LuaGenOps
  import opened LuaGenOps
  import H = LuaGenCond
  import opened LuaGenCond
  import B = LuaGenBinary
  import opened LuaGenBinary
  import opened LuaReturn
  import opened LuaParse
  import opened LuaDriver
  import C = LuaCode
  import opened LuaCode

  /** The open jumps of `fs1' are those of `fs' that were of others, those of `left', and those
      pending to its end. */
  ghost predicate Listed(fs: Fs, used: seq<int>, fs1: Fs, left: seq<int>) {
    forall j :: OpenAt(fs1.code, j) ==> (OpenAt(fs.code, j) && j !in used && j !in fs.jpc) || j in left || j in fs1.jpc
  }

  lemma ListedThen(fs: Fs, used: seq<int>, fs1: Fs, own: seq<int>, fs2: Fs, left: seq<int>)
    requires Listed(fs, used, fs1, own) && Listed(fs1, own, fs2, left)
    ensures Listed(fs, used, fs2, left)
  {
  }

  lemma ListedSame(fs: Fs, used: seq<int>, fs1: Fs, left: seq<int>, fs2: Fs)
    requires Listed(fs, used, fs1, left) && fs2.code == fs1.code && fs2.jpc == fs1.jpc
    ensures Listed(fs, used, fs2, left)
  {
  }

  lemma ListedSelf(fs: Fs, used: seq<int>)
    ensures Listed(fs, used, fs, used)
  {
  }

  lemma ListedMore(fs: Fs, used: seq<int>, fs1: Fs, left: seq<int>, left2: seq<int>)
    requires Listed(fs, used, fs1, left) && forall j :: j in left ==> j in left2
    ensures Listed(fs, used, fs1, left2)
  {
  }

  // ----- emission -----

  lemma DischargeListed(fs: Fs)
    requires PatchList(fs.code, fs.jpc)
    ensures var d := C.DischargeJpc(fs); |d.code| == |fs.code| && forall j :: OpenAt(d.code, j) ==> OpenAt(fs.code, j) && j !in fs.jpc
  {
    var n := |fs.code|;
    PatchListAuxAt(fs, fs.jpc, n, NoReg, n);
    var d := C.DischargeJpc(fs);
    forall j | OpenAt(d.code, j) ensures OpenAt(fs.code, j) && j !in fs.jpc {
      assert d.code[j] == PatchedInstr(fs.code, fs.jpc, n, NoReg, n, j);
    }
  }

  lemma EmitListed(fs: Fs, i: Instr)
    requires PatchList(fs.code, fs.jpc) && !i.Jmp?
    ensures forall used :: Listed(fs, used, Emit(fs, i), used)
  {
    DischargeListed(fs);
    var d := C.DischargeJpc(fs);
    forall j | OpenAt(Emit(fs, i).code, j) ensures OpenAt(fs.code, j) && j !in fs.jpc { assert OpenAt(d.code, j); }
  }

  lemma JumpListed(fs: Fs, used: seq<int>)
    requires FsOk(fs)
    ensures Listed(fs, used, C.Jump(fs).0, used + C.Jump(fs).1)
  {
    JumpOk(fs);
    forall j | OpenAt(C.Jump(fs).0.code, j) && j != |fs.code| ensures OpenAt(fs.code, j) { }
  }

  lemma CondJumpListed(fs: Fs, test: Instr, used: seq<int>)
    requires FsOk(fs) && IsTest(test) && (test.TestSet? ==> test.dest.NoReg?)
    ensures Listed(fs, used, C.CondJump(fs, test).0, used + C.CondJump(fs, test).1)
  {
    DischargeListed(fs);
    CondJumpOk(fs, test);
    var fs2 := C.CondJump(fs, test).0;
    var d := C.DischargeJpc(fs);
    var n := |fs.code|;
    forall j | OpenAt(fs2.code, j) && j != n + 1 ensures OpenAt(fs.code, j) && j !in fs.jpc {
      assert j < n ==> fs2.code[..n][j] == d.code[j];
      assert OpenAt(d.code, j);
    }
  }

  // ----- exp2reg -----

  lemma Discharge2RegListed(fs0: Fs, fs: Fs, e: Exp, reg: int)
    requires Formed0(fs0, fs, e)
    ensures Listed(fs, Own(e), C.Discharge2Reg(fs, e, reg).0, Own(e))
  {
    hide Emit, Listed, C.CodeNil;
    ListedSelf(fs, Own(e));
    match DischargeVars(e).k
    case VNil => NilListed(fs, reg, Own(e));
    case VFalse => EmitListed(fs, LoadBool(reg, false, false));
    case VTrue => EmitListed(fs, LoadBool(reg, true, false));
    case VK(i) => EmitListed(fs, LoadK(reg, i));
    case VKNum(n) =>
      var (fs1, i) := C.AddK(fs, Num(n));
      EmitListed(fs1, LoadK(reg, i));
      ListedFrom(fs1, fs, Own(e), Emit(fs1, LoadK(reg, i)));
    case VReloc(pc) => RelocListed(fs, pc, reg, Own(e));
    case VNonReloc(r) => EmitListed(fs, Move(reg, r));
    case _ =>
  }

  lemma ListedFrom(fs1: Fs, fs: Fs, used: seq<int>, fs2: Fs)
    requires Listed(fs1, used, fs2, used) && fs1.code == fs.code && fs1.jpc == fs.jpc
    ensures Listed(fs, used, fs2, used)
  {
  }

  lemma RelocListed(fs: Fs, pc: int, reg: int, used: seq<int>)
    requires 0 <= pc < |fs.code| && Computes(fs.code[pc])
    ensures Listed(fs, used, fs.(code := fs.code[pc := SetA(fs.code[pc], reg)]), used)
  {
  }

  lemma NilListed(fs: Fs, reg: int, used: seq<int>)
    requires FsOk(fs)
    ensures Listed(fs, used, C.CodeNil(fs, reg), used)
  {
    EmitListed(fs, LoadNil(reg, reg));
    UnfoldNil(fs, reg);
    hide Emit;
    if Mergeable(fs, reg) { MergedListed(fs, reg, used); }
    ListedSelf(fs, used);
  }

  lemma MergedListed(fs: Fs, reg: int, used: seq<int>)
    requires Mergeable(fs, reg)
    ensures Listed(fs, used, Merged(fs, reg), used)
  {
  }

  /** A list that is patched is closed. */
  lemma PatchListed(fs: Fs, list: seq<int>, vtarget: int, reg: Dest, dtarget: int)
    requires PatchList(fs.code, list)
    requires forall j :: j in list ==> j < if Carries(fs.code, j) then vtarget else dtarget
    ensures var d := C.PatchListAux(fs, list, vtarget, reg, dtarget); forall j :: OpenAt(d.code, j) ==> OpenAt(fs.code, j) && j !in list
  {
    PatchListAuxAt(fs, list, vtarget, reg, dtarget);
    var d := C.PatchListAux(fs, list, vtarget, reg, dtarget);
    forall j | OpenAt(d.code, j) ensures OpenAt(fs.code, j) && j !in list {
      assert d.code[j] == PatchedInstr(fs.code, list, vtarget, reg, dtarget, j);
    }
  }

  lemma PatchBothListed(m: Machine, fs: Fs, t: seq<int>, f: seq<int>, reg: int, pf: int)
    requires TwoLists(fs, t, f) && Ready(fs.code, f, reg, pf, false) && Ready(fs.code, t, reg, PlaceTrue(pf), true)
    ensures forall j :: OpenAt(PatchBoth(fs, t, f, reg, pf).code, j) ==> OpenAt(fs.code, j) && j !in t && j !in f
  {
    var n := |fs.code|;
    var fs0 := C.GetLabel(fs);
    forall j | j in t || j in f ensures j < n { assert OpenAt(fs.code, j); }
    PatchListed(fs0, f, n, ToReg(reg), pf);
    PatchKeeps(fs0, f, n, ToReg(reg), pf);
    PatchListAuxAt(fs0, f, n, ToReg(reg), pf);
    var fs1 := C.PatchListAux(fs0, f, n, ToReg(reg), pf);
    OthersKept(fs.code, f, fs1.code, t);
    PatchListed(fs1, t, n, ToReg(reg), PlaceTrue(pf));
  }

  lemma BeforePatchListed(fs: Fs, t: seq<int>, f: seq<int>, reg: int, isJmp: bool)
    requires TwoLists(fs, t, f) && (isJmp ==> fs.jpc == [])
    ensures var p := BeforePatch(fs, t, f, reg, isJmp);
            forall j :: OpenAt(p.code, j) ==> (OpenAt(fs.code, j) && j !in fs.jpc) || j in p.jpc
  {
    hide PatchList, C.NeedValue, WellFormed, Apart, StillOpen, Loads;
    if C.NeedValue(fs.code, t) || C.NeedValue(fs.code, f) {
      var (fs1, fj) := if isJmp then (fs, []) else C.Jump(fs);
      JumpOk(fs);
      LoadBoolsOk(fs1, reg);
      var p := BeforePatch(fs, t, f, reg, isJmp);
      forall j | OpenAt(p.code, j) ensures OpenAt(fs1.code, j) { }
    }
  }

  lemma CloseListed(m: Machine, fs: Fs, t: seq<int>, f: seq<int>, reg: int, isJmp: bool)
    requires TwoLists(fs, t, f) && (isJmp ==> fs.jpc == [] && C.NeedValue(fs.code, t))
    ensures var q := C.CloseLists(fs, t, f, reg, isJmp);
            forall j :: OpenAt(q.code, j) ==> (OpenAt(fs.code, j) && j !in fs.jpc && j !in t && j !in f) || j in q.jpc
  {
    hide BeforePatch, PlaceFalse, FsOk, PatchBoth, PatchList, C.NeedValue, Ready, C.CloseLists, StillOpen;
    var p, pf := BeforePatch(fs, t, f, reg, isJmp), PlaceFalse(fs, t, f, isJmp);
    BeforePatchOk(fs, t, f, reg, isJmp);
    BeforePatchListed(fs, t, f, reg, isJmp);
    if t != [] || f != [] {
      PatchBothListed(m, p, t, f, reg, pf);
      PatchBothRun(m, [], p, t, f, reg, pf, map[]);
    }
  }

  lemma Exp2RegListed(m: Machine, fs0: Fs, fs: Fs, e: Exp, reg: int)
    requires Formed0(fs0, fs, e) && reg >= fs0.freereg && reg >= fs.nactvar
    ensures Listed(fs, Own(e), C.Exp2Reg(fs, e, reg).0, [])
  {
    hide Formed0, C.CloseLists, C.Discharge2Reg;
    Discharged(m, fs0, fs, e, reg);
    Discharge2RegListed(fs0, fs, e, reg);
    var (fs1, e1) := C.Discharge2Reg(fs, e, reg);
    ExpLists(m, fs0, fs1, e1, reg);
    CloseListed(m, fs1, ClosedT(e1), e1.f, reg, e1.k.VJmp?);
    ClosedAll(fs, fs1, C.Exp2Reg(fs, e, reg).0, e, e1);
  }

  lemma ClosedAll(fs: Fs, fs1: Fs, q: Fs, e: Exp, e1: Exp)
    requires Listed(fs, Own(e), fs1, Own(e))
    requires forall j :: OpenAt(q.code, j) ==> (OpenAt(fs1.code, j) && j !in fs1.jpc && j !in ClosedT(e1) && j !in e1.f) || j in q.jpc
    requires e1.t == e.t && e1.f == e.f && (e1.k == e.k || (!e.k.VJmp? && !e1.k.VJmp?))
    ensures Listed(fs, Own(e), q, [])
  {
    forall j | OpenAt(q.code, j) && j !in q.jpc ensures OpenAt(fs.code, j) && j !in Own(e) && j !in fs.jpc {
      assert j !in Own(e) by { assert j !in e.t && j !in e.f; }
    }
  }

  // ----- operands -----

  lemma NextListed(m: Machine, fs0: Fs, fs: Fs, e: Exp)
    requires Formed(fs0, fs, e)
    ensures Listed(fs, Own(e), C.Exp2NextReg(fs, e).0, []) && Own(C.Exp2NextReg(fs, e).1) == []
  {
    hide Formed0, C.Exp2Reg, RegOk, Listed;
    var e1 := DischargeVars(e);
    OwnVars(e);
    NextRegs(fs0, fs, e);
    var fs1 := C.ReserveRegs(C.FreeExp(fs, e1), 1);
    Exp2RegFormed(m, fs0, fs1, e1, fs1.freereg - 1);
    Exp2RegListed(m, fs0, fs1, e1, fs1.freereg - 1);
    ListedFrom2(fs1, fs, Own(e), C.Exp2NextReg(fs, e).0, []);
  }

  lemma ListedFrom2(fs1: Fs, fs: Fs, used: seq<int>, fs2: Fs, left: seq<int>)
    requires Listed(fs1, used, fs2, left) && fs1.code == fs.code && fs1.jpc == fs.jpc
    ensures Listed(fs, used, fs2, left)
  {
  }

  lemma AnyListed(m: Machine, fs0: Fs, fs: Fs, e: Exp)
    requires Formed(fs0, fs, e)
    ensures Listed(fs, Own(e), C.Exp2AnyReg(fs, e).0, []) && Own(C.Exp2AnyReg(fs, e).1) == []
  {
    hide Formed0, C.Exp2Reg, RegOk, C.Exp2NextReg;
    var e1 := DischargeVars(e);
    OwnVars(e);
    DischargedVars(fs0, fs, e);
    if e1.k.VNonReloc? && !HasJumps(e1) {
    } else if e1.k.VNonReloc? && e1.k.r >= fs.nactvar {
      AnyReg(fs0, fs, e1);
      FormedRegs(fs0, fs, e1, fs);
      Exp2RegFormed(m, fs0, fs, e1, e1.k.r);
      Exp2RegListed(m, fs0, fs, e1, e1.k.r);
    } else {
      AnyNext(fs, e);
      NextListed(m, fs0, fs, e);
    }
  }

  lemma RKListed(m: Machine, fs0: Fs, fs: Fs, e: Exp)
    requires Formed(fs0, fs, e)
    ensures Listed(fs, Own(e), C.Exp2RK(fs, e).0, []) && Own(C.Exp2RK(fs, e).1) == []
  {
    hide C.Exp2AnyReg, Formed0, RegOk, Listed;
    var (fs1, e1) := C.Exp2Val(fs, e);
    OwnVars(e);
    ValLater(m, fs0, fs, e);
    RKFormed(m, fs0, fs, e);
    if HasJumps(e) { AnyListed(m, fs0, fs, e); } else { ListedSelf(fs, Own(e)); }
    assert Listed(fs, Own(e), fs1, Own(e1));
    if (e1.k.VKNum? || e1.k.VTrue? || e1.k.VFalse? || e1.k.VNil?) && |fs1.k| <= MAXINDEXRK {
      ListedSame(fs, Own(e), fs1, Own(e1), C.AddK(fs1, Constant(e1.k)).0);
      NoOwn(fs0, C.Exp2RK(fs, e).0, e1);
    } else if e1.k.VK? && e1.k.info <= MAXINDEXRK {
    } else {
      AnyListed(m, fs0, fs1, e1);
      ListedThen(fs, Own(e), fs1, Own(e1), C.Exp2RK(fs, e).0, []);
    }
  }

  lemma NoOwn(fs0: Fs, fs: Fs, e: Exp)
    ensures e.t == [] && e.f == [] && !e.k.VJmp? ==> Own(e) == []
  {
  }

  // ----- conditions -----

  lemma JumpOnCondListed(m: Machine, fs0: Fs, fs: Fs, e: Exp, cond: bool)
    requires Formed(fs0, fs, e) && !e.k.VJmp? && !e.k.VLocal?
    ensures var r := C.JumpOnCond(fs, e, cond); Listed(fs, Own(e), r.0, Own(e) + r.2)
  {
    hide C.CondJump, C.Discharge2AnyReg, Listed;
    FormedFacts(fs0, fs, e);
    if e.k.VReloc? && fs.code[e.k.pc].Not? {
      FormedIs(m, fs0, fs, e);
      DropNot(Shapes(m, fs0), fs, e, Nil);
      var fs1 := fs.(code := fs.code[..e.k.pc]);
      var test := Test(fs.code[e.k.pc].b, !cond);
      CondJumpListed(fs1, test, Own(e));
      DroppedListed(fs, fs1, e.k.pc, Own(e), C.CondJump(fs1, test).0, Own(e) + C.CondJump(fs1, test).1);
    } else {
      AnyRegOpen(m, fs0, fs, e);
      var (fs1, e1) := C.Discharge2AnyReg(fs, e);
      Discharge2AnyListed(fs0, fs, e);
      FormedLists(fs0, fs1, e1);
      FreedSame(fs1, e1);
      var fs2 := C.FreeExp(fs1, e1);
      ListedSame(fs, Own(e), fs1, Own(e), fs2);
      CondJumpListed(fs2, TestSet(NoReg, RegOf(e1), cond), Own(e));
      ListedThen(fs, Own(e), fs2, Own(e), C.JumpOnCond(fs, e, cond).0, Own(e) + C.JumpOnCond(fs, e, cond).2);
    }
  }

  lemma DroppedListed(fs: Fs, fs1: Fs, pc: int, used: seq<int>, fs2: Fs, left: seq<int>)
    requires 0 <= pc < |fs.code| && fs1 == fs.(code := fs.code[..pc]) && Listed(fs1, used, fs2, left)
    ensures Listed(fs, used, fs2, left)
  {
    forall j | OpenAt(fs1.code, j) ensures OpenAt(fs.code, j) { }
  }

  lemma Discharge2AnyListed(fs0: Fs, fs: Fs, e: Exp)
    requires Formed(fs0, fs, e) && !e.k.VJmp?
    ensures Listed(fs, Own(e), C.Discharge2AnyReg(fs, e).0, Own(e))
  {
    hide C.Discharge2Reg, Formed0;
    ListedSelf(fs, Own(e));
    if !e.k.VNonReloc? {
      var fs1 := C.ReserveRegs(fs, 1);
      FormedRegs(fs0, fs, e, fs1);
      Discharge2RegListed(fs0, fs1, e, fs1.freereg - 1);
      ListedFrom2(fs1, fs, Own(e), C.Discharge2AnyReg(fs, e).0, Own(e));
    }
  }

  /** Between the two halves of goiftrue or goiffalse the jumps are those of both lists and the new one. */
  lemma FirstHalfListed(m: Machine, fs0: Fs, fs: Fs, e: Exp, go: bool)
    requires Formed(fs0, fs, e) && !e.k.VK? && !e.k.VLocal?
    ensures var (fs1, list) := FirstHalf(fs, e, go); Listed(fs, Own(e), fs1, e.t + e.f + list)
  {
    hide C.Jump, C.JumpOnCond, C.InvertJump, Listed;
    FormedFacts(fs0, fs, e);
    ListedSelf(fs, Own(e));
    var (fs1, list) := FirstHalf(fs, e, go);
    if (if go then e.k.VKNum? || e.k.VTrue? else e.k.VNil? || e.k.VFalse?) {
      ListedMore(fs, Own(e), fs, Own(e), e.t + e.f + list);
    } else if (if go then e.k.VFalse? else e.k.VTrue?) {
      JumpListed(fs, Own(e));
      ListedMore(fs, Own(e), fs1, Own(e) + list, e.t + e.f + list);
    } else if e.k.VJmp? {
      InvertListed(fs, e, go);
      ListedMore(fs, Own(e), fs1, Own(e), e.t + e.f + list);
    } else {
      JumpOnCondListed(m, fs0, fs, e, !go);
      ListedMore(fs, Own(e), fs1, Own(e) + list, e.t + e.f + list);
    }
  }

  lemma InvertListed(fs: Fs, e: Exp, go: bool)
    ensures Listed(fs, Own(e), if go then C.InvertJump(fs, e) else fs, Own(e))
  {
  }

  lemma GoIfListed(m: Machine, fs0: Fs, fs: Fs, e: Exp, go: bool)
    requires Formed(fs0, fs, e) && !e.k.VK?
    ensures var r := if go then C.GoIfTrue(fs, e) else C.GoIfFalse(fs, e); Listed(fs, Own(e), r.0, if go then r.1.f else r.1.t)
  {
    hide C.GoIfTrue, C.GoIfFalse, FirstHalf;
    var e1 := DischargeVars(e);
    DischargedVars(fs0, fs, e);
    OwnVars(e);
    GoIfIs(m, fs0, fs, e, go);
    FirstHalfListed(m, fs0, fs, e1, go);
  }

  // ----- operators -----

  lemma NotListed(m: Machine, fs0: Fs, fs: Fs, e: Exp)
    requires Formed(fs0, fs, e) && !e.k.VK?
    ensures var (fs2, e2) := C.CodeNot(fs, e); Listed(fs, Own(e), fs2, Own(e2))
  {
    hide C.CodeNot, C.RemoveValues, NotHalf, Formed0;
    var e0 := DischargeVars(e);
    DischargedVars(fs0, fs, e);
    OwnVars(e);
    NotIs(fs, e);
    NotHalfFormed(m, fs0, fs, e0);
    NotHalfListed(m, fs0, fs, e0);
    var (fs1, e1) := NotHalf(fs, e0);
    FormedFacts(fs0, fs1, e1);
    RemoveBoth(fs1, e1);
    RemovedListed(fs, e, fs1, e1, C.CodeNot(fs, e).0, C.CodeNot(fs, e).1);
  }

  lemma RemovedListed(fs: Fs, e: Exp, fs1: Fs, e1: Exp, fs2: Fs, e2: Exp)
    requires Listed(fs, Own(e), fs1, Own(e1)) && |fs2.code| == |fs1.code| && fs2 == fs1.(code := fs2.code) && e2 == e1.(t := e1.f, f := e1.t)
    requires forall i :: 0 <= i < |fs1.code| ==> fs2.code[i] == Plainly(fs1.code, e1, i)
    ensures Listed(fs, Own(e), fs2, Own(e2))
  {
    forall j | OpenAt(fs2.code, j) ensures OpenAt(fs1.code, j) { }
    assert forall j :: j in Own(e1) ==> j in Own(e2);
  }

  lemma NotHalfListed(m: Machine, fs0: Fs, fs: Fs, e: Exp)
    requires Formed(fs0, fs, e) && !e.k.VK? && !e.k.VLocal?
    ensures var (fs1, e1) := NotHalf(fs, e); Listed(fs, Own(e), fs1, Own(e1))
  {
    hide C.Discharge2AnyReg, Emit, C.InvertJump, Listed, Formed0;
    ListedSelf(fs, Own(e));
    if e.k.VJmp? {
      InvertListed(fs, e, true);
    } else if e.k.VReloc? || e.k.VNonReloc? {
      AnyRegOpen(m, fs0, fs, e);
      Discharge2AnyListed(fs0, fs, e);
      var (fs1, e1) := C.Discharge2AnyReg(fs, e);
      FormedLists(fs0, fs1, e1);
      FreedSame(fs1, e1);
      FreedPatch(C.FreeExp(fs1, e1));
      ListedSame(fs, Own(e), fs1, Own(e), C.FreeExp(fs1, e1));
      EmitListed(C.FreeExp(fs1, e1), Not(0, RegOf(e1)));
      ListedThen(fs, Own(e), C.FreeExp(fs1, e1), Own(e), NotHalf(fs, e).0, Own(e));
    }
  }

  lemma MinusListed(m: Machine, fs0: Fs, fs: Fs, e: Exp)
    requires Formed(fs0, fs, e) && !e.k.VK?
    ensures var (fs2, e2) := C.CodeMinus(fs, e); Listed(fs, Own(e), fs2, Own(e2))
  {
    hide C.Exp2RK, Emit, Listed, Formed0, C.FreeExp;
    ListedSelf(fs, Own(e));
    RKListed(m, fs0, fs, e);
    RKFormed(m, fs0, fs, e);
    var (fs1, x) := C.Exp2RK(fs, e);
    OperandState(fs0, fs1, x);
    ListedSame(fs, Own(e), fs1, [], C.FreeExp(fs1, x));
    EmitListed(C.FreeExp(fs1, x), Unm(0, Operand(x)));
    ListedThen(fs, Own(e), C.FreeExp(fs1, x), [], Emit(C.FreeExp(fs1, x), Unm(0, Operand(x))), []);
    if IsNumeral(e) { assert Own(e) == [] && Own(e.(k := VKNum(-e.k.n))) == []; }
  }

  lemma ArithListed(m: Machine, fs0: Fs, fs1: Fs, y: Exp, fs: Fs, e: Exp, op: ArithOp)
    requires Formed(fs0, fs1, y) && (IsOperand(y) || IsNumeral(y)) && Formed(fs1, fs, e)
    ensures var (fs2, x) := C.CodeArith(m, fs, op, y, e); Listed(fs, Own(e), fs2, Own(x))
  {
    hide C.Exp2RK, Emit, Listed, Formed0, C.FreeBoth, C.CodeArith, FsOk;
    ListedSelf(fs, Own(e));
    if Folds(op, y, e) {
      FoldIs(m, fs, op, y, e);
      assert Own(e) == [] && Own(C.CodeArith(m, fs, op, y, e).1) == [];
    } else {
      ArithIs(m, fs, op, y, e);
      RKListed(m, fs1, fs, e);
      RKFormed(m, fs1, fs, e);
      var (fs3, x2) := C.Exp2RK(fs, e);
      FirstListed(m, fs0, fs1, y, fs3, x2);
      var (fs4, x1) := C.Exp2RK(fs3, y);
      ListedThen(fs, Own(e), fs3, [], fs4, []);
      BothFreed(fs4, x1, x2);
      var fs5 := C.FreeBoth(fs4, x1, x2);
      ListedSame(fs, Own(e), fs4, [], fs5);
      EmitListed(fs5, Arith(op, 0, Operand(x1), Operand(x2)));
      ListedThen(fs, Own(e), fs5, [], C.CodeArith(m, fs, op, y, e).0, []);
    }
  }

  lemma FirstListed(m: Machine, fs0: Fs, fs1: Fs, y: Exp, fs: Fs, x: Exp)
    requires Formed(fs0, fs1, y) && (IsOperand(y) || IsNumeral(y)) && Formed(fs1, fs, x)
    ensures Listed(fs, [], C.Exp2RK(fs, y).0, []) && FsOk(C.Exp2RK(fs, y).0)
  {
    hide C.Exp2RK, Formed0;
    if IsOperand(y) {
      OperandStays(fs, y);
      ListedSelf(fs, []);
      FormedFacts(fs1, fs, x);
    } else {
      NumeralFormed(m, fs0, fs1, y, fs, x);
      NumeralOwn(y);
      RKListed(m, fs, fs, y);
      RKFormed(m, fs, fs, y);
      FormedFacts(fs, C.Exp2RK(fs, y).0, C.Exp2RK(fs, y).1);
    }
  }

  lemma CompListed(m: Machine, fs0: Fs, fs1: Fs, y: Exp, fs: Fs, e: Exp, op: BinOp)
    requires Formed(fs0, fs1, y) && IsOperand(y) && Formed(fs1, fs, e) && IsComp(op)
    ensures var (fs2, x) := C.CodeComp(fs, CompOf(op).0, CompOf(op).1, y, e); Listed(fs, Own(e), fs2, Own(x))
  {
    hide C.Exp2RK, C.CondJump, Listed, Formed0, C.FreeExp, C.CodeComp;
    CompIs(fs, op, y, e);
    OperandStays(fs, y);
    RKListed(m, fs1, fs, e);
    RKFormed(m, fs1, fs, e);
    var (fs3, x2) := C.Exp2RK(fs, e);
    OperandState(fs1, fs3, x2);
    FreedSame(C.FreeExp(fs3, x2), y);
    var fs4 := C.FreeExp(C.FreeExp(fs3, x2), y);
    var swap := !CompOf(op).1 && !CompOf(op).0.Eq?;
    var o1, o2 := if swap then Operand(x2) else Operand(y), if swap then Operand(y) else Operand(x2);
    var test := Cmp(CompOf(op).0, CompOf(op).1 || swap, o1, o2);
    ListedSame(fs, Own(e), fs3, [], fs4);
    CondJumpListed(fs4, test, []);
    ListedThen(fs, Own(e), fs4, [], C.CondJump(fs4, test).0, [] + C.CondJump(fs4, test).1);
    var x := C.CodeComp(fs, CompOf(op).0, CompOf(op).1, y, e).1;
    assert Own(x) == [] + C.CondJump(fs4, test).1;
  }

  // ----- expressions -----

  /** The same without the values: the shape of what is generated for an expression. */
  lemma CompileFormed(m: Machine, fs0: Fs, e: Expr)
    requires Settled(fs0) && LocalsIn(e, fs0.nactvar)
    ensures var (fs, x) := C.Compile(m, fs0, e); Formed(fs0, fs, x) && !x.k.VK?
  {
    hide FsOk;
    CompileDenotes(Shapes(m, fs0), e, Nil);
    FormedIs(m, fs0, C.Compile(m, fs0, e).0, C.Compile(m, fs0, e).1);
  }

  lemma InfixFormed(m: Machine, fs0: Fs, fs: Fs, x: Exp, op: BinOp)
    requires Formed(fs0, fs, x) && !x.k.VK?
    ensures var (fs1, y) := C.Infix(fs, op, x); Waiting(fs0, fs1, op, y)
  {
    hide Formed, C.GoIfTrue, C.GoIfFalse, C.Exp2RK, Guard;
    var c := Shapes(m, fs0);
    FormedIs(m, fs0, fs, x);
    match op
    case AndOp => GoIfTrueGuard(c, fs, x, Nil); GuardIs(m, fs0, C.GoIfTrue(fs, x).0, C.GoIfTrue(fs, x).1.f, Nil, true);
    case OrOp => GoIfFalseGuard(c, fs, x, Nil); GuardIs(m, fs0, C.GoIfFalse(fs, x).0, C.GoIfFalse(fs, x).1.t, Nil, false);
    case _ => RKFormed(m, fs0, fs, x);
  }

  /** The jumps a first operand keeps while the second is compiled. */
  function WaitingOwn(op: BinOp, y: Exp): seq<int> {
    match op
    case AndOp => y.f
    case OrOp => y.t
    case _ => []
  }

  lemma InfixListed(m: Machine, fs0: Fs, fs: Fs, x: Exp, op: BinOp)
    requires Formed(fs0, fs, x) && !x.k.VK?
    ensures Listed(fs, Own(x), C.Infix(fs, op, x).0, WaitingOwn(op, C.Infix(fs, op, x).1))
  {
    hide Formed, C.GoIfTrue, C.GoIfFalse, C.Exp2RK;
    match op
    case AndOp => GoIfListed(m, fs0, fs, x, true);
    case OrOp => GoIfListed(m, fs0, fs, x, false);
    case _ =>
      RKListed(m, fs0, fs, x);
      if IsNumeral(x) { NumeralOwn(x); ListedSelf(fs, []); }
  }

  lemma PosfixListed(m: Machine, fs0: Fs, fs1: Fs, y: Exp, fs: Fs, x: Exp, op: BinOp)
    requires Waiting(fs0, fs1, op, y) && Formed(fs1, fs, x)
    ensures var (fs2, z) := C.Posfix(m, fs, op, y, x); Listed(fs, Own(x) + WaitingOwn(op, y), fs2, Own(z))
  {
    hide Formed, C.CodeArith, C.CodeComp, IsOperand, GuardFormed, Listed;
    match op
    case AndOp => LogicListed(fs, x, y.f, true);
    case OrOp => LogicListed(fs, x, y.t, false);
    case ArithBin(aop) => ArithListed(m, fs0, fs1, y, fs, x, aop); assert Own(x) + [] == Own(x);
    case _ => CompListed(m, fs0, fs1, y, fs, x, op); assert Own(x) + [] == Own(x);
  }

  lemma LogicListed(fs: Fs, x: Exp, list: seq<int>, go: bool)
    ensures var x1 := DischargeVars(x);
            Listed(fs, Own(x) + list, fs, Own(if go then x1.(f := x1.f + list) else x1.(t := x1.t + list)))
  {
    OwnVars(x);
    var x1 := DischargeVars(x);
    var z := if go then x1.(f := x1.f + list) else x1.(t := x1.t + list);
    assert forall j :: j in Own(x) + list ==> j in Own(z);
  }

  /** The jumps an expression adds are on its own lists or pending. */
  lemma {:induction false} CompileListed(m: Machine, fs0: Fs, e: Expr)
    requires Settled(fs0) && LocalsIn(e, fs0.nactvar)
    ensures var (fs, x) := C.Compile(m, fs0, e); Listed(fs0, [], fs, Own(x))
    decreases e
  {
    hide Formed, C.Prefix, C.Infix, C.Posfix, Listed, FsOk, Waiting, IsOperand;
    match e
    case EParen(e1) =>
      CompileListed(m, fs0, e1);
      OwnVars(C.Compile(m, fs0, e1).1);
    case EUn(op, e1) =>
      var (fs, x) := C.Compile(m, fs0, e1);
      CompileListed(m, fs0, e1);
      CompileFormed(m, fs0, e1);
      PrefixListed(m, fs0, fs, x, op);
      ListedThen(fs0, [], fs, Own(x), C.Prefix(fs, op, x).0, Own(C.Prefix(fs, op, x).1));
    case EBin(op, l, r) =>
      var (fs1, x1) := C.Compile(m, fs0, l);
      var (fs2, y1) := C.Infix(fs1, op, x1);
      var (fs3, x2) := C.Compile(m, fs2, r);
      CompileListed(m, fs0, l);
      CompileFormed(m, fs0, l);
      InfixFormed(m, fs0, fs1, x1, op);
      InfixListed(m, fs0, fs1, x1, op);
      ListedThen(fs0, [], fs1, Own(x1), fs2, WaitingOwn(op, y1));
      WaitingGrown(fs0, fs2, op, y1);
      CompileListed(m, fs2, r);
      CompileFormed(m, fs2, r);
      ListedBoth(fs0, fs2, WaitingOwn(op, y1), fs3, Own(x2));
      PosfixListed(m, fs0, fs2, y1, fs3, x2, op);
      ListedThen(fs0, [], fs3, Own(x2) + WaitingOwn(op, y1), C.Posfix(m, fs3, op, y1, x2).0, Own(C.Posfix(m, fs3, op, y1, x2).1));
    case _ =>
      ListedSelf(fs0, []);
      ListedMore(fs0, [], fs0, [], Own(C.Compile(m, fs0, e).1));
  }

  lemma ListedBoth(fs0: Fs, fs1: Fs, list: seq<int>, fs2: Fs, own: seq<int>)
    requires Listed(fs0, [], fs1, list) && Listed(fs1, [], fs2, own)
    ensures Listed(fs0, [], fs2, own + list)
  {
  }

  lemma PrefixListed(m: Machine, fs0: Fs, fs: Fs, x: Exp, op: UnOp)
    requires Formed(fs0, fs, x) && !x.k.VK?
    ensures Listed(fs, Own(x), C.Prefix(fs, op, x).0, Own(C.Prefix(fs, op, x).1))
  {
    hide Formed, C.CodeMinus, C.CodeNot;
    if op.Minus? { MinusListed(m, fs0, fs, x); } else { NotListed(m, fs0, fs, x); }
  }

  // ----- return e -----

  /** The finished function has no jump without a target: its threaded code is the code. */
  lemma ReturnClosed(m: Machine, n: nat, e: Expr)
    requires LocalsIn(e, n)
    ensures forall j :: !OpenAt(Finished(ReturnExpr(m, NewFunction(n), e).0).code, j)
  {
    hide C.Compile, C.Exp2AnyReg, Emit, Finished;
    BodyClosed(m, n, e);
    var (fs, x) := C.Compile(m, NewFunction(n), e);
    var (fs2, y) := C.Exp2AnyReg(fs, x);
    FinishedCode(fs2, Return(RegOf(y), 1));
    EmitCode(fs2, Return(RegOf(y), 1));
    ReturnIs(m, n, e, fs, x, fs2, y);
    StillNone(Emit(fs2, Return(RegOf(y), 1)).code, Return(0, 0));
    var d := DischargeJpc(fs2).code;
    assert d + [Return(RegOf(y), 1), Return(0, 0)] == d + [Return(RegOf(y), 1)] + [Return(0, 0)];
  }

  lemma StillNone(code: seq<Instr>, i: Instr)
    requires (forall j :: !OpenAt(code, j)) && !i.Jmp?
    ensures forall j :: !OpenAt(code + [i], j)
  {
    forall j ensures !OpenAt(code + [i], j) {
      assert !OpenAt(code, j);
      if 0 <= j < |code| { assert (code + [i])[j] == code[j]; }
    }
  }

  lemma BodyClosed(m: Machine, n: nat, e: Expr)
    requires LocalsIn(e, n)
    ensures forall j :: !OpenAt(ReturnExpr(m, NewFunction(n), e).0.code, j)
  {
    hide Formed, C.Exp2AnyReg, Emit, FsOk, Listed;
    var fs0 := NewFunction(n);
    NewFunctionOk(m, [], n, map[]);
    var (fs, x) := C.Compile(m, fs0, e);
    CompileFormed(m, fs0, e);
    CompileListed(m, fs0, e);
    AnyListed(m, fs0, fs, x);
    AnyFormed(m, fs0, fs, x);
    var (fs2, y) := C.Exp2AnyReg(fs, x);
    ListedThen(fs0, [], fs, Own(x), fs2, []);
    FormedFacts(fs0, fs2, y);
    EmitListed(fs2, Return(RegOf(y), 1));
    ListedThen(fs0, [], fs2, [], Emit(fs2, Return(RegOf(y), 1)), []);
    NoneOpen(fs0, Emit(fs2, Return(RegOf(y), 1))) by { EmptyJpc(fs2, Return(RegOf(y), 1)); }
  }

  lemma NoneOpen(fs0: Fs, fs: Fs)
    requires Listed(fs0, [], fs, []) && fs0.code == [] && fs.jpc == []
    ensures forall j :: !OpenAt(fs.code, j)
  {
  }

  /** The locals of a tree are those of its text. */
  lemma {:induction false} LocalsOfText(e: Expr, n: int)
    requires LocalToks(Tokens(e), n)
    ensures LocalsIn(e, n)
    decreases e
  {
    match e
    case ELocal(r) => assert Tokens(e)[0] == TkLocal(r);
    case EParen(e1) => PartToks([TkOpen], Tokens(e1), [TkClose], n); LocalsOfText(e1, n);
    case EUn(op, e1) =>
      var h := [if op.NotOp? then TkNot else MinusToken()];
      assert Tokens(e) == h + Tokens(e1) + [];
      PartToks(h, Tokens(e1), [], n);
      LocalsOfText(e1, n);
    case EBin(op, l, r) =>
      assert Tokens(e) == [] + Tokens(l) + ([TkOp(op)] + Tokens(r));
      PartToks([], Tokens(l), [TkOp(op)] + Tokens(r), n);
      assert Tokens(e) == (Tokens(l) + [TkOp(op)]) + Tokens(r) + [];
      PartToks(Tokens(l) + [TkOp(op)], Tokens(r), [], n);
      LocalsOfText(l, n);
      LocalsOfText(r, n);
    case _ =>
  }

  lemma PartToks(a: seq<Token>, b: seq<Token>, c: seq<Token>, n: int)
    requires LocalToks(a + b + c, n)
    ensures LocalToks(b, n)
  {
    forall i | 0 <= i < |b| && b[i].TkLocal? ensures 0 <= b[i].r < n { assert (a + b + c)[|a| + i] == b[i]; }
  }

  lemma SameCode(code: seq<Instr>, acode: seq<Instr>)
    requires CodeRel(code, acode) && forall j :: !OpenAt(acode, j)
    ensures code == acode
  {
    forall i | 0 <= i < |code| ensures code[i] == acode[i] { assert !OpenAt(acode, i); }
  }

  /** A function of `n' parameters with the body `return' and an expression: parsing and generating in
      place gives the code ReturnCorrect is about, for the tree of the text. */
  method CompileReturn(m: Machine, n: nat, toks: seq<Token>) returns (ok: bool, failed: bool, p: Proto)
    requires LocalToks(toks, n)
    ensures ok <==> ParseSub(toks, 0).Some?
    ensures ok ==> var r := ReturnExpr(m, NewFunction(n), ParseSub(toks, 0).tree).0; p == Finished(r) && (r.failed ==> failed)
  {
    hide C.Compile, C.Exp2AnyReg, Untouched, Formed, IsList, FsOk, Emit, ParseSub;
    var s := new FuncState(m, n);
    NewFunctionOk(m, [], n, map[]);
    var parser := new Parser(s, toks);
    var d;
    ghost var e;
    ok, d, e := parser.SubExpr(0);
    failed, p := s.failed, Proto([], [], 0, 0, 0, 0);
    if !ok { return; }
    ghost var tree, fs1 := ParseSub(toks, 0).tree, s.abs;
    AnyFormed(m, NewFunction(n), fs1, e);
    d := O.Exp2AnyReg(s, d, NewFunction(n), e);
    ghost var fs2, y := s.abs, C.Exp2AnyReg(fs1, e).1;
    FormedFacts(NewFunction(n), fs2, y);
    s.Code(Return(d.k.r, 1));
    ReturnIs(m, n, tree, fs1, e, fs2, y);
    assert s.abs == ReturnExpr(m, NewFunction(n), tree).0;
    FinishedCode(fs2, Return(d.k.r, 1));
    EmptyJpc(fs2, Return(d.k.r, 1));
    s.Code(Return(0, 0));
    TextLocals(toks, n);
    ReturnClosed(m, n, tree);
    SameCode(s.code, s.abs.code);
    failed := s.failed;
    p := Proto(s.code, s.k, s.maxstack, 0, 0, |s.code|);
  }

  lemma ReturnIs(m: Machine, n: nat, tree: Expr, fs1: Fs, x: Exp, fs2: Fs, y: Exp)
    requires (fs1, x) == C.Compile(m, NewFunction(n), tree) && (fs2, y) == C.Exp2AnyReg(fs1, x)
    ensures ReturnExpr(m, NewFunction(n), tree) == (Emit(fs2, Return(RegOf(y), 1)), RegOf(y))
  {
    hide C.Compile, C.Exp2AnyReg, Emit;
  }

  lemma TextLocals(toks: seq<Token>, n: int)
    requires LocalToks(toks, n) && ParseSub(toks, 0).Some?
    ensures LocalsIn(ParseSub(toks, 0).tree, n)
  {
    hide ParseSub, Tokens, LocalToks, LocalsIn;
    ParseSound(toks, 0);
    var p := ParseSub(toks, 0);
    assert toks == [] + Tokens(p.tree) + p.rest;
    PartToks([], Tokens(p.tree), p.rest, n);
    LocalsOfText(p.tree, n);
  }
}
