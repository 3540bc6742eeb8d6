/** The generated code fits its frame: its registers are below the size of the frame, its constants exist and
    its jumps stay inside. So the bytecode checker accepts it, but for one operand. */
module LuaFits {
  import opened LuaVm
  import opened LuaCode
  import opened LuaExec
  import opened LuaEmit
  import opened LuaExp
  import opened LuaClose
  import opened LuaReg
  import opened LuaOperand
  import opened LuaCond
  import opened LuaOps
  import opened LuaBinary
  import opened LuaCompile
  import opened LuaForm
  import G = LuaGen
  import O = LuaGenOps
  import J = LuaGenCond
  import B = LuaGenBinary
  import D = LuaDriver
  import P = LuaOpen
  import opened LuaReturn
  import opened LuaText
  import C = LuaCheck

  // ----- the invariant -----

  predicate In(r: int, n: int) { 0 <= r < n }

  predicate RKFits(x: RK, ms: int, kn: int) {
    match x
    case Reg(r) => In(r, ms)
    case Kst(i) => In(i, kn)
  }

  /** The operands are inside a frame of `ms' registers and `kn' constants; a constant of the minus is left
      aside. */
  predicate InstrFits(i: Instr, ms: int, kn: int) {
    match i
    case Move(a, b) => In(a, ms) && In(b, ms)
    case LoadK(a, bx) => In(a, ms) && In(bx, kn)
    case LoadBool(a, _, _) => In(a, ms)
    case LoadNil(a, b) => In(a, ms) && In(b, ms)
    case Arith(_, a, b, c) => In(a, ms) && RKFits(b, ms, kn) && RKFits(c, ms, kn)
    case Unm(a, b) => In(a, ms) && RKFits(b, ms, kn)
    case Not(a, b) => In(a, ms) && In(b, ms)
    case Jmp(_) => true
    case Cmp(_, _, b, c) => RKFits(b, ms, kn) && RKFits(c, ms, kn)
    case Test(a, _) => In(a, ms)
    case TestSet(d, b, _) => In(b, ms) && (d.ToReg? ==> In(d.r, ms))
    case ForLoop(_, _) => false
    case ForPrep(_, _) => false
    case Return(a, count) => In(a, ms) && a + count - 1 < ms
  }

  ghost predicate AllFit(code: seq<Instr>, ms: int, kn: int) {
    forall i :: 0 <= i < |code| ==> InstrFits(code[i], ms, kn)
  }

  /** A test knows the register to keep its value in unless its jump is still open. */
  ghost predicate KeptKnown(code: seq<Instr>) {
    forall i :: 0 <= i < |code| - 1 && code[i].TestSet? && code[i].dest.NoReg? ==> OpenAt(code, i + 1)
  }

  ghost predicate CodeFits(code: seq<Instr>, ms: int, kn: int) {
    AllFit(code, ms, kn) && KeptKnown(code)
  }

  predicate FrameFits(fs: Fs) {
    2 <= fs.maxstack && fs.freereg <= fs.maxstack && (fs.failed || fs.maxstack <= MAXSTACK)
  }

  ghost predicate Fits(fs: Fs) {
    CodeFits(fs.code, fs.maxstack, |fs.k|) && FrameFits(fs)
  }

  /** A minus reads a constant as if it were a register. */
  ghost predicate Odd(code: seq<Instr>) {
    exists i :: 0 <= i < |code| && IsOdd(code[i])
  }

  predicate IsOdd(i: Instr) { i.Unm? && i.rb.Kst? }

  /** The frame and the constants only grow, and a limit once exceeded stays exceeded. */
  predicate Wider(fs: Fs, fs': Fs) {
    fs.maxstack <= fs'.maxstack && |fs.k| <= |fs'.k| && (fs.failed ==> fs'.failed)
  }

  /** A step that keeps the invariant, the frame it had, and adds no odd instruction. */
  ghost predicate Keeps(fs: Fs, fs': Fs) {
    && Fits(fs') && (Odd(fs'.code) <==> Odd(fs.code)) && Wider(fs, fs')
  }

  lemma KeepsThen(a: Fs, b: Fs, c: Fs)
    requires Keeps(a, b) && Keeps(b, c)
    ensures Keeps(a, c)
  {
  }

  lemma KeepsSelf(fs: Fs)
    requires Fits(fs)
    ensures Keeps(fs, fs)
  {
  }

  // ----- code -----

  /** The same but for tests that lose or learn their register, jumps that get a target, and operands that
      fit as well. */
  lemma SameOdd(code: seq<Instr>, code': seq<Instr>)
    requires |code'| == |code| && forall i :: 0 <= i < |code| ==> IsOdd(code'[i]) == IsOdd(code[i])
    ensures Odd(code') <==> Odd(code)
  {
    if Odd(code) { var i :| 0 <= i < |code| && IsOdd(code[i]); assert IsOdd(code'[i]); }
    if Odd(code') { var i :| 0 <= i < |code'| && IsOdd(code'[i]); assert IsOdd(code[i]); }
  }

  lemma PatchedFits(code: seq<Instr>, code': seq<Instr>, list: seq<int>, vtarget: int, reg: Dest, dtarget: int, ms: int, kn: int)
    requires CodeFits(code, ms, kn) && PatchList(code, list) && |code'| == |code| && (reg.ToReg? ==> In(reg.r, ms))
    requires forall i :: 0 <= i < |code| ==> code'[i] == PatchedInstr(code, list, vtarget, reg, dtarget, i)
    ensures CodeFits(code', ms, kn) && (Odd(code') <==> Odd(code))
  {
    forall i | 0 <= i < |code| ensures InstrFits(code'[i], ms, kn) && IsOdd(code'[i]) == IsOdd(code[i]) {
      assert InstrFits(code[i], ms, kn);
      if i in list { assert OpenAt(code, i); }
    }
    SameOdd(code, code');
    forall i | 0 <= i < |code'| - 1 && code'[i].TestSet? && code'[i].dest.NoReg? ensures OpenAt(code', i + 1) {
      assert i !in list && i + 1 !in list;
      assert OpenAt(code, i + 1);
    }
  }

  lemma PatchFits(fs: Fs, list: seq<int>, vtarget: int, reg: Dest, dtarget: int)
    requires Fits(fs) && PatchList(fs.code, list) && (reg.ToReg? ==> In(reg.r, fs.maxstack))
    ensures Keeps(fs, PatchListAux(fs, list, vtarget, reg, dtarget))
  {
    PatchListAuxAt(fs, list, vtarget, reg, dtarget);
    PatchFailed(fs, list, vtarget, reg, dtarget);
    PatchedFits(fs.code, PatchListAux(fs, list, vtarget, reg, dtarget).code, list, vtarget, reg, dtarget, fs.maxstack, |fs.k|);
  }

  /** A limit once exceeded stays exceeded. */
  lemma {:induction false} PatchFailed(fs: Fs, list: seq<int>, vtarget: int, reg: Dest, dtarget: int)
    ensures fs.failed ==> PatchListAux(fs, list, vtarget, reg, dtarget).failed
    decreases |list|
  {
    if list != [] { PatchFailed(PatchOne(fs, list[0], vtarget, reg, dtarget), list[1..], vtarget, reg, dtarget); }
  }

  lemma DischargeFits(fs: Fs)
    requires FsOk(fs) && Fits(fs)
    ensures Keeps(fs, DischargeJpc(fs))
  {
    PatchFits(fs, fs.jpc, |fs.code|, NoReg, |fs.code|);
  }

  /** New instructions at the end: one, or a test and its open jump. */
  lemma AppendFits(code: seq<Instr>, ext: seq<Instr>, ms: int, kn: int)
    requires CodeFits(code, ms, kn) && AllFit(ext, ms, kn) && Landing(code, |code|)
    requires KeptKnown(ext)
    ensures CodeFits(code + ext, ms, kn) && (Odd(code + ext) <==> Odd(code) || Odd(ext))
  {
    var all := code + ext;
    forall i | 0 <= i < |all| ensures InstrFits(all[i], ms, kn) {
      if i < |code| { assert all[i] == code[i]; } else { assert all[i] == ext[i - |code|]; }
    }
    forall i | 0 <= i < |all| - 1 && all[i].TestSet? && all[i].dest.NoReg? ensures OpenAt(all, i + 1) {
      if i < |code| - 1 { assert OpenAt(code, i + 1); } else if i >= |code| { assert OpenAt(ext, i - |code| + 1); }
    }
    if Odd(code) { var i :| 0 <= i < |code| && IsOdd(code[i]); assert IsOdd(all[i]); }
    if Odd(ext) { var i :| 0 <= i < |ext| && IsOdd(ext[i]); assert IsOdd(all[|code| + i]); }
    if Odd(all) {
      var i :| 0 <= i < |all| && IsOdd(all[i]);
      if i < |code| { assert IsOdd(code[i]); } else { assert IsOdd(ext[i - |code|]); }
    }
  }

  lemma OneFits(i: Instr, ms: int, kn: int)
    requires InstrFits(i, ms, kn)
    ensures AllFit([i], ms, kn) && KeptKnown([i]) && (Odd([i]) <==> IsOdd(i))
  {
    assert [i][0] == i;
  }

  lemma EmitFits(fs: Fs, i: Instr)
    requires FsOk(fs) && Fits(fs) && InstrFits(i, fs.maxstack, |fs.k|)
    ensures var fs' := Emit(fs, i);
      && Fits(fs') && fs'.maxstack == fs.maxstack && fs'.k == fs.k && fs'.freereg == fs.freereg && (fs.failed ==> fs'.failed)
      && (Odd(fs'.code) <==> Odd(fs.code) || IsOdd(i))
  {
    DischargeOk(fs);
    DischargeFits(fs);
    var d := DischargeJpc(fs);
    LastNoTest(d.code, d.lasttarget);
    OneFits(i, fs.maxstack, |fs.k|);
    AppendFits(d.code, [i], fs.maxstack, |fs.k|);
  }

  lemma EmitKeeps(fs: Fs, i: Instr)
    requires FsOk(fs) && Fits(fs) && InstrFits(i, fs.maxstack, |fs.k|) && !IsOdd(i)
    ensures Keeps(fs, Emit(fs, i))
  {
    EmitFits(fs, i);
  }

  lemma JumpFits(fs: Fs)
    requires FsOk(fs) && Fits(fs)
    ensures Keeps(fs, Jump(fs).0)
  {
    JumpOk(fs);
    LastNoTest(fs.code, fs.lasttarget);
    OneFits(Jmp(NO_JUMP), fs.maxstack, |fs.k|);
    AppendFits(fs.code, [Jmp(NO_JUMP)], fs.maxstack, |fs.k|);
    JumpFields(fs);
  }

  lemma JumpFields(fs: Fs)
    ensures var p := Jump(fs).0; p.maxstack == fs.maxstack && p.k == fs.k && p.freereg == fs.freereg && p.failed == fs.failed
  {
    PatchListAuxFields(fs.(jpc := []), [], |fs.code|, NoReg, |fs.code|);
  }

  lemma TestFits(test: Instr, ms: int, kn: int)
    requires InstrFits(test, ms, kn) && IsTest(test)
    ensures var ext := [test, Jmp(NO_JUMP)]; AllFit(ext, ms, kn) && KeptKnown(ext) && !Odd(ext)
  {
    var ext := [test, Jmp(NO_JUMP)];
    assert ext[0] == test && ext[1] == Jmp(NO_JUMP) && OpenAt(ext, 1);
  }

  lemma CondJumpFits(fs: Fs, test: Instr)
    requires FsOk(fs) && Fits(fs) && IsTest(test) && (test.TestSet? ==> test.dest.NoReg?) && InstrFits(test, fs.maxstack, |fs.k|)
    ensures Keeps(fs, CondJump(fs, test).0)
  {
    hide WellFormed, OpenUnkept, PatchList, ConstsOk, StillOpen, AllFit, KeptKnown, Odd, CondJump, CodeFits, DischargeJpc;
    CondCode(fs, test);
    DischargeOk(fs);
    DischargeFits(fs);
    TestFits(test, fs.maxstack, |fs.k|);
    var d := DischargeJpc(fs);
    LastNoTest(d.code, d.lasttarget);
    AppendFits(d.code, [test, Jmp(NO_JUMP)], fs.maxstack, |fs.k|);
    CondFailed(fs, test);
  }

  lemma CondCode(fs: Fs, test: Instr)
    requires FsOk(fs) && IsTest(test) && (test.TestSet? ==> test.dest.NoReg?)
    ensures var p := CondJump(fs, test).0;
      p.code == DischargeJpc(fs).code + [test, Jmp(NO_JUMP)] && p == fs.(code := p.code, jpc := [], failed := p.failed)
  {
    CondJumpOk(fs, test);
    hide CondJump, DischargeJpc, FsOk;
    var p, n := CondJump(fs, test).0, |fs.code|;
    assert p.code == p.code[..n] + [p.code[n], p.code[n + 1]];
  }

  lemma CondFailed(fs: Fs, test: Instr)
    ensures DischargeJpc(fs).failed ==> CondJump(fs, test).0.failed
  {
    EmitEntered(fs, test);
    JumpFields(Emit(fs, test));
  }

  // ----- registers and constants -----

  lemma RegsFit(fs: Fs, n: int)
    requires Fits(fs) && n >= 0
    ensures Keeps(fs, ReserveRegs(fs, n)) && ReserveRegs(fs, n).freereg == fs.freereg + n
  {
    var fs' := ReserveRegs(fs, n);
    WiderFits(fs.code, fs.maxstack, |fs.k|, fs'.maxstack, |fs.k|);
  }

  lemma WiderFits(code: seq<Instr>, ms: int, kn: int, ms': int, kn': int)
    requires CodeFits(code, ms, kn) && ms <= ms' && kn <= kn'
    ensures CodeFits(code, ms', kn')
  {
    forall i | 0 <= i < |code| ensures InstrFits(code[i], ms', kn') { assert InstrFits(code[i], ms, kn); }
  }

  lemma FreedFits(fs: Fs, fs': Fs)
    requires Fits(fs) && fs' == fs.(freereg := fs'.freereg) && fs'.freereg <= fs.freereg
    ensures Keeps(fs, fs')
  {
  }

  lemma AddKFits(fs: Fs, v: Value)
    requires FsOk(fs) && Fits(fs)
    ensures Keeps(fs, AddK(fs, v).0) && In(AddK(fs, v).1, |AddK(fs, v).0.k|)
  {
    AddKOk(fs, v);
    WiderFits(fs.code, fs.maxstack, |fs.k|, fs.maxstack, |AddK(fs, v).0.k|);
  }

  predicate KindFits(fs: Fs, k: Kind) {
    match k
    case VK(i) => In(i, |fs.k|)
    case VLocal(r) => In(r, fs.maxstack)
    case VNonReloc(r) => In(r, fs.maxstack)
    case _ => true
  }

  /** A value in a register is in one that was reserved. */
  lemma FormedFits(fs0: Fs, fs: Fs, e: Exp)
    requires Formed(fs0, fs, e) && Fits(fs)
    ensures KindFits(fs, e.k)
  {
  }

  // ----- putting a value in a register -----

  lemma CodeNilFits(fs: Fs, reg: int)
    requires FsOk(fs) && Fits(fs) && In(reg, fs.maxstack)
    ensures Keeps(fs, CodeNil(fs, reg))
  {
    EmitKeeps(fs, LoadNil(reg, reg));
    hide Emit;
    var n := |fs.code|;
    if n > 0 && fs.code[n - 1].LoadNil? {
      OneChanged(fs, n - 1, LoadNil(fs.code[n - 1].a, reg));
    }
  }

  lemma OneChanged(fs: Fs, pc: int, i: Instr)
    requires Fits(fs) && 0 <= pc < |fs.code| && InstrFits(i, fs.maxstack, |fs.k|)
    requires IsOdd(i) == IsOdd(fs.code[pc]) && !i.Jmp? && !fs.code[pc].Jmp? && !i.TestSet?
    ensures Keeps(fs, fs.(code := fs.code[pc := i]))
  {
    var code' := fs.code[pc := i];
    forall j | 0 <= j < |code'| ensures InstrFits(code'[j], fs.maxstack, |fs.k|) { assert InstrFits(fs.code[j], fs.maxstack, |fs.k|); }
    forall j | 0 <= j < |code'| - 1 && code'[j].TestSet? && code'[j].dest.NoReg? ensures OpenAt(code', j + 1) {
      assert OpenAt(fs.code, j + 1);
    }
    SameOdd(fs.code, code');
  }

  lemma Discharge2RegFits(fs0: Fs, fs: Fs, e: Exp, reg: int)
    requires Formed0(fs0, fs, e) && Fits(fs) && KindFits(fs, e.k) && In(reg, fs.maxstack)
    ensures Keeps(fs, Discharge2Reg(fs, e, reg).0)
  {
    hide Emit, CodeNil;
    KeepsSelf(fs);
    CodeNilFits(fs, reg);
    EmitKeeps(fs, LoadBool(reg, false, false));
    EmitKeeps(fs, LoadBool(reg, true, false));
    var e1 := DischargeVars(e);
    match e1.k {
      case VK(i) => EmitKeeps(fs, LoadK(reg, i));
      case VKNum(n) =>
        AddKFits(fs, Num(n));
        AddKOk(fs, Num(n));
        var (fs1, i) := AddK(fs, Num(n));
        EmitKeeps(fs1, LoadK(reg, i));
        KeepsThen(fs, fs1, Emit(fs1, LoadK(reg, i)));
      case VNonReloc(r) => EmitKeeps(fs, Move(reg, r));
      case VReloc(pc) => RelocFits(fs, pc, reg);
      case _ =>
    }
  }

  lemma RelocFits(fs: Fs, pc: int, reg: int)
    requires Fits(fs) && 0 <= pc < |fs.code| && Computes(fs.code[pc]) && In(reg, fs.maxstack)
    ensures Keeps(fs, fs.(code := fs.code[pc := SetA(fs.code[pc], reg)]))
  {
    assert InstrFits(fs.code[pc], fs.maxstack, |fs.k|);
    OneChanged(fs, pc, SetA(fs.code[pc], reg));
  }

  lemma CloseListsFits(fs: Fs, t: seq<int>, f: seq<int>, reg: int, isJmp: bool)
    requires TwoLists(fs, t, f) && (isJmp ==> fs.jpc == [] && NeedValue(fs.code, t)) && Fits(fs) && In(reg, fs.maxstack)
    ensures Keeps(fs, CloseLists(fs, t, f, reg, isJmp))
  {
    hide NeedValue, PatchList, StillOpen, PatchBoth, FsOk, Emit, CloseLists, BeforePatch;
    KeepsSelf(fs);
    BeforePatchOk(fs, t, f, reg, isJmp);
    BeforePatchFits(fs, t, f, reg, isJmp);
    var p, pf := BeforePatch(fs, t, f, reg, isJmp), PlaceFalse(fs, t, f, isJmp);
    if t != [] || f != [] {
      PatchBothFits(p, t, f, reg, pf);
      KeepsThen(fs, p, PatchBoth(p, t, f, reg, pf));
    }
  }

  lemma BeforePatchFits(fs: Fs, t: seq<int>, f: seq<int>, reg: int, isJmp: bool)
    requires FsOk(fs) && (isJmp ==> fs.jpc == []) && Fits(fs) && In(reg, fs.maxstack)
    ensures Keeps(fs, BeforePatch(fs, t, f, reg, isJmp))
  {
    hide NeedValue;
    KeepsSelf(fs);
    if NeedValue(fs.code, t) || NeedValue(fs.code, f) {
      JumpOk(fs);
      JumpFits(fs);
      var fs1 := if isJmp then fs else Jump(fs).0;
      LoadBoolsFits(fs1, reg);
    }
  }

  lemma LoadBoolsFits(fs: Fs, reg: int)
    requires FsOk(fs) && fs.jpc == [] && Fits(fs) && In(reg, fs.maxstack)
    ensures Keeps(fs, LoadBools(fs, reg))
  {
    LoadBoolsOk(fs, reg);
    var a, b := LoadBool(reg, false, true), LoadBool(reg, true, false);
    assert [a, b][0] == a && [a, b][1] == b;
    LastNoTest(fs.code, fs.lasttarget);
    AppendFits(fs.code, [a, b], fs.maxstack, |fs.k|);
  }

  lemma PatchBothFits(p: Fs, t: seq<int>, f: seq<int>, reg: int, pf: int)
    requires TwoLists(p, t, f) && Fits(p) && In(reg, p.maxstack)
    ensures Keeps(p, PatchBoth(p, t, f, reg, pf))
  {
    var n := |p.code|;
    var p0 := GetLabel(p);
    var p1 := PatchListAux(p0, f, n, ToReg(reg), pf);
    PatchFits(p0, f, n, ToReg(reg), pf);
    PatchListAuxAt(p0, f, n, ToReg(reg), pf);
    StillList(p.code, p1.code, f, t, n, ToReg(reg), pf);
    PatchFits(p1, t, n, ToReg(reg), PlaceTrue(pf));
  }

  lemma StillList(code: seq<Instr>, code': seq<Instr>, f: seq<int>, t: seq<int>, vtarget: int, reg: Dest, dtarget: int)
    requires PatchList(code, t) && PatchList(code, f) && Apart(t, f) && |code'| == |code|
    requires forall i :: 0 <= i < |code| ==> code'[i] == PatchedInstr(code, f, vtarget, reg, dtarget, i)
    ensures PatchList(code', t)
  {
    forall i | i in t ensures OpenAt(code', i) { assert OpenAt(code, i); }
  }

  lemma Exp2RegFits(m: Machine, fs0: Fs, fs: Fs, e: Exp, reg: int)
    requires Formed0(fs0, fs, e) && Fits(fs) && KindFits(fs, e.k) && reg >= fs0.freereg && reg >= fs.nactvar && In(reg, fs.maxstack)
    ensures Keeps(fs, Exp2Reg(fs, e, reg).0)
  {
    hide Formed0, CloseLists, Discharge2Reg, TwoLists, NeedValue, Fits;
    G.Discharged(m, fs0, fs, e, reg);
    Discharge2RegFits(fs0, fs, e, reg);
    var (fs1, e1) := Discharge2Reg(fs, e, reg);
    G.ExpLists(m, fs0, fs1, e1, reg);
    CloseListsFits(fs1, G.ClosedT(e1), e1.f, reg, e1.k.VJmp?);
    KeepsThen(fs, fs1, Exp2Reg(fs, e, reg).0);
  }

  lemma AnyRegFits(m: Machine, fs0: Fs, fs: Fs, e: Exp)
    requires Formed(fs0, fs, e) && Fits(fs)
    ensures Keeps(fs, Exp2AnyReg(fs, e).0)
  {
    hide Exp2Reg, Formed0, Fits, RegOk;
    KeepsSelf(fs);
    FormedFits(fs0, fs, e);
    O.NextRegs(fs0, fs, e);
    O.DischargedVars(fs0, fs, e);
    var e1 := DischargeVars(e);
    if HasJumps(e) || !e1.k.VNonReloc? {
      if e1.k.VNonReloc? && e1.k.r >= fs.nactvar {
        O.AnyReg(fs0, fs, e1);
        Exp2RegFits(m, fs0, fs, e1, e1.k.r);
      } else {
        NextFits(m, fs0, fs, e1);
      }
    }
  }

  lemma NextFits(m: Machine, fs0: Fs, fs: Fs, e: Exp)
    requires Formed(fs0, fs, e) && Fits(fs) && KindFits(fs, e.k)
    ensures Keeps(fs, Exp2NextReg(fs, e).0)
  {
    hide Exp2Reg, Formed, Formed0, CodeFits;
    O.NextRegs(fs0, fs, e);
    var e1 := DischargeVars(e);
    var fs1 := FreeExp(fs, e1);
    FreedFits(fs, fs1);
    RegsFit(fs1, 1);
    var fs2 := ReserveRegs(fs1, 1);
    KeepsThen(fs, fs1, fs2);
    Exp2RegFits(m, fs0, fs2, e1, fs2.freereg - 1);
    KeepsThen(fs, fs2, Exp2NextReg(fs, e).0);
  }

  // ----- operands -----

  /** An operand that fits: a register in use, or a constant. */
  predicate OperandFits(fs: Fs, x: Exp) { RKFits(Operand(x), fs.maxstack, |fs.k|) }

  lemma Exp2RKFits(m: Machine, fs0: Fs, fs: Fs, e: Exp)
    requires Formed(fs0, fs, e) && Fits(fs)
    ensures var (fs1, x) := Exp2RK(fs, e); Keeps(fs, fs1) && OperandFits(fs1, x)
  {
    hide Exp2AnyReg, Formed0, RegOk, Fits, CodeFits;
    O.RKFormed(m, fs0, fs, e);
    AnyRegFits(m, fs0, fs, e);
    O.AnyFormed(m, fs0, fs, e);
    var (fs1, e1) := Exp2Val(fs, e);
    if HasJumps(e) {
      InRegStays(fs1, e1);
    } else {
      KeepsSelf(fs);
      O.DischargedVars(fs0, fs, e);
      AnyRegFits(m, fs0, fs, e1);
      FsOkOf(fs0, fs, e);
      AddKFits(fs, Constant(e1.k));
    }
    OperandIn(fs0, Exp2RK(fs, e).0, Exp2RK(fs, e).1);
  }

  lemma FsOkOf(fs0: Fs, fs: Fs, e: Exp)
    requires Formed(fs0, fs, e)
    ensures FsOk(fs) && fs.nactvar == fs0.nactvar <= fs0.freereg <= fs.freereg
  {
  }

  lemma OperandIn(fs0: Fs, fs: Fs, x: Exp)
    requires Formed(fs0, fs, x) && Fits(fs) && IsOperand(x)
    ensures OperandFits(fs, x)
  {
    FormedFits(fs0, fs, x);
  }

  lemma FreeFits(fs: Fs, x: Exp)
    requires Fits(fs)
    ensures Keeps(fs, FreeExp(fs, x)) && FreeExp(fs, x) == fs.(freereg := FreeExp(fs, x).freereg)
  {
    FreedFits(fs, FreeExp(fs, x));
  }

  // ----- operators -----

  lemma MinusFits(m: Machine, fs0: Fs, fs: Fs, e: Exp, r: Reading)
    requires Formed(fs0, fs, e) && Fits(fs) && TextIs(fs, e, r.x) && PlaceIs(fs, r.s) && !e.k.VK?
    ensures var fs2 := CodeMinus(fs, e).0;
      && Fits(fs2) && (Odd(fs2.code) <==> Odd(fs.code) || (!IsNumeral(e) && OddOperand(r)))
  {
    hide Exp2RK, Emit, Formed, Fits, Odd, FreeExp;
    BareText(fs, e, r.x);
    if !IsNumeral(e) {
      Exp2RKFits(m, fs0, fs, e);
      var (fs1, x) := Exp2RK(fs, e);
      MinusOperand(m, fs0, fs, e, r);
      O.RKFormed(m, fs0, fs, e);
      FsOkOf(fs0, fs1, x);
      J.FreedSame(fs1, x);
      FreeFits(fs1, x);
      FrameAtLeastTwo(FreeExp(fs1, x));
      EmitFits(FreeExp(fs1, x), Unm(0, Operand(x)));
    }
  }

  lemma FrameAtLeastTwo(fs: Fs)
    requires Fits(fs)
    ensures 2 <= fs.maxstack
  {
  }

  /** The minus gets a constant exactly for a literal that is no number. */
  lemma MinusOperand(m: Machine, fs0: Fs, fs: Fs, e: Exp, r: Reading)
    requires Formed(fs0, fs, e) && TextIs(fs, e, r.x) && PlaceIs(fs, r.s) && !e.k.VK? && !IsNumeral(e)
    ensures Operand(Exp2RK(fs, e).1).Kst? <==> OddOperand(r)
  {
    hide Exp2AnyReg, Formed0, RegOk;
    BareText(fs, e, r.x);
    O.AnyFormed(m, fs0, fs, e);
    if HasJumps(e) {
      InRegStays(Exp2AnyReg(fs, e).0, Exp2AnyReg(fs, e).1);
    } else {
      O.DischargedVars(fs0, fs, e);
      O.AnyFormed(m, fs0, fs, DischargeVars(e));
    }
  }

  lemma InvertFits(fs0: Fs, fs: Fs, e: Exp)
    requires Formed(fs0, fs, e) && Fits(fs) && e.k.VJmp?
    ensures Keeps(fs, InvertJump(fs, e))
  {
    var i := fs.code[e.k.pc - 1];
    assert InstrFits(i, fs.maxstack, |fs.k|);
    OneChanged(fs, e.k.pc - 1, Cmp(i.cop, !i.cond, i.rb, i.rc));
  }

  lemma Discharge2AnyRegFits(m: Machine, fs0: Fs, fs: Fs, e: Exp)
    requires Formed(fs0, fs, e) && Fits(fs) && !e.k.VJmp? && !e.k.VLocal?
    ensures var (fs1, e1) := Discharge2AnyReg(fs, e); Keeps(fs, fs1) && Formed(fs0, fs1, e1) && In(RegOf(e1), fs1.maxstack)
  {
    hide Discharge2Reg, Formed0, Fits, RegOk;
    J.AnyRegOpen(m, fs0, fs, e);
    FormedFits(fs0, fs, e);
    KeepsSelf(fs);
    if !e.k.VNonReloc? {
      FsOkOf(fs0, fs, e);
      RegsFit(fs, 1);
      var fs1 := ReserveRegs(fs, 1);
      FrameOf(fs1);
      O.FormedRegs(fs0, fs, e, fs1);
      Discharge2RegFits(fs0, fs1, e, fs1.freereg - 1);
      KeepsThen(fs, fs1, Discharge2AnyReg(fs, e).0);
    }
    KeepsFits(fs, Discharge2AnyReg(fs, e).0);
    FormedFits(fs0, Discharge2AnyReg(fs, e).0, Discharge2AnyReg(fs, e).1);
  }

  lemma FrameOf(fs: Fs)
    requires Fits(fs)
    ensures fs.freereg <= fs.maxstack
  {
  }

  lemma KeepsFits(fs: Fs, fs': Fs)
    requires Keeps(fs, fs')
    ensures Fits(fs')
  {
  }

  lemma NotHalfFits(m: Machine, fs0: Fs, fs: Fs, e: Exp)
    requires Formed(fs0, fs, e) && Fits(fs) && !e.k.VK? && !e.k.VLocal?
    ensures Keeps(fs, B.NotHalf(fs, e).0)
  {
    hide Emit, Formed, Discharge2AnyReg, Fits, InvertJump, FreeExp;
    KeepsSelf(fs);
    if e.k.VJmp? {
      InvertFits(fs0, fs, e);
    } else if e.k.VReloc? || e.k.VNonReloc? {
      Discharge2AnyRegFits(m, fs0, fs, e);
      var (fs1, e1) := Discharge2AnyReg(fs, e);
      FsOkOf(fs0, fs1, e1);
      J.FreedSame(fs1, e1);
      KeepsFits(fs, fs1);
      FreeFits(fs1, e1);
      FrameAtLeastTwo(FreeExp(fs1, e1));
      EmitKeeps(FreeExp(fs1, e1), Not(0, RegOf(e1)));
      KeepsThen(fs, fs1, FreeExp(fs1, e1));
      KeepsThen(fs, FreeExp(fs1, e1), B.NotHalf(fs, e).0);
    }
  }

  lemma RemovedFits(fs: Fs, e: Exp, fs': Fs)
    requires Fits(fs) && ExOk(fs, e) && |fs'.code| == |fs.code| && fs' == fs.(code := fs'.code)
    requires forall i :: 0 <= i < |fs.code| ==> fs'.code[i] == Plainly(fs.code, e, i)
    ensures Keeps(fs, fs')
  {
    forall i | 0 <= i < |fs.code| ensures InstrFits(fs'.code[i], fs.maxstack, |fs.k|) && IsOdd(fs'.code[i]) == IsOdd(fs.code[i]) {
      assert InstrFits(fs.code[i], fs.maxstack, |fs.k|);
    }
    SameOdd(fs.code, fs'.code);
    forall i | 0 <= i < |fs'.code| - 1 && fs'.code[i].TestSet? && fs'.code[i].dest.NoReg? ensures OpenAt(fs'.code, i + 1) {
      assert OpenAt(fs.code, i + 1);
    }
  }

  lemma NotFits(m: Machine, fs0: Fs, fs: Fs, e0: Exp)
    requires Formed(fs0, fs, e0) && Fits(fs) && !e0.k.VK?
    ensures Keeps(fs, CodeNot(fs, e0).0)
  {
    hide RemoveValues, Formed, B.NotHalf, CodeNot, Fits;
    var e := DischargeVars(e0);
    O.DischargedVars(fs0, fs, e0);
    B.NotIs(fs, e0);
    B.NotHalfFormed(m, fs0, fs, e);
    NotHalfFits(m, fs0, fs, e);
    var (fs1, e1) := B.NotHalf(fs, e);
    HasLists(fs0, fs1, e1);
    RemoveBoth(fs1, e1);
    KeepsFits(fs, fs1);
    RemovedFits(fs1, e1, RemoveValues(RemoveValues(fs1, e1.t), e1.f));
    KeepsThen(fs, fs1, CodeNot(fs, e0).0);
  }

  lemma CondFits(m: Machine, fs0: Fs, fs: Fs, e: Exp, cond: bool)
    requires Formed(fs0, fs, e) && Fits(fs) && !e.k.VJmp? && !e.k.VLocal?
    ensures Keeps(fs, JumpOnCond(fs, e, cond).0)
  {
    hide Discharge2AnyReg, CondJump, Formed, Fits, FreeExp;
    if e.k.VReloc? && e.k.pc == |fs.code| - 1 && 0 <= e.k.pc && fs.code[e.k.pc].Not? {
      var fs1 := fs.(code := fs.code[..e.k.pc]);
      DropFits(m, fs0, fs, e);
      CondJumpFits(fs1, Test(fs.code[e.k.pc].b, !cond));
      KeepsThen(fs, fs1, JumpOnCond(fs, e, cond).0);
    } else {
      Discharge2AnyRegFits(m, fs0, fs, e);
      var (fs1, e1) := Discharge2AnyReg(fs, e);
      FsOkOf(fs0, fs1, e1);
      J.FreedSame(fs1, e1);
      KeepsFits(fs, fs1);
      FreeFits(fs1, e1);
      KeepsThen(fs, fs1, FreeExp(fs1, e1));
      KeepsFits(fs1, FreeExp(fs1, e1));
      CondJumpFits(FreeExp(fs1, e1), TestSet(NoReg, RegOf(e1), cond));
      KeepsThen(fs, FreeExp(fs1, e1), JumpOnCond(fs, e, cond).0);
    }
  }

  lemma DropFits(m: Machine, fs0: Fs, fs: Fs, e: Exp)
    requires Formed(fs0, fs, e) && Fits(fs) && e.k.VReloc? && e.k.pc == |fs.code| - 1 && 0 <= e.k.pc && fs.code[e.k.pc].Not?
    ensures var fs1 := fs.(code := fs.code[..e.k.pc]); FsOk(fs1) && Keeps(fs, fs1) && In(fs.code[e.k.pc].b, fs.maxstack)
  {
    FormedIs(m, fs0, fs, e);
    DropNot(Shapes(m, fs0), fs, e, Nil);
    PrefixFits(fs, e.k.pc);
  }

  lemma PrefixFits(fs: Fs, pc: int)
    requires Fits(fs) && 0 <= pc == |fs.code| - 1 && fs.code[pc].Not?
    ensures Keeps(fs, fs.(code := fs.code[..pc])) && In(fs.code[pc].b, fs.maxstack)
  {
    var p := fs.code[..pc];
    assert InstrFits(fs.code[pc], fs.maxstack, |fs.k|);
    forall i | 0 <= i < |p| ensures p[i] == fs.code[i] && InstrFits(p[i], fs.maxstack, |fs.k|) { assert InstrFits(fs.code[i], fs.maxstack, |fs.k|); }
    forall i | 0 <= i < |p| - 1 && p[i].TestSet? && p[i].dest.NoReg? ensures OpenAt(p, i + 1) { assert OpenAt(fs.code, i + 1); }
    if Odd(fs.code) { var i :| 0 <= i < |fs.code| && IsOdd(fs.code[i]); assert IsOdd(p[i]); }
    if Odd(p) { var i :| 0 <= i < |p| && IsOdd(p[i]); assert IsOdd(fs.code[i]); }
  }

  lemma GoFits(m: Machine, fs0: Fs, fs: Fs, e0: Exp, go: bool)
    requires Formed(fs0, fs, e0) && Fits(fs) && !e0.k.VK?
    ensures Keeps(fs, if go then GoIfTrue(fs, e0).0 else GoIfFalse(fs, e0).0)
  {
    hide Formed, JumpOnCond, GoIfTrue, GoIfFalse, InvertJump, Jump, CodeFits, Odd;
    var e := DischargeVars(e0);
    O.DischargedVars(fs0, fs, e0);
    J.GoIfIs(m, fs0, fs, e0, go);
    KeepsSelf(fs);
    FsOkOf(fs0, fs, e);
    JumpFits(fs);
    if e.k.VJmp? { InvertFits(fs0, fs, e); } else { CondFits(m, fs0, fs, e, !go); }
    var fs1 := J.FirstHalf(fs, e, go).0;
    assert Keeps(fs, fs1);
    assert Keeps(fs, PatchToHere(fs1, Stay(e, go)));
  }

  lemma InfixFits(m: Machine, fs0: Fs, fs: Fs, e: Exp, op: BinOp)
    requires Formed(fs0, fs, e) && Fits(fs) && !e.k.VK?
    ensures var (fs1, y) := Infix(fs, op, e);
      && Keeps(fs, fs1) && (!op.AndOp? && !op.OrOp? && !(op.ArithBin? && IsNumeral(e)) ==> OperandFits(fs1, y))
  {
    hide Formed, GoIfTrue, GoIfFalse, Exp2RK, Fits;
    KeepsSelf(fs);
    if op.AndOp? { GoFits(m, fs0, fs, e, true); }
    else if op.OrOp? { GoFits(m, fs0, fs, e, false); }
    else { Exp2RKFits(m, fs0, fs, e); }
  }

  /** An operand still fits when more constants and registers have been added. */
  lemma OperandKept(fs: Fs, fs': Fs, x: Exp)
    requires OperandFits(fs, x) && Keeps(fs, fs')
    ensures OperandFits(fs', x)
  {
  }

  lemma FirstFits(m: Machine, fs0: Fs, fs1: Fs, y: Exp, fs: Fs, x: Exp)
    requires Formed(fs0, fs1, y) && ((IsOperand(y) && OperandFits(fs, y)) || IsNumeral(y)) && Formed(fs1, fs, x) && Fits(fs)
    ensures var (fs', y') := Exp2RK(fs, y); Keeps(fs, fs') && OperandFits(fs', y') && FsOk(fs')
  {
    hide Exp2RK, Formed0, Fits;
    KeepsSelf(fs);
    FsOkOf(fs1, fs, x);
    if IsNumeral(y) {
      B.NumeralFormed(m, fs0, fs1, y, fs, x);
      Exp2RKFits(m, fs, fs, y);
      O.RKFormed(m, fs, fs, y);
      FsOkOf(fs, Exp2RK(fs, y).0, Exp2RK(fs, y).1);
    } else {
      OperandStays(fs, y);
    }
  }

  lemma ArithFits(m: Machine, fs0: Fs, fs1: Fs, y: Exp, fs: Fs, x: Exp, op: ArithOp)
    requires Formed(fs0, fs1, y) && ((IsOperand(y) && OperandFits(fs, y)) || IsNumeral(y)) && Formed(fs1, fs, x) && Fits(fs)
    ensures Keeps(fs, CodeArith(m, fs, op, y, x).0)
  {
    hide Exp2RK, Formed, Fits, Emit, FreeBoth, CodeArith, IsOperand, Odd;
    KeepsSelf(fs);
    if Folds(op, y, x) {
      B.FoldIs(m, fs, op, y, x);
    } else {
      B.ArithIs(m, fs, op, y, x);
      Exp2RKFits(m, fs1, fs, x);
      var (fs2, x2) := Exp2RK(fs, x);
      O.RKFormed(m, fs1, fs, x);
      KeepsFits(fs, fs2);
      if !IsNumeral(y) { OperandKept(fs, fs2, y); }
      FirstFits(m, fs0, fs1, y, fs2, x2);
      var (fs3, x1) := Exp2RK(fs2, y);
      OperandKept(fs2, fs3, x2);
      KeepsThen(fs, fs2, fs3);
      KeepsFits(fs2, fs3);
      B.BothFreed(fs3, x1, x2);
      BothFits(fs3, x1, x2);
      var fs4 := FreeBoth(fs3, x1, x2);
      FrameAtLeastTwo(fs4);
      EmitKeeps(fs4, Arith(op, 0, Operand(x1), Operand(x2)));
      KeepsThen(fs, fs3, fs4);
      KeepsThen(fs, fs4, CodeArith(m, fs, op, y, x).0);
    }
  }

  lemma BothFits(fs: Fs, x: Exp, y: Exp)
    requires Fits(fs)
    ensures var f := FreeBoth(fs, x, y); Keeps(fs, f) && Fits(f) && f == fs.(freereg := f.freereg)
  {
    FreedFits(fs, FreeBoth(fs, x, y));
  }

  lemma CompFits(m: Machine, fs0: Fs, fs1: Fs, y: Exp, fs: Fs, x: Exp, op: BinOp)
    requires Formed(fs0, fs1, y) && IsOperand(y) && OperandFits(fs, y) && Formed(fs1, fs, x) && Fits(fs) && IsComp(op)
    ensures Keeps(fs, CodeComp(fs, CompOf(op).0, CompOf(op).1, y, x).0)
  {
    hide Exp2RK, Formed, Fits, CondJump, FreeExp, CodeComp, IsOperand, Odd;
    B.CompIs(fs, op, y, x);
    Exp2RKFits(m, fs1, fs, x);
    var (fs2, x2) := Exp2RK(fs, x);
    O.RKFormed(m, fs1, fs, x);
    FsOkOf(fs1, fs2, x2);
    KeepsFits(fs, fs2);
    OperandKept(fs, fs2, y);
    FreeFits(fs2, x2);
    J.FreedSame(fs2, x2);
    var fs3 := FreeExp(fs2, x2);
    KeepsFits(fs2, fs3);
    FreeFits(fs3, y);
    J.FreedSame(fs3, y);
    var fs4 := FreeExp(fs3, y);
    KeepsThen(fs, fs2, fs3);
    KeepsThen(fs, fs3, fs4);
    KeepsFits(fs3, fs4);
    var swap := !CompOf(op).1 && !CompOf(op).0.Eq?;
    var o1, o2 := if swap then Operand(x2) else Operand(y), if swap then Operand(y) else Operand(x2);
    var test := Cmp(CompOf(op).0, CompOf(op).1 || swap, o1, o2);
    CondJumpFits(fs4, test);
    KeepsThen(fs, fs4, CondJump(fs4, test).0);
  }

  lemma PosfixFits(m: Machine, fs0: Fs, fs1: Fs, y: Exp, fs: Fs, x: Exp, op: BinOp)
    requires B.Waiting(fs0, fs1, op, y) && Formed(fs1, fs, x) && Fits(fs)
    requires !op.AndOp? && !op.OrOp? && !(op.ArithBin? && IsNumeral(y)) ==> OperandFits(fs, y)
    ensures Keeps(fs, Posfix(m, fs, op, y, x).0)
  {
    hide Formed, Fits, CodeArith, CodeComp, IsOperand, GuardFormed;
    KeepsSelf(fs);
    if op.ArithBin? { ArithFits(m, fs0, fs1, y, fs, x, op.op); }
    else if IsComp(op) { CompFits(m, fs0, fs1, y, fs, x, op); }
  }

  // ----- expressions -----

  /** What is generated fits, and the odd instructions are those the text tells of. */
  lemma {:induction false} CompileFits(m: Machine, fs0: Fs, s: Place, e: Expr)
    requires D.Settled(fs0) && LocalsIn(e, fs0.nactvar) && Fits(fs0) && PlaceIs(fs0, s)
    ensures var fs := Compile(m, fs0, e).0;
      Fits(fs) && (Odd(fs.code) <==> Odd(fs0.code) || ReadExpr(m, s, e).odd)
      && Wider(fs0, fs)
    decreases e
  {
    hide D.Settled, PlaceIs, Fits, Odd, CodeNot, CodeMinus, Posfix, Infix, ReadUnary, ReadBinary, Between, TextIs, Formed;
    match e
    case EParen(e1) => CompileFits(m, fs0, s, e1);
    case EUn(op, e1) =>
      var (fs, x) := Compile(m, fs0, e1);
      CompileFits(m, fs0, s, e1);
      ReadRight(m, fs0, s, e1);
      P.CompileFormed(m, fs0, e1);
      UnaryFits(m, fs0, fs, x, op, ReadExpr(m, s, e1));
    case EBin(op, l, r) => BinaryFits(m, fs0, s, e);
    case _ =>
  }

  lemma UnaryFits(m: Machine, fs0: Fs, fs: Fs, x: Exp, op: UnOp, r: Reading)
    requires Formed(fs0, fs, x) && Fits(fs) && TextIs(fs, x, r.x) && PlaceIs(fs, r.s) && !x.k.VK?
    ensures var fs2 := Prefix(fs, op, x).0;
      && Fits(fs2) && (ReadUnary(op, r).odd <==> r.odd || (op.Minus? && !IsNumeral(x) && OddOperand(r)))
      && (Odd(fs2.code) <==> Odd(fs.code) || (op.Minus? && !IsNumeral(x) && OddOperand(r)))
      && Wider(fs, fs2)
  {
    hide Formed, Fits, CodeNot, CodeMinus, Odd;
    assert IsNumeral(x) <==> Numeral(r.x);
    if op.Minus? { MinusFits(m, fs0, fs, x, r); MinusGrows(m, fs0, fs, x); } else { NotFits(m, fs0, fs, x); KeepsFits(fs, CodeNot(fs, x).0); }
  }

  lemma MinusGrows(m: Machine, fs0: Fs, fs: Fs, e: Exp)
    requires Formed(fs0, fs, e) && Fits(fs)
    ensures var fs2 := CodeMinus(fs, e).0; Wider(fs, fs2) && (!IsNumeral(e) ==> Wider(Exp2RK(fs, e).0, fs2))
  {
    hide Exp2RK, Emit, Formed, Fits, FreeExp;
    Exp2RKFits(m, fs0, fs, e);
    var (fs1, x) := Exp2RK(fs, e);
    KeepsFits(fs, fs1);
    FreeFits(fs1, x);
    EmitFields(FreeExp(fs1, x), Unm(0, Operand(x)));
    EmitFailed(FreeExp(fs1, x), Unm(0, Operand(x)));
  }

  lemma EmitFailed(fs: Fs, i: Instr)
    ensures fs.failed ==> Emit(fs, i).failed
  {
    PatchFailed(fs, fs.jpc, |fs.code|, NoReg, |fs.code|);
  }

  lemma {:induction false} BinaryFits(m: Machine, fs0: Fs, s: Place, e: Expr)
    requires D.Settled(fs0) && LocalsIn(e, fs0.nactvar) && Fits(fs0) && PlaceIs(fs0, s) && e.EBin?
    ensures var fs := Compile(m, fs0, e).0;
      Fits(fs) && (Odd(fs.code) <==> Odd(fs0.code) || ReadExpr(m, s, e).odd)
      && Wider(fs0, fs)
    decreases e, 0
  {
    hide PlaceIs, TextIs, Formed, Between, Infix, Posfix, B.Waiting, Fits, Odd, OperandFits;
    var (op, l, r) := (e.bop, e.lhs, e.rhs);
    var (fs1, x1) := Compile(m, fs0, l);
    var (fs2, y1) := Infix(fs1, op, x1);
    var (fs3, x2) := Compile(m, fs2, r);
    var a := ReadExpr(m, s, l);
    CompileFits(m, fs0, s, l);
    ReadRight(m, fs0, s, l);
    P.CompileFormed(m, fs0, l);
    BetweenText(m, fs0, fs1, x1, op, a);
    InfixFits(m, fs0, fs1, x1, op);
    P.InfixFormed(m, fs0, fs1, x1, op);
    D.WaitingGrown(fs0, fs2, op, y1);
    KeepsFits(fs1, fs2);
    CompileFits(m, fs2, Between(op, a), r);
    P.CompileFormed(m, fs2, r);
    if op.ArithBin? { NumeralStays(fs1, op, x1); }
    if !op.AndOp? && !op.OrOp? && !(op.ArithBin? && IsNumeral(y1)) { OperandLater(fs2, fs3, y1); }
    PosfixFits(m, fs0, fs2, y1, fs3, x2, op);
  }

  lemma NumeralStays(fs: Fs, op: BinOp, x: Exp)
    requires op.ArithBin?
    ensures IsNumeral(Infix(fs, op, x).1) <==> IsNumeral(x)
  {
    NotNumeral(fs, x);
  }

  lemma OperandLater(fs: Fs, fs': Fs, x: Exp)
    requires OperandFits(fs, x) && Wider(fs, fs')
    ensures OperandFits(fs', x)
  {
  }

  // ----- the checker -----

  lemma NewFunctionFits(n: nat)
    ensures Fits(NewFunction(n)) && !Odd(NewFunction(n).code) && D.Settled(NewFunction(n)) && NewFunction(n).nactvar == n
    ensures PlaceIs(NewFunction(n), Fresh)
  {
    NewFunctionOk(Machine((op, a, b) => 0, v => 0), [], n, map[]);
    NoJumpsCarried([]);
    var none: map<Value, int> := map[];
    assert none.Keys == {};
  }

  /** The code of `return e' before the last instruction. */
  lemma BodyFits(m: Machine, n: nat, e: Expr)
    requires LocalsIn(e, n)
    ensures var fs := Exp2AnyReg(Compile(m, NewFunction(n), e).0, Compile(m, NewFunction(n), e).1).0;
      var y := Exp2AnyReg(Compile(m, NewFunction(n), e).0, Compile(m, NewFunction(n), e).1).1;
      && FsOk(fs) && Fits(fs) && (Odd(fs.code) <==> ReadExpr(m, Fresh, e).odd) && In(RegOf(y), fs.maxstack)
  {
    hide Compile, Exp2AnyReg, ReadExpr, Formed, Fits, Odd, FsOk, D.Settled, NewFunction;
    NewFunctionFits(n);
    var fs0 := NewFunction(n);
    CompileFits(m, fs0, Fresh, e);
    P.CompileFormed(m, fs0, e);
    var (fs1, x) := Compile(m, fs0, e);
    AnyRegFits(m, fs0, fs1, x);
    O.AnyFormed(m, fs0, fs1, x);
    var (fs2, y) := Exp2AnyReg(fs1, x);
    KeepsFits(fs1, fs2);
    FormedFits(fs0, fs2, y);
    FsOkOf(fs0, fs2, y);
  }

  /** The finished code as the checker sees it. */
  lemma CheckedCode(p: Proto, d: seq<Instr>, limit: int, r: int, pc: int)
    requires p.code == d + [Return(r, 1), Return(0, 0)] && WellFormed(d, limit) && CodeFits(p.code, p.maxstack, |p.k|)
    requires (forall j :: !OpenAt(p.code, j)) && 2 <= p.maxstack <= MAXSTACK && 0 <= pc < |p.code|
    ensures C.CheckInstr(p, pc) <==> !IsOdd(p.code[pc])
  {
    assert InstrFits(p.code[pc], p.maxstack, |p.k|);
    if pc < |d| {
      assert p.code[pc] == d[pc] && InstrOk(d, pc, limit);
      if IsTest(d[pc]) { assert p.code[pc + 1] == d[pc + 1]; }
      assert !OpenAt(p.code, pc) && !OpenAt(p.code, pc + 1);
    }
  }

  lemma FinishedFits(fs: Fs, r: int)
    requires FsOk(fs) && Fits(fs) && In(r, fs.maxstack)
    ensures var p := Finished(Emit(fs, Return(r, 1)));
      && CodeFits(p.code, p.maxstack, |p.k|) && (Odd(p.code) <==> Odd(fs.code)) && p.maxstack == fs.maxstack && p.k == fs.k
      && p.code == DischargeJpc(fs).code + [Return(r, 1), Return(0, 0)]
  {
    hide Emit, Finished;
    FinishedCode(fs, Return(r, 1));
    EmitFields(fs, Return(r, 1));
    DischargeOk(fs);
    DischargeFits(fs);
    var d, ext := DischargeJpc(fs), [Return(r, 1), Return(0, 0)];
    LastNoTest(d.code, d.lasttarget);
    assert !Odd(ext);
    AppendFits(d.code, ext, fs.maxstack, |fs.k|);
  }

  /** The checker accepts the code of `return e', if no limit was exceeded, exactly when no minus is given a
      literal that is not a number as a constant. */
  lemma AcceptedExactly(m: Machine, n: nat, e: Expr)
    requires LocalsIn(e, n) && !ReturnExpr(m, NewFunction(n), e).0.failed
    ensures var p := Finished(ReturnExpr(m, NewFunction(n), e).0);
      |p.code| > 0 && (C.Accepted(p) <==> !ReadExpr(m, Fresh, e).odd)
  {
    hide Compile, Exp2AnyReg, ReadExpr, WellFormed, OpenUnkept, PatchList, ConstsOk, C.CheckInstr, CodeFits, Emit;
    BodyFits(m, n, e);
    P.ReturnClosed(m, n, e);
    var (fs1, x) := Compile(m, NewFunction(n), e);
    var (fs2, y) := Exp2AnyReg(fs1, x);
    var r := RegOf(y);
    FinishedFits(fs2, r);
    EmitFits(fs2, Return(r, 1));
    DischargeOk(fs2);
    var d, p := DischargeJpc(fs2), Finished(Emit(fs2, Return(r, 1)));
    forall pc | 0 <= pc < |p.code| ensures C.CheckInstr(p, pc) <==> !IsOdd(p.code[pc]) {
      CheckedCode(p, d.code, d.lasttarget, r, pc);
    }
  }

  /** `return -true', in a function without parameters, exceeds no limit and is refused. */
  lemma MinusTrueRefused(m: Machine)
    ensures var fs := ReturnExpr(m, NewFunction(0), EUn(Minus, ETrue)).0; var p := Finished(fs);
      !fs.failed && p.code == [Unm(0, Kst(0)), Return(0, 1), Return(0, 0)] && p.k == [Bool(true)] && !C.Accepted(p)
  {
    MinusTrueCode(m);
    var p := Finished(ReturnExpr(m, NewFunction(0), EUn(Minus, ETrue)).0);
    assert !C.CheckInstr(p, 0);
  }

  lemma MinusTrueCode(m: Machine)
    ensures var fs := ReturnExpr(m, NewFunction(0), EUn(Minus, ETrue)).0;
      !fs.failed && Finished(fs).code == [Unm(0, Kst(0)), Return(0, 1), Return(0, 0)] && Finished(fs).k == [Bool(true)]
  {
  }

  /** So runs of generated code, from any instruction and with any registers, stay inside the code, the frame
      and the constants. */
  lemma GeneratedContained(m: Machine, n: nat, e: Expr, pc: int, regs: Regs, steps: nat)
    requires LocalsIn(e, n) && !ReturnExpr(m, NewFunction(n), e).0.failed && !ReadExpr(m, Fresh, e).odd
    ensures var p := Finished(ReturnExpr(m, NewFunction(n), e).0);
      0 <= pc < |p.code| ==> C.Contained(p, Run(m, p, At(pc, regs), steps)) && Run(m, p, At(pc, regs), steps) != Lost
  {
    hide ReturnExpr, ReadExpr, Run, C.Contained;
    var p := Finished(ReturnExpr(m, NewFunction(n), e).0);
    AcceptedExactly(m, n, e);
    GeneratedFits(m, n, e);
    if 0 <= pc < |p.code| {
      forall i | 0 <= i < |p.code| ensures C.Encodable(p.code[i]) { assert InstrFits(p.code[i], p.maxstack, |p.k|); }
      C.CheckSound(m, p, pc, regs, steps);
    }
  }

  lemma GeneratedFits(m: Machine, n: nat, e: Expr)
    requires LocalsIn(e, n)
    ensures var p := Finished(ReturnExpr(m, NewFunction(n), e).0); AllFit(p.code, p.maxstack, |p.k|)
  {
    hide Compile, Exp2AnyReg, ReadExpr, FsOk;
    BodyFits(m, n, e);
    var (fs1, x) := Compile(m, NewFunction(n), e);
    var (fs2, y) := Exp2AnyReg(fs1, x);
    FinishedFits(fs2, RegOf(y));
  }
}
