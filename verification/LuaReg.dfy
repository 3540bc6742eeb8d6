/** exp2reg and the functions that choose the place of a value. */
module LuaReg {
  import opened LuaVm
  import opened LuaCode
  import opened LuaExec
  import opened LuaEmit
  import opened LuaExp
  import opened LuaClose

  /** Where the code runs to its end the value is in the register, or it is a comparison that was
      false; otherwise a jump of one of the lists has left with it. */
  ghost predicate Loaded(c: Ctx, fs: Fs, t: seq<int>, f: seq<int>, reg: int, isJmp: bool, v: Value) {
    var o := RunFs(c.m, c.k, fs, c.regs);
    && (Elsewhere(c) ==> o == Begin(c))
    && (Arrives(c) ==> LoadedResult(c, fs.code, t, f, reg, isJmp, v, o))
  }

  ghost predicate LoadedResult(c: Ctx, code: seq<Instr>, t: seq<int>, f: seq<int>, reg: int, isJmp: bool, v: Value, o: Outcome)
    requires Arrives(c)
  {
    match o
    case Fall(r1) => Frame(Begin(c).regs, r1, c.fs.freereg) && if isJmp then v == Bool(false) else Read(r1, reg) == v
    case Out(j, r1) => Frame(Begin(c).regs, r1, c.fs.freereg) && LeftBy(c.wrong, code, t, f, j, r1, v)
    case _ => false
  }

  /** A run that leaves by a jump of the context does not leave by a jump of the expression. */
  lemma OtherExit(c: Ctx, list: seq<int>)
    requires FsOk(c.fs) && Within(list, c.fs) && Begin(c).Out?
    ensures Begin(c).j !in list
  {
    ExecGood(c.m, c.k, c.fs.code, c.fs.lasttarget, 0, c.regs);
  }

  lemma ClosedShape(c: Ctx, fs: Fs, t: seq<int>, f: seq<int>, reg: int, isJmp: bool)
    requires TwoLists(fs, t, f) && (isJmp ==> fs.jpc == [] && NeedValue(fs.code, t))
    requires Grown(c.fs, fs) && Within(t, c.fs) && Within(f, c.fs)
    ensures Shape(c.fs, CloseLists(fs, t, f, reg, isJmp), Exp(VNonReloc(reg), [], []))
    ensures var p := CloseLists(fs, t, f, reg, isJmp);
            p == fs.(code := p.code, jpc := p.jpc, lasttarget := p.lasttarget, failed := p.failed)
  {
    hide BeforePatch, PlaceFalse, FsOk, PatchBoth, PatchList, NeedValue, Ready, CloseLists, StillOpen;
    var p, pf := BeforePatch(fs, t, f, reg, isJmp), PlaceFalse(fs, t, f, isJmp);
    BeforePatchOk(fs, t, f, reg, isJmp);
    if t != [] || f != [] {
      GrownTrans(c.fs, fs, p);
      PatchBothRun(c.m, c.k, p, t, f, reg, pf, c.regs);
      ClosedGrown(c.fs, p, t, f, PatchBoth(p, t, f, reg, pf));
      NoListsOk(c.fs, PatchBoth(p, t, f, reg, pf), reg);
    } else {
      NoListsOk(c.fs, fs, reg);
    }
  }

  lemma NoListsOk(fs0: Fs, fs: Fs, reg: int)
    requires FsOk(fs) && Grown(fs0, fs)
    ensures Shape(fs0, fs, Exp(VNonReloc(reg), [], []))
  {
  }

  lemma ClosedGrown(fs0: Fs, p: Fs, t: seq<int>, f: seq<int>, q: Fs)
    requires Grown(fs0, p) && Within(t, fs0) && Within(f, fs0)
    requires StillOpen(p.code, t + f, q.code) && |q.code| == |p.code| && q.k == p.k && q.nactvar == p.nactvar && q.jpc == p.jpc
    ensures Grown(fs0, q)
  {
    forall j | OpenAt(fs0.code, j) && j !in fs0.jpc ensures OpenAt(q.code, j) && SameControl(fs0.code, q.code, j) {
      assert OpenAt(p.code, j) && SameControl(fs0.code, p.code, j);
      assert j !in t + f;
      assert SameControl(p.code, q.code, j);
    }
  }

  lemma CloseMeans(c: Ctx, fs: Fs, t: seq<int>, f: seq<int>, reg: int, isJmp: bool, v: Value)
    requires FsOk(c.fs) && TwoLists(fs, t, f) && (isJmp ==> fs.jpc == [] && NeedValue(fs.code, t))
    requires Within(t, c.fs) && Within(f, c.fs) && reg >= c.fs.freereg
    requires Loaded(c, fs, t, f, reg, isJmp, v) && Trusted(c, fs.code, Exp(VNonReloc(reg), t, f))
    ensures Means(c, CloseLists(fs, t, f, reg, isJmp), Exp(VNonReloc(reg), [], []), v)
  {
    hide BeforePatch, PlaceFalse, FsOk, PatchBoth, PatchList, Exec, StillOpen, Ready, Loaded, Means, NeedValue, CloseLists, RunFs;
    var p, pf := BeforePatch(fs, t, f, reg, isJmp), PlaceFalse(fs, t, f, isJmp);
    BeforePatchOk(fs, t, f, reg, isJmp);
    BeforePatchRun(c.m, c.k, fs, t, f, reg, isJmp, c.regs);
    if Begin(c).Out? {
      OtherExit(c, t);
      OtherExit(c, f);
    }
    if t != [] || f != [] {
      PatchBothRun(c.m, c.k, p, t, f, reg, pf, c.regs);
      CloseResult(c, fs, p, PatchBoth(p, t, f, reg, pf), t, f, reg, isJmp, v);
    } else {
      NothingToClose(c, fs, reg, isJmp, v);
    }
  }

  lemma NothingToClose(c: Ctx, fs: Fs, reg: int, isJmp: bool, v: Value)
    requires Loaded(c, fs, [], [], reg, isJmp, v) && (isJmp ==> NeedValue(fs.code, []))
    ensures Means(c, fs, Exp(VNonReloc(reg), [], []), v)
  {
  }

  lemma CloseResult(c: Ctx, fs: Fs, p: Fs, q: Fs, t: seq<int>, f: seq<int>, reg: int, isJmp: bool, v: Value)
    requires Loaded(c, fs, t, f, reg, isJmp, v) && Trusted(c, fs.code, Exp(VNonReloc(reg), t, f))
    requires reg >= c.fs.freereg && Apart(t, f)
    requires Begin(c).Out? ==> Begin(c).j !in t && Begin(c).j !in f
    requires RunFs(c.m, c.k, p, c.regs) == FallThrough(RunFs(c.m, c.k, fs, c.regs), isJmp, reg)
    requires forall j :: j in t || j in f ==>
      Carries(p.code, j) == Carries(fs.code, j) && (Carries(fs.code, j) ==> p.code[j - 1] == fs.code[j - 1])
    requires var o, o2 := RunFs(c.m, c.k, p, c.regs), RunFs(c.m, c.k, q, c.regs);
             if o.Out? && (o.j in t || o.j in f) then Arrived(p.code, o, reg, o.j in t, o2) else o2 == o
    ensures Means(c, q, Exp(VNonReloc(reg), [], []), v)
  {
    hide Exec;
    assert RunPre(c, q, Exp(VNonReloc(reg), [], [])) == RunFs(c.m, c.k, q, c.regs);
    hide RunFs, RunPre;
  }

  /** The comparison at the end of the code, run with its jump. */
  lemma CompareRun(c: Ctx, fs: Fs, e: Exp)
    requires FsOk(fs) && ExOk(fs, e) && e.k.VJmp?
    ensures RunFs(c.m, c.k, fs, c.regs) == Tested(RunPre(c, fs, e), c.k, fs.code[e.k.pc - 1], e.k.pc)
  {
    var p := PreCode(fs, e);
    PrefixGood(fs, e);
    ExecGood(c.m, c.k, p, fs.lasttarget, 0, c.regs);
    ExecTest(c.m, c.k, p, fs.code[e.k.pc - 1], c.regs);
    assert fs.code == p + [fs.code[e.k.pc - 1], Jmp(NO_JUMP)];
  }

  /** A comparison joins the list of the jumps that leave when the expression is true. */
  lemma CompareLoaded(c: Ctx, fs: Fs, e: Exp, reg: int, v: Value)
    requires Shape(c.fs, fs, e) && Means(c, fs, e, v) && e.k.VJmp?
    ensures TwoLists(fs, e.t + [e.k.pc], e.f) && NeedValue(fs.code, e.t + [e.k.pc]) && Within(e.t + [e.k.pc], c.fs)
    ensures Loaded(c, fs, e.t + [e.k.pc], e.f, reg, true, v)
    ensures Trusted(c, fs.code, e) ==> Trusted(c, fs.code, Exp(VNonReloc(reg), e.t + [e.k.pc], e.f))
  {
    var t, pc := e.t + [e.k.pc], e.k.pc;
    PatchListConcat(fs.code, e.t, [pc]);
    NeedValueIs(fs.code, t);
    assert pc in t && !Carries(fs.code, pc);
    CompareRun(c, fs, e);
    hide Exec, FsOk, StillOpen;
  }

  lemma Exp2RegMeans(c: Ctx, fs: Fs, e: Exp, reg: int, v: Value)
    requires FsOk(c.fs) && Shape(c.fs, fs, e) && Means(c, fs, e, v) && Clean(c) && reg >= c.fs.freereg && reg >= fs.nactvar
    requires Consts(c, Exp2Reg(fs, e, reg).0.k) && Trusted(c, fs.code, e)
    ensures var (fs2, e2) := Exp2Reg(fs, e, reg);
            Shape(c.fs, fs2, e2) && Means(c, fs2, e2, v) && e2 == Exp(VNonReloc(reg), [], [])
  {
    var (fs1, e1) := Discharge2Reg(fs, e, reg);
    var t := if e1.k.VJmp? then e1.t + [e1.k.pc] else e1.t;
    Exp2RegConsts(fs, e, reg);
    Discharge2RegMeans(c, fs, e, reg, v);
    DischargeTrusted(c, fs, e, reg);
    hide Means, Clean, Grown, Discharge2Reg;
    if e1.k.VJmp? {
      CompareLoaded(c, fs1, e1, reg, v);
    } else {
      assert Loaded(c, fs1, t, e1.f, reg, false, v) by { ValueLoaded(c, fs1, e1, reg, v); }
    }
    ClosedShape(c, fs1, t, e1.f, reg, e1.k.VJmp?);
    CloseMeans(c, fs1, t, e1.f, reg, e1.k.VJmp?, v);
  }

  lemma ValueLoaded(c: Ctx, fs: Fs, e: Exp, reg: int, v: Value)
    requires Means(c, fs, e, v) && e.k == VNonReloc(reg)
    ensures Loaded(c, fs, e.t, e.f, reg, false, v)
  {
  }

  // ----- what the functions leave alone -----

  /** The patching functions change nothing but the code. */
  lemma {:induction false} PatchListAuxFields(fs: Fs, list: seq<int>, vtarget: int, reg: Dest, dtarget: int)
    ensures var p := PatchListAux(fs, list, vtarget, reg, dtarget); p == fs.(code := p.code, failed := p.failed)
    decreases |list|
  {
    if list != [] { PatchListAuxFields(PatchOne(fs, list[0], vtarget, reg, dtarget), list[1..], vtarget, reg, dtarget); }
  }

  /** Registers and variables are as before, and constants only added. */
  predicate SameFrame(fs: Fs, fs2: Fs) {
    fs2.freereg == fs.freereg && fs2.nactvar == fs.nactvar && fs2.maxstack == fs.maxstack && fs.k <= fs2.k
  }

  lemma EmitFields(fs: Fs, i: Instr)
    ensures SameFrame(fs, Emit(fs, i)) && Emit(fs, i).k == fs.k
  {
    PatchListAuxFields(fs, fs.jpc, |fs.code|, NoReg, |fs.code|);
  }

  lemma Discharge2RegFields(fs: Fs, e: Exp, reg: int)
    ensures SameFrame(fs, Discharge2Reg(fs, e, reg).0)
  {
    hide Emit;
    var e1 := DischargeVars(e);
    match e1.k
    case VNil => EmitFields(fs, LoadNil(reg, reg));
    case VFalse => EmitFields(fs, LoadBool(reg, false, false));
    case VTrue => EmitFields(fs, LoadBool(reg, true, false));
    case VK(i) => EmitFields(fs, LoadK(reg, i));
    case VKNum(n) => var (fs1, i) := AddK(fs, Num(n)); EmitFields(fs1, LoadK(reg, i));
    case VNonReloc(r) => EmitFields(fs, Move(reg, r));
    case _ =>
  }

  lemma CloseListsFields(fs: Fs, t: seq<int>, f: seq<int>, reg: int, isJmp: bool)
    ensures SameFrame(fs, CloseLists(fs, t, f, reg, isJmp)) && CloseLists(fs, t, f, reg, isJmp).k == fs.k
  {
    hide PatchListAux, NeedValue, Emit;
    var p := BeforePatch(fs, t, f, reg, isJmp);
    var pf := if NeedValue(fs.code, t) || NeedValue(fs.code, f) then |fs.code| + (if isJmp then 0 else 1) else NO_JUMP;
    EmitFields(fs.(jpc := []), Jmp(NO_JUMP));
    var fs1 := if isJmp then fs else Jump(fs).0;
    EmitFields(GetLabel(fs1), LoadBool(reg, false, true));
    var fs2 := Emit(GetLabel(fs1), LoadBool(reg, false, true));
    EmitFields(GetLabel(fs2), LoadBool(reg, true, false));
    assert SameFrame(fs, p) && p.k == fs.k;
    PatchBothFields(p, t, f, reg, |fs1.code|);
    PatchBothFields(p, t, f, reg, NO_JUMP);
  }

  lemma PatchBothFields(p: Fs, t: seq<int>, f: seq<int>, reg: int, pf: int)
    ensures SameFrame(p, PatchBoth(p, t, f, reg, pf)) && PatchBoth(p, t, f, reg, pf).k == p.k
  {
    var n := |p.code|;
    PatchListAuxFields(GetLabel(p), f, n, ToReg(reg), pf);
    PatchListAuxFields(PatchListAux(GetLabel(p), f, n, ToReg(reg), pf), t, n, ToReg(reg), PlaceTrue(pf));
  }

  lemma Exp2RegConsts(fs: Fs, e: Exp, reg: int)
    ensures Discharge2Reg(fs, e, reg).0.k == Exp2Reg(fs, e, reg).0.k
    ensures SameFrame(fs, Exp2Reg(fs, e, reg).0)
  {
    hide CloseLists;
    Discharge2RegFields(fs, e, reg);
    var (fs1, e1) := Discharge2Reg(fs, e, reg);
    CloseListsFields(fs1, if e1.k.VJmp? then e1.t + [e1.k.pc] else e1.t, e1.f, reg, e1.k.VJmp?);
  }
}
