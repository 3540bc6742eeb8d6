/** Putting an expression in a register: its value where the code runs to its end, and the values its
    jumps carry. */
module LuaClose {
  import opened LuaVm
  import opened LuaCode
  import opened LuaExec
  import opened LuaEmit
  import opened LuaExp

  // ----- constants -----

  lemma AddKOk(fs: Fs, v: Value)
    requires FsOk(fs)
    ensures var fs2 := AddK(fs, v).0; var i := AddK(fs, v).1;
            && FsOk(fs2) && fs.k <= fs2.k && 0 <= i < |fs2.k| && fs2.k[i] == v
            && fs2 == fs.(k := fs2.k, h := fs2.h, failed := fs2.failed) && Grown(fs, fs2)
            && (|fs.k| <= MAXINDEXRK ==> i <= MAXINDEXRK)
  {
  }

  lemma AddKMeans(c: Ctx, fs: Fs, e: Exp, n: Value, v: Value)
    requires Shape(c.fs, fs, e) && Means(c, fs, e, v) && !e.k.VK?
    ensures Shape(c.fs, AddK(fs, n).0, e) && Means(c, AddK(fs, n).0, e, v)
  {
    AddKOk(fs, n);
    var fs2 := AddK(fs, n).0;
    GrownTrans(c.fs, fs, fs2);
  }

  // ----- discharge2reg -----

  lemma Discharge2RegMeans(c: Ctx, fs: Fs, e: Exp, reg: int, v: Value)
    requires Shape(c.fs, fs, e) && Means(c, fs, e, v) && Clean(c) && reg >= c.fs.freereg && reg >= fs.nactvar
    requires Consts(c, Discharge2Reg(fs, e, reg).0.k)
    ensures var (fs2, e2) := Discharge2Reg(fs, e, reg);
            && Shape(c.fs, fs2, e2) && Means(c, fs2, e2, v)
            && (if e.k.VJmp? then fs2 == fs && e2 == e else e2 == e.(k := VNonReloc(reg)))
  {
    hide Shape, Means, Clean, FsOk, Grown, ExOk;
    match e.k
    case VNil => CodeNilMeans(c, fs, e, reg, v);
    case VFalse => EmitLoad(c, fs, e, LoadBool(reg, false, false), reg, v);
    case VTrue => EmitLoad(c, fs, e, LoadBool(reg, true, false), reg, v);
    case VK(i) => EmitLoad(c, fs, e, LoadK(reg, i), reg, v);
    case VKNum(n) => LoadNumber(c, fs, e, reg, v);
    case VReloc(pc) =>
      RelocateShape(c.fs, fs, e, reg);
      RelocateMeans(c, fs, e, reg, v);
    case VNonReloc(r) => if r != reg { EmitLoad(c, fs, e, Move(reg, r), reg, v); }
    case VLocal(r) => LoadLocal(c, fs, e, reg, v);
    case VJmp(_) =>
  }

  lemma DischargeVarsMeans(c: Ctx, fs: Fs, e: Exp, v: Value)
    requires Shape(c.fs, fs, e) && Means(c, fs, e, v)
    ensures Shape(c.fs, fs, DischargeVars(e)) && Means(c, fs, DischargeVars(e), v)
  {
  }

  lemma LoadLocal(c: Ctx, fs: Fs, e: Exp, reg: int, v: Value)
    requires Shape(c.fs, fs, e) && Means(c, fs, e, v) && e.k.VLocal? && reg >= c.fs.freereg
    ensures var (fs2, e2) := Discharge2Reg(fs, e, reg); Shape(c.fs, fs2, e2) && Means(c, fs2, e2, v)
  {
    DischargeVarsMeans(c, fs, e, v);
    if e.k.r != reg { EmitLoad(c, fs, DischargeVars(e), Move(reg, e.k.r), reg, v); }
  }

  lemma LoadNumber(c: Ctx, fs: Fs, e: Exp, reg: int, v: Value)
    requires Shape(c.fs, fs, e) && Means(c, fs, e, v) && e.k.VKNum? && reg >= c.fs.freereg
    requires Consts(c, Discharge2Reg(fs, e, reg).0.k)
    ensures var (fs2, e2) := Discharge2Reg(fs, e, reg); Shape(c.fs, fs2, e2) && Means(c, fs2, e2, v)
  {
    var n := Num(e.k.n);
    var (fs1, i) := AddK(fs, n);
    assert FsOk(fs);
    AddKOk(fs, n);
    AddKMeans(c, fs, e, n, v);
    EmitK(fs1, LoadK(reg, i));
    assert c.live ==> c.k[i] == n;
    hide Shape, Means, FsOk, AddK;
    EmitLoad(c, fs1, e, LoadK(reg, i), reg, v);
  }

  lemma EmitK(fs: Fs, i: Instr)
    requires FsOk(fs) && Plain(i)
    ensures Emit(fs, i).k == fs.k
  {
    EmitOk(fs, i);
  }

  /** discharge2reg closes no jump but the pending ones. */
  lemma DischargeOpen(fs0: Fs, fs: Fs, e: Exp, reg: int)
    requires Shape(fs0, fs, e)
    ensures var fs1 := Discharge2Reg(fs, e, reg).0; StillOpen(fs.code, fs.jpc, fs1.code) && (fs1.jpc == fs.jpc || fs1.jpc == [])
  {
    hide Emit, Relocated, Merged;
    var e1 := DischargeVars(e);
    match e1.k
    case VNil =>
      if Mergeable(fs, reg) { MergeShape(fs0, fs, e, reg); }
      EmitOk(fs, LoadNil(reg, reg));
      UnfoldNil(fs, reg);
    case VFalse => EmitOk(fs, LoadBool(reg, false, false));
    case VTrue => EmitOk(fs, LoadBool(reg, true, false));
    case VK(i) => EmitOk(fs, LoadK(reg, i));
    case VKNum(n) =>
      AddKOk(fs, Num(n));
      EmitOk(AddK(fs, Num(n)).0, LoadK(reg, AddK(fs, Num(n)).1));
    case VReloc(pc) =>
      RelocateShape(fs0, fs, e, reg);
      RelocatedJpc(fs, pc, reg);
    case VNonReloc(r) => EmitOk(fs, Move(reg, r));
    case _ =>
  }

  lemma RelocatedJpc(fs: Fs, pc: int, reg: int)
    ensures Relocated(fs, pc, reg) == if 0 <= pc < |fs.code| then fs.(code := fs.code[pc := SetA(fs.code[pc], reg)]) else fs
  {
  }

  lemma UnfoldNil(fs: Fs, reg: int)
    ensures CodeNil(fs, reg) == fs || (Mergeable(fs, reg) && CodeNil(fs, reg) == Merged(fs, reg) && Merged(fs, reg).jpc == fs.jpc)
         || CodeNil(fs, reg) == Emit(fs, LoadNil(reg, reg))
  {
    hide Emit;
  }

  /** What can be relied on stays so. */
  lemma DischargeTrusted(c: Ctx, fs: Fs, e: Exp, reg: int)
    requires Shape(c.fs, fs, e) && Trusted(c, fs.code, e)
    ensures Trusted(c, Discharge2Reg(fs, e, reg).0.code, Discharge2Reg(fs, e, reg).1)
  {
    DischargeOpen(c.fs, fs, e, reg);
    hide Discharge2Reg;
    ListKept(fs, Discharge2Reg(fs, e, reg).0.code, e.t);
    ListKept(fs, Discharge2Reg(fs, e, reg).0.code, e.f);
    Discharge2RegLists(fs, e, reg);
  }

  lemma Discharge2RegLists(fs: Fs, e: Exp, reg: int)
    ensures Discharge2Reg(fs, e, reg).1.t == e.t && Discharge2Reg(fs, e, reg).1.f == e.f
  {
    hide Emit, CodeNil;
  }

  // ----- closing the lists -----

  lemma {:induction false} NeedValueIs(code: seq<Instr>, list: seq<int>)
    ensures NeedValue(code, list) <==> exists j :: j in list && !Carries(code, j)
  {
    if list != [] {
      NeedValueIs(code, list[1..]);
      assert list == [list[0]] + list[1..];
    }
  }

  /** Other open jumps keep their test when a list is patched. */
  lemma PatchKeeps(fs: Fs, list: seq<int>, vtarget: int, reg: Dest, dtarget: int)
    requires PatchList(fs.code, list)
    ensures StillOpen(fs.code, list, PatchListAux(fs, list, vtarget, reg, dtarget).code)
  {
    PatchListAuxAt(fs, list, vtarget, reg, dtarget);
    var d := PatchListAux(fs, list, vtarget, reg, dtarget);
    forall j | OpenAt(fs.code, j) && j !in list ensures OpenAt(d.code, j) && SameControl(fs.code, d.code, j) {
      assert d.code[j] == PatchedInstr(fs.code, list, vtarget, reg, dtarget, j);
      if j >= 1 {
        assert d.code[j - 1] == PatchedInstr(fs.code, list, vtarget, reg, dtarget, j - 1);
        if j - 1 in list { assert OpenAt(fs.code, j - 1); }
      }
    }
  }

  /** The places the jumps of a list are sent to, and what is there. */
  ghost predicate Ready(code: seq<Instr>, list: seq<int>, reg: int, d: int, b: bool) {
    forall j :: j in list && !Carries(code, j) ==> j < d && Loads(code, reg, d, b)
  }

  /** At `d' the boolean is loaded, and the code ends. */
  predicate Loads(code: seq<Instr>, reg: int, d: int, b: bool) {
    0 <= d < |code| && Landing(code, d) && code[d] == LoadBool(reg, b, !b) && d + Width(code[d]) == |code|
  }

  lemma PatchListRun(m: Machine, k: seq<Value>, fs: Fs, list: seq<int>, reg: int, d: int, b: bool, regs: Regs)
    requires PatchList(fs.code, list) && OpenUnkept(fs.code) && WellFormed(fs.code, fs.lasttarget) && fs.lasttarget == |fs.code|
    requires Ready(fs.code, list, reg, d, b)
    ensures var fs2 := PatchListAux(fs, list, |fs.code|, ToReg(reg), d);
            && WellFormed(fs2.code, |fs.code|) && OpenUnkept(fs2.code)
            && var o, o2 := Exec(m, k, fs.code, 0, regs), Exec(m, k, fs2.code, 0, regs);
               if o.Out? && o.j in list then Arrived(fs.code, o, reg, b, o2) else o2 == o
  {
    var n := |fs.code|;
    LastNoTest(fs.code, fs.lasttarget);
    forall j | j in list ensures TargetOk(fs.code, j, if Carries(fs.code, j) then n else d, n) { assert OpenAt(fs.code, j); }
    PatchGood(fs, list, n, ToReg(reg), d, n);
    var fs2 := PatchListAux(fs, list, n, ToReg(reg), d);
    ExecPatch(m, k, fs.code, fs2.code, (set j | j in list), n, 0, regs);
    var o := Exec(m, k, fs.code, 0, regs);
    if o.Out? && o.j in list {
      assert OpenAt(fs.code, o.j);
      PatchListAuxAt(fs, list, n, ToReg(reg), d);
      ArrivedAt(m, k, fs, fs2, list, reg, d, b, o);
    }
  }

  lemma ArrivedAt(m: Machine, k: seq<Value>, fs: Fs, fs2: Fs, list: seq<int>, reg: int, d: int, b: bool, o: Outcome)
    requires o.Out? && o.j in list && OpenAt(fs.code, o.j) && Ready(fs.code, list, reg, d, b) && OpenUnkept(fs.code) && PatchList(fs.code, list)
    requires |fs2.code| == |fs.code|
    requires forall i :: 0 <= i < |fs.code| ==> fs2.code[i] == PatchedInstr(fs.code, list, |fs.code|, ToReg(reg), d, i)
    ensures Arrived(fs.code, o, reg, b, Continued(m, k, fs2.code, (set j | j in list), o))
  {
    var j, code2 := o.j, fs2.code;
    assert code2[j] == PatchedInstr(fs.code, list, |fs.code|, ToReg(reg), d, j);
    if j >= 1 {
      assert code2[j - 1] == PatchedInstr(fs.code, list, |fs.code|, ToReg(reg), d, j - 1);
      if j - 1 in list { assert OpenAt(fs.code, j - 1); }
    }
    if !Carries(fs.code, j) {
      assert code2[d] == PatchedInstr(fs.code, list, |fs.code|, ToReg(reg), d, d);
      assert d in list ==> OpenAt(fs.code, d);
      assert AfterJump(code2, j, o.regs) == o.regs;
      assert Exec(m, k, code2, d + Width(code2[d]), o.regs[reg := Bool(b)]) == Fall(o.regs[reg := Bool(b)]);
    }
  }

  /** The value a jump stands for. */
  function JumpValue(code: seq<Instr>, j: int, regs: Regs, b: bool): Value {
    if Carries(code, j) then Read(regs, code[j - 1].b) else Bool(b)
  }

  /** The run that left by a jump now comes to the end, with the value of the jump in the register. */
  ghost predicate Arrived(code: seq<Instr>, o: Outcome, reg: int, b: bool, o2: Outcome)
    requires o.Out?
  {
    o2.Fall? && forall x :: Read(o2.regs, x) == if x == reg then JumpValue(code, o.j, o.regs, b) else Read(o.regs, x)
  }

  /** The two lists of an expression about to be closed. */
  ghost predicate TwoLists(fs: Fs, t: seq<int>, f: seq<int>) {
    && FsOk(fs) && PatchList(fs.code, t) && PatchList(fs.code, f)
    && Apart(t, f) && Apart(t, fs.jpc) && Apart(f, fs.jpc)
  }

  lemma PatchBothRun(m: Machine, k: seq<Value>, fs: Fs, t: seq<int>, f: seq<int>, reg: int, pf: int, regs: Regs)
    requires TwoLists(fs, t, f) && Ready(fs.code, f, reg, pf, false) && Ready(fs.code, t, reg, PlaceTrue(pf), true)
    ensures var o, o2 := RunFs(m, k, fs, regs), RunFs(m, k, PatchBoth(fs, t, f, reg, pf), regs);
            if o.Out? && (o.j in t || o.j in f) then Arrived(fs.code, o, reg, o.j in t, o2) else o2 == o
    ensures FsOk(PatchBoth(fs, t, f, reg, pf)) && |PatchBoth(fs, t, f, reg, pf).code| == |fs.code|
    ensures StillOpen(fs.code, t + f, PatchBoth(fs, t, f, reg, pf).code)
    ensures var p := PatchBoth(fs, t, f, reg, pf); p == fs.(code := p.code, lasttarget := |fs.code|, failed := p.failed)
  {
    var n := |fs.code|;
    var fs0 := GetLabel(fs);
    GetLabelOk(fs);
    PatchListRun(m, k, fs0, f, reg, pf, false, regs);
    PatchListAuxAt(fs0, f, n, ToReg(reg), pf);
    PatchKeeps(fs0, f, n, ToReg(reg), pf);
    var fs1 := PatchListAux(fs0, f, n, ToReg(reg), pf);
    OthersKept(fs.code, f, fs1.code, t);
    OthersKept(fs.code, f, fs1.code, fs.jpc);
    ReadyKept(fs, fs1, f, t, reg, pf);
    PatchListRun(m, k, fs1, t, reg, PlaceTrue(pf), true, regs);
    PatchListAuxAt(fs1, t, n, ToReg(reg), PlaceTrue(pf));
    PatchKeeps(fs1, t, n, ToReg(reg), PlaceTrue(pf));
    var fs2 := PatchListAux(fs1, t, n, ToReg(reg), PlaceTrue(pf));
    OthersKept(fs1.code, t, fs2.code, fs.jpc);
    StillOpenTwo(fs.code, f, fs1.code, t, fs2.code);
    var o := Exec(m, k, fs.code, 0, regs);
    if o.Out? && o.j in t { assert JumpValue(fs1.code, o.j, o.regs, true) == JumpValue(fs.code, o.j, o.regs, true); }
  }

  lemma OthersKept(code: seq<Instr>, list: seq<int>, code2: seq<Instr>, other: seq<int>)
    requires StillOpen(code, list, code2) && PatchList(code, other) && Apart(other, list)
    ensures PatchList(code2, other)
    ensures forall j :: j in other ==> Carries(code2, j) == Carries(code, j) && (Carries(code, j) ==> code2[j - 1] == code[j - 1])
  {
    forall j | j in other
      ensures OpenAt(code2, j) && Carries(code2, j) == Carries(code, j) && (Carries(code, j) ==> code2[j - 1] == code[j - 1])
    {
      assert OpenAt(code, j);
      assert SameControl(code, code2, j);
    }
  }

  lemma StillOpenTwo(code: seq<Instr>, f: seq<int>, code1: seq<Instr>, t: seq<int>, code2: seq<Instr>)
    requires StillOpen(code, f, code1) && StillOpen(code1, t, code2) && |code1| == |code2| == |code|
    ensures StillOpen(code, t + f, code2)
  {
    forall j | OpenAt(code, j) && j !in t + f ensures OpenAt(code2, j) && SameControl(code, code2, j) {
      assert OpenAt(code1, j);
      assert SameControl(code, code1, j) && SameControl(code1, code2, j);
    }
  }

  lemma ReadyKept(fs: Fs, fs1: Fs, f: seq<int>, t: seq<int>, reg: int, pf: int)
    requires Ready(fs.code, t, reg, PlaceTrue(pf), true) && PatchList(fs.code, f) && |fs1.code| == |fs.code|
    requires forall j :: j in t ==> Carries(fs1.code, j) == Carries(fs.code, j)
    requires forall i :: 0 <= i < |fs.code| ==> fs1.code[i] == PatchedInstr(fs.code, f, |fs.code|, ToReg(reg), pf, i)
    ensures Ready(fs1.code, t, reg, PlaceTrue(pf), true)
  {
    var d := PlaceTrue(pf);
    if Loads(fs.code, reg, d, true) {
      assert fs1.code[d] == PatchedInstr(fs.code, f, |fs.code|, ToReg(reg), pf, d);
      assert d in f ==> OpenAt(fs.code, d);
      if d >= 1 {
        assert fs1.code[d - 1] == PatchedInstr(fs.code, f, |fs.code|, ToReg(reg), pf, d - 1);
      }
    }
  }

  // ----- exp2reg -----

  lemma LoadBoolsOk(fs: Fs, reg: int)
    requires FsOk(fs) && fs.jpc == []
    ensures var p := LoadBools(fs, reg); var n := |fs.code|;
            && p.code == fs.code + [LoadBool(reg, false, true), LoadBool(reg, true, false)] && p.jpc == []
            && p == fs.(code := p.code, lasttarget := n + 1)
            && FsOk(GetLabel(p)) && Loads(p.code, reg, n, false) && Loads(p.code, reg, n + 1, true)
            && StillOpen(fs.code, [], p.code)
  {
    var n := |fs.code|;
    var p := LoadBools(fs, reg);
    assert p.code == fs.code + [LoadBool(reg, false, true), LoadBool(reg, true, false)];
    LastNoTest(fs.code, fs.lasttarget);
    var lim := n + 2;
    forall i | 0 <= i < |p.code| ensures InstrOk(p.code, i, lim) {
      if i < n {
        assert InstrOk(fs.code, i, fs.lasttarget);
        if fs.code[i].Jmp? && fs.code[i].sbx != NO_JUMP {
          var t := i + 1 + fs.code[i].sbx;
          assert t >= 1 ==> p.code[t - 1] == fs.code[t - 1];
        }
      }
    }
    forall j | OpenAt(p.code, j) && Carries(p.code, j) ensures p.code[j - 1].dest.NoReg? { assert OpenAt(fs.code, j) && Carries(fs.code, j); }
    StillOpenAppend(fs.code, [], fs.code, [LoadBool(reg, false, true), LoadBool(reg, true, false)]);
  }

  /** The state in which the lists are patched. */
  function BeforePatch(fs: Fs, t: seq<int>, f: seq<int>, reg: int, isJmp: bool): Fs {
    if NeedValue(fs.code, t) || NeedValue(fs.code, f) then
      var (fs1, fj) := if isJmp then (fs, []) else Jump(fs);
      PatchToHere(LoadBools(fs1, reg), fj)
    else fs
  }

  /** When nothing jumped, a comparison is false. */
  function FallThrough(o: Outcome, isJmp: bool, reg: int): Outcome {
    if isJmp && o.Fall? then Fall(o.regs[reg := Bool(false)]) else o
  }

  lemma BeforePatchOk(fs: Fs, t: seq<int>, f: seq<int>, reg: int, isJmp: bool)
    requires TwoLists(fs, t, f) && (isJmp ==> fs.jpc == [] && NeedValue(fs.code, t))
    ensures var p := BeforePatch(fs, t, f, reg, isJmp); var pf := PlaceFalse(fs, t, f, isJmp);
            && TwoLists(p, t, f) && Ready(p.code, f, reg, pf, false) && Ready(p.code, t, reg, PlaceTrue(pf), true)
            && StillOpen(fs.code, fs.jpc, p.code) && |fs.code| <= |p.code| && Within(p.jpc, fs)
            && p == fs.(code := p.code, jpc := p.jpc, lasttarget := p.lasttarget)
            && (forall j :: j in t || j in f ==> Carries(p.code, j) == Carries(fs.code, j) && (Carries(fs.code, j) ==> p.code[j - 1] == fs.code[j - 1]))
            && CloseLists(fs, t, f, reg, isJmp) == if t == [] && f == [] then fs else PatchBoth(p, t, f, reg, pf)
  {
    hide Loads;
    NeedValueIs(fs.code, t);
    NeedValueIs(fs.code, f);
    if NeedValue(fs.code, t) || NeedValue(fs.code, f) {
      hide StillOpen, PatchList, Ready;
      if isJmp { BeforePatchJmp(fs, t, f, reg); } else { BeforePatchJump(fs, t, f, reg); }
    }
  }

  function PlaceFalse(fs: Fs, t: seq<int>, f: seq<int>, isJmp: bool): int {
    if NeedValue(fs.code, t) || NeedValue(fs.code, f) then |fs.code| + (if isJmp then 0 else 1) else NO_JUMP
  }

  lemma BeforePatchJmp(fs: Fs, t: seq<int>, f: seq<int>, reg: int)
    requires TwoLists(fs, t, f) && fs.jpc == []
    ensures var p := PatchToHere(LoadBools(fs, reg), []); var pf := |fs.code|;
            && TwoLists(p, t, f) && Ready(p.code, f, reg, pf, false) && Ready(p.code, t, reg, PlaceTrue(pf), true)
            && StillOpen(fs.code, fs.jpc, p.code) && |fs.code| <= |p.code| && Within(p.jpc, fs)
            && p == fs.(code := p.code, jpc := p.jpc, lasttarget := p.lasttarget)
            && (forall j :: j in t || j in f ==> Carries(p.code, j) == Carries(fs.code, j) && (Carries(fs.code, j) ==> p.code[j - 1] == fs.code[j - 1]))
  {
    LoadBoolsOk(fs, reg);
    var p := PatchToHere(LoadBools(fs, reg), []);
    assert p == GetLabel(LoadBools(fs, reg));
    OthersKept(fs.code, [], p.code, t);
    OthersKept(fs.code, [], p.code, f);
    forall j | j in t || j in f ensures j < |fs.code| { assert OpenAt(fs.code, j); }
  }

  lemma BeforePatchJump(fs: Fs, t: seq<int>, f: seq<int>, reg: int)
    requires TwoLists(fs, t, f)
    ensures var p := PatchToHere(LoadBools(Jump(fs).0, reg), Jump(fs).1); var pf := |fs.code| + 1;
            && TwoLists(p, t, f) && Ready(p.code, f, reg, pf, false) && Ready(p.code, t, reg, PlaceTrue(pf), true)
            && StillOpen(fs.code, fs.jpc, p.code) && |fs.code| <= |p.code| && Within(p.jpc, fs)
            && p == fs.(code := p.code, jpc := p.jpc, lasttarget := p.lasttarget)
            && p.jpc == [|fs.code|] + fs.jpc
            && (forall j :: j in t || j in f ==> Carries(p.code, j) == Carries(fs.code, j) && (Carries(fs.code, j) ==> p.code[j - 1] == fs.code[j - 1]))
  {
    var (fs1, fj) := Jump(fs);
    JumpOk(fs);
    LoadBoolsOk(fs1, reg);
    var p := PatchToHere(LoadBools(fs1, reg), fj);
    StillOpenTwo0(fs.code, fs1.code, p.code);
    OthersKept(fs.code, [], p.code, t);
    OthersKept(fs.code, [], p.code, f);
    OthersKept(fs1.code, [], p.code, fj);
    forall j | j in t || j in f ensures j < |fs.code| { assert OpenAt(fs.code, j); }
    assert PatchList(p.code, [] + fj) && [] + fj == fj;
    assert FsOk(p);
  }

  lemma StillOpenTwo0(code: seq<Instr>, code1: seq<Instr>, code2: seq<Instr>)
    requires StillOpen(code, [], code1) && StillOpen(code1, [], code2) && |code| <= |code1|
    ensures StillOpen(code, [], code2)
  {
    forall j | OpenAt(code, j) ensures OpenAt(code2, j) && SameControl(code, code2, j) {
      assert OpenAt(code1, j);
      assert SameControl(code, code1, j) && SameControl(code1, code2, j);
    }
  }

  function BoolLoads(reg: int): seq<Instr> {
    [LoadBool(reg, false, true), LoadBool(reg, true, false)]
  }

  /** Without a jump in front the code goes through the first of the two, which skips the other. */
  lemma RunIntoLoads(m: Machine, k: seq<Value>, code: seq<Instr>, reg: int, regs: Regs)
    requires Exec(m, k, code, 0, regs) != Bad
    ensures Exec(m, k, code + BoolLoads(reg), 0, regs) == FallThrough(Exec(m, k, code, 0, regs), true, reg)
  {
    ExecAppend(m, k, code, BoolLoads(reg), 0, regs);
    assert (code + BoolLoads(reg))[|code|] == LoadBool(reg, false, true);
  }

  /** With a jump in front, and the jump pending to the place behind, they are not run into. */
  lemma RunPastLoads(m: Machine, k: seq<Value>, fs: Fs, reg: int, regs: Regs)
    requires FsOk(fs)
    ensures Joined(Exec(m, k, fs.code + [Jmp(NO_JUMP)] + BoolLoads(reg), 0, regs), [|fs.code|] + fs.jpc) == RunFs(m, k, fs, regs)
  {
    JumpOk(fs);
    JumpRun(m, k, fs, regs);
    var code1 := fs.code + [Jmp(NO_JUMP)];
    ExecGood(m, k, fs.code, fs.lasttarget, 0, regs);
    ExecGood(m, k, code1, fs.lasttarget, 0, regs);
    hide Exec, FsOk;
    ExecAppend(m, k, code1, BoolLoads(reg), 0, regs);
  }

  lemma BeforePatchRun(m: Machine, k: seq<Value>, fs: Fs, t: seq<int>, f: seq<int>, reg: int, isJmp: bool, regs: Regs)
    requires TwoLists(fs, t, f) && (isJmp ==> fs.jpc == [] && NeedValue(fs.code, t))
    ensures RunFs(m, k, BeforePatch(fs, t, f, reg, isJmp), regs) == FallThrough(RunFs(m, k, fs, regs), isJmp, reg)
  {
    hide Exec, PatchList, StillOpen, LoadBools, Loads;
    if isJmp {
      ExecGood(m, k, fs.code, fs.lasttarget, 0, regs);
      LoadBoolsOk(fs, reg);
      RunIntoLoads(m, k, fs.code, reg, regs);
    } else if NeedValue(fs.code, t) || NeedValue(fs.code, f) {
      JumpOk(fs);
      LoadBoolsOk(Jump(fs).0, reg);
      RunPastLoads(m, k, fs, reg, regs);
    }
  }
}
