/** The luaK_ functions over the function being compiled, each tied to what LuaCode says of it. */
module LuaGen {
  import opened LuaVm
  import opened LuaExec
  import opened LuaEmit
  import opened LuaExp
  import opened LuaClose
  import opened LuaReg
  import opened LuaOperand
  import opened LuaCond
  import opened LuaOps
  import opened LuaBinary
  import opened LuaCompile
  import opened LuaFunc
  import opened LuaForm
  import C = LuaCode
  import opened LuaCode

  /** The state of the object is that of the abstract generator, and `d' is its descriptor `e'. */
  ghost predicate Holds(s: FuncState, fs0: Fs, d: ExpDesc, e: Exp)
    reads s
  {
    s.Rep() && Formed(fs0, s.abs, e) && ExpRep(s.code, d, e)
  }

  ghost predicate Holds0(s: FuncState, fs0: Fs, d: ExpDesc, e: Exp)
    reads s
  {
    s.Rep() && Formed0(fs0, s.abs, e) && ExpRep(s.code, d, e)
  }

  // ----- registers and constants -----

  method ReserveRegs(s: FuncState, n: int)
    requires s.Rep()
    modifies s`freereg, s`maxstack, s`failed, s`abs
    ensures s.Rep() && s.abs == C.ReserveRegs(old(s.abs), n)
  {
    var newstack := s.freereg + n;
    if newstack > s.maxstack {
      if newstack >= MAXSTACK { s.failed := true; }
      s.maxstack := newstack;
    }
    s.freereg := newstack;
    s.abs := C.ReserveRegs(s.abs, n);
  }

  method FreeReg(s: FuncState, r: int)
    requires s.Rep()
    modifies s`freereg, s`abs
    ensures s.Rep() && s.abs == C.FreeReg(old(s.abs), r)
  {
    if r >= s.nactvar { s.freereg := s.freereg - 1; }
    s.abs := C.FreeReg(s.abs, r);
  }

  method FreeExp(s: FuncState, d: ExpDesc, ghost e: Exp)
    requires s.Rep() && d.k == e.k
    modifies s`freereg, s`abs
    ensures s.Rep() && s.abs == C.FreeExp(old(s.abs), e)
  {
    if d.k.VNonReloc? { FreeReg(s, d.k.r); }
  }

  method AddK(s: FuncState, v: Value) returns (i: int)
    requires s.Rep()
    modifies s`k, s`h, s`failed, s`abs
    ensures s.Rep() && (s.abs, i) == C.AddK(old(s.abs), v)
  {
    if v in s.h {
      i := s.h[v];
    } else {
      if |s.k| >= MAXARG_BX { s.failed := true; }
      i := |s.k|;
      s.k, s.h := s.k + [v], s.h[v := i];
    }
    s.abs := C.AddK(s.abs, v).0;
  }

  // ----- discharge -----

  /** luaK_nil */
  method CodeNil(s: FuncState, from: int)
    requires s.Valid()
    modifies s
    ensures s.Rep() && s.abs == C.CodeNil(old(s.abs), from) && |s.code| >= |old(s.code)|
    ensures Untouched(old(s.code), old(s.abs).code, [], old(s.abs).jpc, s.code)
  {
    var n := |s.code|;
    if n > s.lasttarget {
      if n == 0 {
        if from >= s.nactvar { return; }
      } else if s.code[n - 1].LoadNil? && s.code[n - 1].a <= from <= s.code[n - 1].b + 1 {
        if from > s.code[n - 1].b {
          MergeList(s.code, s.jpc, s.abs.jpc, LoadNil(s.code[n - 1].a, from));
          s.abs := s.abs.(code := s.abs.code[n - 1 := LoadNil(s.code[n - 1].a, from)]);
          s.code := s.code[n - 1 := LoadNil(s.code[n - 1].a, from)];
        }
        return;
      }
    }
    s.Code(LoadNil(from, from));
  }

  lemma MergeList(code: seq<Instr>, head: int, list: seq<int>, i: Instr)
    requires IsList(code, head, list) && |code| > 0 && !code[|code| - 1].Jmp? && !i.Jmp?
    ensures IsList(code[|code| - 1 := i], head, list)
  {
    SameJumpsList(code, code[|code| - 1 := i], head, list);
  }

  /** The instruction that brings the value to the register. */
  method LoadInto(s: FuncState, d: ExpDesc, reg: int, ghost fs0: Fs, ghost e: Exp)
    requires s.Rep() && Formed0(fs0, s.abs, e) && d.k == C.DischargeVars(e).k
    modifies s
    ensures s.Rep() && s.abs == C.Discharge2Reg(old(s.abs), e, reg).0
    ensures Untouched(old(s.code), old(s.abs).code, [], old(s.abs).jpc, s.code) && |s.code| >= |old(s.code)|
  {
    FormedFacts(fs0, s.abs, e);
    hide Untouched, IsList, Formed0, CodeRel, FsOk, C.Emit, C.CodeNil, Relocated, PatchList, Apart, ExpRep;
    SelfUntouched(s.code, s.abs, []);
    match d.k {
      case VNil => CodeNil(s, reg);
      case VFalse => s.Code(LoadBool(reg, false, false));
      case VTrue => s.Code(LoadBool(reg, true, false));
      case VK(i) => s.Code(LoadK(reg, i));
      case VKNum(n) =>
        var i := AddK(s, Num(n));
        s.Code(LoadK(reg, i));
      case VReloc(pc) => SetReg(s, pc, reg, fs0, e);
      case VNonReloc(r) => if reg != r { s.Code(Move(reg, r)); }
      case VJmp(_) =>
      case VLocal(_) =>
    }
  }

  /** luaK_discharge2reg */
  method Discharge2Reg(s: FuncState, d0: ExpDesc, reg: int, ghost fs0: Fs, ghost e: Exp) returns (d: ExpDesc)
    requires Holds0(s, fs0, d0, e) && reg >= fs0.freereg && reg >= s.nactvar
    modifies s
    ensures var r := C.Discharge2Reg(old(s.abs), e, reg); s.abs == r.0 && Holds0(s, fs0, d, r.1)
    ensures Untouched(old(s.code), old(s.abs).code, [], old(s.abs).jpc, s.code) && |s.code| >= |old(s.code)|
  {
    FormedFacts(fs0, s.abs, e);
    hide Untouched, IsList, Formed0, CodeRel, FsOk, C.Discharge2Reg, PatchList, Apart;
    ghost var fs, code0 := s.abs, s.code;
    d := Vars(d0);
    VarsRep(s.code, d0, e);
    LoadInto(s, d, reg, fs0, e);
    if !d.k.VJmp? { d := d.(k := VNonReloc(reg)); }
    Discharged(s.m, fs0, fs, e, reg);
    NoneShared(e);
    ExpKept(code0, fs, d0, e, [], s.code);
  }

  lemma SelfUntouched(code: seq<Instr>, fs: Fs, used: seq<int>)
    requires CodeRel(code, fs.code)
    ensures Untouched(code, fs.code, used, fs.jpc, code)
  {
  }

  lemma NoneShared(e: Exp)
    ensures Apart(Own(e), [])
  {
  }

  lemma Discharged(m: Machine, fs0: Fs, fs: Fs, e: Exp, reg: int)
    requires Formed0(fs0, fs, e) && reg >= fs0.freereg && reg >= fs.nactvar
    ensures var (fs2, e2) := C.Discharge2Reg(fs, e, reg);
            Formed0(fs0, fs2, e2) && (if e.k.VJmp? then e2 == e else e2 == e.(k := VNonReloc(reg)))
  {
    FormedIs(m, fs0, fs, e);
    Discharge2RegMeans(Shapes(m, fs0), fs, e, reg, Nil);
  }

  /** SETARG_A of the pending instruction. */
  method SetReg(s: FuncState, pc: int, reg: int, ghost fs0: Fs, ghost e: Exp)
    requires s.Rep() && Formed0(fs0, s.abs, e) && e.k == VReloc(pc)
    modifies s`code, s`abs
    ensures s.Rep() && s.abs == Relocated(old(s.abs), pc, reg) && |s.code| == |old(s.code)|
    ensures Untouched(old(s.code), old(s.abs).code, [], old(s.abs).jpc, s.code)
  {
    FormedFacts(fs0, s.abs, e);
    s.abs := Relocated(s.abs, pc, reg);
    s.code := s.code[pc := SetA(s.code[pc], reg)];
  }

  method Discharge2AnyReg(s: FuncState, d0: ExpDesc, ghost fs0: Fs, ghost e: Exp) returns (d: ExpDesc)
    requires Holds(s, fs0, d0, e) && !e.k.VJmp? && !e.k.VLocal?
    modifies s
    ensures var r := C.Discharge2AnyReg(old(s.abs), e); s.abs == r.0 && Holds(s, fs0, d, r.1) && d.k.VNonReloc?
    ensures Untouched(old(s.code), old(s.abs).code, [], old(s.abs).jpc, s.code) && |s.code| >= |old(s.code)|
  {
    FormedIs(s.m, fs0, s.abs, e);
    Discharge2AnyRegDenotes(Shapes(s.m, fs0), s.abs, e, Nil);
    ghost var r := C.Discharge2AnyReg(s.abs, e);
    FormedIs(s.m, fs0, r.0, r.1);
    d := d0;
    if !d.k.VNonReloc? {
      RegsFormed(fs0, s.abs, e, 1);
      ReserveRegs(s, 1);
      hide Formed0;
      d := Discharge2Reg(s, d0, s.freereg - 1, fs0, e);
    }
  }

  lemma RegsFormed(fs0: Fs, fs: Fs, e: Exp, n: int)
    requires Formed(fs0, fs, e) && !e.k.VNonReloc?
    ensures Formed0(fs0, C.ReserveRegs(fs, n), e) && fs.freereg == fs0.freereg >= fs.nactvar
  {
  }

  // ----- exp2reg -----

  method CodeLabel(s: FuncState, reg: int, value: bool, skip: bool) returns (pc: int)
    requires s.Rep() && s.abs.jpc == []
    modifies s
    ensures s.Rep() && s.abs == Emit(C.GetLabel(old(s.abs)), LoadBool(reg, value, skip)) && s.abs.jpc == []
    ensures pc == |old(s.code)| && |s.code| == pc + 1 && Untouched(old(s.code), old(s.abs).code, [], [], s.code)
  {
    pc := s.GetLabel();
    s.Code(LoadBool(reg, value, skip));
  }

  method LoadBools(s: FuncState, reg: int) returns (pf: int, pt: int)
    requires s.Valid() && s.abs.jpc == []
    modifies s
    ensures s.Rep() && s.abs == C.LoadBools(old(s.abs), reg) && s.abs.jpc == []
    ensures pf == |old(s.code)| && pt == pf + 1 && |s.code| == pf + 2 && Untouched(old(s.code), old(s.abs).code, [], [], s.code)
  {
    ghost var code0, fs := s.code, s.abs;
    pf := CodeLabel(s, reg, false, true);
    ghost var code1, acode1 := s.code, s.abs.code;
    pt := CodeLabel(s, reg, true, false);
    LoadFirst(fs, reg);
    UntouchedTrans(code0, fs.code, [], code1, acode1, s.code);
  }

  lemma LoadFirst(fs: Fs, reg: int)
    requires fs.jpc == []
    ensures forall j :: OpenAt(fs.code, j) ==> OpenAt(Emit(C.GetLabel(fs), LoadBool(reg, false, true)).code, j)
  {
  }

  /** The jumps without values, and the place they are sent to, are made ready. */
  method MakeReady(s: FuncState, reg: int, isJmp: bool, ghost t: seq<int>, ghost f: seq<int>) returns (pf: int, pt: int)
    requires s.Rep() && TwoLists(s.abs, t, f) && (isJmp ==> s.abs.jpc == [])
    requires C.NeedValue(s.abs.code, t) || C.NeedValue(s.abs.code, f)
    modifies s
    ensures s.Valid() && s.abs == BeforePatch(old(s.abs), t, f, reg, isJmp)
    ensures pf == PlaceFalse(old(s.abs), t, f, isJmp) && pt == PlaceTrue(pf)
    ensures Untouched(old(s.code), old(s.abs).code, [], old(s.abs).jpc, s.code) && |s.code| >= |old(s.code)|
  {
    hide Untouched, IsList, PatchList, C.Jump, C.LoadBools, C.NeedValue, Apart;
    ghost var code0, fs := s.code, s.abs;
    var fj := NO_JUMP;
    ghost var list := [];
    if !isJmp {
      JumpOk(s.abs);
      list := C.Jump(s.abs).1;
      fj := s.Jump();
    }
    ghost var code1, fs1 := s.code, s.abs;
    LoadBoolsOk(s.abs, reg);
    pf, pt := LoadBools(s, reg);
    ghost var code2, fs2 := s.code, s.abs;
    HeldLists(fs, fs1, list, code1, code2, fj, isJmp, reg);
    s.PatchToHere(fj, list);
    HeldUntouched(fs, fs1, fs2, isJmp, reg, code0, code1, code2, s.code);
  }

  /** The jumps held by the new jump are still on its list. */
  lemma HeldLists(fs: Fs, fs1: Fs, list: seq<int>, code1: seq<Instr>, code2: seq<Instr>, fj: int, isJmp: bool, reg: int)
    requires if isJmp then list == [] && fj == NO_JUMP else PatchList(fs1.code, list) && IsList(code1, fj, list)
    requires FsOk(fs1) && fs1.jpc == [] && Untouched(code1, fs1.code, [], [], code2) && |code1| <= |code2|
    ensures IsList(code2, fj, list) && PatchList(C.LoadBools(fs1, reg).code, list) && Apart([], list)
  {
    LoadBoolsOk(fs1, reg);
    if !isJmp {
      ListUntouched(code1, fs1.code, [], [], code2, fj, list);
      OthersKept(fs1.code, [], C.LoadBools(fs1, reg).code, list);
    }
  }

  lemma HeldUntouched(fs: Fs, fs1: Fs, fs2: Fs, isJmp: bool, reg: int, code0: seq<Instr>, code1: seq<Instr>, code2: seq<Instr>, code3: seq<Instr>)
    requires FsOk(fs) && FsOk(fs1) && fs1.jpc == [] && fs2 == C.LoadBools(fs1, reg)
    requires if isJmp then fs1 == fs && code1 == code0 && CodeRel(code0, fs.code) else fs1 == C.Jump(fs).0 && Untouched(code0, fs.code, [], fs.jpc, code1)
    requires Untouched(code1, fs1.code, [], [], code2) && Untouched(code2, fs2.code, [], [], code3)
    ensures Untouched(code0, fs.code, [], fs.jpc, code3)
  {
    LoadBoolsOk(fs1, reg);
    UntouchedTrans(code1, fs1.code, [], code2, fs2.code, code3);
    if !isJmp {
      JumpOk(fs);
      UntouchedTrans(code0, fs.code, fs.jpc, code1, fs1.code, code3);
    }
  }

  /** The second half of exp2reg. */
  method CloseLists(s: FuncState, t: int, f: int, reg: int, isJmp: bool, ghost ts: seq<int>, ghost fss: seq<int>)
    requires s.Rep() && TwoLists(s.abs, ts, fss) && (isJmp ==> s.abs.jpc == [] && C.NeedValue(s.abs.code, ts))
    requires IsList(s.code, t, ts) && IsList(s.code, f, fss)
    modifies s
    ensures s.Rep() && s.abs == C.CloseLists(old(s.abs), ts, fss, reg, isJmp) && |s.code| >= |old(s.code)|
    ensures Untouched(old(s.code), old(s.abs).code, ts + fss, old(s.abs).jpc, s.code)
  {
    hide Untouched, IsList, PatchList, FsOk, BeforePatch, PlaceFalse, CodeRel, C.NeedValue, C.PatchListAux, Ready, StillOpen;
    ghost var code0, fs := s.code, s.abs;
    HeadsDiffer(s.code, ExpDesc(VNil, t, f), Exp(VNil, ts, fss));
    SelfUntouched(s.code, s.abs, ts + fss);
    if t != f {
      var pf, pt := NO_JUMP, NO_JUMP;
      BeforePatchOk(fs, ts, fss, reg, isJmp);
      SelfUntouched(s.code, s.abs, []);
      var needT := s.NeedValue(t, ts);
      var needF := s.NeedValue(f, fss);
      if needT || needF {
        pf, pt := MakeReady(s, reg, isJmp, ts, fss);
      } else {
        NotNeeded(fs, ts, fss, reg, isJmp);
      }
      ghost var code1, fs1 := s.code, s.abs;
      ListsKept(code0, fs, t, f, ts, fss, code1);
      PatchLists(s, t, f, reg, pf, pt, ts, fss);
      ClosedUntouched(fs, fs1, ts, fss, code0, code1, s.code);
    }
  }

  lemma NotNeeded(fs: Fs, t: seq<int>, f: seq<int>, reg: int, isJmp: bool)
    requires !C.NeedValue(fs.code, t) && !C.NeedValue(fs.code, f)
    ensures BeforePatch(fs, t, f, reg, isJmp) == fs && PlaceFalse(fs, t, f, isJmp) == NO_JUMP
  {
  }

  lemma ListsKept(code0: seq<Instr>, fs: Fs, t: int, f: int, ts: seq<int>, fss: seq<int>, code1: seq<Instr>)
    requires Untouched(code0, fs.code, [], fs.jpc, code1) && |code0| <= |code1| && TwoLists(fs, ts, fss)
    requires IsList(code0, t, ts) && IsList(code0, f, fss)
    ensures IsList(code1, t, ts) && IsList(code1, f, fss)
  {
    ListUntouched(code0, fs.code, [], fs.jpc, code1, t, ts);
    ListUntouched(code0, fs.code, [], fs.jpc, code1, f, fss);
  }

  lemma ClosedUntouched(fs: Fs, fs1: Fs, t: seq<int>, f: seq<int>, code0: seq<Instr>, code1: seq<Instr>, code2: seq<Instr>)
    requires Untouched(code0, fs.code, [], fs.jpc, code1) && Untouched(code1, fs1.code, t + f, [], code2)
    requires StillOpen(fs.code, fs.jpc, fs1.code)
    ensures Untouched(code0, fs.code, t + f, fs.jpc, code2)
  {
    forall j | OpenAt(fs.code, j) && j !in t + f && j !in fs.jpc ensures j < |code2| && code2[j] == code0[j] {
      assert OpenAt(fs1.code, j);
    }
  }

  /** Both lists get their targets: the end of the expression, or the loading of a boolean. */
  method PatchLists(s: FuncState, t: int, f: int, reg: int, pf: int, pt: int, ghost ts: seq<int>, ghost fss: seq<int>)
    requires s.Rep() && TwoLists(s.abs, ts, fss) && IsList(s.code, t, ts) && IsList(s.code, f, fss) && pt == PlaceTrue(pf)
    modifies s
    ensures s.Rep() && s.abs == C.PatchBoth(old(s.abs), ts, fss, reg, pf) && |s.code| == |old(s.code)|
    ensures Untouched(old(s.code), old(s.abs).code, ts + fss, [], s.code)
  {
    hide Untouched, IsList, PatchList, FsOk, CodeRel, C.PatchListAux, StillOpen;
    ghost var code0, fs := s.code, s.abs;
    ghost var j0 := s.jpc;
    TwoListsFacts(fs, ts, fss);
    var final := s.GetLabel();
    PatchListAuxAt(s.abs, fss, final, ToReg(reg), pf);
    PatchKeeps(s.abs, fss, final, ToReg(reg), pf);
    s.PatchListAux(f, final, ToReg(reg), pf, fss);
    ghost var code1, fs1 := s.code, s.abs;
    ListUntouched(code0, fs.code, fss, [], code1, t, ts);
    ListUntouched(code0, fs.code, fss, [], code1, j0, fs.jpc);
    OthersKept(fs.code, fss, fs1.code, ts);
    OthersKept(fs.code, fss, fs1.code, fs.jpc);
    PatchListAuxAt(s.abs, ts, final, ToReg(reg), pt);
    s.PatchListAux(t, final, ToReg(reg), pt, ts);
    ListUntouched(code1, fs1.code, ts, [], s.code, j0, fs.jpc);
    BothUntouched(fs, fs1, ts, fss, code0, code1, s.code);
  }

  lemma TwoListsFacts(fs: Fs, t: seq<int>, f: seq<int>)
    requires TwoLists(fs, t, f)
    ensures AllOpen(fs.code, t) && AllOpen(fs.code, f) && PatchList(fs.code, fs.jpc) && AllOpen(fs.code, fs.jpc)
  {
  }

  lemma BothUntouched(fs: Fs, fs1: Fs, t: seq<int>, f: seq<int>, code0: seq<Instr>, code1: seq<Instr>, code2: seq<Instr>)
    requires Untouched(code0, fs.code, f, [], code1) && Untouched(code1, fs1.code, t, [], code2) && StillOpen(fs.code, f, fs1.code)
    ensures Untouched(code0, fs.code, t + f, [], code2)
  {
    forall j | OpenAt(fs.code, j) && j !in t + f ensures j < |code2| && code2[j] == code0[j] {
      assert OpenAt(fs1.code, j);
    }
  }

  method Exp2Reg(s: FuncState, d0: ExpDesc, reg: int, ghost fs0: Fs, ghost e: Exp) returns (d: ExpDesc)
    requires Holds0(s, fs0, d0, e) && reg >= fs0.freereg && reg >= s.nactvar
    modifies s
    ensures var r := C.Exp2Reg(old(s.abs), e, reg); s.abs == r.0 && Holds0(s, fs0, d, r.1) && r.1.k == VNonReloc(reg)
    ensures Untouched(old(s.code), old(s.abs).code, Own(e), old(s.abs).jpc, s.code) && |s.code| >= |old(s.code)|
  {
    hide Untouched, IsList, PatchList, FsOk, CodeRel, C.NeedValue, C.Discharge2Reg, C.CloseLists, Shape;
    ghost var code0, fs := s.code, s.abs;
    Exp2RegFormed(s.m, fs0, fs, e, reg);
    Discharged(s.m, fs0, fs, e, reg);
    d := Discharge2Reg(s, d0, reg, fs0, e);
    ghost var fs1, e1 := s.abs, C.Discharge2Reg(fs, e, reg).1;
    ghost var code1 := s.code;
    ExpLists(s.m, fs0, fs1, e1, reg);
    DischargeOpen(fs0, fs, e, reg);
    SelfUntouched(s.code, s.abs, []);
    SelfUntouched(s.code, s.abs, e1.t);
    NoJpc(s.code, fs1, e1.t);
    ListHead(s.code, s.jpc, fs1.jpc);
    var t := d.t;
    if d.k.VJmp? {
      t := s.Concat(d.t, d.k.pc, e1.t, [e1.k.pc]);
      ConcatKept(fs1, d, e1, code1, s.code);
    }
    ghost var code2 := s.code;
    CloseLists(s, t, d.f, reg, d.k.VJmp?, ClosedT(e1), e1.f);
    d := ExpDesc(VNonReloc(reg), NO_JUMP, NO_JUMP);
    EmptyLists(s.code);
    RegUntouched(fs, fs1, e1, code0, code1, code2, s.code, ClosedT(e1));
    SameOwn(e, e1);
  }

  lemma NoJpc(code: seq<Instr>, fs: Fs, used: seq<int>)
    requires CodeRel(code, fs.code)
    ensures Untouched(code, fs.code, used, [], code)
  {
  }

  lemma SameOwn(e: Exp, e1: Exp)
    requires e1.t == e.t && e1.f == e.f && (e1.k == e.k || (!e.k.VJmp? && !e1.k.VJmp?))
    ensures Own(e1) == Own(e)
  {
  }

  lemma Exp2RegFormed(m: Machine, fs0: Fs, fs: Fs, e: Exp, reg: int)
    requires Formed0(fs0, fs, e) && reg >= fs0.freereg && reg >= fs.nactvar
    ensures var (fs2, e2) := C.Exp2Reg(fs, e, reg); Formed0(fs0, fs2, e2) && e2 == Exp(VNonReloc(reg), [], [])
  {
    FormedIs(m, fs0, fs, e);
    Exp2RegMeans(Shapes(m, fs0), fs, e, reg, Nil);
  }

  /** The lists exp2reg closes: the jump of a comparison joins those that leave when it is true. */
  function ClosedT(e: Exp): seq<int> {
    if e.k.VJmp? then e.t + [e.k.pc] else e.t
  }

  lemma ExpLists(m: Machine, fs0: Fs, fs: Fs, e: Exp, reg: int)
    requires Formed0(fs0, fs, e)
    ensures TwoLists(fs, ClosedT(e), e.f) && PatchList(fs.code, e.t) && PatchList(fs.code, e.f)
    ensures e.k.VJmp? ==> fs.jpc == [] && C.NeedValue(fs.code, ClosedT(e)) && Apart(e.t, [e.k.pc]) && Apart(e.f, e.t)
  {
    if e.k.VJmp? {
      FormedIs(m, fs0, fs, e);
      CompareLoaded(Shapes(m, fs0), fs, e, reg, Nil);
    }
  }

  lemma ConcatKept(fs: Fs, d: ExpDesc, e: Exp, code1: seq<Instr>, code2: seq<Instr>)
    requires ExpRep(code1, d, e) && PatchList(fs.code, e.f) && Apart(e.f, e.t) && Untouched(code1, fs.code, e.t, [], code2)
    requires |code1| <= |code2|
    ensures IsList(code2, d.f, e.f) && IsList(code2, NO_JUMP, [])
  {
    ListUntouched(code1, fs.code, e.t, [], code2, d.f, e.f);
  }

  lemma EmptyLists(code: seq<Instr>)
    ensures IsList(code, NO_JUMP, [])
  {
  }

  lemma RegUntouched(fs: Fs, fs1: Fs, e: Exp, code0: seq<Instr>, code1: seq<Instr>, code2: seq<Instr>, code3: seq<Instr>, ts: seq<int>)
    requires Untouched(code0, fs.code, [], fs.jpc, code1) && Untouched(code1, fs1.code, e.t, [], code2)
    requires Untouched(code2, fs1.code, ts + e.f, fs1.jpc, code3) && ts == ClosedT(e)
    requires StillOpen(fs.code, fs.jpc, fs1.code) && (fs1.jpc == fs.jpc || fs1.jpc == [])
    ensures Untouched(code0, fs.code, Own(e), fs.jpc, code3)
  {
    forall j | OpenAt(fs.code, j) && j !in Own(e) && j !in fs.jpc ensures j < |code3| && code3[j] == code0[j] {
      assert OpenAt(fs1.code, j);
      assert j !in e.t && j !in ts + e.f;
    }
  }
}
