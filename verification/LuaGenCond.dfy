/** Conditions, negation and binary operators over the function being compiled. */
module LuaGenCond {
  import opened LuaVm
  import opened LuaExec
  import opened LuaEmit
  import opened LuaExp
  import opened LuaClose
  import opened LuaReg
  import opened LuaOperand
  import opened LuaCond
  import opened LuaOps
  import opened LuaBinary
  import opened LuaCompile
  import opened LuaFunc
  import opened LuaForm
  import G = LuaGen
  import opened LuaGen
  import O = LuaGenOps
  import opened LuaGenOps
  import C = LuaCode
  import opened LuaCode

  // ----- jumps on conditions -----

  method InvertJump(s: FuncState, d: ExpDesc, ghost fs0: Fs, ghost e: Exp)
    requires Holds(s, fs0, d, e) && e.k.VJmp?
    modifies s`code, s`abs
    ensures s.abs == C.InvertJump(old(s.abs), e) && s.Rep() && ExpRep(s.code, d, e)
    ensures SameJumps(old(s.code), s.code)
  {
    FormedFacts(fs0, s.abs, e);
    var pc := d.k.pc - 1;
    var i := s.code[pc];
    ghost var code0 := s.code;
    s.abs := C.InvertJump(s.abs, e);
    s.code := s.code[pc := Cmp(i.cop, !i.cond, i.rb, i.rc)];
    SameJumpsList(code0, s.code, s.jpc, s.abs.jpc);
    SameJumpsList(code0, s.code, d.t, e.t);
    SameJumpsList(code0, s.code, d.f, e.f);
    SameJumpsList(code0, s.code, e.k.pc, [e.k.pc]);
  }

  lemma SameUntouched(code0: seq<Instr>, fs: Fs, used: seq<int>, code1: seq<Instr>)
    requires SameJumps(code0, code1) && CodeRel(code0, fs.code)
    ensures Untouched(code0, fs.code, used, fs.jpc, code1)
  {
  }

  /** jumponcond */
  method JumpOnCond(s: FuncState, d0: ExpDesc, cond: bool, ghost fs0: Fs, ghost e: Exp) returns (d: ExpDesc, j: int)
    requires Holds(s, fs0, d0, e) && !e.k.VJmp? && !e.k.VLocal?
    modifies s
    ensures var r := C.JumpOnCond(old(s.abs), e, cond);
            s.abs == r.0 && s.Valid() && d.k == r.1.k && IsList(s.code, d.t, e.t) && IsList(s.code, d.f, e.f) && IsList(s.code, j, r.2)
    ensures Untouched(old(s.code), old(s.abs).code, [], old(s.abs).jpc, s.code)
  {
    hide Formed0, IsList, Untouched, CodeRel, C.CondJump, C.Discharge2AnyReg, RegOk, FsOk, ExOk, PatchList;
    FormedFacts(fs0, s.abs, e);
    PendingPlace(s.code, s.abs, e);
    if d0.k.VReloc? && s.code[d0.k.pc].Not? {
      d := d0;
      j := TestNot(s, d0, cond, fs0, e);
    } else {
      d, j := TestValue(s, d0, cond, fs0, e);
    }
  }

  lemma PendingPlace(code: seq<Instr>, fs: Fs, e: Exp)
    requires CodeRel(code, fs.code) && ExOk(fs, e)
    ensures e.k.VReloc? ==> 0 <= e.k.pc == |fs.code| - 1 && |code| == |fs.code| && code[e.k.pc] == fs.code[e.k.pc]
  {
  }

  /** The NOT before is removed, and its operand tested the other way round. */
  method TestNot(s: FuncState, d: ExpDesc, cond: bool, ghost fs0: Fs, ghost e: Exp) returns (j: int)
    requires Holds(s, fs0, d, e) && e.k.VReloc? && 0 <= e.k.pc == |s.code| - 1 && s.code[e.k.pc].Not? && s.abs.code[e.k.pc].Not?
    modifies s
    ensures var r := C.CondJump(old(s.abs).(code := old(s.abs).code[..e.k.pc]), Test(old(s.abs).code[e.k.pc].b, !cond));
            s.abs == r.0 && s.Valid() && IsList(s.code, d.t, e.t) && IsList(s.code, d.f, e.f) && IsList(s.code, j, r.1)
    ensures Untouched(old(s.code), old(s.abs).code, [], old(s.abs).jpc, s.code)
  {
    ghost var code0, fs := s.code, s.abs;
    FormedFacts(fs0, fs, e);
    FormedIs(s.m, fs0, fs, e);
    DropNot(Shapes(s.m, fs0), fs, e, Nil);
    var pc := d.k.pc;
    var b := s.code[pc].b;
    s.code := s.code[..pc];
    s.abs := s.abs.(code := s.abs.code[..pc]);
    ghost var code1, fs1 := s.code, s.abs;
    DroppedLists(code0, code1, fs, fs1, d, e, s.jpc);
    hide IsList, Untouched, CodeRel, C.CondJump, Formed0, RegOk, FsOk, ExOk, PatchList;
    j := s.CondJump(Test(b, !cond));
    FreshTest(fs, fs1, e, d, code0, code1, s.code);
  }

  /** The lists are in the code that is left. */
  lemma DroppedLists(code0: seq<Instr>, code1: seq<Instr>, fs: Fs, fs1: Fs, d: ExpDesc, e: Exp, jpc: int)
    requires CodeRel(code0, fs.code) && IsList(code0, jpc, fs.jpc) && fs.jpc == [] && e.k.VReloc? && 0 <= e.k.pc == |code0| - 1
    requires code1 == code0[..e.k.pc] && fs1 == fs.(code := fs.code[..e.k.pc]) && ExpRep(code0, d, e)
    requires forall j :: j in e.t || j in e.f ==> 0 <= j < e.k.pc
    ensures CodeRel(code1, fs1.code) && IsList(code1, jpc, fs.jpc) && IsList(code1, d.t, e.t) && IsList(code1, d.f, e.f)
  {
    ListShorter(code0, code1, d.t, e.t);
    ListShorter(code0, code1, d.f, e.f);
  }

  lemma {:induction false} ListShorter(code0: seq<Instr>, code1: seq<Instr>, head: int, list: seq<int>)
    requires IsList(code0, head, list) && |code1| <= |code0| && code1 == code0[..|code1|] && forall j :: j in list ==> j < |code1|
    ensures IsList(code1, head, list)
    decreases |list|
  {
    if list != [] {
      assert list[0] in list;
      forall j | j in list[1..] ensures j < |code1| { assert j in list; }
      ListShorter(code0, code1, NextJump(code0, head), list[1..]);
    }
  }

  lemma FreshTest(fs: Fs, fs1: Fs, e: Exp, d: ExpDesc, code0: seq<Instr>, code1: seq<Instr>, code2: seq<Instr>)
    requires ExOk(fs, e) && e.k.VReloc? && fs.jpc == [] && |code0| == |fs.code| && fs1 == fs.(code := fs.code[..e.k.pc]) && code1 == code0[..e.k.pc]
    requires !fs.code[e.k.pc].Jmp? && AllOpen(fs1.code, e.t) && AllOpen(fs1.code, e.f)
    requires IsList(code1, d.t, e.t) && IsList(code1, d.f, e.f) && Untouched(code1, fs1.code, [], [], code2) && |code1| <= |code2|
    ensures IsList(code2, d.t, e.t) && IsList(code2, d.f, e.f) && Untouched(code0, fs.code, [], fs.jpc, code2)
  {
    ListUntouched(code1, fs1.code, [], [], code2, d.t, e.t);
    ListUntouched(code1, fs1.code, [], [], code2, d.f, e.f);
    forall j | OpenAt(fs.code, j) ensures j < |code2| && code2[j] == code0[j] { assert OpenAt(fs1.code, j); }
  }

  /** The value is put in a register, if it is in none, and tested; a jump keeps it. */
  method TestValue(s: FuncState, d0: ExpDesc, cond: bool, ghost fs0: Fs, ghost e: Exp) returns (d: ExpDesc, j: int)
    requires Holds(s, fs0, d0, e) && !e.k.VJmp? && !e.k.VLocal?
    modifies s
    ensures var r1 := C.Discharge2AnyReg(old(s.abs), e); var r := C.CondJump(C.FreeExp(r1.0, r1.1), TestSet(NoReg, RegOf(r1.1), cond));
            s.abs == r.0 && s.Valid() && d.k == r1.1.k && IsList(s.code, d.t, e.t) && IsList(s.code, d.f, e.f) && IsList(s.code, j, r.1)
    ensures Untouched(old(s.code), old(s.abs).code, [], old(s.abs).jpc, s.code)
  {
    hide Formed, IsList, Untouched, CodeRel, C.CondJump, C.Discharge2AnyReg, FsOk, ExOk, PatchList;
    ghost var code0, fs := s.code, s.abs;
    AnyRegOpen(s.m, fs0, fs, e);
    d := G.Discharge2AnyReg(s, d0, fs0, e);
    ghost var code1, fs1, e1 := s.code, s.abs, C.Discharge2AnyReg(fs, e).1;
    FormedLists(fs0, fs1, e1);
    G.FreeExp(s, d, e1);
    FreedSame(fs1, e1);
    ghost var fs2 := s.abs;
    j := s.CondJump(TestSet(NoReg, d.k.r, cond));
    ListUntouched(code1, fs2.code, [], fs2.jpc, s.code, d.t, e.t);
    ListUntouched(code1, fs2.code, [], fs2.jpc, s.code, d.f, e.f);
    OpenThen(code0, fs, code1, fs1, s.code);
  }

  lemma FormedLists(fs0: Fs, fs: Fs, e: Exp)
    requires Formed(fs0, fs, e)
    ensures FsOk(fs) && AllOpen(fs.code, e.t) && AllOpen(fs.code, e.f) && Apart(e.t, fs.jpc) && Apart(e.f, fs.jpc) && Apart(e.t, [])
  {
  }

  lemma FreedSame(fs: Fs, e: Exp)
    requires FsOk(fs)
    ensures FsOk(C.FreeExp(fs, e)) && C.FreeExp(fs, e).code == fs.code && C.FreeExp(fs, e).jpc == fs.jpc
  {
  }

  lemma AnyRegOpen(m: Machine, fs0: Fs, fs: Fs, e: Exp)
    requires Formed(fs0, fs, e) && !e.k.VJmp? && !e.k.VLocal?
    ensures var (fs1, e1) := C.Discharge2AnyReg(fs, e);
            StillOpen(fs.code, fs.jpc, fs1.code) && (fs1.jpc == fs.jpc || fs1.jpc == []) && e1.k.VNonReloc? && e1.t == e.t && e1.f == e.f && Formed(fs0, fs1, e1)
  {
    hide C.Discharge2Reg;
    FormedIs(m, fs0, fs, e);
    Discharge2AnyRegDenotes(Shapes(m, fs0), fs, e, Nil);
    FormedIs(m, fs0, C.Discharge2AnyReg(fs, e).0, C.Discharge2AnyReg(fs, e).1);
    if !e.k.VNonReloc? {
      var fs1 := C.ReserveRegs(fs, 1);
      FormedRegs(fs0, fs, e, fs1);
      DischargeOpen(fs0, fs1, e, fs1.freereg - 1);
    }
  }

  lemma OpenThen(code0: seq<Instr>, fs: Fs, code1: seq<Instr>, fs1: Fs, code2: seq<Instr>)
    requires Untouched(code0, fs.code, [], fs.jpc, code1) && Untouched(code1, fs1.code, [], fs1.jpc, code2)
    requires StillOpen(fs.code, fs.jpc, fs1.code) && (fs1.jpc == fs.jpc || fs1.jpc == [])
    ensures Untouched(code0, fs.code, [], fs.jpc, code2)
  {
    forall j | OpenAt(fs.code, j) && j !in fs.jpc ensures j < |code2| && code2[j] == code0[j] { assert OpenAt(fs1.code, j); }
  }

  // ----- goiftrue, goiffalse -----

  /** The new jump joins the list of those that leave, and those that stay are sent here. */
  method FinishCond(s: FuncState, stay: int, leave: int, pc: int, ghost stays: seq<int>, ghost leaves: seq<int>, ghost list: seq<int>)
    returns (l: int)
    requires s.Valid() && TwoLists(s.abs, stays, leaves + list) && Apart(leaves, list) && NoRepeat(leaves)
    requires IsList(s.code, stay, stays) && IsList(s.code, leave, leaves) && IsList(s.code, pc, list)
    modifies s
    ensures s.Valid() && s.abs == C.PatchToHere(old(s.abs), stays) && IsList(s.code, l, leaves + list) && |s.code| == |old(s.code)|
    ensures Untouched(old(s.code), old(s.abs).code, leaves, old(s.abs).jpc, s.code)
  {
    hide IsList, Untouched, CodeRel, FsOk, PatchList;
    ghost var code0, fs := s.code, s.abs;
    ghost var j0 := s.jpc;
    TwoListsFacts(fs, stays, leaves + list);
    PartOpen(fs.code, leaves, list);
    l := s.Concat(leave, pc, leaves, list);
    ghost var code1 := s.code;
    PartApart(stays, fs.jpc, leaves, list);
    ListUntouched(code0, fs.code, leaves, [], code1, stay, stays);
    ListUntouched(code0, fs.code, leaves, [], code1, j0, fs.jpc);
    s.PatchToHere(stay, stays);
    ListUntouched(code1, fs.code, [], fs.jpc, s.code, l, leaves + list);
    CondUntouched(fs, leaves, code0, code1, s.code);
  }

  lemma PartOpen(code: seq<Instr>, a: seq<int>, b: seq<int>)
    requires AllOpen(code, a + b)
    ensures AllOpen(code, a)
  {
    forall j | j in a ensures OpenAt(code, j) { assert j in a + b; }
  }

  lemma PartApart(stays: seq<int>, jpc: seq<int>, leaves: seq<int>, list: seq<int>)
    requires Apart(stays, leaves + list) && Apart(leaves + list, jpc)
    ensures Apart(stays, leaves) && Apart(jpc, leaves) && Apart(stays, []) && Apart(jpc, []) && Apart(leaves + list, [])
  {
    assert forall j :: j in leaves ==> j in leaves + list;
  }

  lemma CondUntouched(fs: Fs, leaves: seq<int>, code0: seq<Instr>, code1: seq<Instr>, code2: seq<Instr>)
    requires Untouched(code0, fs.code, leaves, [], code1) && Untouched(code1, fs.code, [], fs.jpc, code2)
    ensures Untouched(code0, fs.code, leaves, fs.jpc, code2)
  {
  }

  /** The second of two steps, when the first has kept the jumps of others open. */
  lemma CondThen(code0: seq<Instr>, fs: Fs, e: Exp, code1: seq<Instr>, fs1: Fs, leaves: seq<int>, code2: seq<Instr>)
    requires Untouched(code0, fs.code, Own(e), fs.jpc, code1) && Untouched(code1, fs1.code, leaves, fs1.jpc, code2)
    requires Later(fs, fs1, Own(e), leaves)
    ensures Untouched(code0, fs.code, Own(e), fs.jpc, code2)
  {
  }

  /** What is known of the lists when the new jump is there. */
  ghost predicate HalfWay(fs0: Fs, fs: Fs, fs1: Fs, e: Exp, go: bool, list: seq<int>) {
    && TwoLists(fs1, Stay(e, go), Leave(e, go) + list) && Apart(Leave(e, go), list) && NoRepeat(Leave(e, go))
    && Later(fs, fs1, Own(e), Leave(e, go)) && GuardFormed(fs0, C.PatchToHere(fs1, Stay(e, go)), Leave(e, go) + list)
  }

  lemma BranchedHalfWay(m: Machine, fs0: Fs, fs: Fs, fs1: Fs, e: Exp, go: bool, list: seq<int>)
    requires Branched(Shapes(m, fs0), fs1, Stay(e, go), Leave(e, go) + list, Nil, go)
    requires forall j :: OpenAt(fs.code, j) && j !in Own(e) && j !in fs.jpc ==> OpenAt(fs1.code, j) && j !in fs1.jpc
    ensures HalfWay(fs0, fs, fs1, e, go, list)
  {
    var leave := Leave(e, go);
    GuardFromBranch(Shapes(m, fs0), fs1, Stay(e, go), leave + list, Nil, go);
    GuardIs(m, fs0, C.PatchToHere(fs1, Stay(e, go)), leave + list, Nil, go);
    assert forall j :: j in leave ==> j in Own(e);
    SplitRepeat(leave, list) by { BranchedRepeat(Shapes(m, fs0), fs1, Stay(e, go), leave + list, go); }
    assert TwoLists(fs1, Stay(e, go), leave + list) by { BranchedRepeat(Shapes(m, fs0), fs1, Stay(e, go), leave + list, go); }
  }

  lemma BranchedRepeat(c: Ctx, fs1: Fs, stay: seq<int>, leave: seq<int>, go: bool)
    requires Branched(c, fs1, stay, leave, Nil, go)
    ensures TwoLists(fs1, stay, leave) && NoRepeat(leave)
  {
  }

  lemma SplitRepeat(a: seq<int>, b: seq<int>)
    requires NoRepeat(a + b)
    ensures NoRepeat(a) && Apart(a, b)
  {
    forall x, y | 0 <= x < y < |a| ensures a[x] != a[y] { assert (a + b)[x] != (a + b)[y]; }
    forall x, y | 0 <= x < |a| && 0 <= y < |b| ensures a[x] != b[y] { assert (a + b)[x] != (a + b)[|a| + y]; }
  }

  lemma ConstHalfWay(m: Machine, fs0: Fs, fs: Fs, e: Exp, go: bool)
    requires Formed(fs0, fs, e) && (if go then e.k.VKNum? || e.k.VTrue? else e.k.VNil? || e.k.VFalse?)
    ensures HalfWay(fs0, fs, fs, e, go, [])
  {
    FormedIs(m, fs0, fs, e);
    ConstBranch(Shapes(m, fs0), fs, e, Nil, go);
    hide Branched;
    BranchedHalfWay(m, fs0, fs, fs, e, go, []);
  }

  lemma AlwaysHalfWay(m: Machine, fs0: Fs, fs: Fs, e: Exp, go: bool)
    requires Formed(fs0, fs, e) && (if go then e.k.VFalse? else e.k.VTrue?)
    ensures HalfWay(fs0, fs, C.Jump(fs).0, e, go, C.Jump(fs).1)
  {
    FormedFacts(fs0, fs, e);
    FormedIs(m, fs0, fs, e);
    AlwaysBranch(Shapes(m, fs0), fs, e, Nil, go);
    JumpOk(fs);
    hide Branched;
    forall j | OpenAt(fs.code, j) ensures OpenAt(C.Jump(fs).0.code, j) { }
    BranchedHalfWay(m, fs0, fs, C.Jump(fs).0, e, go, C.Jump(fs).1);
  }

  lemma JmpHalfWay(m: Machine, fs0: Fs, fs: Fs, e: Exp, go: bool)
    requires Formed(fs0, fs, e) && e.k.VJmp?
    ensures HalfWay(fs0, fs, if go then C.InvertJump(fs, e) else fs, e, go, [e.k.pc])
  {
    FormedIs(m, fs0, fs, e);
    if go {
      JmpTrueBranch(Shapes(m, fs0), fs, e, Nil);
      InvertOpen(fs, e);
      hide Branched;
      BranchedHalfWay(m, fs0, fs, C.InvertJump(fs, e), e, go, [e.k.pc]);
    } else {
      JmpFalseBranch(Shapes(m, fs0), fs, e, Nil);
      hide Branched;
      BranchedHalfWay(m, fs0, fs, fs, e, go, [e.k.pc]);
    }
  }

  lemma InvertOpen(fs: Fs, e: Exp)
    ensures forall j :: OpenAt(fs.code, j) ==> OpenAt(C.InvertJump(fs, e).code, j)
    ensures C.InvertJump(fs, e).jpc == fs.jpc
  {
  }

  lemma CondHalfWay(m: Machine, fs0: Fs, fs: Fs, e: Exp, cond: bool)
    requires Formed(fs0, fs, e) && !e.k.VJmp? && !e.k.VLocal?
    ensures var r := C.JumpOnCond(fs, e, cond); HalfWay(fs0, fs, r.0, e, !cond, r.2)
  {
    FormedIs(m, fs0, fs, e);
    JumpOnCondBranch(Shapes(m, fs0), fs, e, Nil, cond);
    CondOpen(m, fs0, fs, e, cond);
    hide Branched, C.JumpOnCond;
    var r := C.JumpOnCond(fs, e, cond);
    BranchedHalfWay(m, fs0, fs, r.0, e, !cond, r.2);
  }

  lemma CondOpen(m: Machine, fs0: Fs, fs: Fs, e: Exp, cond: bool)
    requires Formed(fs0, fs, e) && !e.k.VJmp? && !e.k.VLocal?
    ensures forall j :: OpenAt(fs.code, j) && j !in fs.jpc ==> OpenAt(C.JumpOnCond(fs, e, cond).0.code, j)
    ensures C.JumpOnCond(fs, e, cond).0.jpc == []
  {
    FormedFacts(fs0, fs, e);
    var (fs1, e1) := C.Discharge2AnyReg(fs, e);
    AnyRegOpen(m, fs0, fs, e);
    if e.k.VReloc? && fs.code[e.k.pc].Not? {
      FormedIs(m, fs0, fs, e);
      DropNot(Shapes(m, fs0), fs, e, Nil);
      DroppedOpen(fs, e.k.pc, !cond);
    } else {
      FormedLists(fs0, fs1, e1);
      FreedSame(fs1, e1);
      CondJumpOk(C.FreeExp(fs1, e1), TestSet(NoReg, RegOf(e1), cond));
      CondOpenThen(fs, fs1, C.JumpOnCond(fs, e, cond).0);
    }
  }

  lemma CondOpenThen(fs: Fs, fs1: Fs, fs2: Fs)
    requires StillOpen(fs.code, fs.jpc, fs1.code) && (fs1.jpc == fs.jpc || fs1.jpc == []) && StillOpen(fs1.code, fs1.jpc, fs2.code)
    ensures forall j :: OpenAt(fs.code, j) && j !in fs.jpc ==> OpenAt(fs2.code, j)
  {
    forall j | OpenAt(fs.code, j) && j !in fs.jpc ensures OpenAt(fs2.code, j) { assert OpenAt(fs1.code, j); }
  }

  lemma DroppedOpen(fs: Fs, pc: int, cond: bool)
    requires 0 <= pc == |fs.code| - 1 && fs.code[pc].Not? && fs.jpc == [] && FsOk(fs.(code := fs.code[..pc]))
    ensures var r := C.CondJump(fs.(code := fs.code[..pc]), Test(fs.code[pc].b, cond));
            r.0.jpc == [] && forall j :: OpenAt(fs.code, j) ==> OpenAt(r.0.code, j)
  {
    var fs1 := fs.(code := fs.code[..pc]);
    CondJumpOk(fs1, Test(fs.code[pc].b, cond));
    forall j | OpenAt(fs.code, j) ensures OpenAt(C.CondJump(fs1, Test(fs.code[pc].b, cond)).0.code, j) { assert OpenAt(fs1.code, j); }
  }

  lemma HalfWayFacts(fs0: Fs, fs: Fs, fs1: Fs, e: Exp, go: bool, list: seq<int>)
    requires HalfWay(fs0, fs, fs1, e, go, list)
    ensures TwoLists(fs1, Stay(e, go), Leave(e, go) + list) && Apart(Leave(e, go), list) && NoRepeat(Leave(e, go)) && FsOk(fs1)
    ensures Later(fs, fs1, Own(e), Leave(e, go)) && GuardFormed(fs0, C.PatchToHere(fs1, Stay(e, go)), Leave(e, go) + list)
  {
  }

  lemma ValidFormed(s: FuncState, fs0: Fs, e: Exp)
    requires Formed(fs0, s.abs, e) && s.Rep()
    ensures s.Valid()
  {
  }

  lemma JumpList(code: seq<Instr>, d: ExpDesc, e: Exp)
    requires ExpRep(code, d, e) && e.k.VJmp?
    ensures IsList(code, e.k.pc, [e.k.pc]) && IsList(code, d.t, e.t) && IsList(code, d.f, e.f)
  {
  }

  /** A jump taken always; the lists of the expression stay. */
  method AlwaysJump(s: FuncState, d: ExpDesc, ghost fs0: Fs, ghost e: Exp) returns (j: int)
    requires Holds(s, fs0, d, e) && !e.k.VJmp?
    modifies s
    ensures s.abs == C.Jump(old(s.abs)).0 && s.Valid()
    ensures IsList(s.code, j, C.Jump(old(s.abs)).1) && IsList(s.code, d.t, e.t) && IsList(s.code, d.f, e.f)
    ensures Untouched(old(s.code), old(s.abs).code, Own(e), old(s.abs).jpc, s.code)
  {
    hide IsList, Untouched, CodeRel, C.Jump;
    ghost var code0, fs := s.code, s.abs;
    FormedFacts(fs0, fs, e);
    j := s.Jump();
    NoneShared(e);
    ExpKept(code0, fs, d, e, [], s.code);
    UntouchedMore(code0, fs.code, [], Own(e), fs.jpc, s.code);
  }

  /** The new jump of goiftrue and goiffalse, before the lists are joined. */
  function FirstHalf(fs: Fs, e: Exp, go: bool): (Fs, seq<int>) {
    if (if go then e.k.VK? || e.k.VKNum? || e.k.VTrue? else e.k.VNil? || e.k.VFalse?) then (fs, [])
    else if (if go then e.k.VFalse? else e.k.VTrue?) then C.Jump(fs)
    else if e.k.VJmp? then (if go then C.InvertJump(fs, e) else fs, [e.k.pc])
    else var r := C.JumpOnCond(fs, e, !go); (r.0, r.2)
  }

  lemma GoIfIs(m: Machine, fs0: Fs, fs: Fs, e: Exp, go: bool)
    requires Formed(fs0, fs, e)
    ensures var e1 := DischargeVars(e); var (fs1, list) := FirstHalf(fs, e1, go);
            var r := if go then C.GoIfTrue(fs, e) else C.GoIfFalse(fs, e);
            r.0 == C.PatchToHere(fs1, Stay(e1, go)) && (if go then r.1.f else r.1.t) == Leave(e1, go) + list
  {
    hide C.Jump, C.InvertJump, C.Discharge2AnyReg, C.CondJump, Formed0, RegOk;
    var e1 := DischargeVars(e);
    DischargedVars(fs0, fs, e);
    if !e1.k.VJmp? && !e1.k.VLocal? { AnyRegOpen(m, fs0, fs, e1); }
  }

  method GoIfTrue(s: FuncState, d0: ExpDesc, ghost fs0: Fs, ghost e: Exp) returns (d: ExpDesc)
    requires Holds(s, fs0, d0, e) && !e.k.VK?
    modifies s
    ensures var r := C.GoIfTrue(old(s.abs), e);
            s.abs == r.0 && s.Valid() && GuardFormed(fs0, s.abs, r.1.f) && IsList(s.code, d.f, r.1.f) && d.t == NO_JUMP
    ensures Untouched(old(s.code), old(s.abs).code, Own(e), old(s.abs).jpc, s.code)
  {
    hide Formed, Formed0, IsList, Untouched, CodeRel, FsOk, PatchList, HalfWay, TwoLists, GuardFormed, Later, C.Jump, C.InvertJump, C.JumpOnCond, C.PatchToHere, C.GoIfTrue;
    ghost var code0, fs, e1 := s.code, s.abs, DischargeVars(e);
    DischargedVars(fs0, fs, e);
    GoIfIs(s.m, fs0, fs, e, true);
    OwnVars(e);
    SelfUntouched(code0, fs, Own(e));
    d := Vars(d0);
    VarsRep(s.code, d0, e);
    ValidFormed(s, fs0, e1);
    var pc := NO_JUMP;
    ghost var list := [];
    EmptyLists(s.code);
    if d.k.VK? || d.k.VKNum? || d.k.VTrue? {
      ConstHalfWay(s.m, fs0, fs, e1, true);
    } else if d.k.VFalse? {
      AlwaysHalfWay(s.m, fs0, fs, e1, true);
      list := C.Jump(fs).1;
      pc := AlwaysJump(s, d, fs0, e1);
    } else if d.k.VJmp? {
      JmpHalfWay(s.m, fs0, fs, e1, true);
      InvertJump(s, d, fs0, e1);
      SameUntouched(code0, fs, Own(e), s.code);
      pc, list := d.k.pc, [d.k.pc];
      JumpList(s.code, d, e1);
    } else {
      CondHalfWay(s.m, fs0, fs, e1, false);
      list := C.JumpOnCond(fs, e1, false).2;
      d, pc := JumpOnCond(s, d, false, fs0, e1);
      UntouchedMore(code0, fs.code, [], Own(e), fs.jpc, s.code);
    }
    ghost var code1, fs1 := s.code, s.abs;
    HalfWayFacts(fs0, fs, fs1, e1, true, list);
    var l := FinishCond(s, d.t, d.f, pc, e1.t, e1.f, list);
    d := d.(t := NO_JUMP, f := l);
    CondThen(code0, fs, e1, code1, fs1, e1.f, s.code);
  }

  method GoIfFalse(s: FuncState, d0: ExpDesc, ghost fs0: Fs, ghost e: Exp) returns (d: ExpDesc)
    requires Holds(s, fs0, d0, e) && !e.k.VK?
    modifies s
    ensures var r := C.GoIfFalse(old(s.abs), e);
            s.abs == r.0 && s.Valid() && GuardFormed(fs0, s.abs, r.1.t) && IsList(s.code, d.t, r.1.t) && d.f == NO_JUMP
    ensures Untouched(old(s.code), old(s.abs).code, Own(e), old(s.abs).jpc, s.code)
  {
    hide Formed, Formed0, IsList, Untouched, CodeRel, FsOk, PatchList, HalfWay, TwoLists, GuardFormed, Later, C.Jump, C.InvertJump, C.JumpOnCond, C.PatchToHere, C.GoIfFalse;
    ghost var code0, fs, e1 := s.code, s.abs, DischargeVars(e);
    DischargedVars(fs0, fs, e);
    GoIfIs(s.m, fs0, fs, e, false);
    OwnVars(e);
    SelfUntouched(code0, fs, Own(e));
    d := Vars(d0);
    VarsRep(s.code, d0, e);
    ValidFormed(s, fs0, e1);
    var pc := NO_JUMP;
    ghost var list := [];
    EmptyLists(s.code);
    if d.k.VNil? || d.k.VFalse? {
      ConstHalfWay(s.m, fs0, fs, e1, false);
    } else if d.k.VTrue? {
      AlwaysHalfWay(s.m, fs0, fs, e1, false);
      list := C.Jump(fs).1;
      pc := AlwaysJump(s, d, fs0, e1);
    } else if d.k.VJmp? {
      JmpHalfWay(s.m, fs0, fs, e1, false);
      pc, list := d.k.pc, [d.k.pc];
      JumpList(s.code, d, e1);
    } else {
      CondHalfWay(s.m, fs0, fs, e1, true);
      list := C.JumpOnCond(fs, e1, true).2;
      d, pc := JumpOnCond(s, d, true, fs0, e1);
      UntouchedMore(code0, fs.code, [], Own(e), fs.jpc, s.code);
    }
    ghost var code1, fs1 := s.code, s.abs;
    HalfWayFacts(fs0, fs, fs1, e1, false, list);
    var l := FinishCond(s, d.f, d.t, pc, e1.f, e1.t, list);
    d := d.(f := NO_JUMP, t := l);
    CondThen(code0, fs, e1, code1, fs1, e1.t, s.code);
  }
}
