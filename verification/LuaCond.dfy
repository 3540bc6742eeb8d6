/** Expressions as conditions: luaK_goiftrue and luaK_goiffalse. */
module LuaCond {
  import opened LuaVm
  import opened LuaCode
  import opened LuaExec
  import opened LuaEmit
  import opened LuaExp
  import opened LuaClose
  import opened LuaReg
  import opened LuaOperand

  /** The run goes on where the truth of `v' is `go', or leaves by a jump of `list' with the value. */
  ghost predicate Guard(c: Ctx, fs: Fs, list: seq<int>, v: Value, go: bool) {
    && FsOk(c.fs) && Clean(c) && 0 <= c.fs.nactvar <= c.fs.freereg
    && FsOk(fs) && Grown(c.fs, fs) && fs.freereg == c.fs.freereg
    && PatchList(fs.code, list) && Apart(list, fs.jpc) && Within(list, c.fs)
    && (Elsewhere(c) ==> RunFs(c.m, c.k, fs, c.regs) == Begin(c))
    && (Arrives(c) ==> GuardResult(c, fs.code, [], list, v, go, RunFs(c.m, c.k, fs, c.regs)))
  }

  /** A run that leaves by a jump of `stay' is one that should have gone on. */
  ghost predicate GuardResult(c: Ctx, code: seq<Instr>, stay: seq<int>, leave: seq<int>, v: Value, go: bool, o: Outcome)
    requires Arrives(c)
  {
    match o
    case Fall(r1) => Frame(Begin(c).regs, r1, c.fs.freereg) && Truthy(v) == go
    case Out(j, r1) =>
      && Frame(Begin(c).regs, r1, c.fs.freereg)
      && ((j in stay && Truthy(v) == go) || (j in leave && Truthy(v) == !go && Held(c.wrong, code, j, r1, v, !go)))
    case _ => false
  }

  /** The jumps of both kinds are there, those of `stay' not yet patched. */
  ghost predicate Branched(c: Ctx, fs: Fs, stay: seq<int>, leave: seq<int>, v: Value, go: bool) {
    && FsOk(c.fs) && Clean(c) && 0 <= c.fs.nactvar <= c.fs.freereg
    && TwoLists(fs, stay, leave) && Grown(c.fs, fs) && fs.freereg == c.fs.freereg
    && Within(stay, c.fs) && Within(leave, c.fs)
    && (Elsewhere(c) ==> RunFs(c.m, c.k, fs, c.regs) == Begin(c))
    && (Arrives(c) ==> GuardResult(c, fs.code, stay, leave, v, go, RunFs(c.m, c.k, fs, c.regs)))
  }

  lemma GuardFromBranch(c: Ctx, fs: Fs, stay: seq<int>, leave: seq<int>, v: Value, go: bool)
    requires Branched(c, fs, stay, leave, v, go)
    ensures Guard(c, PatchToHere(fs, stay), leave, v, go)
  {
    PatchToHereOk(fs, stay);
    if Begin(c).Out? { OtherExit(c, stay); }
    hide Exec, FsOk, PatchList;
  }

  /** The two lists of an expression, in the order of the condition. */
  function Stay(e: Exp, go: bool): seq<int> {
    if go then e.t else e.f
  }

  function Leave(e: Exp, go: bool): seq<int> {
    if go then e.f else e.t
  }

  // ----- the branches -----

  /** A constant that needs no jump. */
  lemma ConstBranch(c: Ctx, fs: Fs, e: Exp, v: Value, go: bool)
    requires Denotes(c, fs, e, v)
    requires if go then e.k.VKNum? || e.k.VTrue? else e.k.VNil? || e.k.VFalse?
    ensures Branched(c, fs, Stay(e, go), Leave(e, go) + [], v, go)
  {
    assert Leave(e, go) + [] == Leave(e, go);
    hide Exec, FsOk, PatchList;
  }

  /** The pending jumps that carry a value are known to be wrong. */
  ghost predicate Expected(wrong: set<int>, fs: Fs) {
    forall j :: j in fs.jpc && Carries(fs.code, j) ==> j in wrong
  }

  /** A constant that always jumps. What the pending jumps that join the new one carry is not its value. */
  lemma AlwaysBranch(c: Ctx, fs: Fs, e: Exp, v: Value, go: bool)
    requires Denotes(c, fs, e, v) && (if go then e.k.VFalse? else e.k.VTrue?)
    requires c.live ==> Expected(c.wrong, fs)
    ensures Branched(c, Jump(fs).0, Stay(e, go), Leave(e, go) + Jump(fs).1, v, go)
  {
    var (fs2, list) := Jump(fs);
    JumpRun(c.m, c.k, fs, c.regs);
    AlwaysLists(c.fs, fs, e, go);
    if Begin(c).Out? { OtherExit(c, fs.jpc); }
    JumpOk(fs);
    var o := RunPre(c, fs, e);
    if Arrives(c) && o.Out? { LeftByKept(c.wrong, fs.(jpc := []), fs2.code, e, o.j, o.regs, v); }
    hide Exec, FsOk, PatchList, StillOpen, Grown, TwoLists, Jump;
  }

  lemma AlwaysLists(fs0: Fs, fs: Fs, e: Exp, go: bool)
    requires Shape(fs0, fs, e)
    ensures var (fs2, list) := Jump(fs);
            && TwoLists(fs2, Stay(e, go), Leave(e, go) + list) && Grown(fs0, fs2) && Within(Leave(e, go) + list, fs0)
            && list == [|fs.code|] + fs.jpc && fs2 == fs.(code := fs2.code, jpc := []) && Within(fs.jpc, fs0)
            && forall j :: j in list && (j in fs.jpc ==> !Carries(fs.code, j)) ==> !Carries(fs2.code, j)
  {
    var (fs2, list) := Jump(fs);
    JumpOk(fs);
    LastNoTest(fs.code, fs.lasttarget);
    JumpLists(fs0, fs, e);
    PatchListConcat(fs2.code, Leave(e, go), list);
    forall j | j in list && (j in fs.jpc ==> !Carries(fs.code, j)) ensures !Carries(fs2.code, j) { if j in fs.jpc { assert OpenAt(fs.code, j); } }
  }

  lemma JumpLists(fs0: Fs, fs: Fs, e: Exp)
    requires Shape(fs0, fs, e)
    ensures var (fs2, list) := Jump(fs);
            && Grown(fs0, fs2) && Within(list, fs0) && PatchList(fs2.code, e.t) && PatchList(fs2.code, e.f)
            && Apart(e.t, list) && Apart(e.f, list)
  {
    JumpOk(fs);
    var (fs2, list) := Jump(fs);
    GrownTrans(fs0, fs, fs2);
    OthersKept(fs.code, [], fs2.code, e.t);
    OthersKept(fs.code, [], fs2.code, e.f);
    forall j | j in e.t || j in e.f ensures j < |fs.code| { assert OpenAt(fs.code, j); }
  }

  /** The state of a comparison with its condition inverted. */
  lemma InvertOk(fs0: Fs, fs: Fs, e: Exp)
    requires Shape(fs0, fs, e) && e.k.VJmp?
    ensures Shape(fs0, InvertJump(fs, e), e) && RegsOnly(InvertJump(fs, e).(code := fs.code), fs)
    ensures PreCode(InvertJump(fs, e), e) == PreCode(fs, e)
    ensures StillOpen(fs.code, [e.k.pc], InvertJump(fs, e).code)
  {
    var fs2 := InvertJump(fs, e);
    var n := |fs.code|;
    assert forall i :: 0 <= i < n ==> IsTest(fs2.code[i]) == IsTest(fs.code[i]) && fs2.code[i].Jmp? == fs.code[i].Jmp?;
    forall i | 0 <= i < |fs2.code| ensures InstrOk(fs2.code, i, fs2.lasttarget) { assert InstrOk(fs.code, i, fs.lasttarget); }
    forall j | OpenAt(fs.code, j) && j != e.k.pc ensures OpenAt(fs2.code, j) && SameControl(fs.code, fs2.code, j) { }
    forall j | OpenAt(fs2.code, j) && Carries(fs2.code, j) ensures fs2.code[j - 1].dest.NoReg? { assert OpenAt(fs.code, j) && Carries(fs.code, j); }
    OthersKept(fs.code, [e.k.pc], fs2.code, e.t);
    OthersKept(fs.code, [e.k.pc], fs2.code, e.f);
    InvertGrown(fs0, fs, e);
  }

  lemma InvertGrown(fs0: Fs, fs: Fs, e: Exp)
    requires Grown(fs0, fs) && KindOk(fs, e) && e.k.VJmp? && Placed(fs0, e)
    ensures Grown(fs0, InvertJump(fs, e))
  {
    var fs2 := InvertJump(fs, e);
    forall j | OpenAt(fs0.code, j) && j !in fs0.jpc ensures OpenAt(fs2.code, j) && SameControl(fs0.code, fs2.code, j) {
      assert OpenAt(fs.code, j) && SameControl(fs0.code, fs.code, j);
    }
  }

  lemma InvertLeft(wrong: set<int>, fs: Fs, e: Exp, j: int, regs: Regs, v: Value)
    requires ExOk(fs, e) && e.k.VJmp? && StillOpen(fs.code, [e.k.pc], InvertJump(fs, e).code)
    ensures LeftBy(wrong, fs.code, e.t, e.f, j, regs, v) ==> LeftBy(wrong, InvertJump(fs, e).code, e.t, e.f, j, regs, v)
  {
    var fs2 := InvertJump(fs, e);
    OthersKept(fs.code, [e.k.pc], fs2.code, e.t);
    OthersKept(fs.code, [e.k.pc], fs2.code, e.f);
  }

  /** An inverted comparison stands for the negation. */
  lemma InvertDenotes(c: Ctx, fs: Fs, e: Exp, v: Value)
    requires Denotes(c, fs, e, v) && e.k.VJmp?
    ensures Shape(c.fs, InvertJump(fs, e), e) && RegOk(c.fs, InvertJump(fs, e), e) && InvertJump(fs, e).k == fs.k
    ensures Elsewhere(c) ==> RunPre(c, InvertJump(fs, e), e) == Begin(c)
    ensures Arrives(c) ==> Inverted(c, InvertJump(fs, e), e, v, RunPre(c, InvertJump(fs, e), e))
  {
    var fs2 := InvertJump(fs, e);
    InvertOk(c.fs, fs, e);
    var o := RunPre(c, fs, e);
    if o.Out? { InvertLeft(c.wrong, fs, e, o.j, o.regs, v); }
    hide Exec, FsOk, PatchList, StillOpen;
  }

  /** The value is the negation of what the comparison now gives; exits are as before. */
  ghost predicate Inverted(c: Ctx, fs: Fs, e: Exp, v: Value, o: Outcome)
    requires Arrives(c) && e.k.VJmp?
  {
    match o
    case Fall(r1) =>
      && Frame(Begin(c).regs, r1, c.fs.freereg)
      && var w := ValueNow(c.m, c.k, fs, e, r1); w.Ok? && w.v.Bool? && v == Bool(!w.v.b)
    case Out(j, r1) => Frame(Begin(c).regs, r1, c.fs.freereg) && LeftBy(c.wrong, fs.code, e.t, e.f, j, r1, v)
    case _ => false
  }

  /** A comparison: its jump leaves when it is false, after inversion, or when it is true. */
  lemma JmpLists(fs0: Fs, fs: Fs, e: Exp, go: bool)
    requires Shape(fs0, fs, e) && e.k.VJmp?
    ensures TwoLists(fs, Stay(e, go), Leave(e, go) + [e.k.pc]) && Within(Leave(e, go) + [e.k.pc], fs0)
    ensures !Carries(fs.code, e.k.pc)
  {
    PatchListConcat(fs.code, Leave(e, go), [e.k.pc]);
  }

  lemma JmpTrueBranch(c: Ctx, fs: Fs, e: Exp, v: Value)
    requires Denotes(c, fs, e, v) && e.k.VJmp?
    ensures Branched(c, InvertJump(fs, e), e.t, e.f + [e.k.pc], v, true)
  {
    var fs2 := InvertJump(fs, e);
    InvertDenotes(c, fs, e, v);
    JmpLists(c.fs, fs2, e, true);
    CompareRun(c, fs2, e);
    hide Exec, FsOk, PatchList, StillOpen, InvertJump;
  }

  lemma JmpFalseBranch(c: Ctx, fs: Fs, e: Exp, v: Value)
    requires Denotes(c, fs, e, v) && e.k.VJmp?
    ensures Branched(c, fs, e.f, e.t + [e.k.pc], v, false)
  {
    JmpLists(c.fs, fs, e, false);
    CompareRun(c, fs, e);
    hide Exec, FsOk, PatchList, StillOpen;
  }

  // ----- jumponcond -----

  lemma Discharge2AnyRegDenotes(c: Ctx, fs: Fs, e: Exp, v: Value)
    requires Denotes(c, fs, e, v) && !e.k.VJmp? && !e.k.VLocal? && Consts(c, Discharge2AnyReg(fs, e).0.k)
    ensures var (fs2, e2) := Discharge2AnyReg(fs, e);
            Denotes(c, fs2, e2, v) && e2.k.VNonReloc? && e2.t == e.t && e2.f == e.f
  {
    if !e.k.VNonReloc? {
      hide Shape, Means, Clean, FsOk;
      DenotesVars(c, fs, e, v);
      var fs1 := ReserveRegs(fs, 1);
      Denotes0Regs(c, fs, e, fs1, v);
      Discharge2RegMeans(c, fs1, e, c.fs.freereg, v);
      Discharge2RegFields(fs1, e, c.fs.freereg);
    }
  }

  /** The code without the NOT at its end, whose operand is tested instead. */
  lemma DropNot(c: Ctx, fs: Fs, e: Exp, v: Value)
    requires Denotes(c, fs, e, v) && e.k.VReloc? && fs.code[e.k.pc].Not?
    ensures var fs2 := fs.(code := fs.code[..e.k.pc]);
            && FsOk(fs2) && Grown(c.fs, fs2) && PatchList(fs2.code, e.t) && PatchList(fs2.code, e.f)
            && RunFs(c.m, c.k, fs2, c.regs) == RunPre(c, fs, e)
            && forall j :: j in e.t || j in e.f ==> 0 <= j < e.k.pc
  {
    var fs2 := fs.(code := fs.code[..e.k.pc]);
    PrefixGood(fs, e);
    forall j | j in e.t || j in e.f ensures OpenAt(fs2.code, j) && 0 <= j < e.k.pc { assert OpenAt(fs.code, j); }
    forall j | OpenAt(c.fs.code, j) && j !in c.fs.jpc ensures OpenAt(fs2.code, j) && SameControl(c.fs.code, fs2.code, j) {
      assert OpenAt(fs.code, j) && SameControl(c.fs.code, fs.code, j);
    }
  }

  /** Emitting a conditional jump, as seen from the start of the expression. */
  lemma CondLists(fs0: Fs, fs: Fs, t: seq<int>, f: seq<int>, test: Instr, go: bool)
    requires FsOk(fs) && Grown(fs0, fs) && IsTest(test) && (test.TestSet? ==> test.dest.NoReg?)
    requires PatchList(fs.code, t) && PatchList(fs.code, f) && Apart(t, f) && Apart(t, fs.jpc) && Apart(f, fs.jpc)
    requires Within(t, fs0) && Within(f, fs0)
    ensures var (fs2, list) := CondJump(fs, test);
            && list == [|fs.code| + 1] && TwoLists(fs2, t, f + list) && Grown(fs0, fs2) && Within(f + list, fs0)
            && fs2 == fs.(code := fs2.code, jpc := fs2.jpc, failed := fs2.failed)
            && |fs2.code| == |fs.code| + 2 && fs2.code[|fs.code|] == test
            && forall j :: j in t || j in f ==> Carries(fs2.code, j) == Carries(fs.code, j) && (Carries(fs.code, j) ==> fs2.code[j - 1] == fs.code[j - 1])
  {
    var (fs2, list) := CondJump(fs, test);
    CondJumpOk(fs, test);
    GrownTrans(fs0, fs, fs2);
    ListKept(fs, fs2.code, t);
    ListKept(fs, fs2.code, f);
    forall j | j in t || j in f ensures j < |fs.code| { assert OpenAt(fs.code, j); }
    PatchListConcat(fs2.code, f, list);
  }

  /** Before the test: the operand of the test decides the value, and TESTSET looks at the value itself. */
  ghost predicate TestReady(c: Ctx, code: seq<Instr>, stay: seq<int>, leave: seq<int>, test: Instr, v: Value, go: bool, o: Outcome)
    requires Arrives(c)
  {
    match o
    case Fall(r1) =>
      && Frame(Begin(c).regs, r1, c.fs.freereg) && Taken(c.k, test, r1) == Ok(Bool(Truthy(v) == !go)) && Kept(test, r1) == r1
      && (if test.TestSet? then Read(r1, test.b) == v else v.Bool?)
    case Out(j, r1) =>
      && Frame(Begin(c).regs, r1, c.fs.freereg)
      && ((j in stay && Truthy(v) == go) || (j in leave && Truthy(v) == !go && Held(c.wrong, code, j, r1, v, !go)))
    case _ => false
  }

  lemma TestedBranch(c: Ctx, fs: Fs, stay: seq<int>, leave: seq<int>, test: Instr, v: Value, go: bool)
    requires FsOk(c.fs) && Clean(c) && 0 <= c.fs.nactvar <= c.fs.freereg && fs.freereg == c.fs.freereg
    requires FsOk(fs) && Grown(c.fs, fs) && IsTest(test) && (test.TestSet? ==> test.dest.NoReg?)
    requires PatchList(fs.code, stay) && PatchList(fs.code, leave) && Apart(stay, leave) && Apart(stay, fs.jpc) && Apart(leave, fs.jpc)
    requires Within(stay, c.fs) && Within(leave, c.fs)
    requires Elsewhere(c) ==> RunFs(c.m, c.k, fs, c.regs) == Begin(c)
    requires Arrives(c) ==> TestReady(c, fs.code, stay, leave, test, v, go, RunFs(c.m, c.k, fs, c.regs))
    ensures var (fs2, list) := CondJump(fs, test); Branched(c, fs2, stay, leave + list, v, go)
  {
    hide Exec, FsOk, PatchList, StillOpen, CondJump, Grown, RunFs, Clean;
    CondLists(c.fs, fs, stay, leave, test, go);
    CondJumpRun(c.m, c.k, fs, test, c.regs);
  }

  lemma NotBranch(c: Ctx, fs: Fs, e: Exp, v: Value, cond: bool)
    requires Denotes(c, fs, e, v) && e.k.VReloc? && fs.code[e.k.pc].Not?
    ensures var (fs2, e2, list) := JumpOnCond(fs, e, cond); e2 == e && Branched(c, fs2, Stay(e, !cond), Leave(e, !cond) + list, v, !cond)
  {
    var fs1 := fs.(code := fs.code[..e.k.pc]);
    var test := Test(fs.code[e.k.pc].b, !cond);
    DropNot(c, fs, e, v);
    assert forall j :: j in e.t || j in e.f ==> Carries(fs1.code, j) == Carries(fs.code, j) && (Carries(fs.code, j) ==> fs1.code[j - 1] == fs.code[j - 1]);
    hide Exec, FsOk, PatchList, StillOpen, CondJump, Grown, RunFs, Clean;
    assert Arrives(c) ==> TestReady(c, fs1.code, Stay(e, !cond), Leave(e, !cond), test, v, !cond, RunFs(c.m, c.k, fs1, c.regs));
    TestedBranch(c, fs1, Stay(e, !cond), Leave(e, !cond), test, v, !cond);
  }

  lemma TestSetBranch(c: Ctx, fs: Fs, e: Exp, v: Value, cond: bool)
    requires Denotes(c, fs, e, v) && e.k.VNonReloc?
    ensures var fs2 := FreeExp(fs, e); var (fs3, list) := CondJump(fs2, TestSet(NoReg, e.k.r, cond));
            Branched(c, fs3, Stay(e, !cond), Leave(e, !cond) + list, v, !cond)
  {
    var fs2 := FreeExp(fs, e);
    var test := TestSet(NoReg, e.k.r, cond);
    assert RunFs(c.m, c.k, fs2, c.regs) == RunPre(c, fs, e);
    hide Exec, PatchList, StillOpen, CondJump, RunFs, Clean, RunPre;
    assert Arrives(c) ==> TestReady(c, fs2.code, Stay(e, !cond), Leave(e, !cond), test, v, !cond, RunFs(c.m, c.k, fs2, c.regs));
    TestedBranch(c, fs2, Stay(e, !cond), Leave(e, !cond), test, v, !cond);
  }

  lemma JumpOnCondBranch(c: Ctx, fs: Fs, e: Exp, v: Value, cond: bool)
    requires Denotes(c, fs, e, v) && !e.k.VJmp? && !e.k.VLocal? && Consts(c, JumpOnCond(fs, e, cond).0.k)
    ensures var (fs2, e2, list) := JumpOnCond(fs, e, cond);
            e2.t == e.t && e2.f == e.f && Branched(c, fs2, Stay(e, !cond), Leave(e, !cond) + list, v, !cond)
  {
    hide Denotes, Branched, CondJump, Discharge2AnyReg;
    if e.k.VReloc? && e.k.pc == |fs.code| - 1 && 0 <= e.k.pc && fs.code[e.k.pc].Not? {
      NotBranch(c, fs, e, v, cond);
    } else {
      var (fs1, e1) := Discharge2AnyReg(fs, e);
      CondFields(FreeExp(fs1, e1), TestSet(NoReg, RegOf(e1), cond));
      Discharge2AnyRegDenotes(c, fs, e, v);
      TestSetBranch(c, fs1, e1, v, cond);
    }
  }

  lemma CondFields(fs: Fs, test: Instr)
    ensures CondJump(fs, test).0.k == fs.k && SameFrame(fs, CondJump(fs, test).0)
  {
    EmitFields(fs, test);
    EmitFields(Emit(fs, test).(jpc := []), Jmp(NO_JUMP));
  }

  // ----- the conditions -----

  /** luaK_goiftrue: the code goes on when the value is true, and the `f' list has the jumps that leave. */
  lemma GoIfTrueGuard(c: Ctx, fs: Fs, e: Exp, v: Value)
    requires Denotes(c, fs, e, v) && !e.k.VK? && Consts(c, GoIfTrue(fs, e).0.k)
    requires c.live && e.k.VFalse? ==> Expected(c.wrong, fs)
    ensures var (fs2, e2) := GoIfTrue(fs, e); Guard(c, fs2, e2.f, v, true) && e2.t == []
  {
    hide Denotes0, RegOk, Branched, Guard, JumpOnCond, Jump, InvertJump;
    var e1 := DischargeVars(e);
    VarsDenotes(c, fs, e, v);
    match e1.k {
      case VKNum(_) => ConstBranch(c, fs, e1, v, true); GuardFromBranch(c, fs, e1.t, e1.f + [], v, true);
      case VTrue => ConstBranch(c, fs, e1, v, true); GuardFromBranch(c, fs, e1.t, e1.f + [], v, true);
      case VFalse =>
        AlwaysBranch(c, fs, e1, v, true);
        GuardFromBranch(c, Jump(fs).0, e1.t, e1.f + Jump(fs).1, v, true);
      case VJmp(pc) =>
        JmpTrueBranch(c, fs, e1, v);
        GuardFromBranch(c, InvertJump(fs, e1), e1.t, e1.f + [pc], v, true);
      case _ =>
        JumpOnCondBranch(c, fs, e1, v, false);
        var (fs2, e2, list) := JumpOnCond(fs, e1, false);
        GuardFromBranch(c, fs2, e1.t, e1.f + list, v, true);
    }
  }

  lemma VarsDenotes(c: Ctx, fs: Fs, e: Exp, v: Value)
    requires Denotes(c, fs, e, v)
    ensures Denotes(c, fs, DischargeVars(e), v)
  {
    DenotesVars(c, fs, e, v);
    Denotes0Vars(c, fs, e, v);
  }

  lemma GoIfFalseGuard(c: Ctx, fs: Fs, e: Exp, v: Value)
    requires Denotes(c, fs, e, v) && !e.k.VK? && Consts(c, GoIfFalse(fs, e).0.k)
    requires c.live && e.k.VTrue? ==> Expected(c.wrong, fs)
    ensures var (fs2, e2) := GoIfFalse(fs, e); Guard(c, fs2, e2.t, v, false) && e2.f == []
  {
    hide Denotes0, RegOk, Branched, Guard, JumpOnCond, Jump, InvertJump;
    var e1 := DischargeVars(e);
    VarsDenotes(c, fs, e, v);
    match e1.k {
      case VNil => ConstBranch(c, fs, e1, v, false); GuardFromBranch(c, fs, e1.f, e1.t + [], v, false);
      case VFalse => ConstBranch(c, fs, e1, v, false); GuardFromBranch(c, fs, e1.f, e1.t + [], v, false);
      case VTrue =>
        AlwaysBranch(c, fs, e1, v, false);
        GuardFromBranch(c, Jump(fs).0, e1.f, e1.t + Jump(fs).1, v, false);
      case VJmp(pc) =>
        JmpFalseBranch(c, fs, e1, v);
        GuardFromBranch(c, fs, e1.f, e1.t + [pc], v, false);
      case _ =>
        JumpOnCondBranch(c, fs, e1, v, true);
        var (fs2, e2, list) := JumpOnCond(fs, e1, true);
        GuardFromBranch(c, fs2, e1.f, e1.t + list, v, false);
    }
  }
}
