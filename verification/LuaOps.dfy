/** The operators: not, minus, arithmetic and comparison. */
module LuaOps {
  import opened LuaVm
  import opened LuaCode
  import opened LuaExec
  import opened LuaEmit
  import opened LuaExp
  import opened LuaClose
  import opened LuaReg
  import opened LuaOperand
  import opened LuaCond

  /** Runs that come to the end find `w', and jumps leave with `v': a negation half done. */
  ghost predicate Half(c: Ctx, fs: Fs, e: Exp, w: Value, v: Value) {
    && FsOk(c.fs) && Clean(c) && 0 <= c.fs.nactvar <= c.fs.freereg
    && Shape(c.fs, fs, e) && RegOk(c.fs, fs, e)
    && (Elsewhere(c) ==> RunPre(c, fs, e) == Begin(c))
    && (Arrives(c) ==> HalfResult(c, fs, e, w, v, RunPre(c, fs, e)))
  }

  ghost predicate HalfResult(c: Ctx, fs: Fs, e: Exp, w: Value, v: Value, o: Outcome)
    requires Arrives(c)
  {
    match o
    case Fall(r1) => Frame(Begin(c).regs, r1, c.fs.freereg) && ValueNow(c.m, c.k, fs, e, r1) == Ok(w)
    case Out(j, r1) => Frame(Begin(c).regs, r1, c.fs.freereg) && LeftBy(c.wrong, fs.code, e.t, e.f, j, r1, v)
    case _ => false
  }

  lemma HalfDenotes(c: Ctx, fs: Fs, e: Exp, v: Value)
    requires Half(c, fs, e, v, v)
    ensures Denotes(c, fs, e, v)
  {
    hide Exec, FsOk, Shape, RunPre, RunFs;
  }

  // ----- an instruction that computes the value -----

  lemma EmitShape(fs0: Fs, fs: Fs, t: seq<int>, f: seq<int>, i: Instr)
    requires TwoLists(fs, t, f) && Grown(fs0, fs) && Within(t, fs0) && Within(f, fs0) && Plain(i) && Computes(i)
    ensures var fs2 := Emit(fs, i);
            && Shape(fs0, fs2, Exp(VReloc(|fs.code|), t, f)) && fs2.code[|fs.code|] == i
            && fs2 == fs.(code := fs2.code, jpc := fs2.jpc, failed := fs2.failed)
            && forall j :: j in t || j in f ==> Carries(fs2.code, j) == Carries(fs.code, j) && (Carries(fs.code, j) ==> fs2.code[j - 1] == fs.code[j - 1])
  {
    EmitOk(fs, i);
    var fs2 := Emit(fs, i);
    GrownTrans(fs0, fs, fs2);
    ListKept(fs, fs2.code, t);
    ListKept(fs, fs2.code, f);
  }

  /** The run up to an emitted instruction is the run of the code before. */
  lemma EmitPre(c: Ctx, fs: Fs, t: seq<int>, f: seq<int>, i: Instr)
    requires FsOk(fs) && Plain(i)
    ensures RunPre(c, Emit(fs, i), Exp(VReloc(|fs.code|), t, f)) == RunFs(c.m, c.k, fs, c.regs)
  {
    EmitOk(fs, i);
    DischargeRun(c.m, c.k, fs, c.regs);
  }

  /** The operands are there: the instruction will compute `w'. */
  ghost predicate OperandsReady(c: Ctx, fs: Fs, t: seq<int>, f: seq<int>, i: Instr, w: Value, v: Value, o: Outcome)
    requires Arrives(c)
  {
    match o
    case Fall(r1) => Frame(Begin(c).regs, r1, c.fs.freereg) && Computed(c.m, c.k, i, r1) == Ok(w)
    case Out(j, r1) => Frame(Begin(c).regs, r1, c.fs.freereg) && LeftBy(c.wrong, fs.code, t, f, j, r1, v)
    case _ => false
  }

  lemma EmitHalf(c: Ctx, fs: Fs, t: seq<int>, f: seq<int>, i: Instr, w: Value, v: Value)
    requires FsOk(c.fs) && Clean(c) && 0 <= c.fs.nactvar <= c.fs.freereg == fs.freereg
    requires TwoLists(fs, t, f) && Grown(c.fs, fs) && Within(t, c.fs) && Within(f, c.fs) && Plain(i) && Computes(i)
    requires Elsewhere(c) ==> RunFs(c.m, c.k, fs, c.regs) == Begin(c)
    requires Arrives(c) ==> OperandsReady(c, fs, t, f, i, w, v, RunFs(c.m, c.k, fs, c.regs))
    ensures Half(c, Emit(fs, i), Exp(VReloc(|fs.code|), t, f), w, v)
  {
    hide Exec, FsOk, PatchList, StillOpen, Emit, Grown, RunFs, Clean, Shape, RunPre;
    EmitShape(c.fs, fs, t, f, i);
    EmitPre(c, fs, t, f, i) by { TwoListsFs(fs, t, f); }
    var fs2, e := Emit(fs, i), Exp(VReloc(|fs.code|), t, f);
    ShapeCode(c.fs, fs2, e);
    var o := RunFs(c.m, c.k, fs, c.regs);
  }

  lemma ShapeCode(fs0: Fs, fs: Fs, e: Exp)
    requires Shape(fs0, fs, e) && e.k.VReloc?
    ensures 0 <= e.k.pc < |fs.code|
  {
  }

  lemma TwoListsFs(fs: Fs, t: seq<int>, f: seq<int>)
    requires TwoLists(fs, t, f)
    ensures FsOk(fs)
  {
  }

  // ----- not -----

  /** The code with the tests of both lists no longer keeping values. */
  lemma RemoveBoth(fs: Fs, e: Exp)
    requires ExOk(fs, e)
    ensures var fs2 := RemoveValues(RemoveValues(fs, e.t), e.f);
            && |fs2.code| == |fs.code| && fs2 == fs.(code := fs2.code)
            && forall i :: 0 <= i < |fs.code| ==> fs2.code[i] == Plainly(fs.code, e, i)
  {
    RemoveValuesAt(fs, e.t);
    var fs1 := RemoveValues(fs, e.t);
    forall j | j in e.f ensures OpenAt(fs1.code, j) { assert OpenAt(fs.code, j); }
    RemoveValuesAt(fs1, e.f);
  }

  function Plainly(code: seq<Instr>, e: Exp, i: int): Instr
    requires 0 <= i < |code|
  {
    if (i + 1 in e.t || i + 1 in e.f) && code[i].TestSet? then Test(code[i].b, code[i].cond) else code[i]
  }

  lemma RemovePatched(code: seq<Instr>, code2: seq<Instr>, e: Exp)
    requires |code2| == |code| && forall i :: 0 <= i < |code| ==> code2[i] == Plainly(code, e, i)
    requires AllOpen(code, e.t) && AllOpen(code, e.f) && OpenUnkept(code)
    ensures Patched(code, code2, {})
  {
    forall i | 0 <= i < |code| ensures PatchedAt(code, code2, {}, i) {
      if i + 1 in e.t || i + 1 in e.f { assert OpenAt(code, i + 1) && (code[i].TestSet? ==> Carries(code, i + 1)); }
    }
  }

  lemma RemoveFs(fs: Fs, fs2: Fs, e: Exp)
    requires FsOk(fs) && ExOk(fs, e) && fs2 == fs.(code := fs2.code) && |fs2.code| == |fs.code|
    requires forall i :: 0 <= i < |fs.code| ==> fs2.code[i] == Plainly(fs.code, e, i)
    ensures FsOk(fs2) && ExOk(fs2, e.(t := e.f, f := e.t))
    ensures StillOpen(fs.code, e.t + e.f, fs2.code)
    ensures forall j :: j in e.t || j in e.f ==> !Carries(fs2.code, j)
  {
    assert forall i :: 0 <= i < |fs.code| ==> IsTest(fs2.code[i]) == IsTest(fs.code[i]) && (!fs.code[i].TestSet? ==> fs2.code[i] == fs.code[i]);
    forall i | 0 <= i < |fs2.code| ensures InstrOk(fs2.code, i, fs2.lasttarget) { assert InstrOk(fs.code, i, fs.lasttarget); }
    forall j | OpenAt(fs.code, j) ensures OpenAt(fs2.code, j) { }
    forall j | OpenAt(fs2.code, j) && Carries(fs2.code, j) ensures fs2.code[j - 1].dest.NoReg? { assert OpenAt(fs.code, j) && Carries(fs.code, j); }
  }

  lemma RemoveGrown(fs0: Fs, fs: Fs, fs2: Fs, e: Exp)
    requires Grown(fs0, fs) && Placed(fs0, e) && fs2 == fs.(code := fs2.code) && |fs2.code| == |fs.code|
    requires StillOpen(fs.code, e.t + e.f, fs2.code)
    ensures Grown(fs0, fs2)
  {
    ClosedGrown(fs0, fs, e.t, e.f, fs2);
  }

  lemma RemovePre(c: Ctx, fs: Fs, fs2: Fs, e: Exp)
    requires FsOk(fs) && ExOk(fs, e) && fs2 == fs.(code := fs2.code) && |fs2.code| == |fs.code|
    requires forall i :: 0 <= i < |fs.code| ==> fs2.code[i] == Plainly(fs.code, e, i)
    ensures RunPre(c, fs2, e.(t := e.f, f := e.t)) == RunPre(c, fs, e)
  {
    var p, p2 := PreCode(fs, e), PreCode(fs2, e);
    if Owns(e) { PrefixGood(fs, e); }
    forall j | j in e.t || j in e.f ensures OpenAt(p, j) { assert OpenAt(fs.code, j); }
    forall i | 0 <= i < |p| ensures p2[i] == Plainly(p, e, i) { assert p[i] == fs.code[i] && p2[i] == fs2.code[i]; }
    RemovePatched(p, p2, e);
    ExecPatch(c.m, c.k, p, p2, {}, fs.lasttarget, 0, c.regs);
  }

  /** Swapping the lists of a half-done negation completes it. */
  lemma SwapDenotes(c: Ctx, fs: Fs, e: Exp, v: Value)
    requires Half(c, fs, e, Bool(!Truthy(v)), v)
    ensures var fs2 := RemoveValues(RemoveValues(fs, e.t), e.f);
            Denotes(c, fs2, e.(t := e.f, f := e.t), Bool(!Truthy(v)))
  {
    hide Exec, RunFs, Clean, RemoveValues, RunPre;
    var fs2, e2 := RemoveValues(RemoveValues(fs, e.t), e.f), e.(t := e.f, f := e.t);
    RemoveBoth(fs, e);
    RemoveFs(fs, fs2, e);
    RemoveGrown(c.fs, fs, fs2, e);
    RemovePre(c, fs, fs2, e);
    SwapShape(c.fs, fs, fs2, e);
    hide FsOk, Grown, Shape, RegOk, PatchList, StillOpen;
    SwapResult(c, fs, fs2, e, v);
  }

  lemma SwapShape(fs0: Fs, fs: Fs, fs2: Fs, e: Exp)
    requires Shape(fs0, fs, e) && RegOk(fs0, fs, e) && fs2 == fs.(code := fs2.code)
    requires FsOk(fs2) && ExOk(fs2, e.(t := e.f, f := e.t)) && Grown(fs0, fs2)
    ensures Shape(fs0, fs2, e.(t := e.f, f := e.t)) && RegOk(fs0, fs2, e.(t := e.f, f := e.t))
  {
    hide FsOk, ExOk, Grown;
  }

  lemma SwapResult(c: Ctx, fs: Fs, fs2: Fs, e: Exp, v: Value)
    requires Half(c, fs, e, Bool(!Truthy(v)), v)
    requires RunPre(c, fs2, e.(t := e.f, f := e.t)) == RunPre(c, fs, e)
    requires |fs2.code| == |fs.code| && fs2 == fs.(code := fs2.code)
    requires forall i :: 0 <= i < |fs.code| ==> fs2.code[i] == Plainly(fs.code, e, i)
    requires forall j :: j in e.t || j in e.f ==> !Carries(fs2.code, j)
    requires Shape(c.fs, fs2, e.(t := e.f, f := e.t)) && RegOk(c.fs, fs2, e.(t := e.f, f := e.t))
    ensures Denotes(c, fs2, e.(t := e.f, f := e.t), Bool(!Truthy(v)))
  {
    var e2 := e.(t := e.f, f := e.t);
    assert KindOk(fs, e) by { KindFact(c.fs, fs, e); }
    hide FsOk, Grown, Shape, RegOk, PatchList, StillOpen, Exec, RunPre, RunFs, Clean;
    var o := RunPre(c, fs, e);
    if o.Fall? {
      assert ValueNow(c.m, c.k, fs2, e2, o.regs) == ValueNow(c.m, c.k, fs, e, o.regs);
    }
  }

  lemma KindFact(fs0: Fs, fs: Fs, e: Exp)
    requires Shape(fs0, fs, e)
    ensures KindOk(fs, e)
  {
  }

  /** A value in a register, its register given back: it is still there. */
  lemma FreedState(c: Ctx, fs: Fs, e: Exp, v: Value)
    requires Denotes(c, fs, e, v) && e.k.VNonReloc?
    ensures var fs1 := FreeExp(fs, e);
            && FsOk(c.fs) && Clean(c) && 0 <= c.fs.nactvar <= c.fs.freereg == fs1.freereg
            && TwoLists(fs1, e.t, e.f) && Grown(c.fs, fs1) && Within(e.t, c.fs) && Within(e.f, c.fs)
            && RunFs(c.m, c.k, fs1, c.regs) == RunPre(c, fs, e) && fs1.code == fs.code
  {
  }

  lemma NotReg(c: Ctx, fs: Fs, e: Exp, v: Value)
    requires Denotes(c, fs, e, v) && e.k.VNonReloc?
    ensures var fs2 := Emit(FreeExp(fs, e), Not(0, e.k.r)); Half(c, fs2, e.(k := VReloc(|fs2.code| - 1)), Bool(!Truthy(v)), v)
  {
    hide Exec, PatchList, StillOpen, Emit, RunFs, Clean, RunPre, FsOk, Half, Shape, RegOk, TwoLists, FreeExp, Grown;
    var fs1, i := FreeExp(fs, e), Not(0, e.k.r);
    FreedState(c, fs, e, v);
    assert |Emit(fs1, i).code| == |fs1.code| + 1 by { EmitLength(fs1, i, e); }
    EmitHalf(c, fs1, e.t, e.f, i, Bool(!Truthy(v)), v);
  }

  lemma EmitLength(fs: Fs, i: Instr, e: Exp)
    requires TwoLists(fs, e.t, e.f) && Plain(i)
    ensures |Emit(fs, i).code| == |fs.code| + 1
  {
    EmitOk(fs, i);
  }

  lemma NotConst(c: Ctx, fs: Fs, e: Exp, v: Value, k2: Kind)
    requires Denotes(c, fs, e, v)
    requires if e.k.VNil? || e.k.VFalse? then k2.VTrue? else (e.k.VKNum? || e.k.VTrue?) && k2.VFalse?
    ensures Half(c, fs, e.(k := k2), Bool(!Truthy(v)), v)
  {
    assert RunPre(c, fs, e.(k := k2)) == RunPre(c, fs, e);
    hide Exec, PatchList, StillOpen, RunFs, Clean, RunPre, FsOk;
  }

  lemma NotJmp(c: Ctx, fs: Fs, e: Exp, v: Value)
    requires Denotes(c, fs, e, v) && e.k.VJmp?
    ensures Half(c, InvertJump(fs, e), e, Bool(!Truthy(v)), v)
  {
    InvertDenotes(c, fs, e, v);
    hide Exec, PatchList, StillOpen, RunFs, Clean, RunPre, FsOk, Shape, InvertJump;
  }

  /** codenot */
  lemma CodeNotDenotes(c: Ctx, fs: Fs, e: Exp, v: Value)
    requires Denotes(c, fs, e, v) && !e.k.VK? && Consts(c, CodeNot(fs, e).0.k)
    ensures var (fs2, e2) := CodeNot(fs, e); Denotes(c, fs2, e2, Bool(!Truthy(v)))
  {
    hide Denotes0, RegOk, Half, RemoveValues, InvertJump, Emit, Discharge2AnyReg;
    var e1 := DischargeVars(e);
    VarsDenotes(c, fs, e, v);
    match e1.k {
      case VNil => NotConst(c, fs, e1, v, VTrue); SwapDenotes(c, fs, e1.(k := VTrue), v);
      case VFalse => NotConst(c, fs, e1, v, VTrue); SwapDenotes(c, fs, e1.(k := VTrue), v);
      case VKNum(_) => NotConst(c, fs, e1, v, VFalse); SwapDenotes(c, fs, e1.(k := VFalse), v);
      case VTrue => NotConst(c, fs, e1, v, VFalse); SwapDenotes(c, fs, e1.(k := VFalse), v);
      case VJmp(_) => NotJmp(c, fs, e1, v); SwapDenotes(c, InvertJump(fs, e1), e1, v);
      case _ =>
        var (fs1, x) := Discharge2AnyReg(fs, e1);
        var fs2 := Emit(FreeExp(fs1, x), Not(0, RegOf(x)));
        NotConsts(fs1, x, fs2);
        EmitFields(FreeExp(fs1, x), Not(0, RegOf(x)));
        Discharge2AnyRegDenotes(c, fs, e1, v);
        NotReg(c, fs1, x, v);
        SwapDenotes(c, fs2, x.(k := VReloc(|fs2.code| - 1)), v);
    }
  }

  lemma NotConsts(fs1: Fs, x: Exp, fs2: Fs)
    ensures RemoveValues(RemoveValues(fs2, x.t), x.f).k == fs2.k
  {
    RemoveFields(fs2, x.t);
    RemoveFields(RemoveValues(fs2, x.t), x.f);
  }

  lemma {:induction false} RemoveFields(fs: Fs, list: seq<int>)
    ensures RemoveValues(fs, list) == fs.(code := RemoveValues(fs, list).code)
    decreases |list|
  {
    if list != [] { RemoveFields(PatchTestReg(fs, list[0], NoReg), list[1..]); }
  }
}
