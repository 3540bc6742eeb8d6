/** What an expression descriptor stands for: the value found in its place when the code so far runs
    to its end, and the values carried by the jumps in its two lists. */
module LuaExp {
  import opened LuaVm
  import opened LuaCode
  import opened LuaExec
  import opened LuaEmit

  /** The code before the instruction an expression still owns: the one that will compute its value,
      or its comparison and jump. */
  function PreCode(fs: Fs, e: Exp): seq<Instr> {
    match e.k
    case VReloc(pc) => if 0 <= pc <= |fs.code| then fs.code[..pc] else fs.code
    case VJmp(pc) => if 1 <= pc <= |fs.code| then fs.code[..pc - 1] else fs.code
    case _ => fs.code
  }

  /** The value of the expression when the code before it has run. */
  function ValueNow(m: Machine, k: seq<Value>, fs: Fs, e: Exp, regs: Regs): Res {
    match e.k
    case VNil => Ok(Nil)
    case VTrue => Ok(Bool(true))
    case VFalse => Ok(Bool(false))
    case VK(i) => if 0 <= i < |fs.k| then Ok(RkVal(k, regs, Kst(i))) else Err
    case VKNum(n) => Ok(Num(n))
    case VLocal(r) => Ok(Read(regs, r))
    case VNonReloc(r) => Ok(Read(regs, r))
    case VReloc(pc) => if 0 <= pc < |fs.code| then Computed(m, k, fs.code[pc], regs) else Err
    case VJmp(pc) => if 1 <= pc <= |fs.code| then Taken(k, fs.code[pc - 1], regs) else Err
  }

  /** The value an instruction computes, wherever it puts it. */
  function Computed(m: Machine, k: seq<Value>, i: Instr, regs: Regs): Res {
    match i
    case Arith(op, _, b, c) => ArithVal(m, op, RkVal(k, regs, b), RkVal(k, regs, c))
    case Unm(_, b) => UnmVal(Read(regs, RegIndex(b)))
    case Not(_, b) => Ok(Bool(!Truthy(Read(regs, b))))
    case _ => Err
  }

  predicate Computes(i: Instr) {
    i.Arith? || i.Unm? || i.Not?
  }

  /** The lists hold open jumps, each in one place; an instruction owned is the last one. */
  ghost predicate ExOk(fs: Fs, e: Exp) {
    && PatchList(fs.code, e.t) && PatchList(fs.code, e.f)
    && Apart(e.t, e.f) && Apart(e.t, fs.jpc) && Apart(e.f, fs.jpc)
    && KindOk(fs, e)
  }

  ghost predicate KindOk(fs: Fs, e: Exp) {
    match e.k
    case VK(i) => 0 <= i < |fs.k|
    case VReloc(pc) => 0 <= pc == |fs.code| - 1 && Computes(fs.code[pc]) && fs.jpc == [] && fs.lasttarget <= pc
    case VJmp(pc) =>
      && 1 <= pc == |fs.code| - 1 && fs.code[pc - 1].Cmp? && OpenAt(fs.code, pc) && fs.jpc == [] && fs.lasttarget <= pc - 1
      && pc !in e.t && pc !in e.f
    case _ => true
  }

  // ----- what generation from `fs0' to `fs' may change -----

  /** The jumps of a list are new since `fs0', or were pending there. */
  ghost predicate Within(list: seq<int>, fs0: Fs) {
    forall j :: j in list ==> j >= |fs0.code| || j in fs0.jpc
  }

  ghost predicate Grown(fs0: Fs, fs: Fs) {
    && fs.nactvar == fs0.nactvar && fs0.k <= fs.k && |fs0.code| <= |fs.code|
    && StillOpen(fs0.code, fs0.jpc, fs.code) && Within(fs.jpc, fs0)
  }

  lemma GrownTrans(fs0: Fs, fs1: Fs, fs2: Fs)
    requires Grown(fs0, fs1) && Grown(fs1, fs2)
    ensures Grown(fs0, fs2)
  {
    forall j | OpenAt(fs0.code, j) && j !in fs0.jpc ensures OpenAt(fs2.code, j) && SameControl(fs0.code, fs2.code, j) {
      assert OpenAt(fs1.code, j);
      assert j !in fs1.jpc;
      assert SameControl(fs0.code, fs1.code, j) && SameControl(fs1.code, fs2.code, j);
    }
  }

  lemma GrownSelf(fs: Fs)
    ensures Grown(fs, fs)
  {
  }

  /** The place of the expression, as seen from `fs0'. */
  ghost predicate Placed(fs0: Fs, e: Exp) {
    && Within(e.t, fs0) && Within(e.f, fs0)
    && (e.k.VReloc? ==> e.k.pc >= |fs0.code|)
    && (e.k.VJmp? ==> e.k.pc - 1 >= |fs0.code|)
  }

  /** Everything but the registers. */
  ghost predicate Shape(fs0: Fs, fs: Fs, e: Exp) {
    FsOk(fs) && ExOk(fs, e) && Grown(fs0, fs) && Placed(fs0, e)
  }

  /** At most one register above those in use at `fs0' is taken, and only for the value itself. */
  ghost predicate RegOk(fs0: Fs, fs: Fs, e: Exp) {
    && fs0.nactvar <= fs0.freereg
    && match e.k
       case VNonReloc(r) =>
         (0 <= r < fs0.nactvar && fs.freereg == fs0.freereg) || (r == fs0.freereg && fs.freereg == fs0.freereg + 1)
       case VLocal(r) => 0 <= r < fs0.nactvar && fs.freereg == fs0.freereg
       case _ => fs.freereg == fs0.freereg
  }

  // ----- meaning -----

  /** A run, or, when not `live', the shape of the code for any run: the machine, the constants of the
      finished function, the state in which generation of an expression starts, the registers at the entry
      of the function, and jumps whose values are not to be relied on. */
  datatype Ctx = Ctx(m: Machine, k: seq<Value>, fs: Fs, regs: Regs, live: bool, wrong: set<int>)

  function RunPre(c: Ctx, fs: Fs, e: Exp): Outcome {
    Joined(Exec(c.m, c.k, PreCode(fs, e), 0, c.regs), fs.jpc)
  }

  function Begin(c: Ctx): Outcome {
    RunFs(c.m, c.k, c.fs, c.regs)
  }

  /** The run comes to the start of the expression. */
  predicate Arrives(c: Ctx) {
    c.live && Begin(c).Fall?
  }

  predicate Elsewhere(c: Ctx) {
    c.live && !Begin(c).Fall?
  }

  /** The constants are among those of the finished function. */
  ghost predicate Consts(c: Ctx, k: seq<Value>) {
    c.live ==> k <= c.k
  }

  ghost predicate Frame(r0: Regs, r1: Regs, base: int) {
    forall x :: x < base ==> Read(r1, x) == Read(r0, x)
  }

  /** The jump comes with the value: in the register its test looked at, unless it is one of the wrong ones,
      or as the plain boolean `b'. */
  ghost predicate Held(wrong: set<int>, code: seq<Instr>, j: int, regs: Regs, v: Value, b: bool) {
    if Carries(code, j) then j in wrong || Read(regs, code[j - 1].b) == v else v == Bool(b)
  }

  /** No wrong jump of a list carries a value. */
  ghost predicate Reliable(wrong: set<int>, code: seq<Instr>, list: seq<int>) {
    forall j :: j in list && Carries(code, j) ==> j !in wrong
  }

  /** What the jumps of an expression carry can be relied on. */
  ghost predicate Trusted(c: Ctx, code: seq<Instr>, e: Exp) {
    c.live ==> Reliable(c.wrong, code, e.t) && Reliable(c.wrong, code, e.f)
  }

  /** A jump of the `t' list leaves with a true value, one of the `f' list with a false value. */
  ghost predicate LeftBy(wrong: set<int>, code: seq<Instr>, t: seq<int>, f: seq<int>, j: int, regs: Regs, v: Value) {
    || (j in t && Truthy(v) && Held(wrong, code, j, regs, v, true))
    || (j in f && !Truthy(v) && Held(wrong, code, j, regs, v, false))
  }

  ghost predicate Result(c: Ctx, fs: Fs, e: Exp, r: Regs, v: Value, o: Outcome) {
    match o
    case Fall(r1) => Frame(r, r1, c.fs.freereg) && ValueNow(c.m, c.k, fs, e, r1) == Ok(v)
    case Out(j, r1) => Frame(r, r1, c.fs.freereg) && LeftBy(c.wrong, fs.code, e.t, e.f, j, r1, v)
    case _ => false
  }

  /** Runs that come to where the expression starts find its value `v'; other runs are not changed. */
  ghost predicate Means(c: Ctx, fs: Fs, e: Exp, v: Value) {
    && (Elsewhere(c) ==> RunPre(c, fs, e) == Begin(c))
    && (Arrives(c) ==> Result(c, fs, e, Begin(c).regs, v, RunPre(c, fs, e)))
  }

  /** At the very start of the function the registers above the parameters are nil. */
  ghost predicate Clean(c: Ctx) {
    c.fs.code == [] ==> forall x :: x >= c.fs.nactvar ==> Read(c.regs, x) == Nil
  }

  // ----- lists survive -----

  lemma ListKept(fs: Fs, code2: seq<Instr>, list: seq<int>)
    requires StillOpen(fs.code, fs.jpc, code2) && PatchList(fs.code, list) && Apart(list, fs.jpc)
    ensures PatchList(code2, list)
    ensures forall j :: j in list ==> Carries(code2, j) == Carries(fs.code, j) && (Carries(fs.code, j) ==> code2[j - 1] == fs.code[j - 1])
  {
    forall j | j in list
      ensures OpenAt(code2, j) && Carries(code2, j) == Carries(fs.code, j) && (Carries(fs.code, j) ==> code2[j - 1] == fs.code[j - 1])
    {
      assert OpenAt(fs.code, j);
      assert SameControl(fs.code, code2, j);
    }
  }

  lemma LeftByKept(wrong: set<int>, fs: Fs, code2: seq<Instr>, e: Exp, j: int, regs: Regs, v: Value)
    requires StillOpen(fs.code, fs.jpc, code2) && PatchList(fs.code, e.t) && PatchList(fs.code, e.f)
    requires Apart(e.t, fs.jpc) && Apart(e.f, fs.jpc) && LeftBy(wrong, fs.code, e.t, e.f, j, regs, v)
    ensures LeftBy(wrong, code2, e.t, e.f, j, regs, v)
  {
    ListKept(fs, code2, e.t);
    ListKept(fs, code2, e.f);
  }

  /** A step of generation that leaves the lists of the expression alone. */
  lemma ShapeStep(fs0: Fs, fs: Fs, e: Exp, fs2: Fs, k2: Kind)
    requires Shape(fs0, fs, e) && FsOk(fs2) && Grown(fs, fs2) && fs2.jpc == [] && !k2.VReloc? && !k2.VJmp?
    requires k2.VK? ==> 0 <= k2.info < |fs2.k|
    ensures Shape(fs0, fs2, e.(k := k2))
  {
    GrownTrans(fs0, fs, fs2);
    ListKept(fs, fs2.code, e.t);
    ListKept(fs, fs2.code, e.f);
  }

  predicate Owns(e: Exp) {
    e.k.VReloc? || e.k.VJmp?
  }

  // ----- discharge2reg -----

  /** An instruction that loads the value into `reg'. */
  lemma EmitLoad(c: Ctx, fs: Fs, e: Exp, i: Instr, reg: int, v: Value)
    requires Shape(c.fs, fs, e) && !Owns(e) && Plain(i) && reg >= c.fs.freereg && Means(c, fs, e, v)
    requires c.live ==> forall r :: ValueNow(c.m, c.k, fs, e, r) == Ok(v) ==> Effect(c.m, c.k, i, r) == Fall(r[reg := v])
    ensures Shape(c.fs, Emit(fs, i), e.(k := VNonReloc(reg))) && Means(c, Emit(fs, i), e.(k := VNonReloc(reg)), v)
  {
    var fs2, e2 := Emit(fs, i), e.(k := VNonReloc(reg));
    EmitOk(fs, i);
    EmitRun(c.m, c.k, fs, i, c.regs);
    ShapeStep(c.fs, fs, e, fs2, VNonReloc(reg));
    hide FsOk, StillOpen, PatchList, Emit, Exec, Grown;
    var o := RunPre(c, fs, e);
    if Arrives(c) && o.Out? { LeftByKept(c.wrong, fs, fs2.code, e, o.j, o.regs, v); }
  }

  /** Giving the pending instruction its register. */
  function Relocated(fs: Fs, pc: int, reg: int): Fs {
    if 0 <= pc < |fs.code| then fs.(code := fs.code[pc := SetA(fs.code[pc], reg)]) else fs
  }

  lemma RelocateShape(fs0: Fs, fs: Fs, e: Exp, reg: int)
    requires Shape(fs0, fs, e) && e.k.VReloc?
    ensures Shape(fs0, Relocated(fs, e.k.pc, reg), e.(k := VNonReloc(reg)))
    ensures StillOpen(fs.code, fs.jpc, Relocated(fs, e.k.pc, reg).code)
  {
    var n := |fs.code| - 1;
    var fs2 := Relocated(fs, e.k.pc, reg);
    assert forall i :: 0 <= i <= n ==> IsTest(fs2.code[i]) == IsTest(fs.code[i]) && fs2.code[i].Jmp? == fs.code[i].Jmp?;
    forall i | 0 <= i <= n ensures InstrOk(fs2.code, i, fs2.lasttarget) { assert InstrOk(fs.code, i, fs.lasttarget); }
    forall j | OpenAt(fs.code, j) ensures OpenAt(fs2.code, j) && SameControl(fs.code, fs2.code, j) { }
    forall j | OpenAt(fs2.code, j) && Carries(fs2.code, j) ensures fs2.code[j - 1].dest.NoReg? { assert OpenAt(fs.code, j); }
    ShapeStep(fs0, fs, e, fs2, VNonReloc(reg));
  }

  lemma RelocateMeans(c: Ctx, fs: Fs, e: Exp, reg: int, v: Value)
    requires Shape(c.fs, fs, e) && e.k.VReloc? && reg >= c.fs.freereg && Means(c, fs, e, v)
    ensures Means(c, Relocated(fs, e.k.pc, reg), e.(k := VNonReloc(reg)), v)
  {
    var n := |fs.code| - 1;
    var fs2, e2 := Relocated(fs, e.k.pc, reg), e.(k := VNonReloc(reg));
    RelocateShape(c.fs, fs, e, reg);
    var p := fs.code[..n];
    assert PreCode(fs, e) == p && fs2.code == p + [SetA(fs.code[n], reg)];
    PrefixGood(fs, e);
    ExecGood(c.m, c.k, p, fs.lasttarget, 0, c.regs);
    ExecLast(c.m, c.k, p, SetA(fs.code[n], reg), c.regs);
    var o := RunPre(c, fs, e);
    hide FsOk, StillOpen, PatchList, Exec, Grown;
    if Arrives(c) && o.Out? { LeftByKept(c.wrong, fs, fs2.code, e, o.j, o.regs, v); }
  }

  /** The code before the instruction an expression owns is well-formed by itself. */
  lemma PrefixGood(fs: Fs, e: Exp)
    requires FsOk(fs) && KindOk(fs, e) && Owns(e)
    ensures WellFormed(PreCode(fs, e), fs.lasttarget) && OpenUnkept(PreCode(fs, e))
  {
    var p := PreCode(fs, e);
    forall i | 0 <= i < |p| ensures InstrOk(p, i, fs.lasttarget) {
      assert InstrOk(fs.code, i, fs.lasttarget);
      assert p[i] == fs.code[i];
    }
    forall j | OpenAt(p, j) && Carries(p, j) ensures p[j - 1].dest.NoReg? { assert OpenAt(fs.code, j) && Carries(fs.code, j); }
  }

  // ----- nil -----

  lemma {:induction false} SetNilsAt(regs: Regs, a: int, b: int, x: int)
    ensures Read(SetNils(regs, a, b), x) == if x == b || a <= x <= b then Nil else Read(regs, x)
    decreases b - a
  {
    if b - 1 >= a { SetNilsAt(regs[b := Nil], a, b - 1, x); }
  }

  /** The last instruction is LOADNIL, and everything comes to it. */
  predicate Mergeable(fs: Fs, reg: int) {
    var n := |fs.code|;
    n > fs.lasttarget && n > 0 && fs.code[n - 1].LoadNil? && fs.code[n - 1].a <= reg <= fs.code[n - 1].b + 1
  }

  lemma NilPrefix(fs: Fs, reg: int)
    requires FsOk(fs) && Mergeable(fs, reg)
    ensures WellFormed(fs.code[..|fs.code| - 1], fs.lasttarget)
  {
    var p := fs.code[..|fs.code| - 1];
    forall i | 0 <= i < |p| ensures InstrOk(p, i, fs.lasttarget) {
      assert InstrOk(fs.code, i, fs.lasttarget);
      assert p[i] == fs.code[i];
    }
  }

  function Merged(fs: Fs, reg: int): Fs
    requires Mergeable(fs, reg)
  {
    var n := |fs.code|;
    if reg > fs.code[n - 1].b then fs.(code := fs.code[n - 1 := LoadNil(fs.code[n - 1].a, reg)]) else fs
  }

  lemma MergeShape(fs0: Fs, fs: Fs, e: Exp, reg: int)
    requires Shape(fs0, fs, e) && e.k.VNil? && Mergeable(fs, reg)
    ensures Shape(fs0, Merged(fs, reg), e.(k := VNonReloc(reg)))
    ensures StillOpen(fs.code, fs.jpc, Merged(fs, reg).code)
  {
    var fs2 := Merged(fs, reg);
    var n := |fs.code|;
    assert forall i :: 0 <= i < n ==> IsTest(fs2.code[i]) == IsTest(fs.code[i]) && fs2.code[i].Jmp? == fs.code[i].Jmp?;
    forall i | 0 <= i < n ensures InstrOk(fs2.code, i, fs2.lasttarget) { assert InstrOk(fs.code, i, fs.lasttarget); }
    forall j | OpenAt(fs.code, j) ensures OpenAt(fs2.code, j) && SameControl(fs.code, fs2.code, j) { }
    forall j | OpenAt(fs2.code, j) && Carries(fs2.code, j) ensures fs2.code[j - 1].dest.NoReg? { assert OpenAt(fs.code, j); }
    ShapeStep(fs0, fs, e, fs2, VNonReloc(reg));
  }

  lemma MergeEffect(m: Machine, k: seq<Value>, fs: Fs, reg: int, regs: Regs)
    requires FsOk(fs) && Mergeable(fs, reg)
    ensures var o, o2 := Exec(m, k, fs.code, 0, regs), Exec(m, k, Merged(fs, reg).code, 0, regs);
            if o.Fall? then o2.Fall? && forall x :: Read(o2.regs, x) == if x == reg then Nil else Read(o.regs, x) else o2 == o
  {
    var n := |fs.code|;
    var p, i := fs.code[..n - 1], fs.code[n - 1];
    var i2 := Merged(fs, reg).code[n - 1];
    NilPrefix(fs, reg);
    assert InstrOk(fs.code, n - 1, fs.lasttarget);
    assert fs.code == p + [i] && Merged(fs, reg).code == p + [i2];
    ExecGood(m, k, p, fs.lasttarget, 0, regs);
    ExecLast(m, k, p, i, regs);
    ExecLast(m, k, p, i2, regs);
    var o := Exec(m, k, p, 0, regs);
    if o.Fall? {
      forall x ensures Read(SetNils(o.regs, i2.a, i2.b), x) == if x == reg then Nil else Read(SetNils(o.regs, i.a, i.b), x) {
        SetNilsAt(o.regs, i.a, i.b, x);
        SetNilsAt(o.regs, i2.a, i2.b, x);
      }
    }
  }

  lemma MergeMeans(c: Ctx, fs: Fs, e: Exp, reg: int, v: Value)
    requires Shape(c.fs, fs, e) && e.k.VNil? && Mergeable(fs, reg) && reg >= c.fs.freereg && Means(c, fs, e, v)
    ensures Means(c, Merged(fs, reg), e.(k := VNonReloc(reg)), v)
  {
    var fs2 := Merged(fs, reg);
    MergeShape(c.fs, fs, e, reg);
    MergeEffect(c.m, c.k, fs, reg, c.regs);
    assert fs.jpc == [];
    hide FsOk, StillOpen, PatchList, Exec, Grown, Merged, Mergeable;
    var o := RunPre(c, fs, e);
    if Arrives(c) && o.Out? { LeftByKept(c.wrong, fs, fs2.code, e, o.j, o.regs, v); }
  }

  /** At the start of the function the register is nil already. */
  lemma CleanMeans(c: Ctx, fs: Fs, e: Exp, reg: int, v: Value)
    requires Shape(c.fs, fs, e) && e.k.VNil? && fs.code == [] && reg >= fs.nactvar && Clean(c) && Means(c, fs, e, v)
    ensures Shape(c.fs, fs, e.(k := VNonReloc(reg))) && Means(c, fs, e.(k := VNonReloc(reg)), v)
  {
    assert c.fs.code == [];
  }

  lemma CodeNilMeans(c: Ctx, fs: Fs, e: Exp, reg: int, v: Value)
    requires Shape(c.fs, fs, e) && e.k.VNil? && reg >= c.fs.freereg && reg >= fs.nactvar && Clean(c) && Means(c, fs, e, v)
    ensures Shape(c.fs, CodeNil(fs, reg), e.(k := VNonReloc(reg))) && Means(c, CodeNil(fs, reg), e.(k := VNonReloc(reg)), v)
  {
    hide Shape, Means, Clean;
    if |fs.code| > fs.lasttarget && fs.code == [] {
      CleanMeans(c, fs, e, reg, v);
    } else if Mergeable(fs, reg) {
      MergeShape(c.fs, fs, e, reg);
      MergeMeans(c, fs, e, reg, v);
    } else {
      EmitLoad(c, fs, e, LoadNil(reg, reg), reg, v);
    }
  }
}
