/** The code generated for an expression computes its value. */
module LuaCompile {
  import opened LuaVm
  import opened LuaCode
  import opened LuaExec
  import opened LuaEmit
  import opened LuaExp
  import opened LuaClose
  import opened LuaReg
  import opened LuaOperand
  import opened LuaCond
  import opened LuaOps
  import opened LuaBinary

  // ----- constants only grow -----

  lemma JumpOnCondConsts(fs: Fs, e: Exp, cond: bool)
    ensures fs.k <= JumpOnCond(fs, e, cond).0.k
  {
    hide CondJump, Discharge2Reg;
    if e.k.VReloc? && e.k.pc == |fs.code| - 1 && 0 <= e.k.pc && fs.code[e.k.pc].Not? {
      CondFields(fs.(code := fs.code[..e.k.pc]), Test(fs.code[e.k.pc].b, !cond));
    } else {
      var (fs1, e1) := Discharge2AnyReg(fs, e);
      Discharge2AnyRegConsts(fs, e);
      CondFields(FreeExp(fs1, e1), TestSet(NoReg, RegOf(e1), cond));
    }
  }

  lemma Discharge2AnyRegConsts(fs: Fs, e: Exp)
    ensures fs.k <= Discharge2AnyReg(fs, e).0.k
  {
    hide Discharge2Reg;
    var fs1 := ReserveRegs(fs, 1);
    Discharge2RegFields(fs1, e, fs1.freereg - 1);
  }

  lemma GoIfConsts(fs: Fs, e: Exp)
    ensures fs.k <= GoIfTrue(fs, e).0.k && fs.k <= GoIfFalse(fs, e).0.k
  {
    hide JumpOnCond, Emit;
    EmitFields(fs.(jpc := []), Jmp(NO_JUMP));
    JumpOnCondConsts(fs, DischargeVars(e), false);
    JumpOnCondConsts(fs, DischargeVars(e), true);
  }

  lemma CodeNotConsts(fs: Fs, e0: Exp)
    ensures fs.k <= CodeNot(fs, e0).0.k
  {
    hide RemoveValues, Emit, Discharge2AnyReg;
    var e := DischargeVars(e0);
    var (fs1, e1) := Discharge2AnyReg(fs, e);
    Discharge2AnyRegConsts(fs, e);
    EmitFields(FreeExp(fs1, e1), Not(0, RegOf(e1)));
    var fs2 := Emit(FreeExp(fs1, e1), Not(0, RegOf(e1)));
    NotConsts(fs1, e1, fs2);
    NotConsts(fs, e, InvertJump(fs, e));
    NotConsts(fs, e, fs);
  }

  lemma InfixConsts(fs: Fs, op: BinOp, v: Exp)
    ensures fs.k <= Infix(fs, op, v).0.k
  {
    hide GoIfTrue, GoIfFalse, Exp2RK;
    GoIfConsts(fs, v);
    Exp2RKFields(fs, v);
  }

  lemma CodeArithConsts(m: Machine, fs: Fs, op: ArithOp, e1: Exp, e2: Exp)
    ensures fs.k <= CodeArith(m, fs, op, e1, e2).0.k
  {
    hide Exp2RK, Emit;
    var (fs1, x2) := Exp2RK(fs, e2);
    var (fs2, x1) := Exp2RK(fs1, e1);
    Exp2RKFields(fs, e2);
    Exp2RKFields(fs1, e1);
    FreeOrder(fs2, x1, x2);
    EmitFields(FreeBoth(fs2, x1, x2), Arith(op, 0, Operand(x1), Operand(x2)));
  }

  lemma CodeCompConsts(fs: Fs, op: CmpOp, cond: bool, e1: Exp, e2: Exp)
    ensures fs.k <= CodeComp(fs, op, cond, e1, e2).0.k
  {
    hide Exp2RK, CondJump;
    var (fs1, x1) := Exp2RK(fs, e1);
    var (fs2, x2) := Exp2RK(fs1, e2);
    Exp2RKFields(fs, e1);
    Exp2RKFields(fs1, e2);
    var swap := !cond && !op.Eq?;
    var o1, o2 := if swap then Operand(x2) else Operand(x1), if swap then Operand(x1) else Operand(x2);
    CondFields(FreeExp(FreeExp(fs2, x2), x1), Cmp(op, cond || swap, o1, o2));
  }

  lemma PosfixConsts(m: Machine, fs: Fs, op: BinOp, e1: Exp, e2: Exp)
    ensures fs.k <= Posfix(m, fs, op, e1, e2).0.k
  {
    hide CodeArith, CodeComp;
    if op.ArithBin? { CodeArithConsts(m, fs, op.op, e1, e2); }
    if IsComp(op) { CodeCompConsts(fs, CompOf(op).0, CompOf(op).1, e1, e2); }
  }

  lemma PrefixConsts(fs: Fs, op: UnOp, e: Exp)
    ensures fs.k <= Prefix(fs, op, e).0.k
  {
    hide Exp2AnyReg, CodeNot, Exp2RK, Emit;
    CodeNotConsts(fs, e);
    Exp2AnyRegConsts(fs, e);
    var (fs1, e1) := if e.k.VK? then Exp2AnyReg(fs, e) else (fs, e);
    var (fs2, x) := Exp2RK(fs1, e1);
    Exp2RKFields(fs1, e1);
    EmitFields(FreeExp(fs2, x), Unm(0, Operand(x)));
  }

  lemma {:induction false} CompileConsts(m: Machine, fs: Fs, e: Expr)
    ensures fs.k <= Compile(m, fs, e).0.k
    decreases e
  {
    hide Prefix, Infix, Posfix;
    match e
    case EParen(e1) => CompileConsts(m, fs, e1);
    case EUn(op, e1) =>
      var (fs1, x) := Compile(m, fs, e1);
      CompileConsts(m, fs, e1);
      PrefixConsts(fs1, op, x);
    case EBin(op, l, r) =>
      var (fs1, x1) := Compile(m, fs, l);
      var (fs2, y1) := Infix(fs1, op, x1);
      var (fs3, x2) := Compile(m, fs2, r);
      CompileConsts(m, fs, l);
      InfixConsts(fs1, op, x1);
      CompileConsts(m, fs2, r);
      PosfixConsts(m, fs3, op, y1, x2);
    case _ =>
  }

  // ----- and, or -----

  /** The jumps that leave the first operand join the list of the second. */
  lemma JoinLists(fs0: Fs, fs1: Fs, list: seq<int>, fs2: Fs, x: Exp, go: bool)
    requires FsOk(fs1) && Grown(fs0, fs1) && PatchList(fs1.code, list) && Apart(list, fs1.jpc) && Within(list, fs0)
    requires Shape(fs1, fs2, x)
    ensures Shape(fs0, fs2, if go then x.(f := x.f + list) else x.(t := x.t + list))
    ensures forall j :: j in list ==> Carries(fs2.code, j) == Carries(fs1.code, j) && (Carries(fs1.code, j) ==> fs2.code[j - 1] == fs1.code[j - 1])
  {
    GrownTrans(fs0, fs1, fs2);
    ListKept(fs1, fs2.code, list);
    forall j | j in list ensures j < |fs1.code| && j !in x.t && j !in x.f && j !in fs2.jpc { assert OpenAt(fs1.code, j); }
    PatchListConcat(fs2.code, if go then x.f else x.t, list);
  }

  lemma GuardStart(c: Ctx, fs: Fs, list: seq<int>, v: Value, go: bool)
    requires Guard(c, fs, list, v, go)
    ensures var c2 := c.(fs := fs);
            FsOk(fs) && Clean(c2) && 0 <= fs.nactvar <= fs.freereg && fs.nactvar == c.fs.nactvar && fs.freereg == c.fs.freereg
    ensures FsOk(c.fs) && Clean(c) && Grown(c.fs, fs) && PatchList(fs.code, list) && Apart(list, fs.jpc) && Within(list, c.fs)
    ensures Arrives(c) ==> GuardResult(c, fs.code, [], list, v, go, Begin(c.(fs := fs)))
    ensures Elsewhere(c) ==> Begin(c.(fs := fs)) == Begin(c)
  {
  }

  lemma LogicDenotes(c: Ctx, fs1: Fs, list: seq<int>, v1: Value, go: bool, fs2: Fs, x: Exp, v2: Value, v: Value)
    requires Guard(c, fs1, list, v1, go) && Denotes(c.(fs := fs1), fs2, x, v2)
    requires Arrives(c) ==> v == if Truthy(v1) == go then v2 else v1
    ensures Denotes(c, fs2, if go then x.(f := x.f + list) else x.(t := x.t + list), v)
  {
    hide Exec, RunFs, Clean, FsOk, PatchList, StillOpen, Guard;
    var c2 := c.(fs := fs1);
    var e := if go then x.(f := x.f + list) else x.(t := x.t + list);
    GuardStart(c, fs1, list, v1, go);
    JoinLists(c.fs, fs1, list, fs2, x, go);
    assert RegOk(c.fs, fs2, e);
    assert RunPre(c, fs2, e) == RunPre(c2, fs2, x);
    hide Shape, RunPre, Grown, RegOk;
    LogicMeans(c, fs1, list, v1, go, fs2, x, v2, v);
  }

  lemma LogicMeans(c: Ctx, fs1: Fs, list: seq<int>, v1: Value, go: bool, fs2: Fs, x: Exp, v2: Value, v: Value)
    requires Means(c.(fs := fs1), fs2, x, v2) && fs1.freereg == c.fs.freereg
    requires Elsewhere(c) ==> Begin(c.(fs := fs1)) == Begin(c)
    requires Arrives(c) ==> GuardResult(c, fs1.code, [], list, v1, go, Begin(c.(fs := fs1)))
    requires Arrives(c) ==> v == if Truthy(v1) == go then v2 else v1
    requires forall j :: j in list ==> Carries(fs2.code, j) == Carries(fs1.code, j) && (Carries(fs1.code, j) ==> fs2.code[j - 1] == fs1.code[j - 1])
    requires RunPre(c, fs2, if go then x.(f := x.f + list) else x.(t := x.t + list)) == RunPre(c.(fs := fs1), fs2, x)
    ensures Means(c, fs2, if go then x.(f := x.f + list) else x.(t := x.t + list), v)
  {
    hide Exec, RunFs, RunPre;
  }

  // ----- the condition -----

  /** Generation always jumps on the first operand. */
  predicate AlwaysJumps(op: BinOp, x: Exp) {
    (op.AndOp? && x.k.VFalse?) || (op.OrOp? && x.k.VTrue?)
  }

  /** The jumps pending to a place where generation always jumps on a literal join the new jump. What they
      carry is not the value of the literal. */
  ghost function Swallowed(fs: Fs, op: BinOp, x: Exp): set<int> {
    if AlwaysJumps(op, x) then set j | j in fs.jpc && Carries(fs.code, j) else {}
  }

  /** All jumps that come to carry a wrong value. */
  ghost function Wrong(m: Machine, fs: Fs, e: Expr): set<int>
    decreases e
  {
    match e
    case EParen(e1) => Wrong(m, fs, e1)
    case EUn(_, e1) => Wrong(m, fs, e1)
    case EBin(op, l, r) =>
      var (fs1, x1) := Compile(m, fs, l);
      Wrong(m, fs, l) + Swallowed(fs1, op, x1) + Wrong(m, Infix(fs1, op, x1).0, r)
    case _ => {}
  }

  ghost predicate Unspoilt(wrong: set<int>, fs: Fs, x: Exp) {
    Reliable(wrong, fs.code, x.t) && Reliable(wrong, fs.code, x.f)
  }

  /** No value of a wrong jump is brought to an operand; `wrong' are the wrong jumps so far. */
  ghost predicate NoLoss(m: Machine, fs: Fs, e: Expr, wrong: set<int>)
    decreases e
  {
    match e
    case EParen(e1) => NoLoss(m, fs, e1, wrong)
    case EUn(op, e1) =>
      var (fs1, x1) := Compile(m, fs, e1);
      NoLoss(m, fs, e1, wrong) && (op.Minus? ==> Unspoilt(wrong + Wrong(m, fs, e1), fs1, x1))
    case EBin(op, l, r) =>
      var (fs1, x1) := Compile(m, fs, l);
      var fs2 := Infix(fs1, op, x1).0;
      var (fs3, x2) := Compile(m, fs2, r);
      var w1 := wrong + Wrong(m, fs, l);
      var w2 := w1 + Swallowed(fs1, op, x1);
      && NoLoss(m, fs, l, wrong) && NoLoss(m, fs2, r, w2)
      && (op.AndOp? || op.OrOp? || (Unspoilt(w1, fs1, x1) && Unspoilt(w2 + Wrong(m, fs2, r), fs3, x2)))
    case _ => true
  }

  /** The context with the jumps that are wrong once the expression is generated. */
  ghost function After(c: Ctx, e: Expr): Ctx {
    c.(wrong := c.wrong + Wrong(c.m, c.fs, e))
  }

  /** Relying on fewer jumps. */
  lemma MoreWrong(c: Ctx, fs: Fs, x: Exp, v: Value, wrong: set<int>)
    requires Denotes(c, fs, x, v) && c.wrong <= wrong
    ensures Denotes(c.(wrong := wrong), fs, x, v)
  {
    var c' := c.(wrong := wrong);
    assert RunPre(c', fs, x) == RunPre(c, fs, x);
    hide FsOk, Shape, RunPre, RunFs, Exec;
  }

  // ----- the theorem -----

  lemma LiteralDenotes(c: Ctx, k: Kind, v: Value)
    requires FsOk(c.fs) && Clean(c) && 0 <= c.fs.nactvar <= c.fs.freereg
    requires match k
             case VNil => v == Nil
             case VTrue => v == Bool(true)
             case VFalse => v == Bool(false)
             case VKNum(n) => v == Num(n)
             case VLocal(r) => 0 <= r < c.fs.nactvar && (Arrives(c) ==> v == Read(Begin(c).regs, r))
             case _ => false
    ensures Denotes(c, c.fs, Exp(k, [], []), v)
  {
    GrownSelf(c.fs);
    assert RunPre(c, c.fs, Exp(k, [], [])) == Begin(c);
    hide Exec, RunFs, StillOpen, PatchList;
  }

  lemma PrefixDenotes(c: Ctx, fs: Fs, x: Exp, v1: Value, op: UnOp, v: Value)
    requires Denotes(c, fs, x, v1) && !x.k.VK? && Consts(c, Prefix(fs, op, x).0.k)
    requires op.Minus? ==> Trusted(c, fs.code, x)
    requires Arrives(c) ==> if op.Minus? then UnmVal(v1) == Ok(v) else v == Bool(!Truthy(v1))
    ensures var (fs2, x2) := Prefix(fs, op, x); Denotes(c, fs2, x2, v) && !x2.k.VK?
  {
    hide Denotes, CodeMinus, CodeNot;
    if op.Minus? {
      CodeMinusDenotes(c, fs, x, v1, v);
    } else {
      CodeNotDenotes(c, fs, x, v1);
      var (fs2, x2) := CodeNot(fs, x);
      CodeNotKind(fs, x);
      if !Arrives(c) { AnyValue(c, fs2, x2, Bool(!Truthy(v1)), v); }
    }
  }

  /** Where no run arrives, the value does not matter. */
  lemma AnyValue(c: Ctx, fs: Fs, x: Exp, v: Value, w: Value)
    requires Denotes(c, fs, x, v) && !Arrives(c)
    ensures Denotes(c, fs, x, w)
  {
    hide Shape, RunPre, RunFs;
  }

  lemma CodeNotKind(fs: Fs, x: Exp)
    ensures !CodeNot(fs, x).1.k.VK?
  {
    hide RemoveValues, Emit, Discharge2AnyReg, InvertJump;
  }

  /** The frame of locals: expressions look at nothing else. */
  lemma {:induction false} EvalFrame(m: Machine, e: Expr, n: int, r0: Regs, r1: Regs)
    requires LocalsIn(e, n) && Frame(r0, r1, n)
    ensures Eval(m, e, r1) == Eval(m, e, r0)
    decreases e
  {
    match e
    case EParen(e1) => EvalFrame(m, e1, n, r0, r1);
    case EUn(_, e1) => EvalFrame(m, e1, n, r0, r1);
    case EBin(_, l, r) =>
      EvalFrame(m, l, n, r0, r1);
      EvalFrame(m, r, n, r0, r1);
    case _ =>
  }

  /** Runs that arrive at the start of the expression can evaluate it. */
  ghost predicate Evaluates(c: Ctx, e: Expr, v: Value) {
    Arrives(c) ==> Eval(c.m, e, Begin(c).regs) == Ok(v)
  }

  ghost predicate Start(c: Ctx, e: Expr) {
    FsOk(c.fs) && Clean(c) && 0 <= c.fs.nactvar <= c.fs.freereg && LocalsIn(e, c.fs.nactvar)
  }

  /** The value of the operand of an operator, whenever it is evaluated. */
  ghost function Part(c: Ctx, e: Expr): Value {
    if Arrives(c) then (var r := Eval(c.m, e, Begin(c).regs); if r.Ok? then r.v else Nil) else Nil
  }

  /** What a run of the generated code comes to is the value of the expression; locals and registers
      in use are not changed; jumps of the context are not disturbed. */
  lemma {:induction false} CompileDenotes(c: Ctx, e: Expr, v: Value)
    requires Start(c, e) && Evaluates(c, e, v) && (c.live ==> NoLoss(c.m, c.fs, e, c.wrong)) && Consts(c, Compile(c.m, c.fs, e).0.k)
    ensures var (fs, x) := Compile(c.m, c.fs, e); Denotes(After(c, e), fs, x, v) && !x.k.VK?
    decreases e
  {
    hide Denotes, Prefix, FsOk, Clean, RunFs;
    match e
    case ENil => CompileLeaf(c, e, v);
    case ETrue => CompileLeaf(c, e, v);
    case EFalse => CompileLeaf(c, e, v);
    case ENum(_) => CompileLeaf(c, e, v);
    case ELocal(_) => CompileLeaf(c, e, v);
    case EParen(e1) =>
      var (fs1, x) := Compile(c.m, c.fs, e1);
      CompileDenotes(c, e1, v);
      VarsDenotes(After(c, e1), fs1, x, v);
    case EUn(op, e1) =>
      var (fs1, x) := Compile(c.m, c.fs, e1);
      PrefixConsts(fs1, op, x);
      CompileDenotes(c, e1, Part(c, e1));
      PrefixDenotes(After(c, e1), fs1, x, Part(c, e1), op, v);
    case EBin(op, l, r) =>
      if op.AndOp? || op.OrOp? { CompileLogic(c, e, v); } else { CompileStrict(c, e, v); }
  }

  lemma CompileLeaf(c: Ctx, e: Expr, v: Value)
    requires Start(c, e) && Evaluates(c, e, v) && !e.EUn? && !e.EBin? && !e.EParen?
    ensures var (fs, x) := Compile(c.m, c.fs, e); Denotes(After(c, e), fs, x, v) && !x.k.VK?
  {
    hide Denotes, FsOk, Clean, RunFs;
    assert After(c, e) == c;
    var (fs, x) := Compile(c.m, c.fs, e);
    if Arrives(c) {
      LiteralDenotes(c, x.k, v);
    } else {
      var w := if e.ENum? then Num(e.n) else if e.ETrue? then Bool(true) else if e.EFalse? then Bool(false) else Nil;
      LiteralDenotes(c, x.k, w);
      AnyValue(c, fs, x, w, v);
    }
  }

  lemma {:induction false} CompileLogic(c: Ctx, e: Expr, v: Value)
    requires Start(c, e) && Evaluates(c, e, v) && (c.live ==> NoLoss(c.m, c.fs, e, c.wrong)) && Consts(c, Compile(c.m, c.fs, e).0.k)
    requires e.EBin? && (e.bop.AndOp? || e.bop.OrOp?)
    ensures var (fs, x) := Compile(c.m, c.fs, e); Denotes(After(c, e), fs, x, v) && !x.k.VK?
    decreases e, 0
  {
    hide Denotes, Guard, GoIfTrue, GoIfFalse, FsOk, Clean, RunFs, Unspoilt;
    var (op, l, r) := (e.bop, e.lhs, e.rhs);
    var go := op.AndOp?;
    var (fs1, x1) := Compile(c.m, c.fs, l);
    var (fs2, y1) := Infix(fs1, op, x1);
    var (fs3, x2) := Compile(c.m, fs2, r);
    var c1 := WithSwallowed(c, fs1, op, l, x1);
    var c2 := c1.(fs := fs2);
    InfixConsts(fs1, op, x1);
    CompileConsts(c.m, fs2, r);
    var v1 := Part(c, l);
    CompileDenotes(c, l, v1);
    MoreWrong(After(c, l), fs1, x1, v1, c1.wrong);
    var list := if go then y1.f else y1.t;
    FirstGuard(c1, fs1, x1, v1, op);
    GuardStart(c1, fs2, list, v1, go);
    if Arrives(c) && Arrives(c2) { EvalFrame(c.m, r, c.fs.nactvar, Begin(c).regs, Begin(c2).regs); }
    LogicSecond(c1, c2, e, v1, v);
    CompileDenotes(c2, r, v);
    assert After(c2, r).wrong == After(c, e).wrong;
    MoreGuard(c1, fs2, list, v1, go, After(c, e).wrong);
    VarsDenotes(After(c2, r), fs3, x2, v);
    LogicDenotes(After(c, e), fs2, list, v1, go, fs3, DischargeVars(x2), v, v);
  }

  lemma FirstGuard(c: Ctx, fs: Fs, x: Exp, v: Value, op: BinOp)
    requires Denotes(c, fs, x, v) && !x.k.VK? && (op.AndOp? || op.OrOp?) && Consts(c, Infix(fs, op, x).0.k)
    requires c.live ==> Swallowed(fs, op, x) <= c.wrong
    ensures var (fs2, y) := Infix(fs, op, x); Guard(c, fs2, if op.AndOp? then y.f else y.t, v, op.AndOp?)
    ensures var y := Infix(fs, op, x).1; if op.AndOp? then y.t == [] else y.f == []
  {
    hide Denotes, Guard, GoIfTrue, GoIfFalse;
    assert c.live && AlwaysJumps(op, x) ==> Expected(c.wrong, fs);
    if op.AndOp? { GoIfTrueGuard(c, fs, x, v); } else { GoIfFalseGuard(c, fs, x, v); }
  }

  /** The context behind the first operand of an operator. */
  ghost function WithSwallowed(c: Ctx, fs1: Fs, op: BinOp, l: Expr, x1: Exp): Ctx {
    c.(wrong := c.wrong + Wrong(c.m, c.fs, l) + Swallowed(fs1, op, x1))
  }

  lemma MoreGuard(c: Ctx, fs: Fs, list: seq<int>, v: Value, go: bool, wrong: set<int>)
    requires Guard(c, fs, list, v, go) && c.wrong <= wrong
    ensures Guard(c.(wrong := wrong), fs, list, v, go)
  {
    hide FsOk, RunFs;
  }

  /** The second operand is evaluated only where it decides the value. */
  lemma LogicSecond(c: Ctx, c2: Ctx, e: Expr, v1: Value, v: Value)
    requires Evaluates(c, e, v) && e.EBin? && (e.bop.AndOp? || e.bop.OrOp?) && v1 == Part(c, e.lhs) && c2.m == c.m
    requires Elsewhere(c) ==> Begin(c2) == Begin(c)
    requires Arrives(c) && Arrives(c2) ==> Eval(c.m, e.rhs, Begin(c2).regs) == Eval(c.m, e.rhs, Begin(c).regs)
    requires Arrives(c) && Arrives(c2) ==> Truthy(v1) == e.bop.AndOp?
    ensures Arrives(c) ==> Evaluates(c2, e.rhs, v)
    ensures Arrives(c) && Truthy(v1) != e.bop.AndOp? ==> v == v1
    ensures Elsewhere(c) ==> Evaluates(c2, e.rhs, v)
  {
    hide RunFs;
  }

  lemma {:induction false} CompileStrict(c: Ctx, e: Expr, v: Value)
    requires Start(c, e) && Evaluates(c, e, v) && (c.live ==> NoLoss(c.m, c.fs, e, c.wrong)) && Consts(c, Compile(c.m, c.fs, e).0.k)
    requires e.EBin? && !e.bop.AndOp? && !e.bop.OrOp?
    ensures var (fs, x) := Compile(c.m, c.fs, e); Denotes(After(c, e), fs, x, v) && !x.k.VK?
    decreases e, 0
  {
    hide Denotes, Exp2RK, CodeArith, CodeComp, FsOk, Clean, RunFs;
    var (op, l, r) := (e.bop, e.lhs, e.rhs);
    var (fs1, x1) := Compile(c.m, c.fs, l);
    var (fs2, y1) := Infix(fs1, op, x1);
    var (fs3, x2) := Compile(c.m, fs2, r);
    var c1 := After(c, l);
    var c2 := c1.(fs := fs2);
    InfixConsts(fs1, op, x1);
    CompileConsts(c.m, fs2, r);
    PosfixConsts(c.m, fs3, op, y1, x2);
    var v1 := Part(c, l);
    CompileDenotes(c, l, v1);
    if !(op.ArithBin? && IsNumeral(x1)) { Exp2RKDenotes(c1, fs1, x1, v1); }
    SecondStart(c1, fs2, y1, v1);
    if Arrives(c) { EvalFrame(c.m, r, c.fs.nactvar, Begin(c).regs, Begin(c2).regs); }
    var v2 := Part(c2, r);
    assert WithSwallowed(c, fs1, op, l, x1) == c1;
    CompileDenotes(c2, r, v2);
    assert After(c2, r).wrong == After(c, e).wrong;
    MoreWrong(c1, fs2, y1, v1, After(c, e).wrong);
    if op.ArithBin? { CodeArithDenotes(After(c, e), fs2, y1, v1, fs3, x2, v2, op.op, v); }
    else { CodeCompDenotes(After(c, e), fs2, y1, v1, fs3, x2, v2, op, v); }
  }
}
