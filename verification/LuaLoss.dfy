/** Which jumps carry a wrong value, read off the text, and the correctness of all expressions that use
    none of them. */
module LuaLoss {
  import opened LuaVm
  import opened LuaCode
  import opened LuaExec
  import opened LuaEmit
  import opened LuaExp
  import opened LuaClose
  import opened LuaReg
  import opened LuaOperand
  import opened LuaCond
  import opened LuaOps
  import opened LuaBinary
  import opened LuaCompile
  import opened LuaForm
  import J = LuaGenCond
  import B = LuaGenBinary
  import O = LuaGenOps
  import D = LuaDriver
  import P = LuaOpen
  import opened LuaReturn
  import opened LuaText

  // ----- the code only gets longer -----

  lemma {:induction false} PatchListAuxLength(fs: Fs, list: seq<int>, vtarget: int, reg: Dest, dtarget: int)
    ensures |PatchListAux(fs, list, vtarget, reg, dtarget).code| == |fs.code|
    decreases |list|
  {
    if list != [] { PatchListAuxLength(PatchOne(fs, list[0], vtarget, reg, dtarget), list[1..], vtarget, reg, dtarget); }
  }

  lemma {:induction false} RemoveValuesLength(fs: Fs, list: seq<int>)
    ensures |RemoveValues(fs, list).code| == |fs.code|
    decreases |list|
  {
    if list != [] { RemoveValuesLength(PatchTestReg(fs, list[0], NoReg), list[1..]); }
  }

  lemma EmitLength(fs: Fs, i: Instr)
    ensures |Emit(fs, i).code| == |fs.code| + 1
  {
    PatchListAuxLength(fs, fs.jpc, |fs.code|, NoReg, |fs.code|);
  }

  lemma CodeNilLength(fs: Fs, reg: int)
    ensures |fs.code| <= |CodeNil(fs, reg).code|
  {
    hide Emit;
    EmitLength(fs, LoadNil(reg, reg));
  }

  lemma Discharge2RegLength(fs: Fs, e: Exp, reg: int)
    ensures |fs.code| <= |Discharge2Reg(fs, e, reg).0.code|
  {
    hide Emit, CodeNil;
    match DischargeVars(e).k
    case VNil => CodeNilLength(fs, reg);
    case VFalse => EmitLength(fs, LoadBool(reg, false, false));
    case VTrue => EmitLength(fs, LoadBool(reg, true, false));
    case VK(i) => EmitLength(fs, LoadK(reg, i));
    case VKNum(n) => var (fs1, i) := AddK(fs, Num(n)); EmitLength(fs1, LoadK(reg, i));
    case VNonReloc(r) => EmitLength(fs, Move(reg, r));
    case _ =>
  }

  lemma JumpLength(fs: Fs)
    ensures |Jump(fs).0.code| == |fs.code| + 1
  {
    EmitLength(fs.(jpc := []), Jmp(NO_JUMP));
  }

  lemma CloseListsLength(fs: Fs, t: seq<int>, f: seq<int>, reg: int, isJmp: bool)
    ensures |fs.code| <= |CloseLists(fs, t, f, reg, isJmp).code|
  {
    hide Emit, PatchListAux, NeedValue;
    JumpLength(fs);
    var fs1 := if isJmp then fs else Jump(fs).0;
    EmitLength(GetLabel(fs1), LoadBool(reg, false, true));
    var fs2 := Emit(GetLabel(fs1), LoadBool(reg, false, true));
    EmitLength(GetLabel(fs2), LoadBool(reg, true, false));
    PatchBothLength(PatchToHere(LoadBools(fs1, reg), if isJmp then [] else Jump(fs).1), t, f, reg, |fs1.code|);
    PatchBothLength(fs, t, f, reg, NO_JUMP);
  }

  lemma PatchBothLength(fs: Fs, t: seq<int>, f: seq<int>, reg: int, pf: int)
    ensures |PatchBoth(fs, t, f, reg, pf).code| == |fs.code|
  {
    var n := |fs.code|;
    PatchListAuxLength(GetLabel(fs), f, n, ToReg(reg), pf);
    PatchListAuxLength(PatchListAux(GetLabel(fs), f, n, ToReg(reg), pf), t, n, ToReg(reg), PlaceTrue(pf));
  }

  lemma Exp2RegLength(fs: Fs, e: Exp, reg: int)
    ensures |fs.code| <= |Exp2Reg(fs, e, reg).0.code|
  {
    hide Discharge2Reg, CloseLists;
    var (fs1, e1) := Discharge2Reg(fs, e, reg);
    Discharge2RegLength(fs, e, reg);
    CloseListsLength(fs1, if e1.k.VJmp? then e1.t + [e1.k.pc] else e1.t, e1.f, reg, e1.k.VJmp?);
  }

  lemma Exp2AnyRegLength(fs: Fs, e: Exp)
    ensures |fs.code| <= |Exp2AnyReg(fs, e).0.code|
  {
    hide Exp2Reg;
    var e1 := DischargeVars(e);
    Exp2RegLength(fs, e1, if e1.k.VNonReloc? then e1.k.r else 0);
    var fs1 := ReserveRegs(FreeExp(fs, e1), 1);
    Exp2RegLength(fs1, e1, fs1.freereg - 1);
  }

  lemma Exp2RKLength(fs: Fs, e: Exp)
    ensures |fs.code| <= |Exp2RK(fs, e).0.code|
  {
    hide Exp2AnyReg;
    Exp2AnyRegLength(fs, e);
    Exp2AnyRegLength(Exp2Val(fs, e).0, Exp2Val(fs, e).1);
  }

  lemma CondJumpLength(fs: Fs, test: Instr)
    ensures |CondJump(fs, test).0.code| == |fs.code| + 2
  {
    EmitLength(fs, test);
    JumpLength(Emit(fs, test));
  }

  lemma JumpOnCondLength(fs: Fs, e: Exp, cond: bool)
    ensures |fs.code| <= |JumpOnCond(fs, e, cond).0.code|
  {
    hide CondJump, Discharge2Reg;
    if e.k.VReloc? && e.k.pc == |fs.code| - 1 && 0 <= e.k.pc && fs.code[e.k.pc].Not? {
      CondJumpLength(fs.(code := fs.code[..e.k.pc]), Test(fs.code[e.k.pc].b, !cond));
    } else {
      var fs0 := ReserveRegs(fs, 1);
      Discharge2RegLength(fs0, e, fs0.freereg - 1);
      var (fs1, e1) := Discharge2AnyReg(fs, e);
      CondJumpLength(FreeExp(fs1, e1), TestSet(NoReg, RegOf(e1), cond));
    }
  }

  lemma InfixLength(fs: Fs, op: BinOp, e: Exp)
    ensures |fs.code| <= |Infix(fs, op, e).0.code|
  {
    hide JumpOnCond, Jump, Exp2RK;
    var e1 := DischargeVars(e);
    JumpLength(fs);
    JumpOnCondLength(fs, e1, false);
    JumpOnCondLength(fs, e1, true);
    Exp2RKLength(fs, e);
  }

  lemma PrefixLength(fs: Fs, op: UnOp, e: Exp)
    ensures |fs.code| <= |Prefix(fs, op, e).0.code|
  {
    if op.NotOp? { CodeNotLength(fs, e); } else { MinusLength(fs, e); }
  }

  lemma MinusLength(fs: Fs, e: Exp)
    ensures |fs.code| <= |Prefix(fs, Minus, e).0.code|
  {
    hide Exp2AnyReg, Exp2RK, Emit;
    Exp2AnyRegLength(fs, e);
    var (fs1, e1) := if e.k.VK? then Exp2AnyReg(fs, e) else (fs, e);
    Exp2RKLength(fs1, e1);
    var (fs2, x) := Exp2RK(fs1, e1);
    EmitLength(FreeExp(fs2, x), Unm(0, Operand(x)));
  }

  lemma CodeNotLength(fs: Fs, e: Exp)
    ensures |fs.code| <= |CodeNot(fs, e).0.code|
  {
    hide Emit, Discharge2Reg, RemoveValues;
    var e1 := DischargeVars(e);
    var fs0 := ReserveRegs(fs, 1);
    Discharge2RegLength(fs0, e1, fs0.freereg - 1);
    var (fs1, x) := Discharge2AnyReg(fs, e1);
    EmitLength(FreeExp(fs1, x), Not(0, RegOf(x)));
    forall s: Fs, list ensures |RemoveValues(s, list).code| == |s.code| { RemoveValuesLength(s, list); }
  }

  lemma PosfixLength(m: Machine, fs: Fs, op: BinOp, e1: Exp, e2: Exp)
    ensures |fs.code| <= |Posfix(m, fs, op, e1, e2).0.code|
  {
    hide Exp2RK, Emit, CondJump, FreeBoth;
    if op.ArithBin? {
      var (fs1, x2) := Exp2RK(fs, e2);
      var (fs2, x1) := Exp2RK(fs1, e1);
      Exp2RKLength(fs, e2);
      Exp2RKLength(fs1, e1);
      FreedTogether(fs2, x1, x2);
      EmitLength(FreeBoth(fs2, x1, x2), Arith(op.op, 0, Operand(x1), Operand(x2)));
    } else if IsComp(op) {
      CompLength(fs, CompOf(op).0, CompOf(op).1, e1, e2);
    }
  }

  lemma CompLength(fs: Fs, op: CmpOp, cond: bool, e1: Exp, e2: Exp)
    ensures |fs.code| <= |CodeComp(fs, op, cond, e1, e2).0.code|
  {
    hide Exp2RK, CondJump;
    var (fs1, x1) := Exp2RK(fs, e1);
    var (fs2, x2) := Exp2RK(fs1, e2);
    Exp2RKLength(fs, e1);
    Exp2RKLength(fs1, e2);
    var swap := !cond && !op.Eq?;
    var o1, o2 := if swap then Operand(x2) else Operand(x1), if swap then Operand(x1) else Operand(x2);
    CondJumpLength(FreeExp(FreeExp(fs2, x2), x1), Cmp(op, cond || swap, o1, o2));
  }

  lemma {:induction false} CompileLength(m: Machine, fs: Fs, e: Expr)
    ensures |fs.code| <= |Compile(m, fs, e).0.code|
    decreases e
  {
    hide Prefix, Infix, Posfix;
    match e
    case EParen(e1) => CompileLength(m, fs, e1);
    case EUn(op, e1) =>
      CompileLength(m, fs, e1);
      PrefixLength(Compile(m, fs, e1).0, op, Compile(m, fs, e1).1);
    case EBin(op, l, r) =>
      var (fs1, x1) := Compile(m, fs, l);
      var (fs2, y1) := Infix(fs1, op, x1);
      var (fs3, x2) := Compile(m, fs2, r);
      CompileLength(m, fs, l);
      InfixLength(fs1, op, x1);
      CompileLength(m, fs2, r);
      PosfixLength(m, fs3, op, y1, x2);
    case _ =>
  }

  // ----- where the wrong jumps are -----

  /** The jumps are among those of the code. */
  ghost predicate Known(wrong: set<int>, fs: Fs) {
    forall j :: j in wrong ==> j < |fs.code|
  }

  /** The jumps are new since `fs0', or were pending there. */
  ghost predicate Since(wrong: set<int>, fs0: Fs) {
    forall j :: j in wrong ==> j >= |fs0.code| || j in fs0.jpc
  }

  lemma PendingKnown(fs: Fs)
    requires FsOk(fs)
    ensures forall j :: j in fs.jpc ==> 0 <= j < |fs.code|
  {
    forall j | j in fs.jpc ensures 0 <= j < |fs.code| { assert OpenAt(fs.code, j); }
  }

  /** The parts of an operator, as far as their jumps are concerned. */
  lemma PartsGrown(m: Machine, fs0: Fs, e: Expr)
    requires D.Settled(fs0) && LocalsIn(e, fs0.nactvar) && e.EBin?
    ensures var (fs1, x1) := Compile(m, fs0, e.lhs); var (fs2, y1) := Infix(fs1, e.bop, x1); var (fs3, x2) := Compile(m, fs2, e.rhs);
      && Formed(fs0, fs1, x1) && !x1.k.VK? && B.Waiting(fs0, fs2, e.bop, y1) && Formed(fs2, fs3, x2) && !x2.k.VK?
      && D.Settled(fs1) && D.Settled(fs2) && fs2.nactvar == fs0.nactvar && Grown(fs0, fs1) && Grown(fs0, fs2)
  {
    hide FsOk, Shape, RegOk, Infix, Grown, B.Waiting;
    var (op, l, r) := (e.bop, e.lhs, e.rhs);
    var (fs1, x1) := Compile(m, fs0, l);
    P.CompileFormed(m, fs0, l);
    FormedSettled(fs0, fs1, x1);
    P.InfixFormed(m, fs0, fs1, x1, op);
    var (fs2, y1) := Infix(fs1, op, x1);
    D.WaitingGrown(fs0, fs2, op, y1);
    P.CompileFormed(m, fs2, r);
  }

  lemma FormedSettled(fs0: Fs, fs: Fs, x: Exp)
    requires Formed(fs0, fs, x)
    ensures D.Settled(fs) && Grown(fs0, fs) && fs.nactvar == fs0.nactvar
  {
  }

  lemma {:induction false} WrongSince(m: Machine, fs0: Fs, e: Expr)
    requires D.Settled(fs0) && LocalsIn(e, fs0.nactvar)
    ensures Since(Wrong(m, fs0, e), fs0) && Known(Wrong(m, fs0, e), Compile(m, fs0, e).0)
    decreases e
  {
    hide D.Settled, Formed, B.Waiting, Prefix, Infix, Posfix, FsOk;
    match e
    case EParen(e1) => WrongSince(m, fs0, e1);
    case EUn(op, e1) =>
      WrongSince(m, fs0, e1);
      PrefixLength(Compile(m, fs0, e1).0, op, Compile(m, fs0, e1).1);
    case EBin(op, l, r) =>
      var (fs1, x1) := Compile(m, fs0, l);
      var (fs2, y1) := Infix(fs1, op, x1);
      var (fs3, x2) := Compile(m, fs2, r);
      PartsGrown(m, fs0, e);
      WrongSince(m, fs0, l);
      SwallowedSince(fs0, fs1, op, x1);
      WrongSince(m, fs2, r);
      InfixLength(fs1, op, x1);
      CompileLength(m, fs2, r);
      PosfixLength(m, fs3, op, y1, x2);
      SinceThen(fs0, fs2, Wrong(m, fs2, r));
    case _ =>
  }

  lemma SwallowedSince(fs0: Fs, fs1: Fs, op: BinOp, x1: Exp)
    requires D.Settled(fs1) && Grown(fs0, fs1)
    ensures Since(Swallowed(fs1, op, x1), fs0) && Known(Swallowed(fs1, op, x1), fs1)
  {
    PendingKnown(fs1);
  }

  lemma SinceThen(fs0: Fs, fs2: Fs, wrong: set<int>)
    requires Grown(fs0, fs2) && Since(wrong, fs2)
    ensures Since(wrong, fs0)
  {
  }

  // ----- the reading of the wrong jumps -----

  ghost predicate BadIs(wrong: set<int>, code: seq<Instr>, x: Exp, bad: Spoilt) {
    (bad.t <==> !Reliable(wrong, code, x.t)) && (bad.f <==> !Reliable(wrong, code, x.f))
  }

  lemma NotCarried(wrong: set<int>, fs: Fs, x: Exp, t: Text)
    requires TextIs(fs, x, t) && !t.t.Values? && !t.f.Values?
    ensures BadIs(wrong, fs.code, x, Sound)
  {
  }

  lemma ReliableBoth(wrong: set<int>, code: seq<Instr>, a: seq<int>, b: seq<int>)
    ensures Reliable(wrong, code, a + b) <==> Reliable(wrong, code, a) && Reliable(wrong, code, b)
  {
    if Reliable(wrong, code, a + b) {
      forall j | j in a ensures j in a + b { }
      forall j | j in b ensures j in a + b { }
    }
  }

  /** Wrong jumps that are not in the list make no difference to it. */
  lemma ReliableKept(wrong: set<int>, more: set<int>, code: seq<Instr>, code': seq<Instr>, list: seq<int>)
    requires forall j :: j in list ==> j !in more && Carries(code', j) == Carries(code, j)
    ensures Reliable(wrong + more, code', list) <==> Reliable(wrong, code, list)
  {
  }

  /** The jumps a condition adds: the one that always jumps takes those with it that were pending. */
  lemma NewReliable(m: Machine, fs0: Fs, fs: Fs, e: Exp, s: Place, t: Text, op: BinOp, wrong: set<int>)
    requires Formed(fs0, fs, e) && TextIs(fs, e, t) && PlaceIs(fs, s) && !e.k.VK? && !e.k.VLocal? && Known(wrong, fs)
    requires op.AndOp? || op.OrOp?
    ensures var (fs1, list) := J.FirstHalf(fs, e, op.AndOp?);
      Reliable(wrong + Swallowed(fs, op, e), fs1.code, list) <==> !(s.pending && Leaves(t.form, op.AndOp?))
  {
    hide Formed, Jump, InvertJump, JumpOnCond;
    var go := op.AndOp?;
    var (fs1, list) := J.FirstHalf(fs, e, go);
    FirstHalfText(m, fs0, fs, e, s, t, go);
    if NewJumps(s, t.form, go).Values? {
      if Leaves(t.form, go) {
        JumpTakes(fs0, fs, e);
      } else {
        NewTest(fs0, fs, e, t.form, !go);
      }
    }
  }

  lemma JumpTakes(fs0: Fs, fs: Fs, e: Exp)
    requires Formed(fs0, fs, e)
    ensures Jump(fs).1 == [|fs.code|] + fs.jpc
    ensures forall j :: j in fs.jpc ==> Carries(Jump(fs).0.code, j) == Carries(fs.code, j)
  {
    JumpOk(fs);
    PendingKnown(fs);
    forall j | 0 <= j < |fs.code| ensures Carries(Jump(fs).0.code, j) == Carries(fs.code, j) { }
  }

  /** The jump of a new test that keeps its value is new. */
  lemma NewTest(fs0: Fs, fs: Fs, e: Exp, x: Form, cond: bool)
    requires Formed(fs0, fs, e) && FormIs(fs, e.k, x) && !x.FNot? && !e.k.VJmp?
    ensures forall j :: j in JumpOnCond(fs, e, cond).2 ==> j >= |fs.code|
  {
    hide Discharge2Reg, Emit;
    NotNegated(fs0, fs, e, x);
    var fs0 := ReserveRegs(fs, 1);
    Discharge2RegLength(fs0, e, fs0.freereg - 1);
    var (fs1, e1) := Discharge2AnyReg(fs, e);
    EmitLength(FreeExp(fs1, e1), TestSet(NoReg, RegOf(e1), cond));
    EmitEntered(FreeExp(fs1, e1), TestSet(NoReg, RegOf(e1), cond));
  }

  /** The list the first operand of `and' or `or' waits with. */
  lemma FirstList(m: Machine, fs0: Fs, fs: Fs, e0: Exp, r: Reading, op: BinOp, wrong: set<int>)
    requires Formed(fs0, fs, e0) && TextIs(fs, e0, r.x) && PlaceIs(fs, r.s) && !e0.k.VK? && Known(wrong, fs)
    requires (op.AndOp? || op.OrOp?) && BadIs(wrong, fs.code, e0, r.bad)
    ensures var (fs2, y) := Infix(fs, op, e0); var list := if op.AndOp? then y.f else y.t;
      Reliable(wrong + Swallowed(fs, op, e0), fs2.code, list) <==> !((if op.AndOp? then r.bad.f else r.bad.t) || Clashes(op, r))
  {
    hide Formed, J.FirstHalf, GoIfTrue, GoIfFalse, Reliable, FormIs, JumpsAre, PlaceIs;
    var go, e := op.AndOp?, DischargeVars(e0);
    O.DischargedVars(fs0, fs, e0);
    VarsText(fs, e0, r.x);
    J.GoIfIs(m, fs0, fs, e0, go);
    FirstHalfText(m, fs0, fs, e, r.s, r.x, go);
    NewReliable(m, fs0, fs, e, r.s, r.x, op, wrong);
    var (fs1, list) := J.FirstHalf(fs, e, go);
    SwallowedApart(fs0, fs, e, op);
    assert Swallowed(fs, op, e) == Swallowed(fs, op, e0);
    ReliableKept(wrong, Swallowed(fs, op, e), fs.code, fs1.code, Leave(e, go));
    ReliableBoth(wrong + Swallowed(fs, op, e), fs1.code, Leave(e, go), list);
  }

  lemma SwallowedApart(fs0: Fs, fs: Fs, e: Exp, op: BinOp)
    requires Formed(fs0, fs, e)
    ensures forall j :: j in e.t || j in e.f ==> j !in Swallowed(fs, op, e)
  {
  }

  /** The list is the same after the second operand. */
  lemma WaitingReliable(m: Machine, fs0: Fs, fs2: Fs, list: seq<int>, e: Expr, wrong: set<int>)
    requires GuardFormed(fs0, fs2, list) && LocalsIn(e, fs2.nactvar) && D.Settled(fs2)
    ensures var fs3 := Compile(m, fs2, e).0;
      Reliable(wrong + Wrong(m, fs2, e), fs3.code, list) <==> Reliable(wrong, fs2.code, list)
  {
    P.CompileFormed(m, fs2, e);
    WrongSince(m, fs2, e);
    var (fs3, x) := Compile(m, fs2, e);
    ListKept(fs2, fs3.code, list);
    forall j | j in list ensures j < |fs2.code| { assert OpenAt(fs2.code, j); }
    ReliableKept(wrong, Wrong(m, fs2, e), fs2.code, fs3.code, list);
  }

  /** The reading tells which jumps carry a wrong value, and exactly where one is brought to an operand. */
  lemma {:induction false} LossRight(m: Machine, fs0: Fs, s: Place, e: Expr, wrong: set<int>)
    requires D.Settled(fs0) && LocalsIn(e, fs0.nactvar) && PlaceIs(fs0, s) && Known(wrong, fs0)
    ensures var (fs, x) := Compile(m, fs0, e); var q := ReadExpr(m, s, e);
      BadIs(wrong + Wrong(m, fs0, e), fs.code, x, q.bad) && (NoLoss(m, fs0, e, wrong) <==> !q.lost)
    decreases e
  {
    hide D.Settled, PlaceIs, Prefix, Posfix, Infix, TextIs, Reliable, Known;
    match e
    case EParen(e1) => LossRight(m, fs0, s, e1, wrong);
    case EUn(op, e1) =>
      LossRight(m, fs0, s, e1, wrong);
      ReadRight(m, fs0, s, e);
      NotCarried(wrong + Wrong(m, fs0, e), Compile(m, fs0, e).0, Compile(m, fs0, e).1, ReadExpr(m, s, e).x);
    case EBin(op, l, r) => BinaryLoss(m, fs0, s, e, wrong);
    case _ => NothingWrong(wrong + Wrong(m, fs0, e), fs0, Compile(m, fs0, e).1);
  }

  lemma NothingWrong(wrong: set<int>, fs: Fs, x: Exp)
    requires x.t == [] && x.f == []
    ensures BadIs(wrong, fs.code, x, Sound)
  {
  }

  lemma {:induction false} BinaryLoss(m: Machine, fs0: Fs, s: Place, e: Expr, wrong: set<int>)
    requires D.Settled(fs0) && LocalsIn(e, fs0.nactvar) && PlaceIs(fs0, s) && Known(wrong, fs0) && e.EBin?
    ensures var (fs, x) := Compile(m, fs0, e); var q := ReadExpr(m, s, e);
      BadIs(wrong + Wrong(m, fs0, e), fs.code, x, q.bad) && (NoLoss(m, fs0, e, wrong) <==> !q.lost)
    decreases e, 0
  {
    hide D.Settled, PlaceIs, TextIs, Formed, Between, Infix, Posfix, B.Waiting, Reliable, Grown, Known;
    var (op, l, r) := (e.bop, e.lhs, e.rhs);
    var (fs1, x1) := Compile(m, fs0, l);
    var (fs2, y1) := Infix(fs1, op, x1);
    var (fs3, x2) := Compile(m, fs2, r);
    var a := ReadExpr(m, s, l);
    var w1 := wrong + Wrong(m, fs0, l);
    var w2 := w1 + Swallowed(fs1, op, x1);
    PartsGrown(m, fs0, e);
    ReadRight(m, fs0, s, l);
    LossRight(m, fs0, s, l, wrong);
    KnownParts(m, fs0, e, wrong);
    BetweenText(m, fs0, fs1, x1, op, a);
    LossRight(m, fs2, Between(op, a), r, w2);
    assert w2 + Wrong(m, fs2, r) == wrong + Wrong(m, fs0, e);
    if op.AndOp? || op.OrOp? {
      LogicLoss(m, fs0, fs1, x1, a, op, r, ReadExpr(m, Between(op, a), r), w1);
    } else {
      ReadRight(m, fs0, s, e);
      NotCarried(wrong + Wrong(m, fs0, e), Compile(m, fs0, e).0, Compile(m, fs0, e).1, ReadExpr(m, s, e).x);
    }
  }

  lemma KnownParts(m: Machine, fs0: Fs, e: Expr, wrong: set<int>)
    requires D.Settled(fs0) && LocalsIn(e, fs0.nactvar) && Known(wrong, fs0) && e.EBin?
    ensures var (fs1, x1) := Compile(m, fs0, e.lhs); var fs2 := Infix(fs1, e.bop, x1).0;
      var w1 := wrong + Wrong(m, fs0, e.lhs);
      Known(w1, fs1) && Known(w1 + Swallowed(fs1, e.bop, x1), fs2)
  {
    hide Infix, Formed, B.Waiting;
    var (fs1, x1) := Compile(m, fs0, e.lhs);
    PartsGrown(m, fs0, e);
    WrongSince(m, fs0, e.lhs);
    CompileLength(m, fs0, e.lhs);
    InfixLength(fs1, e.bop, x1);
    PendingKnown(fs1);
  }

  lemma LogicLoss(m: Machine, fs0: Fs, fs1: Fs, x1: Exp, a: Reading, op: BinOp, r: Expr, b: Reading, w1: set<int>)
    requires Formed(fs0, fs1, x1) && TextIs(fs1, x1, a.x) && PlaceIs(fs1, a.s) && !x1.k.VK? && Known(w1, fs1)
    requires (op.AndOp? || op.OrOp?) && BadIs(w1, fs1.code, x1, a.bad)
    requires var (fs2, y1) := Infix(fs1, op, x1); B.Waiting(fs0, fs2, op, y1) && D.Settled(fs2) && LocalsIn(r, fs2.nactvar)
    requires var fs2 := Infix(fs1, op, x1).0; var (fs3, x2) := Compile(m, fs2, r);
      BadIs(w1 + Swallowed(fs1, op, x1) + Wrong(m, fs2, r), fs3.code, x2, b.bad)
    ensures var (fs2, y1) := Infix(fs1, op, x1); var (fs3, x2) := Compile(m, fs2, r); var (fs, x) := Posfix(m, fs3, op, y1, x2);
      BadIs(w1 + Swallowed(fs1, op, x1) + Wrong(m, fs2, r), fs.code, x, ReadBinary(m, op, a, b).bad)
  {
    hide Formed, TextIs, PlaceIs, Infix, Reliable, D.Settled, GuardFormed;
    var (fs2, y1) := Infix(fs1, op, x1);
    var (fs3, x2) := Compile(m, fs2, r);
    var w2 := w1 + Swallowed(fs1, op, x1);
    var list := if op.AndOp? then y1.f else y1.t;
    FirstList(m, fs0, fs1, x1, a, op, w1);
    WaitingReliable(m, fs0, fs2, list, r, w2);
    ReliableBoth(w2 + Wrong(m, fs2, r), fs3.code, if op.AndOp? then x2.f else x2.t, list);
  }

  // ----- the condition, and correctness under it -----

  /** The condition on the text is the condition on generation: it fails exactly where a jump that carries a
      wrong value is closed into a register, for an operand or for the result. */
  lemma TextOkExact(m: Machine, n: nat, e: Expr)
    requires LocalsIn(e, n)
    ensures TextOk(m, e) <==> NothingLost(m, NewFunction(n), e, {})
  {
    NewFunctionOk(m, [], n, map[]);
    NoJumpsCarried([]);
    var none: map<Value, int> := map[];
    assert none.Keys == {};
    LossRight(m, NewFunction(n), Fresh, e, {});
    assert {} + Wrong(m, NewFunction(n), e) == Wrong(m, NewFunction(n), e);
  }

  /** The code of `return e' returns the value of `e', for every expression without such a place. */
  lemma TextReturnCorrect(m: Machine, n: nat, e: Expr, regs: Regs, v: Value) returns (steps: nat, last: Regs)
    requires LocalsIn(e, n) && TextOk(m, e)
    requires forall x :: x >= n ==> Read(regs, x) == Nil
    requires Eval(m, e, regs) == Ok(v)
    ensures var p := Finished(ReturnExpr(m, NewFunction(n), e).0);
            && Run(m, p, At(0, regs), steps) == At(|p.code| - 2, last)
            && Run(m, p, At(0, regs), steps + 1) == Returned([v])
            && (forall x :: x < n ==> Read(last, x) == Read(regs, x))
  {
    TextOkExact(m, n, e);
    steps, last := ReturnCorrect(m, n, e, regs, v);
  }

  /** Neither operand of an `and' or an `or' is a literal or folds to one. */
  predicate NoLiteralOperand(m: Machine, s: Place, e: Expr)
    decreases e
  {
    match e
    case EParen(e1) => NoLiteralOperand(m, s, e1)
    case EUn(_, e1) => NoLiteralOperand(m, s, e1)
    case EBin(op, l, r) =>
      var a := ReadExpr(m, s, l);
      && NoLiteralOperand(m, s, l) && NoLiteralOperand(m, Between(op, a), r)
      && (op.AndOp? || op.OrOp? ==> !Literal(a.x.form) && !Literal(ReadExpr(m, Between(op, a), r).x.form))
    case _ => true
  }

  lemma {:induction false} NoLiteralOk(m: Machine, s: Place, e: Expr)
    requires NoLiteralOperand(m, s, e)
    ensures var q := ReadExpr(m, s, e); !q.lost && q.bad == Sound
    decreases e
  {
    match e
    case EParen(e1) => NoLiteralOk(m, s, e1);
    case EUn(_, e1) => NoLiteralOk(m, s, e1);
    case EBin(op, l, r) =>
      NoLiteralOk(m, s, l);
      NoLiteralOk(m, Between(op, ReadExpr(m, s, l)), r);
    case _ =>
  }
}
