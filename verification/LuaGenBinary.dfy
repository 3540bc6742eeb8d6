/** The operators, and the calls the parser makes. */
module LuaGenBinary {
  import opened LuaVm
  import opened LuaExec
  import opened LuaEmit
  import opened LuaExp
  import opened LuaClose
  import opened LuaReg
  import opened LuaOperand
  import opened LuaCond
  import opened LuaOps
  import opened LuaBinary
  import opened LuaCompile
  import opened LuaFunc
  import opened LuaForm
  import G = LuaGen
  import opened LuaGen
  import O = LuaGenOps
  import opened LuaGenOps
  import H = LuaGenCond
  import opened LuaGenCond
  import C = LuaCode
  import opened LuaCode

  // ----- not -----

  lemma HalfFormed(m: Machine, fs0: Fs, fs: Fs, e: Exp, w: Value)
    requires Half(Shapes(m, fs0), fs, e, w, Nil)
    ensures Formed(fs0, fs, e)
  {
    hide Shape, RegOk, FsOk;
  }

  lemma NotFormed(m: Machine, fs0: Fs, fs: Fs, e: Exp)
    requires Formed(fs0, fs, e) && !e.k.VK?
    ensures var (fs2, e2) := C.CodeNot(fs, e); Formed(fs0, fs2, e2) && !e2.k.VK?
  {
    FormedIs(m, fs0, fs, e);
    CodeNotDenotes(Shapes(m, fs0), fs, e, Nil);
    CodeNotKind(fs, e);
    var (fs2, e2) := C.CodeNot(fs, e);
    AnyShape(m, fs0, fs2, e2, Bool(!Truthy(Nil)));
  }

  lemma AnyShape(m: Machine, fs0: Fs, fs: Fs, e: Exp, v: Value)
    requires Denotes(Shapes(m, fs0), fs, e, v)
    ensures Formed(fs0, fs, e)
  {
    hide Shape, RegOk, FsOk;
  }

  /** The value of the operand inverted, before the lists change places. */
  function NotHalf(fs: Fs, e: Exp): (Fs, Exp)
  {
    match e.k
    case VNil => (fs, e.(k := VTrue))
    case VFalse => (fs, e.(k := VTrue))
    case VK(_) => (fs, e.(k := VFalse))
    case VKNum(_) => (fs, e.(k := VFalse))
    case VTrue => (fs, e.(k := VFalse))
    case VJmp(_) => (C.InvertJump(fs, e), e)
    case _ =>
      var (fs1, e1) := C.Discharge2AnyReg(fs, e);
      var fs2 := Emit(C.FreeExp(fs1, e1), Not(0, RegOf(e1)));
      (fs2, e1.(k := VReloc(|fs2.code| - 1)))
  }

  lemma NotIs(fs: Fs, e: Exp)
    ensures var (fs1, e1) := NotHalf(fs, DischargeVars(e));
            C.CodeNot(fs, e) == (C.RemoveValues(C.RemoveValues(fs1, e1.t), e1.f), e1.(t := e1.f, f := e1.t))
  {
    hide C.InvertJump, C.Discharge2AnyReg, C.RemoveValues, Emit;
  }

  lemma NotHalfFormed(m: Machine, fs0: Fs, fs: Fs, e: Exp)
    requires Formed(fs0, fs, e) && !e.k.VK? && !e.k.VLocal?
    ensures var (fs1, e1) := NotHalf(fs, e); Formed(fs0, fs1, e1) && e1.t == e.t && e1.f == e.f
  {
    hide Formed, Half, C.InvertJump, C.Discharge2AnyReg, Emit;
    FormedIs(m, fs0, fs, e);
    var c := Shapes(m, fs0);
    var (fs1, e1) := NotHalf(fs, e);
    var w := Bool(!Truthy(Nil));
    if e.k.VNil? || e.k.VFalse? { NotConst(c, fs, e, Nil, VTrue); HalfFormed(m, fs0, fs1, e1, w); }
    else if e.k.VKNum? || e.k.VTrue? { NotConst(c, fs, e, Nil, VFalse); HalfFormed(m, fs0, fs1, e1, w); }
    else if e.k.VJmp? { NotJmp(c, fs, e, Nil); HalfFormed(m, fs0, fs1, e1, w); }
    else {
      AnyRegOpen(m, fs0, fs, e);
      Discharge2AnyRegDenotes(c, fs, e, Nil);
      var (fs2, e2) := C.Discharge2AnyReg(fs, e);
      NotReg(c, fs2, e2, Nil);
      HalfFormed(m, fs0, fs1, e1, w);
    }
  }

  /** The first half of codenot. */
  method InvertValue(s: FuncState, d0: ExpDesc, ghost fs0: Fs, ghost e: Exp) returns (d: ExpDesc)
    requires Holds(s, fs0, d0, e) && !e.k.VK? && !e.k.VLocal?
    modifies s
    ensures var r := NotHalf(old(s.abs), e); s.abs == r.0 && Holds(s, fs0, d, r.1) && r.1.t == e.t && r.1.f == e.f
    ensures Untouched(old(s.code), old(s.abs).code, [], old(s.abs).jpc, s.code) && |s.code| >= |old(s.code)|
  {
    hide Formed, Formed0, IsList, Untouched, CodeRel, C.Discharge2AnyReg, Emit, C.InvertJump, C.FreeExp, PatchList, FsOk;
    ghost var code0, fs := s.code, s.abs;
    NotHalfFormed(s.m, fs0, fs, e);
    SelfUntouched(s.code, fs, []);
    d := d0;
    if d.k.VNil? || d.k.VFalse? {
      d := d.(k := VTrue);
    } else if d.k.VK? || d.k.VKNum? || d.k.VTrue? {
      d := d.(k := VFalse);
    } else if d.k.VJmp? {
      H.InvertJump(s, d, fs0, e);
      SameUntouched(code0, fs, [], s.code);
    } else {
      AnyRegOpen(s.m, fs0, fs, e);
      d := G.Discharge2AnyReg(s, d, fs0, e);
      ghost var code1, fs1, e1 := s.code, s.abs, C.Discharge2AnyReg(fs, e).1;
      FormedLists(fs0, fs1, e1);
      G.FreeExp(s, d, e1);
      FreedSame(fs1, e1);
      FreedPatch(s.abs);
      ghost var fs2 := s.abs;
      s.Code(Not(0, d.k.r));
      ListUntouched(code1, fs2.code, [], fs2.jpc, s.code, d.t, e.t);
      ListUntouched(code1, fs2.code, [], fs2.jpc, s.code, d.f, e.f);
      OpenThen(code0, fs, code1, fs1, s.code);
      d := d.(k := VReloc(|s.code| - 1));
      SameLength(s.code, s.abs);
    }
  }

  lemma FreedPatch(fs: Fs)
    requires FsOk(fs)
    ensures PatchList(fs.code, fs.jpc)
  {
  }

  lemma SameLength(code: seq<Instr>, fs: Fs)
    requires CodeRel(code, fs.code)
    ensures |code| == |fs.code|
  {
  }

  /** codenot */
  method CodeNot(s: FuncState, d0: ExpDesc, ghost fs0: Fs, ghost e: Exp) returns (d: ExpDesc)
    requires Holds(s, fs0, d0, e) && !e.k.VK?
    modifies s
    ensures var r := C.CodeNot(old(s.abs), e); s.abs == r.0 && Holds(s, fs0, d, r.1) && !r.1.k.VK?
    ensures Untouched(old(s.code), old(s.abs).code, [], old(s.abs).jpc, s.code)
  {
    hide Formed, IsList, Untouched, CodeRel, NotHalf, C.RemoveValues, C.CodeNot, PatchList, FsOk, SameJumps;
    ghost var code0, fs, e0 := s.code, s.abs, DischargeVars(e);
    DischargedVars(fs0, fs, e);
    NotFormed(s.m, fs0, fs, e);
    NotIs(fs, e);
    VarsRep(s.code, d0, e);
    d := InvertValue(s, Vars(d0), fs0, e0);
    ghost var code1, fs1, e1 := s.code, s.abs, NotHalf(fs, e0).1;
    RemovableLists(fs0, fs1, e1);
    s.RemoveValues(d.t, e1.t);
    ghost var code2 := s.code;
    SameJumpsList(code1, code2, d.f, e1.f);
    s.RemoveValues(d.f, e1.f);
    RemovedRep(code1, code2, s.code, d, e1, s.jpc, fs1.jpc);
    d := d.(t := d.f, f := d.t);
    RemovedUntouched(code0, fs, code1, code2, s.code);
    RemoveFields(fs1, e1.t);
    RemoveFields(C.RemoveValues(fs1, e1.t), e1.f);
  }

  lemma RemovableLists(fs0: Fs, fs: Fs, e: Exp)
    requires Formed(fs0, fs, e)
    ensures PatchList(fs.code, e.t) && PatchList(C.RemoveValues(fs, e.t).code, e.f)
  {
    RemoveValuesAt(fs, e.t);
    forall j | j in e.f ensures OpenAt(C.RemoveValues(fs, e.t).code, j) { assert OpenAt(fs.code, j); }
  }

  lemma RemovedRep(code1: seq<Instr>, code2: seq<Instr>, code3: seq<Instr>, d: ExpDesc, e: Exp, j: int, jpc: seq<int>)
    requires ExpRep(code1, d, e) && SameJumps(code1, code2) && SameJumps(code2, code3) && IsList(code1, j, jpc)
    ensures ExpRep(code3, d, e) && IsList(code3, j, jpc)
  {
    SameJumpsList(code1, code2, d.t, e.t);
    SameJumpsList(code2, code3, d.t, e.t);
    SameJumpsList(code1, code2, d.f, e.f);
    SameJumpsList(code2, code3, d.f, e.f);
    SameJumpsList(code1, code2, j, jpc);
    SameJumpsList(code2, code3, j, jpc);
    if e.k.VJmp? {
      SameJumpsList(code1, code2, e.k.pc, [e.k.pc]);
      SameJumpsList(code2, code3, e.k.pc, [e.k.pc]);
    }
  }

  lemma RemovedUntouched(code0: seq<Instr>, fs: Fs, code1: seq<Instr>, code2: seq<Instr>, code3: seq<Instr>)
    requires Untouched(code0, fs.code, [], fs.jpc, code1) && SameJumps(code1, code2) && SameJumps(code2, code3) && CodeRel(code0, fs.code)
    ensures Untouched(code0, fs.code, [], fs.jpc, code3)
  {
    forall j | OpenAt(fs.code, j) && j !in fs.jpc ensures j < |code3| && code3[j] == code0[j] { assert code0[j].Jmp?; }
  }

  // ----- minus -----

  lemma MinusFormed(m: Machine, fs0: Fs, fs: Fs, e: Exp)
    requires Formed(fs0, fs, e) && !e.k.VK?
    ensures var (fs2, e2) := C.CodeMinus(fs, e); Formed(fs0, fs2, e2) && !e2.k.VK?
  {
    FormedIs(m, fs0, fs, e);
    CodeMinusDenotes(Shapes(m, fs0), fs, e, Nil, Nil);
    FormedIs(m, fs0, C.CodeMinus(fs, e).0, C.CodeMinus(fs, e).1);
  }

  /** An operand whose register is given back before the instruction that uses it. */
  lemma OperandState(fs0: Fs, fs: Fs, x: Exp)
    requires Formed(fs0, fs, x) && IsOperand(x)
    ensures FsOk(C.FreeExp(fs, x)) && C.FreeExp(fs, x).code == fs.code && C.FreeExp(fs, x).jpc == fs.jpc && PatchList(fs.code, fs.jpc)
    ensures x.t == [] && x.f == []
  {
  }

  lemma NumeralHeads(code: seq<Instr>, d: ExpDesc, e: Exp)
    requires ExpRep(code, d, e)
    ensures (d.t == NO_JUMP && d.f == NO_JUMP) <==> (e.t == [] && e.f == [])
  {
    ListHead(code, d.t, e.t);
    ListHead(code, d.f, e.f);
  }

  /** codearith for the unary minus */
  method CodeMinus(s: FuncState, d0: ExpDesc, ghost fs0: Fs, ghost e: Exp) returns (d: ExpDesc)
    requires Holds(s, fs0, d0, e) && !e.k.VK?
    modifies s
    ensures var r := C.CodeMinus(old(s.abs), e); s.abs == r.0 && Holds(s, fs0, d, r.1) && !r.1.k.VK?
    ensures Untouched(old(s.code), old(s.abs).code, Own(e), old(s.abs).jpc, s.code)
  {
    hide Formed, IsList, Untouched, CodeRel, C.Exp2RK, Emit, C.FreeExp, PatchList, FsOk, IsOperand;
    ghost var code0, fs := s.code, s.abs;
    MinusFormed(s.m, fs0, fs, e);
    NumeralHeads(s.code, d0, e);
    SelfUntouched(s.code, fs, Own(e));
    if d0.k.VKNum? && d0.t == NO_JUMP && d0.f == NO_JUMP {
      return d0.(k := VKNum(-d0.k.n));
    }
    RKLater(s.m, fs0, fs, e);
    var rk;
    d, rk := O.Exp2RK(s, d0, fs0, e);
    ghost var code1, fs1, x := s.code, s.abs, C.Exp2RK(fs, e).1;
    OperandState(fs0, fs1, x);
    G.FreeExp(s, d, x);
    s.Code(Unm(0, rk));
    SameLength(s.code, s.abs);
    d := ExpDesc(VReloc(|s.code| - 1), NO_JUMP, NO_JUMP);
    EmptyLists(s.code);
    CondThen(code0, fs, e, code1, fs1, [], s.code);
  }

  // ----- binary operators -----

  /** What the first operand of an operator must be while the second is compiled. */
  ghost predicate Waiting(fs0: Fs, fs1: Fs, op: BinOp, y: Exp) {
    match op
    case AndOp => GuardFormed(fs0, fs1, y.f)
    case OrOp => GuardFormed(fs0, fs1, y.t)
    case ArithBin(_) => Formed(fs0, fs1, y) && (IsOperand(y) || IsNumeral(y))
    case _ => Formed(fs0, fs1, y) && IsOperand(y)
  }

  /** Its descriptor: a list of jumps, or a place. */
  ghost predicate WaitingRep(code: seq<Instr>, op: BinOp, d: ExpDesc, y: Exp) {
    match op
    case AndOp => IsList(code, d.f, y.f)
    case OrOp => IsList(code, d.t, y.t)
    case _ => ExpRep(code, d, y)
  }

  method Infix(s: FuncState, op: BinOp, d0: ExpDesc, ghost fs0: Fs, ghost e: Exp) returns (d: ExpDesc)
    requires Holds(s, fs0, d0, e) && !e.k.VK?
    modifies s
    ensures var r := C.Infix(old(s.abs), op, e); s.abs == r.0 && s.Valid() && Waiting(fs0, s.abs, op, r.1) && WaitingRep(s.code, op, d, r.1)
    ensures Untouched(old(s.code), old(s.abs).code, Own(e), old(s.abs).jpc, s.code)
  {
    hide Formed, IsList, Untouched, CodeRel, C.Exp2RK, C.GoIfTrue, C.GoIfFalse, PatchList, FsOk, IsOperand, GuardFormed, ExpRep;
    NumeralHeadsOf(s, fs0, d0, e);
    SelfUntouched(s.code, s.abs, Own(e));
    match op {
      case AndOp => d := H.GoIfTrue(s, d0, fs0, e);
      case OrOp => d := H.GoIfFalse(s, d0, fs0, e);
      case ArithBin(_) =>
        ValidFormed(s, fs0, e);
        if d0.k.VKNum? && d0.t == NO_JUMP && d0.f == NO_JUMP { return d0; }
        var rk;
        d, rk := O.Exp2RK(s, d0, fs0, e);
        ValidFormed(s, fs0, C.Exp2RK(old(s.abs), e).1);
      case _ =>
        var rk;
        d, rk := O.Exp2RK(s, d0, fs0, e);
        ValidFormed(s, fs0, C.Exp2RK(old(s.abs), e).1);
    }
  }

  lemma NumeralHeadsOf(s: FuncState, fs0: Fs, d: ExpDesc, e: Exp)
    requires Holds(s, fs0, d, e)
    ensures (d.t == NO_JUMP && d.f == NO_JUMP) <==> (e.t == [] && e.f == [])
    ensures d.k == e.k
  {
    NumeralHeads(s.code, d, e);
  }

  lemma ArithFormed(m: Machine, fs0: Fs, fs1: Fs, y: Exp, fs: Fs, e: Exp, op: ArithOp)
    requires Formed(fs0, fs1, y) && (IsOperand(y) || IsNumeral(y)) && Formed(fs1, fs, e)
    ensures var (fs2, x) := C.CodeArith(m, fs, op, y, e); Formed(fs0, fs2, x) && !x.k.VK?
  {
    hide Formed, C.CodeArith;
    FormedIs(m, fs0, fs1, y);
    FormedIs(m, fs1, fs, e);
    CodeArithDenotes(Shapes(m, fs0), fs1, y, Nil, fs, e, Nil, op, Nil);
    FormedIs(m, fs0, C.CodeArith(m, fs, op, y, e).0, C.CodeArith(m, fs, op, y, e).1);
  }

  lemma CompFormed(m: Machine, fs0: Fs, fs1: Fs, y: Exp, fs: Fs, e: Exp, op: BinOp)
    requires Formed(fs0, fs1, y) && IsOperand(y) && Formed(fs1, fs, e) && IsComp(op)
    ensures var (fs2, x) := C.CodeComp(fs, CompOf(op).0, CompOf(op).1, y, e); Formed(fs0, fs2, x) && x.k.VJmp?
  {
    hide Formed, C.CodeComp;
    FormedIs(m, fs0, fs1, y);
    FormedIs(m, fs1, fs, e);
    CodeCompDenotes(Shapes(m, fs0), fs1, y, Nil, fs, e, Nil, op, Nil);
    var (fs2, x) := C.CodeComp(fs, CompOf(op).0, CompOf(op).1, y, e);
    FormedIs(m, fs0, fs2, x);
  }

  /** A number that was kept back is put in place after the second operand. */
  lemma NumeralFormed(m: Machine, fs0: Fs, fs1: Fs, y: Exp, fs: Fs, x: Exp)
    requires Formed(fs0, fs1, y) && IsNumeral(y) && Formed(fs1, fs, x)
    ensures Formed(fs, fs, y)
  {
    GrownSelf(fs);
  }

  lemma Reps(code: seq<Instr>, d: ExpDesc, y: Exp)
    requires d.k == y.k && d.t == NO_JUMP && d.f == NO_JUMP && y.t == [] && y.f == [] && !y.k.VJmp?
    ensures ExpRep(code, d, y)
  {
  }

  /** luaK_exp2RK of a first operand that is in place already, or is a number kept back. */
  method PlaceFirst(s: FuncState, d0: ExpDesc, ghost fs0: Fs, ghost fs1: Fs, ghost y: Exp, ghost x: Exp) returns (d: ExpDesc, rk: RK)
    requires s.Rep() && Formed(fs1, s.abs, x) && Formed(fs0, fs1, y) && (IsOperand(y) || IsNumeral(y))
    requires d0.k == y.k && d0.t == NO_JUMP && d0.f == NO_JUMP
    modifies s
    ensures var r := C.Exp2RK(old(s.abs), y); s.abs == r.0 && s.Valid() && d.k == r.1.k && rk == Operand(r.1)
    ensures Untouched(old(s.code), old(s.abs).code, [], old(s.abs).jpc, s.code) && Later(old(s.abs), s.abs, [], [])
  {
    hide Formed, IsList, Untouched, CodeRel, C.Exp2RK, PatchList, FsOk, ExpRep;
    ValidFormed(s, fs1, x);
    SelfUntouched(s.code, s.abs, []);
    if d0.k.VKNum? {
      NumeralFormed(s.m, fs0, fs1, y, s.abs, x);
      NumeralOwn(y);
      RKLater(s.m, s.abs, s.abs, y);
      Reps(s.code, d0, y);
      ghost var fs := s.abs;
      d, rk := O.Exp2RK(s, d0, s.abs, y);
      ValidFormed(s, fs, C.Exp2RK(fs, y).1);
    } else {
      OperandStays(s.abs, y);
      SelfLater(s.abs);
      d, rk := d0, OperandOf(d0);
    }
  }

  lemma NumeralOwn(y: Exp)
    requires IsNumeral(y)
    ensures Own(y) == []
  {
  }

  lemma SelfLater(fs: Fs)
    ensures Later(fs, fs, [], [])
  {
  }

  lemma LaterChain(code0: seq<Instr>, fs: Fs, e: Exp, code1: seq<Instr>, fs1: Fs, code2: seq<Instr>, fs2: Fs)
    requires Untouched(code0, fs.code, Own(e), fs.jpc, code1) && Later(fs, fs1, Own(e), [])
    requires Untouched(code1, fs1.code, [], fs1.jpc, code2) && Later(fs1, fs2, [], [])
    ensures Untouched(code0, fs.code, Own(e), fs.jpc, code2) && Later(fs, fs2, Own(e), [])
  {
  }

  /** codearith */
  method CodeArith(s: FuncState, op: ArithOp, d1: ExpDesc, d2: ExpDesc, ghost fs0: Fs, ghost fs1: Fs, ghost y: Exp, ghost e: Exp) returns (d: ExpDesc)
    requires Holds(s, fs1, d2, e) && Waiting(fs0, fs1, ArithBin(op), y) && ExpRep(s.code, d1, y)
    modifies s
    ensures var r := C.CodeArith(s.m, old(s.abs), op, y, e); s.abs == r.0 && Holds(s, fs0, d, r.1) && !r.1.k.VK?
    ensures Untouched(old(s.code), old(s.abs).code, Own(e), old(s.abs).jpc, s.code)
  {
    hide Formed, IsList, Untouched, CodeRel, C.Exp2RK, Emit, C.FreeExp, PatchList, FsOk, IsOperand, ExpRep, C.CodeArith, RegIndex;
    ghost var code0, fs := s.code, s.abs;
    ArithFormed(s.m, fs0, fs1, y, fs, e, op);
    WaitingHeads(s.code, d1, y);
    NumeralHeadsOf(s, fs1, d2, e);
    SelfUntouched(s.code, fs, Own(e));
    if d1.k.VKNum? && d2.k.VKNum? && d2.t == NO_JUMP && d2.f == NO_JUMP && !((op.Div? || op.Mod?) && d2.k.n == 0) {
      d := d1.(k := VKNum(s.m.arith(op, d1.k.n, d2.k.n)));
      FoldIs(s.m, fs, op, y, e);
      Reps(s.code, d, C.CodeArith(s.m, fs, op, y, e).1);
      return;
    }
    RKLater(s.m, fs1, fs, e);
    var x2, o2 := O.Exp2RK(s, d2, fs1, e);
    ghost var code3, fs3, e2 := s.code, s.abs, C.Exp2RK(fs, e).1;
    var x1, o1 := PlaceFirst(s, d1, fs0, fs1, y, e2);
    ghost var code4, fs4, e1 := s.code, s.abs, C.Exp2RK(fs3, y).1;
    LaterChain(code0, fs, e, code3, fs3, code4, fs4);
    FreeBoth(s, x1, x2, o1, o2, e1, e2);
    BothFreed(fs4, e1, e2);
    s.Code(Arith(op, 0, o1, o2));
    SameLength(s.code, s.abs);
    d := ExpDesc(VReloc(|s.code| - 1), NO_JUMP, NO_JUMP);
    ArithIs(s.m, fs, op, y, e);
    Reps(s.code, d, C.CodeArith(s.m, fs, op, y, e).1);
    CondThen(code0, fs, e, code4, fs4, [], s.code);
  }

  lemma WaitingHeads(code: seq<Instr>, d: ExpDesc, y: Exp)
    requires ExpRep(code, d, y) && (IsOperand(y) || IsNumeral(y))
    ensures d.k == y.k && d.t == NO_JUMP && d.f == NO_JUMP && y.t == [] && y.f == []
  {
  }

  lemma FoldIs(m: Machine, fs: Fs, op: ArithOp, y: Exp, e: Exp)
    requires Folds(op, y, e)
    ensures C.CodeArith(m, fs, op, y, e) == (fs, y.(k := VKNum(m.arith(op, y.k.n, e.k.n))))
  {
  }

  lemma ArithIs(m: Machine, fs: Fs, op: ArithOp, y: Exp, e: Exp)
    requires !Folds(op, y, e)
    ensures var (fs1, x2) := C.Exp2RK(fs, e); var (fs2, x1) := C.Exp2RK(fs1, y);
            var fs3 := Emit(C.FreeBoth(fs2, x1, x2), Arith(op, 0, Operand(x1), Operand(x2)));
            C.CodeArith(m, fs, op, y, e) == (fs3, Exp(VReloc(|fs3.code| - 1), [], []))
  {
    hide C.Exp2RK, Emit, C.FreeBoth;
    NoJumps(fs, e);
    NoJumps(C.Exp2RK(fs, e).0, y);
  }

  lemma NoJumps(fs: Fs, e: Exp)
    ensures C.Exp2RK(fs, e).1.t == [] && C.Exp2RK(fs, e).1.f == []
  {
    hide C.CloseLists, C.Discharge2Reg, C.AddK;
  }

  /** Give back the registers of two operands, the higher one first. */
  method FreeBoth(s: FuncState, x1: ExpDesc, x2: ExpDesc, o1: RK, o2: RK, ghost e1: Exp, ghost e2: Exp)
    requires s.Rep() && x1.k == e1.k && x2.k == e2.k && o1 == Operand(e1) && o2 == Operand(e2)
    modifies s`freereg, s`abs
    ensures s.Rep() && s.abs == C.FreeBoth(old(s.abs), e1, e2)
  {
    if RegIndex(o1) > RegIndex(o2) {
      G.FreeExp(s, x1, e1);
      G.FreeExp(s, x2, e2);
    } else {
      G.FreeExp(s, x2, e2);
      G.FreeExp(s, x1, e1);
    }
  }

  lemma BothFreed(fs: Fs, e1: Exp, e2: Exp)
    requires FsOk(fs)
    ensures var fs2 := C.FreeBoth(fs, e1, e2); FsOk(fs2) && fs2.code == fs.code && fs2.jpc == fs.jpc && PatchList(fs2.code, fs2.jpc)
  {
    hide WellFormed, PatchList, OpenUnkept, ConstsOk;
    var fs2 := C.FreeBoth(fs, e1, e2);
    assert fs2 == fs.(freereg := fs2.freereg);
    ConstsFreed(fs, fs2);
  }

  lemma ConstsFreed(fs: Fs, fs2: Fs)
    requires fs2 == fs.(freereg := fs2.freereg) && ConstsOk(fs)
    ensures ConstsOk(fs2)
  {
  }

  /** codecomp */
  method CodeComp(s: FuncState, op: BinOp, d1: ExpDesc, d2: ExpDesc, ghost fs0: Fs, ghost fs1: Fs, ghost y: Exp, ghost e: Exp) returns (d: ExpDesc)
    requires Holds(s, fs1, d2, e) && Formed(fs0, fs1, y) && IsOperand(y) && ExpRep(s.code, d1, y) && IsComp(op)
    modifies s
    ensures var r := C.CodeComp(old(s.abs), CompOf(op).0, CompOf(op).1, y, e); s.abs == r.0 && Holds(s, fs0, d, r.1) && r.1.k.VJmp?
    ensures Untouched(old(s.code), old(s.abs).code, Own(e), old(s.abs).jpc, s.code)
  {
    hide Formed, IsList, Untouched, CodeRel, C.Exp2RK, C.FreeExp, PatchList, FsOk, IsOperand, ExpRep, C.CodeComp, C.CondJump;
    ghost var code0, fs := s.code, s.abs;
    var (cop, cond) := CompOf(op);
    CompFormed(s.m, fs0, fs1, y, fs, e, op);
    OperandStays(fs, y);
    WaitingHeads(s.code, d1, y);
    RKLater(s.m, fs1, fs, e);
    var o1 := OperandOf(d1);
    var x2, o2 := O.Exp2RK(s, d2, fs1, e);
    ghost var code3, fs3, e2 := s.code, s.abs, C.Exp2RK(fs, e).1;
    OperandState(fs1, fs3, e2);
    G.FreeExp(s, x2, e2);
    ghost var fs4 := s.abs;
    FreedSame(fs4, y);
    G.FreeExp(s, d1, y);
    ghost var fs5 := s.abs;
    if !cond && !cop.Eq? {
      o1, o2 := o2, o1;
      cond := true;
    }
    CondJumpOk(fs5, Cmp(cop, cond, o1, o2));
    var j := s.CondJump(Cmp(cop, cond, o1, o2));
    d := ExpDesc(VJmp(j), NO_JUMP, NO_JUMP);
    CompIs(fs, op, y, e);
    ListHead(s.code, j, [|fs5.code| + 1]);
    JmpReps(s.code, d, C.CodeComp(fs, CompOf(op).0, CompOf(op).1, y, e).1);
    CondThen(code0, fs, e, code3, fs3, [], s.code);
  }

  lemma JmpReps(code: seq<Instr>, d: ExpDesc, x: Exp)
    requires x.k.VJmp? && d.k == x.k && d.t == NO_JUMP && d.f == NO_JUMP && x.t == [] && x.f == [] && IsList(code, x.k.pc, [x.k.pc])
    ensures ExpRep(code, d, x)
  {
  }

  lemma CompIs(fs: Fs, op: BinOp, y: Exp, e: Exp)
    requires IsOperand(y) && IsComp(op)
    ensures var (fs1, x1) := C.Exp2RK(fs, y); var (fs2, x2) := C.Exp2RK(fs1, e);
            var fs3 := C.FreeExp(C.FreeExp(fs2, x2), x1);
            var swap := !CompOf(op).1 && !CompOf(op).0.Eq?;
            var o1, o2 := if swap then Operand(x2) else Operand(x1), if swap then Operand(x1) else Operand(x2);
            var (fs4, list) := C.CondJump(fs3, Cmp(CompOf(op).0, CompOf(op).1 || swap, o1, o2));
            fs1 == fs && x1 == y && list == [list[0]] && C.CodeComp(fs, CompOf(op).0, CompOf(op).1, y, e) == (fs4, Exp(VJmp(list[0]), [], []))
  {
    OperandStays(fs, y);
    hide C.Exp2RK, Emit;
    EmptyJpc(C.FreeExp(C.FreeExp(C.Exp2RK(fs, e).0, C.Exp2RK(fs, e).1), y), Cmp(CompOf(op).0, CompOf(op).1, Reg(0), Reg(0)));
  }

  // ----- the calls of the parser -----

  lemma LogicFormed(m: Machine, fs0: Fs, fs1: Fs, list: seq<int>, go: bool, fs: Fs, x: Exp)
    requires GuardFormed(fs0, fs1, list) && Formed(fs1, fs, x)
    ensures Formed(fs0, fs, if go then x.(f := x.f + list) else x.(t := x.t + list))
  {
    var c := Shapes(m, fs0);
    FormedIs(m, fs1, fs, x);
    assert Guard(c, fs1, list, Nil, go) by { hide FsOk, Grown, PatchList; }
    LogicDenotes(c, fs1, list, Nil, go, fs, x, Nil, Nil);
    FormedIs(m, fs0, fs, if go then x.(f := x.f + list) else x.(t := x.t + list));
  }

  /** The lists to be joined share no jump: one is of the context. */
  lemma LogicApart(fs0: Fs, fs1: Fs, list: seq<int>, fs: Fs, x: Exp)
    requires GuardFormed(fs0, fs1, list) && Formed(fs1, fs, x)
    ensures Apart(x.t, list) && Apart(x.f, list) && AllOpen(fs.code, x.t) && AllOpen(fs.code, x.f) && NoRepeat(x.t) && NoRepeat(x.f)
    ensures Apart(fs.jpc, x.t) && Apart(fs.jpc, x.f) && AllOpen(fs.code, fs.jpc) && Apart(x.f, x.t) && Apart(x.t, x.f)
    ensures x.k.VJmp? ==> OpenAt(fs.code, x.k.pc) && x.k.pc !in x.t && x.k.pc !in x.f
  {
    forall j | j in list ensures j !in x.t && j !in x.f { assert OpenAt(fs1.code, j); }
  }

  /** luaK_posfix for `and' and `or': the jumps that leave the first operand join those of the second. */
  method Join(s: FuncState, go: bool, d1: ExpDesc, d2: ExpDesc, ghost fs0: Fs, ghost fs1: Fs, ghost y: Exp, ghost e: Exp) returns (d: ExpDesc)
    requires Holds(s, fs1, d2, e) && GuardFormed(fs0, fs1, if go then y.f else y.t)
    requires IsList(s.code, if go then d1.f else d1.t, if go then y.f else y.t)
    modifies s
    ensures s.abs == old(s.abs)
    ensures var x := DischargeVars(e); Holds(s, fs0, d, if go then x.(f := x.f + y.f) else x.(t := x.t + y.t))
    ensures Untouched(old(s.code), old(s.abs).code, Own(e), old(s.abs).jpc, s.code)
  {
    hide Formed, IsList, CodeRel, PatchList, GuardFormed;
    ghost var code0, fs, x, list := s.code, s.abs, DischargeVars(e), if go then y.f else y.t;
    ghost var j0 := s.jpc;
    DischargedVars(fs1, fs, e);
    OwnVars(e);
    LogicFormed(s.m, fs0, fs1, list, go, fs, x);
    LogicApart(fs0, fs1, list, fs, x);
    VarsRep(s.code, d2, e);
    d := Vars(d2);
    hide ExpRep, AllOpen, NoRepeat, Apart;
    ghost var own := if go then x.f else x.t;
    RepLists(code0, d, x);
    var l := s.Concat(if go then d.f else d.t, if go then d1.f else d1.t, own, list);
    JoinKept(code0, fs, d, x, own, list, go, l, s.code, j0);
    d := if go then d.(f := l) else d.(t := l);
    JoinUntouched(code0, fs, own, x, s.code);
  }

  lemma RepLists(code: seq<Instr>, d: ExpDesc, x: Exp)
    requires ExpRep(code, d, x)
    ensures IsList(code, d.t, x.t) && IsList(code, d.f, x.f)
  {
  }

  lemma JoinKept(code0: seq<Instr>, fs: Fs, d: ExpDesc, x: Exp, own: seq<int>, list: seq<int>, go: bool, l: int, code1: seq<Instr>, j0: int)
    requires ExpRep(code0, d, x) && Untouched(code0, fs.code, own, [], code1) && |code0| <= |code1| && own == (if go then x.f else x.t)
    requires IsList(code1, l, own + list) && IsList(code0, j0, fs.jpc)
    requires AllOpen(fs.code, x.t) && AllOpen(fs.code, x.f) && AllOpen(fs.code, fs.jpc) && Apart(fs.jpc, own) && Apart(x.t, x.f) && Apart(x.f, x.t)
    requires x.k.VJmp? ==> OpenAt(fs.code, x.k.pc) && x.k.pc !in x.t && x.k.pc !in x.f
    ensures IsList(code1, j0, fs.jpc)
    ensures if go then ExpRep(code1, d.(f := l), x.(f := x.f + list)) else ExpRep(code1, d.(t := l), x.(t := x.t + list))
  {
    ListUntouched(code0, fs.code, own, [], code1, j0, fs.jpc);
    if go { ListUntouched(code0, fs.code, own, [], code1, d.t, x.t); } else { ListUntouched(code0, fs.code, own, [], code1, d.f, x.f); }
    if x.k.VJmp? { ListUntouched(code0, fs.code, own, [], code1, x.k.pc, [x.k.pc]); }
  }

  lemma JoinUntouched(code0: seq<Instr>, fs: Fs, own: seq<int>, x: Exp, code1: seq<Instr>)
    requires Untouched(code0, fs.code, own, [], code1) && (own == x.f || own == x.t)
    ensures Untouched(code0, fs.code, Own(x), fs.jpc, code1)
  {
  }

  method Prefix(s: FuncState, op: UnOp, d0: ExpDesc, ghost fs0: Fs, ghost e: Exp) returns (d: ExpDesc)
    requires Holds(s, fs0, d0, e) && !e.k.VK?
    modifies s
    ensures var r := C.Prefix(old(s.abs), op, e); s.abs == r.0 && Holds(s, fs0, d, r.1) && !r.1.k.VK?
    ensures Untouched(old(s.code), old(s.abs).code, Own(e), old(s.abs).jpc, s.code)
  {
    hide Formed, IsList, CodeRel, C.CodeMinus, C.CodeNot, C.Exp2AnyReg, Untouched;
    ghost var code0, fs := s.code, s.abs;
    if op.Minus? {
      d := CodeMinus(s, d0, fs0, e);
    } else {
      d := CodeNot(s, d0, fs0, e);
      UntouchedMore(code0, fs.code, [], Own(e), fs.jpc, s.code);
    }
  }

  method Posfix(s: FuncState, op: BinOp, d1: ExpDesc, d2: ExpDesc, ghost fs0: Fs, ghost fs1: Fs, ghost y: Exp, ghost e: Exp) returns (d: ExpDesc)
    requires Holds(s, fs1, d2, e) && !e.k.VK? && Waiting(fs0, fs1, op, y) && WaitingRep(s.code, op, d1, y)
    modifies s
    ensures var r := C.Posfix(s.m, old(s.abs), op, y, e); s.abs == r.0 && Holds(s, fs0, d, r.1) && !r.1.k.VK?
    ensures Untouched(old(s.code), old(s.abs).code, Own(e), old(s.abs).jpc, s.code)
  {
    hide Formed, IsList, CodeRel, C.CodeArith, C.CodeComp, Untouched, GuardFormed, ExpRep, IsOperand;
    match op {
      case AndOp => d := Join(s, true, d1, d2, fs0, fs1, y, e);
      case OrOp => d := Join(s, false, d1, d2, fs0, fs1, y, e);
      case ArithBin(aop) => d := CodeArith(s, aop, d1, d2, fs0, fs1, y, e);
      case _ => d := CodeComp(s, op, d1, d2, fs0, fs1, y, e);
    }
  }
}
