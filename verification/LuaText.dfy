/** What generation makes of an expression, read off its text: the form it leaves the value in, what its
    jumps carry, the constants entered, whether a value is carried to the place reached, and where a wrong
    value is used. */
module LuaText {
  import opened LuaVm
  import opened LuaCode
  import opened LuaExec
  import opened LuaEmit
  import opened LuaExp
  import opened LuaClose
  import opened LuaReg
  import opened LuaOperand
  import opened LuaCond
  import opened LuaOps
  import opened LuaBinary
  import opened LuaCompile
  import opened LuaForm
  import G = LuaGen
  import O = LuaGenOps
  import J = LuaGenCond
  import B = LuaGenBinary
  import D = LuaDriver
  import P = LuaOpen
  import opened LuaReturn

  // ----- the reading -----

  /** The jumps of a list: none, none that carries a value, or some that carry one. */
  datatype Jumps = None | Bools | Values

  function Join(a: Jumps, b: Jumps): Jumps {
    if a.Values? || b.Values? then Values else if a.Bools? || b.Bools? then Bools else None
  }

  function Devalued(a: Jumps): Jumps { if a.None? then None else Bools }

  /** A literal, a local, a comparison, a negation, or another computed value. */
  datatype Form = FNil | FTrue | FFalse | FNum(n: int) | FLocal | FJump | FNot | FComputed

  datatype Text = Text(form: Form, t: Jumps, f: Jumps)

  /** Whether a jump that carries a value is pending to the place reached, and the constants so far. */
  datatype Place = Place(pending: bool, used: set<Value>, count: nat)

  function Settle(s: Place): Place { s.(pending := false) }

  function Enter(s: Place, v: Value): Place {
    if v in s.used then s else s.(used := s.used + {v}, count := s.count + 1)
  }

  function EnterNumber(s: Place, x: Form): Place {
    if x.FNum? then Enter(s, Num(x.n)) else s
  }

  predicate Bare(x: Text) { x.t.None? && x.f.None? }

  predicate Literal(x: Form) { x.FNil? || x.FTrue? || x.FFalse? || x.FNum? }

  function LiteralValue(x: Form): Value {
    match x
    case FTrue => Bool(true)
    case FFalse => Bool(false)
    case FNum(n) => Num(n)
    case _ => Nil
  }

  /** An operand of an instruction: a literal becomes a constant while there is room for it. */
  function AsOperand(s: Place, x: Text): Place {
    if Bare(x) && Literal(x.form) && s.count <= MAXINDEXRK then Enter(s, LiteralValue(x.form))
    else if Bare(x) && x.form.FLocal? then s
    else EnterNumber(Settle(s), x.form)
  }

  predicate GoesOn(x: Form, go: bool) {
    if go then x.FTrue? || x.FNum? else x.FNil? || x.FFalse?
  }

  predicate Leaves(x: Form, go: bool) {
    if go then x.FFalse? else x.FTrue?
  }

  /** The new jumps a condition adds to the list of those that leave. */
  function NewJumps(s: Place, x: Form, go: bool): Jumps {
    if GoesOn(x, go) then None
    else if Leaves(x, go) then (if s.pending then Values else Bools)
    else if x.FJump? || x.FNot? then Bools
    else Values
  }

  /** The jumps that leave the first operand of `and' (go) or `or'. */
  function LeavingJumps(s: Place, x: Text, go: bool): Jumps {
    Join(if go then x.f else x.t, NewJumps(s, x.form, go))
  }

  /** The place where the second operand starts. */
  function AfterFirst(s: Place, x: Text, go: bool): Place {
    var s1 := if GoesOn(x.form, go) then s else Settle(if Leaves(x.form, go) then s else EnterNumber(s, x.form));
    s1.(pending := s1.pending || (if go then x.t else x.f).Values?)
  }

  function Negated(x: Form): Form {
    match x
    case FNil => FTrue
    case FFalse => FTrue
    case FTrue => FFalse
    case FNum(_) => FFalse
    case FJump => FJump
    case _ => FNot
  }

  predicate Numeral(x: Text) { x.form.FNum? && Bare(x) }

  predicate FoldsText(op: ArithOp, x: Text, y: Text) {
    Numeral(x) && Numeral(y) && !((op.Div? || op.Mod?) && y.form.n == 0)
  }

  /** Which of the lists holds a jump that carries a wrong value. */
  datatype Spoilt = Spoilt(t: bool, f: bool)

  const Sound := Spoilt(false, false)

  /** The place reached, the value, which jumps carry a wrong one, whether a wrong one is brought to an
      operand, and whether a minus is given an odd operand. */
  datatype Reading = Reading(s: Place, x: Text, bad: Spoilt, lost: bool, odd: bool)

  /** A literal that is not a number, given to the minus as a constant. */
  predicate OddOperand(r: Reading) {
    Bare(r.x) && Literal(r.x.form) && !r.x.form.FNum? && r.s.count <= MAXINDEXRK
  }

  /** The operand comes to a register or constant with one of its jumps carrying a wrong value. */
  predicate Loses(r: Reading) { r.bad.t || r.bad.f }

  function ReadUnary(op: UnOp, r: Reading): Reading {
    if op.NotOp? then
      Reading(if Literal(r.x.form) || r.x.form.FJump? then r.s else Settle(r.s),
              Text(Negated(r.x.form), Devalued(r.x.f), Devalued(r.x.t)), Sound, r.lost, r.odd)
    else if Numeral(r.x) then Reading(r.s, Text(FNum(-r.x.form.n), None, None), Sound, r.lost || Loses(r), r.odd)
    else Reading(Settle(AsOperand(r.s, r.x)), Text(FComputed, None, None), Sound, r.lost || Loses(r), r.odd || OddOperand(r))
  }

  /** What the first operand leaves behind for the second one. */
  function Between(op: BinOp, l: Reading): Place {
    match op
    case AndOp => AfterFirst(l.s, l.x, true)
    case OrOp => AfterFirst(l.s, l.x, false)
    case ArithBin(_) => if Numeral(l.x) then l.s else AsOperand(l.s, l.x)
    case _ => AsOperand(l.s, l.x)
  }

  /** Generation jumps always on the first operand while a value is carried there. */
  predicate Clashes(op: BinOp, l: Reading) {
    l.s.pending && ((op.AndOp? && l.x.form.FFalse?) || (op.OrOp? && l.x.form.FTrue?))
  }

  function ReadBinary(m: Machine, op: BinOp, l: Reading, r: Reading): Reading {
    var lost, odd := l.lost || r.lost, l.odd || r.odd;
    match op
    case AndOp =>
      Reading(r.s, r.x.(f := Join(r.x.f, LeavingJumps(l.s, l.x, true))), r.bad.(f := r.bad.f || l.bad.f || Clashes(op, l)), lost, odd)
    case OrOp =>
      Reading(r.s, r.x.(t := Join(r.x.t, LeavingJumps(l.s, l.x, false))), r.bad.(t := r.bad.t || l.bad.t || Clashes(op, l)), lost, odd)
    case ArithBin(aop) =>
      var lost1 := lost || Loses(l) || Loses(r);
      if FoldsText(aop, l.x, r.x) then
        Reading(r.s, Text(FNum(m.arith(aop, l.x.form.n, r.x.form.n)), None, None), Sound, lost1, odd)
      else
        var s := AsOperand(r.s, r.x);
        Reading(Settle(if Numeral(l.x) then AsOperand(s, l.x) else s), Text(FComputed, None, None), Sound, lost1, odd)
    case _ =>
      Reading(Settle(AsOperand(r.s, r.x)), Text(FJump, None, None), Sound, lost || Loses(l) || Loses(r), odd)
  }

  function ReadExpr(m: Machine, s: Place, e: Expr): Reading
    decreases e
  {
    match e
    case ENil => Reading(s, Text(FNil, None, None), Sound, false, false)
    case ETrue => Reading(s, Text(FTrue, None, None), Sound, false, false)
    case EFalse => Reading(s, Text(FFalse, None, None), Sound, false, false)
    case ENum(n) => Reading(s, Text(FNum(n), None, None), Sound, false, false)
    case ELocal(_) => Reading(s, Text(FLocal, None, None), Sound, false, false)
    case EParen(e1) => ReadExpr(m, s, e1)
    case EUn(op, e1) => ReadUnary(op, ReadExpr(m, s, e1))
    case EBin(op, l, r) =>
      var a := ReadExpr(m, s, l);
      ReadBinary(m, op, a, ReadExpr(m, Between(op, a), r))
  }

  const Fresh := Place(false, {}, 0)

  /** Where a literal on which generation always jumps stands where a jump arrives with a value, the value
      carried is not the one due. It must not be used: neither by an operator other than `not', `and' and
      `or', nor as the result. */
  predicate TextOk(m: Machine, e: Expr) {
    var q := ReadExpr(m, Fresh, e);
    !q.lost && !Loses(q)
  }

  // ----- what the reading is about -----

  ghost predicate Carried(code: seq<Instr>, list: seq<int>) {
    exists j :: j in list && Carries(code, j)
  }

  ghost predicate JumpsAre(code: seq<Instr>, list: seq<int>, a: Jumps) {
    (a.None? <==> list == []) && (a.Values? <==> Carried(code, list))
  }

  predicate FormIs(fs: Fs, k: Kind, x: Form) {
    match x
    case FNil => k.VNil?
    case FTrue => k.VTrue?
    case FFalse => k.VFalse?
    case FNum(n) => k == VKNum(n)
    case FLocal => (k.VLocal? || k.VNonReloc?) && k.r < fs.nactvar
    case FJump => k.VJmp?
    case FNot => k.VReloc? && 0 <= k.pc < |fs.code| && fs.code[k.pc].Not?
    case FComputed => k.VReloc? && 0 <= k.pc < |fs.code| && !fs.code[k.pc].Not?
  }

  ghost predicate PlaceIs(fs: Fs, s: Place) {
    (s.pending <==> Carried(fs.code, fs.jpc)) && EnteredAre(fs, s)
  }

  predicate EnteredAre(fs: Fs, s: Place) { fs.h.Keys == s.used && |fs.k| == s.count }

  ghost predicate TextIs(fs: Fs, x: Exp, t: Text) {
    FormIs(fs, x.k, t.form) && JumpsAre(fs.code, x.t, t.t) && JumpsAre(fs.code, x.f, t.f)
  }

  // ----- lists -----

  lemma JumpsJoin(code: seq<Instr>, a: seq<int>, b: seq<int>, x: Jumps, y: Jumps)
    requires JumpsAre(code, a, x) && JumpsAre(code, b, y)
    ensures JumpsAre(code, a + b, Join(x, y))
  {
    assert Carried(code, a + b) <==> Carried(code, a) || Carried(code, b) by {
      if Carried(code, a) { var j :| j in a && Carries(code, j); assert j in a + b; }
      if Carried(code, b) { var j :| j in b && Carries(code, j); assert j in a + b; }
    }
  }

  /** Jumps that keep their tests. */
  lemma JumpsKept(code: seq<Instr>, code': seq<Instr>, list: seq<int>, x: Jumps)
    requires JumpsAre(code, list, x) && forall j :: j in list ==> Carries(code', j) == Carries(code, j)
    ensures JumpsAre(code', list, x)
    ensures Carried(code', list) <==> Carried(code, list)
  {
  }

  lemma NoJumpsCarried(code: seq<Instr>)
    ensures JumpsAre(code, [], None) && !Carried(code, [])
  {
  }

  // ----- constants -----

  predicate SameEntered(fs: Fs, fs': Fs) { fs'.h == fs.h && fs'.k == fs.k }

  lemma EmitEntered(fs: Fs, i: Instr)
    ensures SameEntered(fs, Emit(fs, i)) && Emit(fs, i).jpc == []
  {
    PatchListAuxFields(fs, fs.jpc, |fs.code|, NoReg, |fs.code|);
  }

  lemma AddKEntered(fs: Fs, v: Value, s: Place)
    requires EnteredAre(fs, s)
    ensures EnteredAre(AddK(fs, v).0, Enter(s, v))
  {
  }

  lemma CodeNilEntered(fs: Fs, reg: int)
    ensures SameEntered(fs, CodeNil(fs, reg))
  {
    EmitEntered(fs, LoadNil(reg, reg));
    hide Emit;
  }

  lemma Discharge2RegEntered(fs: Fs, e: Exp, reg: int, s: Place, x: Form)
    requires EnteredAre(fs, s) && FormIs(fs, e.k, x)
    ensures EnteredAre(Discharge2Reg(fs, e, reg).0, EnterNumber(s, x))
  {
    hide Emit, CodeNil;
    var e1 := DischargeVars(e);
    CodeNilEntered(fs, reg);
    EmitEntered(fs, LoadBool(reg, false, false));
    EmitEntered(fs, LoadBool(reg, true, false));
    if x.FNum? {
      AddKEntered(fs, Num(x.n), s);
      var (fs1, i) := AddK(fs, Num(x.n));
      EmitEntered(fs1, LoadK(reg, i));
    }
    if e1.k.VNonReloc? { EmitEntered(fs, Move(reg, e1.k.r)); }
  }

  lemma CloseListsEntered(fs: Fs, t: seq<int>, f: seq<int>, reg: int, isJmp: bool)
    ensures SameEntered(fs, CloseLists(fs, t, f, reg, isJmp))
  {
    hide PatchListAux, NeedValue, Emit;
    EmitEntered(fs.(jpc := []), Jmp(NO_JUMP));
    var fs1 := if isJmp then fs else Jump(fs).0;
    EmitEntered(GetLabel(fs1), LoadBool(reg, false, true));
    var fs2 := Emit(GetLabel(fs1), LoadBool(reg, false, true));
    EmitEntered(GetLabel(fs2), LoadBool(reg, true, false));
    var p := BeforePatch(fs, t, f, reg, isJmp);
    PatchBothEntered(p, t, f, reg, |fs1.code|);
    PatchBothEntered(p, t, f, reg, NO_JUMP);
  }

  lemma PatchBothEntered(p: Fs, t: seq<int>, f: seq<int>, reg: int, pf: int)
    ensures SameEntered(p, PatchBoth(p, t, f, reg, pf)) && PatchBoth(p, t, f, reg, pf).jpc == p.jpc
  {
    var n := |p.code|;
    PatchListAuxFields(GetLabel(p), f, n, ToReg(reg), pf);
    PatchListAuxFields(PatchListAux(GetLabel(p), f, n, ToReg(reg), pf), t, n, ToReg(reg), PlaceTrue(pf));
  }

  // ----- putting a value in a register -----

  /** Once a value is put in a register nothing is pending but jumps without values. */
  lemma CloseListsPending(fs: Fs, t: seq<int>, f: seq<int>, reg: int, isJmp: bool)
    requires TwoLists(fs, t, f) && (isJmp ==> NeedValue(fs.code, t)) && fs.jpc == []
    ensures var p := CloseLists(fs, t, f, reg, isJmp); !Carried(p.code, p.jpc)
  {
    hide NeedValue, PatchList, StillOpen, PatchBoth, WellFormed, Emit;
    var p, pf := BeforePatch(fs, t, f, reg, isJmp), PlaceFalse(fs, t, f, isJmp);
    BeforePatchOk(fs, t, f, reg, isJmp);
    PatchBothEntered(p, t, f, reg, pf);
    if (t != [] || f != []) && p.jpc != [] {
      PendingJump(fs, t, f, reg, isJmp);
      PatchedTest(p, t, f, reg, pf, |fs.code|);
    }
  }

  lemma PendingJump(fs: Fs, t: seq<int>, f: seq<int>, reg: int, isJmp: bool)
    requires TwoLists(fs, t, f) && fs.jpc == []
    requires BeforePatch(fs, t, f, reg, isJmp).jpc != []
    ensures var p := BeforePatch(fs, t, f, reg, isJmp); p.jpc == [|fs.code|] && !Carries(p.code, |fs.code|)
  {
    if isJmp {
      LoadBoolsOk(fs, reg);
    } else {
      JumpOk(fs);
      LoadBoolsOk(Jump(fs).0, reg);
      LastNoTest(fs.code, fs.lasttarget);
    }
  }

  /** Patching makes no test keep a value. */
  lemma PatchedTest(p: Fs, t: seq<int>, f: seq<int>, reg: int, pf: int, j: int)
    requires TwoLists(p, t, f) && !Carries(p.code, j)
    ensures !Carries(PatchBoth(p, t, f, reg, pf).code, j)
  {
    var n := |p.code|;
    var p1 := PatchListAux(GetLabel(p), f, n, ToReg(reg), pf);
    PatchListAuxAt(GetLabel(p), f, n, ToReg(reg), pf);
    forall i | i in t ensures OpenAt(p1.code, i) { assert OpenAt(p.code, i); }
    PatchListAuxAt(p1, t, n, ToReg(reg), PlaceTrue(pf));
  }

  /** What is put in a register for the first time leaves nothing pending. */
  lemma Discharge2RegPending(fs0: Fs, fs: Fs, e: Exp, reg: int)
    requires Formed0(fs0, fs, e) && (e.k.VNonReloc? ==> e.k.r != reg) && (e.k.VLocal? ==> e.k.r != reg)
    ensures Discharge2Reg(fs, e, reg).0.jpc == []
  {
    hide Emit;
    var e1 := DischargeVars(e);
    EmitEntered(fs, LoadNil(reg, reg));
    EmitEntered(fs, LoadBool(reg, false, false));
    EmitEntered(fs, LoadBool(reg, true, false));
    if e1.k.VK? { EmitEntered(fs, LoadK(reg, e1.k.info)); }
    if e1.k.VKNum? { EmitEntered(AddK(fs, Num(e1.k.n)).0, LoadK(reg, AddK(fs, Num(e1.k.n)).1)); }
    if e1.k.VNonReloc? { EmitEntered(fs, Move(reg, e1.k.r)); }
  }

  lemma Exp2RegText(m: Machine, fs0: Fs, fs: Fs, e: Exp, reg: int, s: Place, x: Form)
    requires Formed0(fs0, fs, e) && reg >= fs0.freereg && reg >= fs.nactvar && FormIs(fs, e.k, x) && EnteredAre(fs, s)
    ensures PlaceIs(Exp2Reg(fs, e, reg).0, EnterNumber(Settle(s), x))
  {
    hide Formed0, CloseLists, Discharge2Reg, TwoLists, NeedValue;
    G.Discharged(m, fs0, fs, e, reg);
    Discharge2RegEntered(fs, e, reg, s, x);
    Discharge2RegPending(fs0, fs, e, reg);
    var (fs1, e1) := Discharge2Reg(fs, e, reg);
    G.ExpLists(m, fs0, fs1, e1, reg);
    CloseListsEntered(fs1, G.ClosedT(e1), e1.f, reg, e1.k.VJmp?);
    CloseListsPending(fs1, G.ClosedT(e1), e1.f, reg, e1.k.VJmp?);
  }

  lemma VarsText(fs: Fs, e: Exp, t: Text)
    requires TextIs(fs, e, t)
    ensures TextIs(fs, DischargeVars(e), t)
  {
  }

  lemma AnyRegText(m: Machine, fs0: Fs, fs: Fs, e: Exp, s: Place, t: Text)
    requires Formed(fs0, fs, e) && TextIs(fs, e, t) && PlaceIs(fs, s)
    ensures PlaceIs(Exp2AnyReg(fs, e).0, if Bare(t) && t.form.FLocal? then s else EnterNumber(Settle(s), t.form))
  {
    hide Exp2Reg, Formed0;
    O.NextRegs(fs0, fs, e);
    var e1 := DischargeVars(e);
    if HasJumps(e) || !e1.k.VNonReloc? {
      var fs1 := ReserveRegs(FreeExp(fs, e1), 1);
      Exp2RegText(m, fs0, fs1, e1, fs1.freereg - 1, s, t.form);
    }
  }

  lemma OperandText(m: Machine, fs0: Fs, fs: Fs, e: Exp, s: Place, t: Text)
    requires Formed(fs0, fs, e) && TextIs(fs, e, t) && PlaceIs(fs, s)
    ensures PlaceIs(Exp2RK(fs, e).0, AsOperand(s, t))
  {
    hide Exp2AnyReg, Formed0, RegOk, JumpsAre;
    AnyRegText(m, fs0, fs, e, s, t);
    BareText(fs, e, t);
    if HasJumps(e) {
      O.AnyFormed(m, fs0, fs, e);
      InRegStays(Exp2AnyReg(fs, e).0, Exp2AnyReg(fs, e).1);
    } else if Literal(t.form) && |fs.k| <= MAXINDEXRK {
      AddKEntered(fs, LiteralValue(t.form), s);
    } else {
      VarsText(fs, e, t);
      O.DischargedVars(fs0, fs, e);
      AnyRegText(m, fs0, fs, DischargeVars(e), s, t);
    }
  }

  lemma BareText(fs: Fs, e: Exp, t: Text)
    requires TextIs(fs, e, t)
    ensures HasJumps(e) <==> !Bare(t)
  {
  }

  lemma HasLists(fs0: Fs, fs: Fs, e: Exp)
    requires Formed(fs0, fs, e)
    ensures FsOk(fs) && ExOk(fs, e)
  {
  }

  lemma InRegStays(fs: Fs, e: Exp)
    requires InReg(e)
    ensures Exp2AnyReg(fs, e) == (fs, e)
  {
  }

  // ----- operators -----

  lemma EmittedText(fs: Fs, i: Instr, s: Place)
    requires EnteredAre(fs, s)
    ensures PlaceIs(Emit(fs, i), Settle(s))
    ensures var p := Emit(fs, i); |p.code| > 0 && p.code[|p.code| - 1] == i
  {
    EmitEntered(fs, i);
    EmitCode(fs, i);
  }

  lemma MinusText(m: Machine, fs0: Fs, fs: Fs, e: Exp, r: Reading)
    requires Formed(fs0, fs, e) && TextIs(fs, e, r.x) && PlaceIs(fs, r.s) && !e.k.VK?
    ensures var (fs2, e2) := CodeMinus(fs, e); var q := ReadUnary(Minus, r); PlaceIs(fs2, q.s) && TextIs(fs2, e2, q.x)
  {
    hide Exp2RK, Emit, Formed;
    if !IsNumeral(e) {
      OperandText(m, fs0, fs, e, r.s, r.x);
      B.NoJumps(fs, e);
      var (fs1, x) := Exp2RK(fs, e);
      EmittedText(FreeExp(fs1, x), Unm(0, Operand(x)), AsOperand(r.s, r.x));
    }
  }

  lemma InvertText(fs0: Fs, fs: Fs, e: Exp, j: int)
    requires Formed(fs0, fs, e) && e.k.VJmp?
    ensures Carries(InvertJump(fs, e).code, j) == Carries(fs.code, j)
  {
  }

  /** The first half of codenot. */
  lemma NotHalfText(m: Machine, fs0: Fs, fs: Fs, e: Exp, s: Place, t: Text)
    requires Formed(fs0, fs, e) && TextIs(fs, e, t) && PlaceIs(fs, s) && !e.k.VK? && !e.k.VLocal?
    ensures var (fs1, e1) := B.NotHalf(fs, e);
      && PlaceIs(fs1, if Literal(t.form) || t.form.FJump? then s else Settle(s))
      && FormIs(fs1, e1.k, Negated(t.form))
  {
    hide Emit, Formed, Discharge2AnyReg, JumpsAre;
    if e.k.VJmp? {
      forall j ensures Carries(InvertJump(fs, e).code, j) == Carries(fs.code, j) {
        InvertText(fs0, fs, e, j);
      }
    } else if !Literal(t.form) {
      AnyRegEntered(fs, e, s, t.form);
      var (fs1, e1) := Discharge2AnyReg(fs, e);
      EmittedText(FreeExp(fs1, e1), Not(0, RegOf(e1)), s);
    }
  }

  lemma AnyRegEntered(fs: Fs, e: Exp, s: Place, x: Form)
    requires EnteredAre(fs, s) && FormIs(fs, e.k, x)
    ensures EnteredAre(Discharge2AnyReg(fs, e).0, EnterNumber(s, x))
  {
    hide Discharge2Reg;
    var fs1 := ReserveRegs(fs, 1);
    Discharge2RegEntered(fs1, e, fs1.freereg - 1, s, x);
  }

  lemma NotText(m: Machine, fs0: Fs, fs: Fs, e0: Exp, r: Reading)
    requires Formed(fs0, fs, e0) && TextIs(fs, e0, r.x) && PlaceIs(fs, r.s) && !e0.k.VK?
    ensures var (fs2, e2) := CodeNot(fs, e0); var q := ReadUnary(NotOp, r); PlaceIs(fs2, q.s) && TextIs(fs2, e2, q.x)
  {
    hide RemoveValues, Formed, B.NotHalf, CodeNot, FsOk;
    var e := DischargeVars(e0);
    O.DischargedVars(fs0, fs, e0);
    VarsText(fs, e0, r.x);
    B.NotIs(fs, e0);
    B.NotHalfFormed(m, fs0, fs, e);
    NotHalfText(m, fs0, fs, e, r.s, r.x);
    var (fs1, e1) := B.NotHalf(fs, e);
    HasLists(fs0, fs1, e1);
    RemoveBoth(fs1, e1);
    var fs2 := RemoveValues(RemoveValues(fs1, e1.t), e1.f);
    RemovedText(fs1, e1, fs2);
    assert JumpsAre(fs2.code, e1.t, Devalued(r.x.t)) && JumpsAre(fs2.code, e1.f, Devalued(r.x.f));
  }

  /** No jump of the lists carries a value any more; the others are as before. */
  lemma RemovedText(fs1: Fs, e1: Exp, fs2: Fs)
    requires ExOk(fs1, e1) && |fs2.code| == |fs1.code| && fs2 == fs1.(code := fs2.code)
    requires forall i :: 0 <= i < |fs1.code| ==> fs2.code[i] == Plainly(fs1.code, e1, i)
    ensures forall j :: j in e1.t || j in e1.f ==> !Carries(fs2.code, j)
    ensures Carried(fs2.code, fs1.jpc) <==> Carried(fs1.code, fs1.jpc)
    ensures forall x :: FormIs(fs1, e1.k, x) ==> FormIs(fs2, e1.k, x)
  {
    forall j | j in fs1.jpc ensures Carries(fs2.code, j) == Carries(fs1.code, j) { }
  }

  // ----- and, or -----

  /** After the first half of goiftrue or goiffalse. */
  ghost predicate HalfText(fs: Fs, e: Exp, fs1: Fs, list: seq<int>, s: Place, x: Form, go: bool) {
    && JumpsAre(fs1.code, list, NewJumps(s, x, go))
    && (forall j :: j in e.t || j in e.f ==> Carries(fs1.code, j) == Carries(fs.code, j))
    && PlaceIs(fs1, if GoesOn(x, go) then s else Settle(if Leaves(x, go) then s else EnterNumber(s, x)))
  }

  lemma AlwaysText(fs0: Fs, fs: Fs, e: Exp, s: Place, x: Form, go: bool)
    requires Formed(fs0, fs, e) && FormIs(fs, e.k, x) && PlaceIs(fs, s) && Leaves(x, go)
    ensures HalfText(fs, e, Jump(fs).0, Jump(fs).1, s, x, go)
  {
    JumpOk(fs);
    LastNoTest(fs.code, fs.lasttarget);
    EmitEntered(fs.(jpc := []), Jmp(NO_JUMP));
    var (fs1, list) := Jump(fs);
    forall j | 0 <= j < |fs.code| ensures Carries(fs1.code, j) == Carries(fs.code, j) { }
    forall j | j in e.t || j in e.f || j in fs.jpc ensures 0 <= j < |fs.code| { assert OpenAt(fs.code, j); }
    assert !Carries(fs1.code, |fs.code|);
    assert list == [|fs.code|] + fs.jpc;
    if s.pending { var j :| j in fs.jpc && Carries(fs.code, j); assert j in list; }
  }

  lemma CompareText(fs0: Fs, fs: Fs, e: Exp, s: Place, go: bool)
    requires Formed(fs0, fs, e) && e.k.VJmp? && PlaceIs(fs, s)
    ensures HalfText(fs, e, if go then InvertJump(fs, e) else fs, [e.k.pc], s, FJump, go)
  {
    forall j ensures Carries(InvertJump(fs, e).code, j) == Carries(fs.code, j) {
      InvertText(fs0, fs, e, j);
    }
  }

  lemma TestText(fs0: Fs, fs: Fs, t: seq<int>, f: seq<int>, test: Instr, s: Place)
    requires FsOk(fs) && IsTest(test) && (test.TestSet? ==> test.dest.NoReg?) && EnteredAre(fs, s)
    requires PatchList(fs.code, t) && PatchList(fs.code, f) && Apart(t, f) && Apart(t, fs.jpc) && Apart(f, fs.jpc)
    requires Grown(fs0, fs) && Within(t, fs0) && Within(f, fs0)
    ensures var (fs1, list) := CondJump(fs, test);
      && JumpsAre(fs1.code, list, if test.TestSet? then Values else Bools)
      && (forall j :: j in t || j in f ==> Carries(fs1.code, j) == Carries(fs.code, j))
      && PlaceIs(fs1, Settle(s))
  {
    CondLists(fs0, fs, t, f, test, true);
    CondJumpOk(fs, test);
    EmitEntered(fs, test);
    EmitEntered(Emit(fs, test).(jpc := []), Jmp(NO_JUMP));
    var (fs1, list) := CondJump(fs, test);
    assert list == [|fs.code| + 1] && (Carries(fs1.code, |fs.code| + 1) <==> test.TestSet?);
    if test.TestSet? { assert |fs.code| + 1 in list; }
    NoJumpsCarried(fs1.code);
  }

  lemma CondText(m: Machine, fs0: Fs, fs: Fs, e: Exp, s: Place, x: Form, cond: bool)
    requires Formed(fs0, fs, e) && FormIs(fs, e.k, x) && PlaceIs(fs, s) && !e.k.VJmp? && !e.k.VLocal? && !e.k.VK?
    requires !GoesOn(x, !cond) && !Leaves(x, !cond)
    ensures var r := JumpOnCond(fs, e, cond); HalfText(fs, e, r.0, r.2, s, x, !cond)
  {
    hide Discharge2AnyReg, CondJump, Formed, Formed0;
    if x.FNot? {
      DroppedNot(m, fs0, fs, e, s);
      var fs1 := fs.(code := fs.code[..e.k.pc]);
      TestText(fs0, fs1, e.t, e.f, Test(fs.code[e.k.pc].b, !cond), s);
    } else {
      NotNegated(fs0, fs, e, x);
      AnyRegEntered(fs, e, s, x);
      AnyRegLists(m, fs0, fs, e);
      var (fs1, e1) := Discharge2AnyReg(fs, e);
      J.FreedSame(fs1, e1);
      TestText(fs0, FreeExp(fs1, e1), e.t, e.f, TestSet(NoReg, RegOf(e1), cond), EnterNumber(s, x));
    }
  }

  lemma NotNegated(fs0: Fs, fs: Fs, e: Exp, x: Form)
    requires Formed(fs0, fs, e) && FormIs(fs, e.k, x) && !x.FNot?
    ensures !(e.k.VReloc? && e.k.pc == |fs.code| - 1 && 0 <= e.k.pc && fs.code[e.k.pc].Not?)
  {
  }

  /** The code without the NOT that ends it. */
  lemma DroppedNot(m: Machine, fs0: Fs, fs: Fs, e: Exp, s: Place)
    requires Formed(fs0, fs, e) && FormIs(fs, e.k, FNot) && EnteredAre(fs, s)
    ensures e.k.VReloc? && e.k.pc == |fs.code| - 1 && 0 <= e.k.pc && fs.code[e.k.pc].Not?
    ensures var fs1 := fs.(code := fs.code[..e.k.pc]);
      && FsOk(fs1) && Grown(fs0, fs1) && Within(e.t, fs0) && Within(e.f, fs0) && EnteredAre(fs1, s)
      && PatchList(fs1.code, e.t) && PatchList(fs1.code, e.f) && Apart(e.t, e.f) && Apart(e.t, fs1.jpc) && Apart(e.f, fs1.jpc)
      && forall j :: j in e.t || j in e.f ==> Carries(fs1.code, j) == Carries(fs.code, j)
  {
    FormedIs(m, fs0, fs, e);
    DropNot(Shapes(m, fs0), fs, e, Nil);
  }

  lemma AnyRegLists(m: Machine, fs0: Fs, fs: Fs, e: Exp)
    requires Formed(fs0, fs, e) && !e.k.VJmp? && !e.k.VLocal?
    ensures var fs1 := Discharge2AnyReg(fs, e).0;
      && FsOk(fs1) && Grown(fs0, fs1) && Within(e.t, fs0) && Within(e.f, fs0)
      && PatchList(fs1.code, e.t) && PatchList(fs1.code, e.f) && Apart(e.t, e.f) && Apart(e.t, fs1.jpc) && Apart(e.f, fs1.jpc)
      && forall j :: j in e.t || j in e.f ==> Carries(fs1.code, j) == Carries(fs.code, j)
  {
    J.AnyRegOpen(m, fs0, fs, e);
    hide Discharge2AnyReg;
    ListKept(fs, Discharge2AnyReg(fs, e).0.code, e.t);
    ListKept(fs, Discharge2AnyReg(fs, e).0.code, e.f);
  }

  lemma FirstHalfText(m: Machine, fs0: Fs, fs: Fs, e: Exp, s: Place, t: Text, go: bool)
    requires Formed(fs0, fs, e) && TextIs(fs, e, t) && PlaceIs(fs, s) && !e.k.VK? && !e.k.VLocal?
    ensures var (fs1, list) := J.FirstHalf(fs, e, go); HalfText(fs, e, fs1, list, s, t.form, go)
  {
    hide Formed, Jump, InvertJump, JumpOnCond, Carried;
    if GoesOn(t.form, go) { NoJumpsCarried(fs.code); }
    else if Leaves(t.form, go) { AlwaysText(fs0, fs, e, s, t.form, go); }
    else if t.form.FJump? { CompareText(fs0, fs, e, s, go); }
    else { CondText(m, fs0, fs, e, s, t.form, !go); }
  }

  /** The list a first operand of `and' or `or' waits with. */
  lemma GoText(m: Machine, fs0: Fs, fs: Fs, e0: Exp, r: Reading, go: bool)
    requires Formed(fs0, fs, e0) && TextIs(fs, e0, r.x) && PlaceIs(fs, r.s) && !e0.k.VK?
    ensures var q := if go then GoIfTrue(fs, e0) else GoIfFalse(fs, e0);
      PlaceIs(q.0, AfterFirst(r.s, r.x, go)) && JumpsAre(q.0.code, if go then q.1.f else q.1.t, LeavingJumps(r.s, r.x, go))
  {
    hide Formed, J.FirstHalf, GoIfTrue, GoIfFalse, Carried;
    var e := DischargeVars(e0);
    O.DischargedVars(fs0, fs, e0);
    VarsText(fs, e0, r.x);
    J.GoIfIs(m, fs0, fs, e0, go);
    FirstHalfText(m, fs0, fs, e, r.s, r.x, go);
    var (fs1, list) := J.FirstHalf(fs, e, go);
    var stay, leave := if go then r.x.t else r.x.f, if go then r.x.f else r.x.t;
    JumpsKept(fs.code, fs1.code, Stay(e, go), stay);
    JumpsKept(fs.code, fs1.code, Leave(e, go), leave);
    JumpsJoin(fs1.code, Leave(e, go), list, leave, NewJumps(r.s, r.x.form, go));
    CarriedBoth(fs1.code, fs1.jpc, Stay(e, go));
  }

  lemma CarriedBoth(code: seq<Instr>, a: seq<int>, b: seq<int>)
    ensures Carried(code, a + b) <==> Carried(code, a) || Carried(code, b)
  {
    if Carried(code, a) { var j :| j in a && Carries(code, j); assert j in a + b; }
    if Carried(code, b) { var j :| j in b && Carries(code, j); assert j in a + b; }
  }

  // ----- both operands -----

  /** A waiting list is the same after the second operand. */
  lemma WaitingText(fs0: Fs, fs1: Fs, list: seq<int>, fs2: Fs, x: Exp, a: Jumps)
    requires GuardFormed(fs0, fs1, list) && Formed(fs1, fs2, x) && JumpsAre(fs1.code, list, a)
    ensures JumpsAre(fs2.code, list, a)
  {
    ListKept(fs1, fs2.code, list);
    JumpsKept(fs1.code, fs2.code, list, a);
  }

  lemma BetweenText(m: Machine, fs0: Fs, fs: Fs, e: Exp, op: BinOp, r: Reading)
    requires Formed(fs0, fs, e) && TextIs(fs, e, r.x) && PlaceIs(fs, r.s) && !e.k.VK?
    ensures PlaceIs(Infix(fs, op, e).0, Between(op, r))
  {
    hide Formed, GoIfTrue, GoIfFalse, Exp2RK, PlaceIs;
    assert IsNumeral(e) <==> Numeral(r.x);
    if op.AndOp? { GoText(m, fs0, fs, e, r, true); }
    else if op.OrOp? { GoText(m, fs0, fs, e, r, false); }
    else { OperandText(m, fs0, fs, e, r.s, r.x); }
  }

  lemma LogicText(m: Machine, fs0: Fs, fs: Fs, e: Exp, l: Reading, fs1: Fs, x: Exp, r: Reading, go: bool)
    requires Formed(fs0, fs, e) && TextIs(fs, e, l.x) && PlaceIs(fs, l.s) && !e.k.VK?
    requires var q := if go then GoIfTrue(fs, e) else GoIfFalse(fs, e); Formed(q.0, fs1, x)
    requires PlaceIs(fs1, r.s) && TextIs(fs1, x, r.x)
    ensures var op := if go then AndOp else OrOp; var z := Posfix(m, fs1, op, Infix(fs, op, e).1, x).1;
      TextIs(fs1, z, ReadBinary(m, op, l, r).x)
  {
    hide Formed, GoIfTrue, GoIfFalse, Carried, GuardFormed;
    var op, q := if go then AndOp else OrOp, if go then GoIfTrue(fs, e) else GoIfFalse(fs, e);
    var list := if go then q.1.f else q.1.t;
    GoText(m, fs0, fs, e, l, go);
    P.InfixFormed(m, fs0, fs, e, op);
    WaitingText(fs0, q.0, list, fs1, x, LeavingJumps(l.s, l.x, go));
    VarsText(fs1, x, r.x);
    var x1 := DischargeVars(x);
    JumpsJoin(fs1.code, if go then x1.f else x1.t, list, if go then r.x.f else r.x.t, LeavingJumps(l.s, l.x, go));
  }

  lemma FirstOperandText(m: Machine, fs0: Fs, fs: Fs, e: Exp, l: Reading, fs1: Fs, y: Exp, fs2: Fs, x: Exp, s: Place)
    requires Formed(fs0, fs, e) && TextIs(fs, e, l.x) && !e.k.VK?
    requires fs1 == (if IsNumeral(e) then fs else Exp2RK(fs, e).0) && y == (if IsNumeral(e) then e else Exp2RK(fs, e).1)
    requires Formed(fs1, fs2, x) && PlaceIs(fs2, s)
    ensures PlaceIs(Exp2RK(fs2, y).0, if Numeral(l.x) then AsOperand(s, l.x) else s)
  {
    hide Formed, Exp2RK, PlaceIs;
    if IsNumeral(e) {
      B.NumeralFormed(m, fs0, fs, e, fs2, x);
      OperandText(m, fs2, fs2, y, s, l.x);
    } else {
      O.RKFormed(m, fs0, fs, e);
      OperandStays(fs2, y);
    }
  }

  /** luaK_exp2RK leaves no number as it is. */
  lemma NotNumeral(fs: Fs, e: Exp)
    ensures !IsNumeral(Exp2RK(fs, e).1)
  {
    hide CloseLists, AddK, Emit;
  }

  lemma ArithText(m: Machine, fs0: Fs, fs: Fs, e: Exp, l: Reading, fs2: Fs, x: Exp, r: Reading, aop: ArithOp)
    requires Formed(fs0, fs, e) && TextIs(fs, e, l.x) && !e.k.VK?
    requires Formed(Infix(fs, ArithBin(aop), e).0, fs2, x) && PlaceIs(fs2, r.s) && TextIs(fs2, x, r.x)
    ensures var y := Infix(fs, ArithBin(aop), e).1; var (fs3, z) := CodeArith(m, fs2, aop, y, x);
      var q := ReadBinary(m, ArithBin(aop), l, r); PlaceIs(fs3, q.s) && TextIs(fs3, z, q.x)
  {
    hide Formed, Exp2RK, Emit, FreeBoth, PlaceIs;
    var (fs1, y) := Infix(fs, ArithBin(aop), e);
    assert IsNumeral(e) <==> Numeral(l.x);
    assert IsNumeral(x) <==> Numeral(r.x);
    if IsNumeral(e) { assert y == e; } else { NotNumeral(fs, e); }
    if !Folds(aop, y, x) {
      OperandText(m, fs1, fs2, x, r.s, r.x);
      var (fs3, x2) := Exp2RK(fs2, x);
      var s := AsOperand(r.s, r.x);
      O.RKFormed(m, fs1, fs2, x);
      FirstOperandText(m, fs0, fs, e, l, fs1, y, fs3, x2, s);
      var (fs4, x1) := Exp2RK(fs3, y);
      var s4 := if Numeral(l.x) then AsOperand(s, l.x) else s;
      B.NoJumps(fs3, y);
      FreedTogether(fs4, x1, x2);
      FreedEntered(FreeBoth(fs4, x1, x2), fs4, s4);
      EmittedText(FreeBoth(fs4, x1, x2), Arith(aop, 0, Operand(x1), Operand(x2)), s4);
    }
  }

  lemma FreedEntered(fs: Fs, fs0: Fs, s: Place)
    requires fs == fs0.(freereg := fs.freereg) && PlaceIs(fs0, s)
    ensures EnteredAre(fs, s)
  {
  }

  lemma CompText(m: Machine, fs0: Fs, fs: Fs, e: Exp, l: Reading, fs2: Fs, x: Exp, r: Reading, op: BinOp)
    requires Formed(fs0, fs, e) && TextIs(fs, e, l.x) && !e.k.VK? && IsComp(op)
    requires Formed(Infix(fs, op, e).0, fs2, x) && PlaceIs(fs2, r.s) && TextIs(fs2, x, r.x)
    ensures var y := Infix(fs, op, e).1; var (fs3, z) := CodeComp(fs2, CompOf(op).0, CompOf(op).1, y, x);
      var q := ReadBinary(m, op, l, r); PlaceIs(fs3, q.s) && TextIs(fs3, z, q.x)
  {
    hide Formed, Exp2RK, CondJump, PlaceIs, FreeExp;
    var (fs1, y) := Infix(fs, op, e);
    O.RKFormed(m, fs0, fs, e);
    OperandStays(fs2, y);
    OperandText(m, fs1, fs2, x, r.s, r.x);
    B.NoJumps(fs, e);
    var (fs3, x2) := Exp2RK(fs2, x);
    var fs4 := FreeExp(FreeExp(fs3, x2), y);
    FreedTwice(fs3, x2, y);
    FreedEntered(fs4, fs3, AsOperand(r.s, r.x));
    var swap := !CompOf(op).1 && !CompOf(op).0.Eq?;
    var o1, o2 := if swap then Operand(x2) else Operand(y), if swap then Operand(y) else Operand(x2);
    ComparedText(fs4, Cmp(CompOf(op).0, CompOf(op).1 || swap, o1, o2), AsOperand(r.s, r.x));
    NoJumpsCarried(CodeComp(fs2, CompOf(op).0, CompOf(op).1, y, x).0.code);
  }

  lemma FreedTogether(fs: Fs, x: Exp, y: Exp)
    ensures var f := FreeBoth(fs, x, y); f == fs.(freereg := f.freereg)
  {
  }

  lemma FreedTwice(fs: Fs, x: Exp, y: Exp)
    ensures var f := FreeExp(FreeExp(fs, x), y); f == fs.(freereg := f.freereg)
  {
  }

  lemma ComparedText(fs: Fs, test: Instr, s: Place)
    requires EnteredAre(fs, s)
    ensures PlaceIs(CondJump(fs, test).0, Settle(s))
  {
    EmitEntered(fs, test);
    EmitEntered(Emit(fs, test).(jpc := []), Jmp(NO_JUMP));
  }

  /** The reading is right. */
  lemma {:induction false} ReadRight(m: Machine, fs0: Fs, s: Place, e: Expr)
    requires D.Settled(fs0) && LocalsIn(e, fs0.nactvar) && PlaceIs(fs0, s)
    ensures var (fs, x) := Compile(m, fs0, e); var q := ReadExpr(m, s, e);
      PlaceIs(fs, q.s) && TextIs(fs, x, q.x)
    decreases e
  {
    hide D.Settled, PlaceIs, CodeNot, CodeMinus, ReadUnary, ReadBinary, Between, Posfix, Infix;
    match e
    case EParen(e1) =>
      ReadRight(m, fs0, s, e1);
      VarsText(Compile(m, fs0, e1).0, Compile(m, fs0, e1).1, ReadExpr(m, s, e1).x);
    case EUn(op, e1) =>
      var (fs, x) := Compile(m, fs0, e1);
      var r := ReadExpr(m, s, e1);
      ReadRight(m, fs0, s, e1);
      P.CompileFormed(m, fs0, e1);
      UnaryRight(m, fs0, fs, x, op, r);
    case EBin(op, l, r) => ReadBinaryRight(m, fs0, s, e);
    case _ => NoJumpsCarried(fs0.code);
  }

  lemma UnaryRight(m: Machine, fs0: Fs, fs: Fs, x: Exp, op: UnOp, r: Reading)
    requires Formed(fs0, fs, x) && TextIs(fs, x, r.x) && PlaceIs(fs, r.s) && !x.k.VK?
    ensures var (fs2, x2) := Prefix(fs, op, x); var q := ReadUnary(op, r);
      PlaceIs(fs2, q.s) && TextIs(fs2, x2, q.x)
  {
    hide Formed, TextIs, PlaceIs, CodeNot, CodeMinus;
    if op.Minus? { MinusText(m, fs0, fs, x, r); } else { NotText(m, fs0, fs, x, r); }
  }

  lemma {:induction false} ReadBinaryRight(m: Machine, fs0: Fs, s: Place, e: Expr)
    requires D.Settled(fs0) && LocalsIn(e, fs0.nactvar) && PlaceIs(fs0, s) && e.EBin?
    ensures var (fs, x) := Compile(m, fs0, e); var q := ReadExpr(m, s, e);
      PlaceIs(fs, q.s) && TextIs(fs, x, q.x)
    decreases e, 0
  {
    hide PlaceIs, TextIs, Formed, Between, ReadBinary, Infix, Posfix, B.Waiting;
    var (op, l, r) := (e.bop, e.lhs, e.rhs);
    var (fs1, x1) := Compile(m, fs0, l);
    var (fs2, y1) := Infix(fs1, op, x1);
    var (fs3, x2) := Compile(m, fs2, r);
    var a := ReadExpr(m, s, l);
    ReadRight(m, fs0, s, l);
    P.CompileFormed(m, fs0, l);
    BetweenText(m, fs0, fs1, x1, op, a);
    P.InfixFormed(m, fs0, fs1, x1, op);
    D.WaitingGrown(fs0, fs2, op, y1);
    var b := ReadExpr(m, Between(op, a), r);
    ReadRight(m, fs2, Between(op, a), r);
    P.CompileFormed(m, fs2, r);
    BothRight(m, fs0, fs1, x1, op, a, fs3, x2, b);
  }

  lemma BothRight(m: Machine, fs0: Fs, fs1: Fs, x1: Exp, op: BinOp, a: Reading, fs3: Fs, x2: Exp, b: Reading)
    requires Formed(fs0, fs1, x1) && TextIs(fs1, x1, a.x) && PlaceIs(fs1, a.s) && !x1.k.VK?
    requires Formed(Infix(fs1, op, x1).0, fs3, x2) && PlaceIs(fs3, b.s) && TextIs(fs3, x2, b.x)
    ensures var (fs4, z) := Posfix(m, fs3, op, Infix(fs1, op, x1).1, x2); var q := ReadBinary(m, op, a, b);
      PlaceIs(fs4, q.s) && TextIs(fs4, z, q.x)
  {
    hide Formed, TextIs, PlaceIs, CodeArith, CodeComp, GoIfTrue, GoIfFalse, Exp2RK;
    if op.AndOp? { LogicText(m, fs0, fs1, x1, a, fs3, x2, b, true); }
    else if op.OrOp? { LogicText(m, fs0, fs1, x1, a, fs3, x2, b, false); }
    else if op.ArithBin? { ArithText(m, fs0, fs1, x1, a, fs3, x2, b, op.op); }
    else { CompText(m, fs0, fs1, x1, a, fs3, x2, b, op); }
  }
}
