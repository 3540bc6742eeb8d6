/** The expression code generator: what each luaK_ function makes of the function being compiled.
    Patch lists are sequences of jump positions here; LuaFunc threads them through the code. */
module LuaCode {
  import opened LuaVm

  /** The offset of a jump whose target is not known yet. */
  const NO_JUMP := -1
  const MAXINDEXRK := 255
  const MAXARG_SBX := 131071
  const MAXARG_BX := 262143

  datatype Kind = VNil | VTrue | VFalse | VK(info: int) | VKNum(n: int) | VLocal(r: int) | VJmp(pc: int) | VReloc(pc: int) | VNonReloc(r: int)

  /** expdesc: `t' and `f' are the jumps out of the expression when it is true and when it is false. */
  datatype Exp = Exp(k: Kind, t: seq<int>, f: seq<int>)

  /** FuncState: the code so far, the jumps pending to its end, the last jump target, the registers
      and the constants in use; `failed' when a limit was exceeded and an error was raised. */
  datatype Fs = Fs(code: seq<Instr>, jpc: seq<int>, lasttarget: int, freereg: int, nactvar: int, maxstack: int,
                   k: seq<Value>, h: map<Value, int>, failed: bool)

  // ----- jumps -----

  predicate IsTest(i: Instr) {
    i.Cmp? || i.Test? || i.TestSet?
  }

  /** The jump leaves with the value of the expression in the register its test looked at. */
  predicate Carries(code: seq<Instr>, j: int) {
    1 <= j <= |code| && code[j - 1].TestSet?
  }

  function FixJump(fs: Fs, j: int, dest: int): Fs {
    var offset := dest - (j + 1);
    if 0 <= j < |fs.code| then
      fs.(code := fs.code[j := Jmp(offset)], failed := fs.failed || offset > MAXARG_SBX || -offset > MAXARG_SBX)
    else fs
  }

  function Retest(i: Instr, reg: Dest): Instr
    requires i.TestSet?
  {
    if reg.ToReg? && reg.r != i.b then TestSet(reg, i.b, i.cond) else Test(i.b, i.cond)
  }

  /** patchtestreg; whether there was a test to patch is Carries of the code before. */
  function PatchTestReg(fs: Fs, j: int, reg: Dest): Fs {
    if Carries(fs.code, j) then fs.(code := fs.code[j - 1 := Retest(fs.code[j - 1], reg)]) else fs
  }

  /** need_value */
  predicate NeedValue(code: seq<Instr>, list: seq<int>) {
    list != [] && (!Carries(code, list[0]) || NeedValue(code, list[1..]))
  }

  function RemoveValues(fs: Fs, list: seq<int>): Fs
    decreases |list|
  {
    if list == [] then fs else RemoveValues(PatchTestReg(fs, list[0], NoReg), list[1..])
  }

  /** patchlistaux: jumps with a value go to `vtarget' and store it in `reg', the others to `dtarget'. */
  function PatchListAux(fs: Fs, list: seq<int>, vtarget: int, reg: Dest, dtarget: int): Fs
    decreases |list|
  {
    if list == [] then fs
    else
      var dest := if Carries(fs.code, list[0]) then vtarget else dtarget;
      PatchListAux(FixJump(PatchTestReg(fs, list[0], reg), list[0], dest), list[1..], vtarget, reg, dtarget)
  }

  function DischargeJpc(fs: Fs): Fs {
    PatchListAux(fs, fs.jpc, |fs.code|, NoReg, |fs.code|).(jpc := [])
  }

  /** luaK_code */
  function Emit(fs: Fs, i: Instr): Fs {
    var d := DischargeJpc(fs);
    d.(code := d.code + [i])
  }

  /** luaK_jump: jumps pending to this place join the list of the new jump. */
  function Jump(fs: Fs): (Fs, seq<int>) {
    (Emit(fs.(jpc := []), Jmp(NO_JUMP)), [|fs.code|] + fs.jpc)
  }

  function GetLabel(fs: Fs): Fs {
    fs.(lasttarget := |fs.code|)
  }

  function PatchToHere(fs: Fs, list: seq<int>): Fs {
    GetLabel(fs).(jpc := fs.jpc + list)
  }

  function CondJump(fs: Fs, test: Instr): (Fs, seq<int>) {
    Jump(Emit(fs, test))
  }

  // ----- registers and constants -----

  function ReserveRegs(fs: Fs, n: int): Fs {
    var newstack := fs.freereg + n;
    var fs1 := if newstack > fs.maxstack then fs.(maxstack := newstack, failed := fs.failed || newstack >= MAXSTACK) else fs;
    fs1.(freereg := newstack)
  }

  /** A function with `n' parameters and no code. */
  function NewFunction(n: nat): Fs {
    ReserveRegs(Fs([], [], -1, 0, n, 2, [], map[], false), n)
  }

  function FreeReg(fs: Fs, r: int): Fs {
    if r >= fs.nactvar then fs.(freereg := fs.freereg - 1) else fs
  }

  function FreeExp(fs: Fs, e: Exp): Fs {
    if e.k.VNonReloc? then FreeReg(fs, e.k.r) else fs
  }

  function AddK(fs: Fs, v: Value): (Fs, int) {
    if v in fs.h then (fs, fs.h[v])
    else (fs.(k := fs.k + [v], h := fs.h[v := |fs.k|], failed := fs.failed || |fs.k| >= MAXARG_BX), |fs.k|)
  }

  // ----- putting an expression somewhere -----

  /** The register of a value that is in one. */
  function RegOf(e: Exp): int {
    if e.k.VNonReloc? then e.k.r else 0
  }

  predicate HasJumps(e: Exp) {
    e.t != [] || e.f != []
  }

  predicate IsNumeral(e: Exp) {
    e.k.VKNum? && e.t == [] && e.f == []
  }

  function DischargeVars(e: Exp): Exp {
    if e.k.VLocal? then e.(k := VNonReloc(e.k.r)) else e
  }

  /** luaK_nil for one register: nothing at the start of the function, where registers are nil, and
      no new instruction when the LOADNIL before can take it in. */
  function CodeNil(fs: Fs, from: int): Fs {
    var n := |fs.code|;
    if n > fs.lasttarget && n == 0 && from >= fs.nactvar then fs
    else if n > fs.lasttarget && n > 0 && fs.code[n - 1].LoadNil? && fs.code[n - 1].a <= from <= fs.code[n - 1].b + 1 then
      if from > fs.code[n - 1].b then fs.(code := fs.code[n - 1 := LoadNil(fs.code[n - 1].a, from)]) else fs
    else Emit(fs, LoadNil(from, from))
  }

  function SetA(i: Instr, a: int): Instr {
    match i
    case Arith(op, _, b, c) => Arith(op, a, b, c)
    case Unm(_, b) => Unm(a, b)
    case Not(_, b) => Not(a, b)
    case other => other
  }

  /** The kinds of expression that discharge2reg puts in a register. */
  function Discharge2Reg(fs: Fs, e0: Exp, reg: int): (Fs, Exp) {
    var e := DischargeVars(e0);
    var there := e.(k := VNonReloc(reg));
    match e.k
    case VNil => (CodeNil(fs, reg), there)
    case VFalse => (Emit(fs, LoadBool(reg, false, false)), there)
    case VTrue => (Emit(fs, LoadBool(reg, true, false)), there)
    case VK(info) => (Emit(fs, LoadK(reg, info)), there)
    case VKNum(n) =>
      var (fs1, info) := AddK(fs, Num(n));
      (Emit(fs1, LoadK(reg, info)), there)
    case VReloc(pc) => (if 0 <= pc < |fs.code| then fs.(code := fs.code[pc := SetA(fs.code[pc], reg)]) else fs, there)
    case VNonReloc(r) => (if reg != r then Emit(fs, Move(reg, r)) else fs, there)
    case VLocal(_) => (fs, e)
    case VJmp(_) => (fs, e)
  }

  function Discharge2AnyReg(fs: Fs, e: Exp): (Fs, Exp) {
    if e.k.VNonReloc? then (fs, e)
    else
      var fs1 := ReserveRegs(fs, 1);
      Discharge2Reg(fs1, e, fs1.freereg - 1)
  }

  /** The two instructions that load false and true for jumps that come without a value. */
  function LoadBools(fs: Fs, reg: int): Fs {
    Emit(GetLabel(Emit(GetLabel(fs), LoadBool(reg, false, true))), LoadBool(reg, true, false))
  }

  function Exp2Reg(fs: Fs, e: Exp, reg: int): (Fs, Exp) {
    var (fs1, e1) := Discharge2Reg(fs, e, reg);
    var t := if e1.k.VJmp? then e1.t + [e1.k.pc] else e1.t;
    (CloseLists(fs1, t, e1.f, reg, e1.k.VJmp?), Exp(VNonReloc(reg), [], []))
  }

  /** The second half of exp2reg: give the jumps of both lists their targets. */
  function CloseLists(fs: Fs, t: seq<int>, f: seq<int>, reg: int, isJmp: bool): Fs {
    if t == [] && f == [] then fs
    else if NeedValue(fs.code, t) || NeedValue(fs.code, f) then
      var (fs1, fj) := if isJmp then (fs, []) else Jump(fs);
      var pf := |fs1.code|;
      var fs2 := PatchToHere(LoadBools(fs1, reg), fj);
      PatchBoth(fs2, t, f, reg, pf)
    else PatchBoth(fs, t, f, reg, NO_JUMP)
  }

  /** p_t: right behind p_f, if they were generated. */
  function PlaceTrue(pf: int): int {
    if pf == NO_JUMP then NO_JUMP else pf + 1
  }

  function PatchBoth(fs: Fs, t: seq<int>, f: seq<int>, reg: int, pf: int): Fs {
    var final := |fs.code|;
    var fs1 := PatchListAux(GetLabel(fs), f, final, ToReg(reg), pf);
    PatchListAux(fs1, t, final, ToReg(reg), PlaceTrue(pf))
  }

  function Exp2NextReg(fs: Fs, e0: Exp): (Fs, Exp) {
    var e := DischargeVars(e0);
    var fs1 := ReserveRegs(FreeExp(fs, e), 1);
    Exp2Reg(fs1, e, fs1.freereg - 1)
  }

  function Exp2AnyReg(fs: Fs, e0: Exp): (Fs, Exp) {
    var e := DischargeVars(e0);
    if e.k.VNonReloc? && !HasJumps(e) then (fs, e)
    else if e.k.VNonReloc? && e.k.r >= fs.nactvar then Exp2Reg(fs, e, e.k.r)
    else Exp2NextReg(fs, e)
  }

  function Exp2Val(fs: Fs, e: Exp): (Fs, Exp) {
    if HasJumps(e) then Exp2AnyReg(fs, e) else (fs, DischargeVars(e))
  }

  /** The constant a kind stands for. */
  function Constant(k: Kind): Value {
    match k
    case VTrue => Bool(true)
    case VFalse => Bool(false)
    case VKNum(n) => Num(n)
    case _ => Nil
  }

  /** The operand comes with the state and the expression. */
  function Exp2RK(fs: Fs, e0: Exp): (Fs, Exp) {
    var (fs1, e) := Exp2Val(fs, e0);
    if (e.k.VKNum? || e.k.VTrue? || e.k.VFalse? || e.k.VNil?) && |fs1.k| <= MAXINDEXRK then
      var (fs2, info) := AddK(fs1, Constant(e.k));
      (fs2, e.(k := VK(info)))
    else if e.k.VK? && e.k.info <= MAXINDEXRK then (fs1, e)
    else Exp2AnyReg(fs1, e)
  }

  /** The operand luaK_exp2RK returns. */
  function Operand(e: Exp): RK {
    match e.k
    case VK(info) => Kst(info)
    case VNonReloc(r) => Reg(r)
    case _ => Reg(0)
  }

  // ----- operators -----

  function InvertJump(fs: Fs, e: Exp): Fs {
    if e.k.VJmp? && 1 <= e.k.pc <= |fs.code| && fs.code[e.k.pc - 1].Cmp? then
      var i := fs.code[e.k.pc - 1];
      fs.(code := fs.code[e.k.pc - 1 := Cmp(i.cop, !i.cond, i.rb, i.rc)])
    else fs
  }

  /** jumponcond: the expression as it is afterwards, and the new jump. */
  function JumpOnCond(fs: Fs, e: Exp, cond: bool): (Fs, Exp, seq<int>) {
    if e.k.VReloc? && e.k.pc == |fs.code| - 1 && 0 <= e.k.pc && fs.code[e.k.pc].Not? then
      var (fs1, list) := CondJump(fs.(code := fs.code[..e.k.pc]), Test(fs.code[e.k.pc].b, !cond));
      (fs1, e, list)
    else
      var (fs1, e1) := Discharge2AnyReg(fs, e);
      var fs2 := FreeExp(fs1, e1);
      var (fs3, list) := CondJump(fs2, TestSet(NoReg, RegOf(e1), cond));
      (fs3, e1, list)
  }

  function GoIfTrue(fs: Fs, e0: Exp): (Fs, Exp) {
    var e := DischargeVars(e0);
    var (fs1, e1, pc) :=
      match e.k
      case VK(_) => (fs, e, [])
      case VKNum(_) => (fs, e, [])
      case VTrue => (fs, e, [])
      case VFalse => var (fs1, list) := Jump(fs); (fs1, e, list)
      case VJmp(pc) => (InvertJump(fs, e), e, [pc])
      case _ => JumpOnCond(fs, e, false);
    (PatchToHere(fs1, e1.t), e1.(f := e1.f + pc, t := []))
  }

  function GoIfFalse(fs: Fs, e0: Exp): (Fs, Exp) {
    var e := DischargeVars(e0);
    var (fs1, e1, pc) :=
      match e.k
      case VNil => (fs, e, [])
      case VFalse => (fs, e, [])
      case VTrue => var (fs1, list) := Jump(fs); (fs1, e, list)
      case VJmp(pc) => (fs, e, [pc])
      case _ => JumpOnCond(fs, e, true);
    (PatchToHere(fs1, e1.f), e1.(t := e1.t + pc, f := []))
  }

  function CodeNot(fs: Fs, e0: Exp): (Fs, Exp) {
    var e := DischargeVars(e0);
    var (fs1, e1) :=
      match e.k
      case VNil => (fs, e.(k := VTrue))
      case VFalse => (fs, e.(k := VTrue))
      case VK(_) => (fs, e.(k := VFalse))
      case VKNum(_) => (fs, e.(k := VFalse))
      case VTrue => (fs, e.(k := VFalse))
      case VJmp(_) => (InvertJump(fs, e), e)
      case _ =>
        var (fs1, e1) := Discharge2AnyReg(fs, e);
        var fs2 := Emit(FreeExp(fs1, e1), Not(0, RegOf(e1)));
        (fs2, e1.(k := VReloc(|fs2.code| - 1)));
    (RemoveValues(RemoveValues(fs1, e1.t), e1.f), e1.(t := e1.f, f := e1.t))
  }

  function ConstFold(m: Machine, op: ArithOp, e1: Exp, e2: Exp): Exp {
    if IsNumeral(e1) && IsNumeral(e2) && !((op.Div? || op.Mod?) && e2.k.n == 0)
    then e1.(k := VKNum(m.arith(op, e1.k.n, e2.k.n)))
    else e1
  }

  predicate Folds(op: ArithOp, e1: Exp, e2: Exp) {
    IsNumeral(e1) && IsNumeral(e2) && !((op.Div? || op.Mod?) && e2.k.n == 0)
  }

  /** Give back the registers of two operands, the higher one first. */
  function FreeBoth(fs: Fs, e1: Exp, e2: Exp): Fs {
    if RegIndex(Operand(e1)) > RegIndex(Operand(e2)) then FreeExp(FreeExp(fs, e1), e2) else FreeExp(FreeExp(fs, e2), e1)
  }

  function CodeArith(m: Machine, fs: Fs, op: ArithOp, e1: Exp, e2: Exp): (Fs, Exp) {
    if Folds(op, e1, e2) then (fs, ConstFold(m, op, e1, e2))
    else
      var (fs1, x2) := Exp2RK(fs, e2);
      var (fs2, x1) := Exp2RK(fs1, e1);
      var fs3 := Emit(FreeBoth(fs2, x1, x2), Arith(op, 0, Operand(x1), Operand(x2)));
      (fs3, x1.(k := VReloc(|fs3.code| - 1)))
  }

  /** codearith for the unary minus. */
  function CodeMinus(fs: Fs, e: Exp): (Fs, Exp) {
    if IsNumeral(e) then (fs, e.(k := VKNum(-e.k.n)))
    else
      var (fs1, x) := Exp2RK(fs, e);
      var fs2 := Emit(FreeExp(fs1, x), Unm(0, Operand(x)));
      (fs2, x.(k := VReloc(|fs2.code| - 1)))
  }

  function CodeComp(fs: Fs, op: CmpOp, cond: bool, e1: Exp, e2: Exp): (Fs, Exp) {
    var (fs1, x1) := Exp2RK(fs, e1);
    var (fs2, x2) := Exp2RK(fs1, e2);
    var fs3 := FreeExp(FreeExp(fs2, x2), x1);
    var swap := !cond && !op.Eq?;
    var o1, o2 := if swap then Operand(x2) else Operand(x1), if swap then Operand(x1) else Operand(x2);
    var (fs4, list) := CondJump(fs3, Cmp(op, cond || swap, o1, o2));
    (fs4, x1.(k := VJmp(list[0])))
  }

  // ----- expressions -----

  datatype UnOp = Minus | NotOp

  datatype BinOp = ArithBin(op: ArithOp) | EqOp | NeOp | LtOp | LeOp | GtOp | GeOp | AndOp | OrOp

  datatype Expr = ENil | ETrue | EFalse | ENum(n: int) | ELocal(r: int) | EParen(e: Expr) | EUn(uop: UnOp, e: Expr) | EBin(bop: BinOp, lhs: Expr, rhs: Expr)

  function Prefix(fs: Fs, op: UnOp, e: Exp): (Fs, Exp) {
    match op
    case Minus =>
      var (fs1, e1) := if e.k.VK? then Exp2AnyReg(fs, e) else (fs, e);
      CodeMinus(fs1, e1)
    case NotOp => CodeNot(fs, e)
  }

  function Infix(fs: Fs, op: BinOp, v: Exp): (Fs, Exp) {
    match op
    case AndOp => GoIfTrue(fs, v)
    case OrOp => GoIfFalse(fs, v)
    case ArithBin(_) => if IsNumeral(v) then (fs, v) else Exp2RK(fs, v)
    case _ => Exp2RK(fs, v)
  }

  function Posfix(m: Machine, fs: Fs, op: BinOp, e1: Exp, e2: Exp): (Fs, Exp) {
    match op
    case AndOp => var x := DischargeVars(e2); (fs, x.(f := x.f + e1.f))
    case OrOp => var x := DischargeVars(e2); (fs, x.(t := x.t + e1.t))
    case ArithBin(aop) => CodeArith(m, fs, aop, e1, e2)
    case EqOp => CodeComp(fs, Eq, true, e1, e2)
    case NeOp => CodeComp(fs, Eq, false, e1, e2)
    case LtOp => CodeComp(fs, Lt, true, e1, e2)
    case LeOp => CodeComp(fs, Le, true, e1, e2)
    case GtOp => CodeComp(fs, Lt, false, e1, e2)
    case GeOp => CodeComp(fs, Le, false, e1, e2)
  }

  /** The calls subexpr makes for an expression. */
  function Compile(m: Machine, fs: Fs, e: Expr): (Fs, Exp)
    decreases e
  {
    match e
    case ENil => (fs, Exp(VNil, [], []))
    case ETrue => (fs, Exp(VTrue, [], []))
    case EFalse => (fs, Exp(VFalse, [], []))
    case ENum(n) => (fs, Exp(VKNum(n), [], []))
    case ELocal(r) => (fs, Exp(VLocal(r), [], []))
    case EParen(e1) =>
      var (fs1, x) := Compile(m, fs, e1);
      (fs1, DischargeVars(x))
    case EUn(op, e1) =>
      var (fs1, x) := Compile(m, fs, e1);
      Prefix(fs1, op, x)
    case EBin(op, l, r) =>
      var (fs1, x1) := Compile(m, fs, l);
      var (fs2, y1) := Infix(fs1, op, x1);
      var (fs3, x2) := Compile(m, fs2, r);
      Posfix(m, fs3, op, y1, x2)
  }

  /** What an expression of the language means: the value of its locals is in the registers. */
  function Eval(m: Machine, e: Expr, regs: Regs): Res {
    match e
    case ENil => Ok(Nil)
    case ETrue => Ok(Bool(true))
    case EFalse => Ok(Bool(false))
    case ENum(n) => Ok(Num(n))
    case ELocal(r) => Ok(Read(regs, r))
    case EParen(e1) => Eval(m, e1, regs)
    case EUn(op, e1) =>
      var x := Eval(m, e1, regs);
      if x.Err? then Err else if op.Minus? then UnmVal(x.v) else Ok(Bool(!Truthy(x.v)))
    case EBin(op, l, r) =>
      var x := Eval(m, l, regs);
      if x.Err? then Err
      else if op.AndOp? && !Truthy(x.v) then x
      else if op.OrOp? && Truthy(x.v) then x
      else
        var y := Eval(m, r, regs);
        if y.Err? then Err else EvalBin(m, op, x.v, y.v)
  }

  function EvalBin(m: Machine, op: BinOp, x: Value, y: Value): Res {
    match op
    case ArithBin(aop) => ArithVal(m, aop, x, y)
    case EqOp => Ok(Bool(x == y))
    case NeOp => Ok(Bool(x != y))
    case LtOp => CmpVal(Lt, x, y)
    case LeOp => CmpVal(Le, x, y)
    case GtOp => CmpVal(Lt, y, x)
    case GeOp => CmpVal(Le, y, x)
    case AndOp => Ok(y)
    case OrOp => Ok(y)
  }

  /** The locals an expression mentions are active. */
  predicate LocalsIn(e: Expr, n: int) {
    match e
    case ELocal(r) => 0 <= r < n
    case EParen(e1) => LocalsIn(e1, n)
    case EUn(_, e1) => LocalsIn(e1, n)
    case EBin(_, l, r) => LocalsIn(l, n) && LocalsIn(r, n)
    case _ => true
  }
}
