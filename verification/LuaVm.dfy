/** The instructions of one Lua function and what the virtual machine does with them. */
module LuaVm {

  datatype Value = Nil | Bool(b: bool) | Num(n: int)

  /** A decoded B or C operand: the BITRK bit tells a constant from a register. */
  datatype RK = Reg(r: int) | Kst(k: int)

  /** The A operand of TESTSET; NoReg is NO_REG, put there until the destination is known. */
  datatype Dest = NoReg | ToReg(r: int)

  datatype ArithOp = Add | Sub | Mul | Div | Mod | Pow

  datatype CmpOp = Eq | Lt | Le

  datatype Instr =
    | Move(a: int, b: int)
    | LoadK(a: int, bx: int)
    | LoadBool(a: int, value: bool, skip: bool)
    | LoadNil(a: int, b: int)
    | Arith(aop: ArithOp, a: int, rb: RK, rc: RK)
    | Unm(a: int, rb: RK)
    | Not(a: int, b: int)
    | Jmp(sbx: int)
    | Cmp(cop: CmpOp, cond: bool, rb: RK, rc: RK)
    | Test(a: int, cond: bool)
    | TestSet(dest: Dest, b: int, cond: bool)
    | ForLoop(a: int, sbx: int)
    | ForPrep(a: int, sbx: int)
    | Return(a: int, count: nat)

  /** The arithmetic of the machine, and what comes of reading a value that is not a number as one
      (FORLOOP does not check). */
  datatype Machine = Machine(arith: (ArithOp, int, int) -> int, raw: Value -> int)

  type Regs = map<int, Value>

  /** The limit on the registers of a function. */
  const MAXSTACK := 250

  /** The constant bit of an operand. */
  const BITRK := 256

  datatype Proto = Proto(code: seq<Instr>, k: seq<Value>, maxstack: int, nups: int, sizeupvalues: int, sizelineinfo: int)

  /** A call of the function: running, returned, stopped by an error, or lost outside the code. */
  datatype Config = At(pc: int, regs: Regs) | Returned(results: seq<Value>) | Error | Lost

  datatype Res = Ok(v: Value) | Err

  function Read(regs: Regs, r: int): Value {
    if r in regs then regs[r] else Nil
  }

  function RkVal(k: seq<Value>, regs: Regs, x: RK): Value {
    match x
    case Reg(r) => Read(regs, r)
    case Kst(i) => if 0 <= i < |k| then k[i] else Nil
  }

  /** The operand as a register number, constant or not. */
  function RegIndex(x: RK): int {
    match x
    case Reg(r) => r
    case Kst(i) => BITRK + i
  }

  /** l_isfalse, negated */
  predicate Truthy(v: Value) {
    v != Nil && v != Bool(false)
  }

  function ArithVal(m: Machine, op: ArithOp, x: Value, y: Value): Res {
    if x.Num? && y.Num? then Ok(Num(m.arith(op, x.n, y.n))) else Err
  }

  function UnmVal(x: Value): Res {
    if x.Num? then Ok(Num(-x.n)) else Err
  }

  function CmpVal(op: CmpOp, x: Value, y: Value): Res {
    if op.Eq? then Ok(Bool(x == y))
    else if x.Num? && y.Num? then Ok(Bool(if op.Lt? then x.n < y.n else x.n <= y.n))
    else Err
  }

  /** The loop of LOADNIL: from R(b) down to R(a), R(b) in any case. */
  function SetNils(regs: Regs, a: int, b: int): Regs
    decreases b - a
  {
    var regs' := regs[b := Nil];
    if b - 1 >= a then SetNils(regs', a, b - 1) else regs'
  }

  function ReadRange(regs: Regs, a: int, count: nat): seq<Value> {
    if count == 0 then [] else ReadRange(regs, a, count - 1) + [Read(regs, a + count - 1)]
  }

  function Number(m: Machine, v: Value): int {
    if v.Num? then v.n else m.raw(v)
  }

  /** A test that succeeds jumps with the jump behind it, one that fails skips it. */
  function Branch(code: seq<Instr>, pc: int, taken: bool, regs: Regs): Config {
    if !taken then At(pc + 2, regs)
    else if 0 <= pc + 1 < |code| && code[pc + 1].Jmp? then At(pc + 2 + code[pc + 1].sbx, regs)
    else Lost
  }

  function Assign(pc: int, regs: Regs, a: int, r: Res): Config {
    match r
    case Ok(v) => At(pc + 1, regs[a := v])
    case Err => Error
  }

  /** One turn of the interpreter loop. */
  function Step(m: Machine, p: Proto, c: Config): Config {
    if !c.At? then c
    else if !(0 <= c.pc < |p.code|) then Lost
    else
      var pc, regs := c.pc, c.regs;
      match p.code[pc]
      case Move(a, b) => At(pc + 1, regs[a := Read(regs, b)])
      case LoadK(a, bx) => At(pc + 1, regs[a := RkVal(p.k, regs, Kst(bx))])
      case LoadBool(a, v, skip) => At(if skip then pc + 2 else pc + 1, regs[a := Bool(v)])
      case LoadNil(a, b) => At(pc + 1, SetNils(regs, a, b))
      case Arith(op, a, b, c) => Assign(pc, regs, a, ArithVal(m, op, RkVal(p.k, regs, b), RkVal(p.k, regs, c)))
      case Unm(a, b) => Assign(pc, regs, a, UnmVal(Read(regs, RegIndex(b))))
      case Not(a, b) => At(pc + 1, regs[a := Bool(!Truthy(Read(regs, b)))])
      case Jmp(sbx) => At(pc + 1 + sbx, regs)
      case Cmp(op, cond, b, c) =>
        var r := CmpVal(op, RkVal(p.k, regs, b), RkVal(p.k, regs, c));
        if r.Err? then Error else Branch(p.code, pc, r.v == Bool(cond), regs)
      case Test(a, cond) => Branch(p.code, pc, Truthy(Read(regs, a)) == cond, regs)
      case TestSet(d, b, cond) =>
        var taken := Truthy(Read(regs, b)) == cond;
        Branch(p.code, pc, taken, if taken && d.ToReg? then regs[d.r := Read(regs, b)] else regs)
      case ForLoop(a, sbx) =>
        var step, limit := Number(m, Read(regs, a + 2)), Number(m, Read(regs, a + 1));
        var idx := m.arith(Add, Number(m, Read(regs, a)), step);
        if (if 0 < step then idx <= limit else limit <= idx)
        then At(pc + 1 + sbx, regs[a := Num(idx)][a + 3 := Num(idx)])
        else At(pc + 1, regs)
      case ForPrep(a, sbx) =>
        if !Read(regs, a).Num? || !Read(regs, a + 1).Num? || !Read(regs, a + 2).Num? then Error
        else At(pc + 1 + sbx, regs[a := Num(m.arith(Sub, Read(regs, a).n, Read(regs, a + 2).n))])
      case Return(a, count) => Returned(ReadRange(regs, a, count))
  }

  function Run(m: Machine, p: Proto, c: Config, steps: nat): Config {
    if steps == 0 then c else Step(m, p, Run(m, p, c, steps - 1))
  }
}
