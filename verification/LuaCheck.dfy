/** The bytecode checker, and what the code it accepts cannot do. */
module LuaCheck {
  import opened LuaVm

  /** The register number the checker is asked about when no register is traced. */
  const NO_REG := 255

  // ----- the checker -----

  predicate CheckReg(p: Proto, r: int) {
    r < p.maxstack
  }

  /** checkArgMode for a constant or register operand. */
  predicate CheckRK(p: Proto, x: RK) {
    match x
    case Reg(r) => CheckReg(p, r)
    case Kst(k) => k < |p.k|
  }

  predicate Precheck(p: Proto)
    requires |p.code| > 0
  {
    && p.maxstack <= MAXSTACK && p.sizeupvalues <= p.nups
    && (p.sizelineinfo == |p.code| || p.sizelineinfo == 0)
    && p.code[|p.code| - 1].Return?
  }

  predicate CheckDest(p: Proto, pc: int, sbx: int) {
    0 <= pc + 1 + sbx < |p.code|
  }

  /** A test must be followed by a jump, and that by another instruction. */
  predicate CheckSkip(p: Proto, pc: int) {
    0 <= pc && pc + 2 < |p.code| && p.code[pc + 1].Jmp?
  }

  /** The operands the field of an instruction word can hold. */
  predicate Encodable(i: Instr) {
    match i
    case Move(a, b) => a >= 0 && b >= 0
    case LoadK(a, bx) => a >= 0 && bx >= 0
    case LoadBool(a, _, _) => a >= 0
    case LoadNil(a, b) => a >= 0 && b >= 0
    case Arith(_, a, b, c) => a >= 0 && EncodableRK(b) && EncodableRK(c)
    case Unm(a, b) => a >= 0 && EncodableRK(b)
    case Not(a, b) => a >= 0 && b >= 0
    case Jmp(_) => true
    case Cmp(_, _, b, c) => EncodableRK(b) && EncodableRK(c)
    case Test(a, _) => a >= 0
    case TestSet(d, b, _) => (d.ToReg? ==> d.r >= 0) && b >= 0
    case ForLoop(a, _) => a >= 0
    case ForPrep(a, _) => a >= 0
    case Return(a, _) => a >= 0
  }

  predicate EncodableRK(x: RK) {
    match x
    case Reg(r) => r >= 0
    case Kst(k) => k >= 0
  }

  /** The checks of one round of symbexec. */
  predicate CheckInstr(p: Proto, pc: int)
    requires 0 <= pc < |p.code|
  {
    match p.code[pc]
    case Move(a, b) => CheckReg(p, a) && CheckReg(p, b)
    case LoadK(a, bx) => CheckReg(p, a) && bx < |p.k|
    case LoadBool(a, _, skip) => CheckReg(p, a) && (!skip || pc + 2 < |p.code|)
    case LoadNil(a, b) => CheckReg(p, a) && CheckReg(p, b)
    case Arith(_, a, b, c) => CheckReg(p, a) && CheckRK(p, b) && CheckRK(p, c)
    case Unm(a, b) => CheckReg(p, a) && CheckReg(p, RegIndex(b))
    case Not(a, b) => CheckReg(p, a) && CheckReg(p, b)
    case Jmp(sbx) => CheckReg(p, 0) && CheckDest(p, pc, sbx)
    case Cmp(_, cond, b, c) => CheckReg(p, if cond then 1 else 0) && CheckRK(p, b) && CheckRK(p, c) && CheckSkip(p, pc)
    case Test(a, _) => CheckReg(p, a) && CheckSkip(p, pc)
    case TestSet(d, b, _) => CheckReg(p, if d.ToReg? then d.r else NO_REG) && CheckReg(p, b) && CheckSkip(p, pc)
    case ForLoop(a, sbx) => CheckReg(p, a) && CheckDest(p, pc, sbx) && CheckReg(p, a + 3)
    case ForPrep(a, sbx) => CheckReg(p, a) && CheckDest(p, pc, sbx) && CheckReg(p, a + 3)
    case Return(a, count) => CheckReg(p, a) && (count > 0 ==> CheckReg(p, a + count - 1))
  }

  function Max(a: int, b: int): int { if a < b then b else a }

  function RegPart(x: RK): int { if x.Reg? then x.r else -1 }
  function ConstPart(x: RK): int { if x.Kst? then x.k else -1 }

  /** The highest register an instruction names or, for a loop, uses. A jump and a comparison are looked at as if
      their unused operand were one, and so is a constant operand of the unary minus. */
  function HighestReg(i: Instr): int {
    match i
    case Move(a, b) => Max(a, b)
    case LoadK(a, _) => a
    case LoadBool(a, _, _) => a
    case LoadNil(a, b) => Max(a, b)
    case Arith(_, a, b, c) => Max(a, Max(RegPart(b), RegPart(c)))
    case Unm(a, b) => Max(a, if b.Reg? then b.r else 256 + b.k)
    case Not(a, b) => Max(a, b)
    case Jmp(_) => 0
    case Cmp(_, cond, b, c) => Max(if cond then 1 else 0, Max(RegPart(b), RegPart(c)))
    case Test(a, _) => a
    case TestSet(d, b, _) => Max(if d.ToReg? then d.r else 255, b)
    case ForLoop(a, _) => a + 3
    case ForPrep(a, _) => a + 3
    case Return(a, count) => Max(a, a + count - 1)
  }

  function HighestConst(i: Instr): int {
    match i
    case LoadK(_, bx) => bx
    case Arith(_, _, b, c) => Max(ConstPart(b), ConstPart(c))
    case Cmp(_, _, b, c) => Max(ConstPart(b), ConstPart(c))
    case _ => -1
  }

  /** Where the instruction goes on: a jump inside the code, a test in front of a jump with more code behind it. */
  ghost predicate GoesInside(p: Proto, pc: int)
    requires 0 <= pc < |p.code|
  {
    var i := p.code[pc];
    && (forall dest :: JumpsTo(p, pc, dest) ==> 0 <= dest < |p.code|)
    && (i.Cmp? || i.Test? || i.TestSet? ==> pc + 2 < |p.code| && p.code[pc + 1].Jmp?)
    && (i.LoadBool? && i.skip ==> pc + 2 < |p.code|)
  }

  /** An instruction passes if and only if the registers are in the frame, the constants exist and it stays inside
      the code. */
  lemma PassesExactly(p: Proto, pc: int)
    requires 0 <= pc < |p.code| && Encodable(p.code[pc]) && p.maxstack >= 0
    ensures CheckInstr(p, pc) <==> HighestReg(p.code[pc]) < p.maxstack && HighestConst(p.code[pc]) < |p.k| && GoesInside(p, pc)
  {
    var i := p.code[pc];
    if i.Jmp? { assert JumpsTo(p, pc, pc + 1 + i.sbx); }
    if i.ForLoop? { assert JumpsTo(p, pc, pc + 1 + i.sbx); }
    if i.ForPrep? { assert JumpsTo(p, pc, pc + 1 + i.sbx); }
  }

  /** The instruction sets register `reg'. */
  predicate Changes(i: Instr, reg: int) {
    match i
    case Move(a, _) => a == reg
    case LoadK(a, _) => a == reg
    case LoadBool(a, _, _) => a == reg
    case LoadNil(a, b) => a == reg || a <= reg <= b
    case Arith(_, a, _, _) => a == reg
    case Unm(a, _) => a == reg
    case Not(a, _) => a == reg
    case Test(a, _) => a == reg
    case TestSet(d, _, _) => (if d.ToReg? then d.r else NO_REG) == reg
    case ForLoop(a, _) => a == reg
    case ForPrep(a, _) => a == reg
    case _ => false
  }

  ghost predicate Accepted(p: Proto)
    requires |p.code| > 0
  {
    Precheck(p) && forall pc :: 0 <= pc < |p.code| ==> CheckInstr(p, pc)
  }

  function JumpOf(i: Instr): int {
    match i
    case Jmp(sbx) => sbx
    case ForLoop(_, sbx) => sbx
    case ForPrep(_, sbx) => sbx
    case _ => -1
  }

  // ----- the instructions looked at when a register is traced -----

  /** The instruction at `pc' is a jump to `dest'. */
  ghost predicate JumpsTo(p: Proto, pc: int, dest: int)
    requires 0 <= pc < |p.code|
  {
    match p.code[pc]
    case Jmp(sbx) => dest == pc + 1 + sbx
    case ForLoop(_, sbx) => dest == pc + 1 + sbx
    case ForPrep(_, sbx) => dest == pc + 1 + sbx
    case _ => false
  }

  /** A forward jump that stays within the range is followed; else the next instruction comes. */
  ghost predicate LeadsTo(p: Proto, lastpc: int, pc: int, next: int)
    requires 0 <= pc < |p.code|
  {
    if JumpsTo(p, pc, next) then pc < next <= lastpc || next == pc + 1
    else next == pc + 1 && forall dest :: JumpsTo(p, pc, dest) ==> !(pc < dest <= lastpc)
  }

  /** The instructions looked at, from the first one on. */
  ghost predicate Walk(p: Proto, lastpc: int, path: seq<int>) {
    && path != [] && path[0] == 0
    && (forall k :: 0 <= k < |path| - 1 ==> 0 <= path[k] < lastpc <= |p.code|)
    && (forall k, l :: 0 <= k && l == k + 1 && l < |path| ==> LeadsTo(p, lastpc, path[k], path[l]))
  }

  /** They end at the end of the range; the end itself is not looked at. */
  ghost predicate WholeWalk(p: Proto, lastpc: int, path: seq<int>) {
    Walk(p, lastpc, path) && path[|path| - 1] == lastpc
  }

  /** The last instruction looked at that changes the register, the final return if there is none. */
  ghost predicate LastChange(p: Proto, path: seq<int>, reg: int, last: int) {
    if exists k :: 0 <= k < |path| - 1 && 0 <= path[k] < |p.code| && Changes(p.code[path[k]], reg) then
      exists k :: 0 <= k < |path| - 1 && path[k] == last && 0 <= last < |p.code| && Changes(p.code[last], reg)
        && forall l :: k < l < |path| - 1 && 0 <= path[l] < |p.code| ==> !Changes(p.code[path[l]], reg)
    else last == |p.code| - 1
  }

  ghost predicate AllPass(p: Proto, path: seq<int>) {
    forall k :: 0 <= k < |path| - 1 && 0 <= path[k] < |p.code| ==> CheckInstr(p, path[k])
  }

  lemma LeadsAhead(p: Proto, lastpc: int, pc: int, next: int)
    requires 0 <= pc < lastpc <= |p.code| && LeadsTo(p, lastpc, pc, next)
    ensures pc < next <= lastpc
  {
  }

  lemma {:induction false} WalkUnique(p: Proto, lastpc: int, a: seq<int>, b: seq<int>, k: int)
    requires WholeWalk(p, lastpc, a) && WholeWalk(p, lastpc, b) && 0 <= k < |a|
    ensures k < |b| && a[k] == b[k]
  {
    if k > 0 {
      WalkUnique(p, lastpc, a, b, k - 1);
      assert LeadsTo(p, lastpc, a[k - 1], a[k]);
      assert k < |b|;
      assert LeadsTo(p, lastpc, b[k - 1], b[k]);
    }
  }

  /** One more instruction: what it changes is now the last change. */
  lemma WalkOn(p: Proto, lastpc: int, reg: int, path: seq<int>, next: int, last: int)
    requires |p.code| > 0 && Walk(p, lastpc, path) && LastChange(p, path, reg, last) && AllPass(p, path)
    requires var pc := path[|path| - 1]; 0 <= pc < lastpc <= |p.code| && LeadsTo(p, lastpc, pc, next) && CheckInstr(p, pc)
    ensures var pc := path[|path| - 1]; var path' := path + [next];
      Walk(p, lastpc, path') && AllPass(p, path') && LastChange(p, path', reg, if Changes(p.code[pc], reg) then pc else last)
  {
    hide CheckInstr, Changes, LeadsTo;
    var n, path' := |path|, path + [next];
    assert forall k :: 0 <= k < n ==> path'[k] == path[k];
    WalkMore(p, lastpc, path, next);
    ChangeMore(p, reg, path, next, last);
  }

  lemma WalkMore(p: Proto, lastpc: int, path: seq<int>, next: int)
    requires Walk(p, lastpc, path) && var pc := path[|path| - 1]; 0 <= pc < lastpc <= |p.code| && LeadsTo(p, lastpc, pc, next)
    ensures Walk(p, lastpc, path + [next])
  {
    hide LeadsTo;
  }

  lemma ChangeMore(p: Proto, reg: int, path: seq<int>, next: int, last: int)
    requires path != [] && LastChange(p, path, reg, last) && var pc := path[|path| - 1]; 0 <= pc < |p.code|
    ensures LastChange(p, path + [next], reg, if Changes(p.code[path[|path| - 1]], reg) then path[|path| - 1] else last)
  {
    hide Changes;
    var n, path' := |path|, path + [next];
    assert forall k :: 0 <= k < n ==> path'[k] == path[k];
    if Changes(p.code[path[n - 1]], reg) {
      assert path'[n - 1] == path[n - 1];
    }
  }

  /** symbexec. Tracing a register it follows forward jumps that stay within the range, so that it
      looks at some of the instructions only; otherwise at every one. */
  method SymbExec(p: Proto, lastpc: int, reg: int) returns (ok: bool, last: int, ghost path: seq<int>)
    requires |p.code| > 0 && 0 <= lastpc <= |p.code|
    ensures reg == NO_REG ==> (ok <==> Precheck(p) && forall pc :: 0 <= pc < lastpc ==> CheckInstr(p, pc))
    ensures ok && reg == NO_REG ==> last == |p.code| - 1
    ensures ok && reg != NO_REG ==> WholeWalk(p, lastpc, path) && AllPass(p, path) && LastChange(p, path, reg, last)
    ensures !ok && reg != NO_REG && Precheck(p) ==>
      Walk(p, lastpc, path) && var pc := path[|path| - 1]; 0 <= pc < lastpc && !CheckInstr(p, pc)
  {
    hide CheckInstr, Changes, LeadsTo, Walk, LastChange, AllPass;
    last, path := |p.code| - 1, [0];
    if !Precheck(p) { return false, last, path; }
    var pc := 0;
    WalkStart(p, lastpc, reg);
    while pc < lastpc
      invariant 0 <= pc <= lastpc && path != [] && path[|path| - 1] == pc
      invariant reg == NO_REG ==> last == |p.code| - 1 && forall q :: 0 <= q < pc ==> CheckInstr(p, q)
      invariant reg != NO_REG ==> Walk(p, lastpc, path) && AllPass(p, path) && LastChange(p, path, reg, last)
    {
      var i := p.code[pc];
      if !CheckInstr(p, pc) { return false, last, path; }
      ghost var pc0, last0 := pc, last;
      if Changes(i, reg) {
        NoChange(p, pc);
        last := pc;
      }
      if reg != NO_REG && pc < pc + 1 + JumpOf(i) <= lastpc {
        pc := pc + JumpOf(i);
      }
      pc := pc + 1;
      if reg != NO_REG {
        RoundLeads(p, lastpc, pc0, pc);
        WalkOn(p, lastpc, reg, path, pc, last0);
      }
      path := path + [pc];
    }
    ok := true;
  }

  lemma WalkStart(p: Proto, lastpc: int, reg: int)
    ensures Walk(p, lastpc, [0]) && AllPass(p, [0]) && LastChange(p, [0], reg, |p.code| - 1)
  {
  }

  lemma RoundLeads(p: Proto, lastpc: int, pc: int, next: int)
    requires 0 <= pc < lastpc <= |p.code| && next == pc + 1 + if pc < pc + 1 + JumpOf(p.code[pc]) <= lastpc then JumpOf(p.code[pc]) else 0
    ensures LeadsTo(p, lastpc, pc, next)
  {
  }

  /** luaG_checkcode */
  method CheckCode(p: Proto) returns (ok: bool)
    requires |p.code| > 0
    ensures ok <==> Accepted(p)
  {
    var last;
    ghost var path;
    ok, last, path := SymbExec(p, |p.code|, NO_REG);
  }

  lemma NoChange(p: Proto, pc: int)
    requires |p.code| > 0 && Precheck(p) && 0 <= pc < |p.code| && CheckInstr(p, pc)
    ensures !Changes(p.code[pc], NO_REG)
  {
  }

  // ----- what an instruction touches -----

  function Operand(x: RK): set<int> {
    if x.Reg? then {x.r} else {}
  }

  function ConstOperand(x: RK): set<int> {
    if x.Kst? then {x.k} else {}
  }

  function Span(a: int, b: int): (s: set<int>)
    ensures forall r :: r in s <==> a <= r <= b
    decreases b - a
  {
    if a > b then {} else Span(a, b - 1) + {b}
  }

  /** The registers an instruction may read or write. */
  function Touched(i: Instr): set<int> {
    match i
    case Move(a, b) => {a, b}
    case LoadK(a, _) => {a}
    case LoadBool(a, _, _) => {a}
    case LoadNil(a, b) => Span(a, b) + {b}
    case Arith(_, a, b, c) => {a} + Operand(b) + Operand(c)
    case Unm(a, b) => {a, RegIndex(b)}
    case Not(a, b) => {a, b}
    case Jmp(_) => {}
    case Cmp(_, _, b, c) => Operand(b) + Operand(c)
    case Test(a, _) => {a}
    case TestSet(d, b, _) => {b} + if d.ToReg? then {d.r} else {}
    case ForLoop(a, _) => {a, a + 1, a + 2, a + 3}
    case ForPrep(a, _) => {a, a + 1, a + 2}
    case Return(a, count) => Span(a, a + count - 1)
  }

  function Constants(i: Instr): set<int> {
    match i
    case LoadK(_, bx) => {bx}
    case Arith(_, _, b, c) => ConstOperand(b) + ConstOperand(c)
    case Cmp(_, _, b, c) => ConstOperand(b) + ConstOperand(c)
    case _ => {}
  }

  lemma {:induction false} SetNilsWrites(regs: Regs, a: int, b: int)
    ensures forall r :: r !in Span(a, b) + {b} ==> Read(SetNils(regs, a, b), r) == Read(regs, r)
    ensures forall r :: r in Span(a, b) + {b} ==> Read(SetNils(regs, a, b), r) == Nil
    decreases b - a
  {
    if b - 1 >= a { SetNilsWrites(regs[b := Nil], a, b - 1); }
  }

  /** A register that a step changes is one the instruction counts as changing, but for the copy of the index a
      loop gives its body and an empty LOADNIL, which still sets one register. */
  lemma ChangesSound(m: Machine, p: Proto, c: Config, r: int)
    requires c.At? && 0 <= c.pc < |p.code| && Step(m, p, c).At? && Read(Step(m, p, c).regs, r) != Read(c.regs, r)
    ensures var i := p.code[c.pc];
      Changes(i, r) || (i.ForLoop? && r == i.a + 3) || (i.LoadNil? && i.b < i.a && r == i.b)
  {
    var i := p.code[c.pc];
    if i.LoadNil? { SetNilsWrites(c.regs, i.a, i.b); }
  }

  ghost predicate Same(x: Regs, y: Regs, s: set<int>) {
    forall r :: r in s ==> Read(x, r) == Read(y, r)
  }

  /** Nothing but the registers touched is written. */
  lemma StepWrites(m: Machine, p: Proto, c: Config)
    requires c.At? && 0 <= c.pc < |p.code|
    ensures Step(m, p, c).At? ==> forall r :: r !in Touched(p.code[c.pc]) ==> Read(Step(m, p, c).regs, r) == Read(c.regs, r)
  {
    var i := p.code[c.pc];
    if i.LoadNil? { SetNilsWrites(c.regs, i.a, i.b); }
  }

  lemma {:induction false} ReadRangeSame(x: Regs, y: Regs, a: int, count: nat)
    requires Same(x, y, Span(a, a + count - 1))
    ensures ReadRange(x, a, count) == ReadRange(y, a, count)
  {
    if count > 0 { ReadRangeSame(x, y, a, count - 1); }
  }

  /** Two steps from registers that agree where the instruction looks. */
  ghost predicate StepsAgree(m: Machine, p: Proto, c: Config, y: Regs)
    requires c.At? && 0 <= c.pc < |p.code|
  {
    var c', d := Step(m, p, c), Step(m, p, At(c.pc, y));
    if c'.At? then d.At? && d.pc == c'.pc && Same(c'.regs, d.regs, Touched(p.code[c.pc])) else d == c'
  }

  lemma LoopReads(m: Machine, p: Proto, c: Config, y: Regs)
    requires c.At? && 0 <= c.pc < |p.code| && Same(c.regs, y, Touched(p.code[c.pc])) && (p.code[c.pc].ForLoop? || p.code[c.pc].ForPrep?)
    ensures StepsAgree(m, p, c, y)
  {
    var i := p.code[c.pc];
    assert i.a in Touched(i) && i.a + 1 in Touched(i) && i.a + 2 in Touched(i);
    assert i.ForLoop? ==> i.a + 3 in Touched(i);
  }

  lemma TestReads(m: Machine, p: Proto, c: Config, y: Regs)
    requires c.At? && 0 <= c.pc < |p.code| && Same(c.regs, y, Touched(p.code[c.pc]))
    requires p.code[c.pc].Cmp? || p.code[c.pc].Test? || p.code[c.pc].TestSet?
    ensures StepsAgree(m, p, c, y)
  {
    var i := p.code[c.pc];
    assert i.Cmp? && i.rb.Reg? ==> i.rb.r in Touched(i);
    assert i.Cmp? && i.rc.Reg? ==> i.rc.r in Touched(i);
    assert i.Test? ==> i.a in Touched(i);
    assert i.TestSet? ==> i.b in Touched(i);
  }

  /** Nothing but the registers touched is read: they and the constants of the instruction decide
      where it goes, what it returns and what it writes. */
  lemma StepReads(m: Machine, p: Proto, c: Config, y: Regs)
    requires c.At? && 0 <= c.pc < |p.code| && Same(c.regs, y, Touched(p.code[c.pc]))
    ensures StepsAgree(m, p, c, y)
  {
    var i := p.code[c.pc];
    if i.ForLoop? || i.ForPrep? {
      LoopReads(m, p, c, y);
    } else if i.Cmp? || i.Test? || i.TestSet? {
      TestReads(m, p, c, y);
    } else if i.LoadNil? {
      SetNilsWrites(c.regs, i.a, i.b);
      SetNilsWrites(y, i.a, i.b);
    } else if i.Return? {
      ReadRangeSame(c.regs, y, i.a, i.count);
    } else {
      assert i.Move? || i.Not? ==> i.b in Touched(i);
      assert i.Arith? && i.rb.Reg? ==> i.rb.r in Touched(i);
      assert i.Arith? && i.rc.Reg? ==> i.rc.r in Touched(i);
      assert i.Unm? ==> RegIndex(i.rb) in Touched(i);
    }
  }

  // ----- soundness -----

  /** Executing the next instruction stays inside the code, the registers and the constants. */
  ghost predicate Contained(p: Proto, c: Config) {
    c.At? ==>
      && 0 <= c.pc < |p.code|
      && (forall r :: r in Touched(p.code[c.pc]) ==> 0 <= r < p.maxstack)
      && (forall k :: k in Constants(p.code[c.pc]) ==> 0 <= k < |p.k|)
  }

  lemma InstrContained(p: Proto, pc: int, regs: Regs)
    requires |p.code| > 0 && Accepted(p) && 0 <= pc < |p.code| && Encodable(p.code[pc])
    ensures Contained(p, At(pc, regs))
  {
    assert CheckInstr(p, pc);
  }

  lemma StepInside(m: Machine, p: Proto, c: Config)
    requires |p.code| > 0 && Accepted(p) && c.At? && 0 <= c.pc < |p.code|
    ensures Step(m, p, c).At? ==> 0 <= Step(m, p, c).pc < |p.code|
    ensures Step(m, p, c) != Lost
  {
    var pc := c.pc;
    assert CheckInstr(p, pc);
    if CheckSkip(p, pc) { assert CheckInstr(p, pc + 1); }
  }

  /** No run of accepted code, from any instruction and any registers, ever leaves the code, touches
      a register outside the frame or reads a constant that does not exist. */
  lemma {:induction false} CheckSound(m: Machine, p: Proto, pc: int, regs: Regs, steps: nat)
    requires |p.code| > 0 && Accepted(p) && 0 <= pc < |p.code|
    requires forall i :: 0 <= i < |p.code| ==> Encodable(p.code[i])
    ensures Contained(p, Run(m, p, At(pc, regs), steps))
    ensures Run(m, p, At(pc, regs), steps) != Lost
  {
    if steps == 0 {
      InstrContained(p, pc, regs);
    } else {
      CheckSound(m, p, pc, regs, steps - 1);
      var c := Run(m, p, At(pc, regs), steps - 1);
      if c.At? {
        StepInside(m, p, c);
        var d := Step(m, p, c);
        if d.At? { InstrContained(p, d.pc, d.regs); }
      }
    }
  }
}
