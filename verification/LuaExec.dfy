/** Running code that is still being generated: jumps without a target leave it. */
module LuaExec {
  import opened LuaVm
  import opened LuaCode

  /** The end was reached, or a jump without a target, or a run-time error. */
  datatype Outcome = Fall(regs: Regs) | Out(j: int, regs: Regs) | Stop | Bad

  function Stored(regs: Regs, a: int, r: Res): Outcome {
    match r
    case Ok(v) => Fall(regs[a := v])
    case Err => Stop
  }

  /** What an instruction that neither jumps nor tests does to the registers. */
  function Effect(m: Machine, k: seq<Value>, i: Instr, regs: Regs): Outcome {
    match i
    case Move(a, b) => Fall(regs[a := Read(regs, b)])
    case LoadK(a, bx) => Fall(regs[a := RkVal(k, regs, Kst(bx))])
    case LoadBool(a, v, _) => Fall(regs[a := Bool(v)])
    case LoadNil(a, b) => Fall(SetNils(regs, a, b))
    case Arith(op, a, b, c) => Stored(regs, a, ArithVal(m, op, RkVal(k, regs, b), RkVal(k, regs, c)))
    case Unm(a, b) => Stored(regs, a, UnmVal(Read(regs, RegIndex(b))))
    case Not(a, b) => Fall(regs[a := Bool(!Truthy(Read(regs, b)))])
    case _ => Bad
  }

  /** Whether a test jumps. */
  function Taken(k: seq<Value>, i: Instr, regs: Regs): Res {
    match i
    case Cmp(op, cond, b, c) =>
      var r := CmpVal(op, RkVal(k, regs, b), RkVal(k, regs, c));
      if r.Err? then Err else Ok(Bool(r.v == Bool(cond)))
    case Test(a, cond) => Ok(Bool(Truthy(Read(regs, a)) == cond))
    case TestSet(_, b, cond) => Ok(Bool(Truthy(Read(regs, b)) == cond))
    case _ => Err
  }

  /** The registers when a test has jumped. */
  function Kept(i: Instr, regs: Regs): Regs {
    if i.TestSet? && i.dest.ToReg? then regs[i.dest.r := Read(regs, i.b)] else regs
  }

  function Width(i: Instr): int {
    if i.LoadBool? && i.skip then 2 else 1
  }

  function Exec(m: Machine, k: seq<Value>, code: seq<Instr>, pc: int, regs: Regs): Outcome
    decreases |code| - pc
  {
    if pc == |code| then Fall(regs)
    else if pc < 0 || pc > |code| then Bad
    else
      var i := code[pc];
      if i.Jmp? then
        if i.sbx == NO_JUMP then Out(pc, regs) else if i.sbx >= 0 then Exec(m, k, code, pc + 1 + i.sbx, regs) else Bad
      else if IsTest(i) then
        var c := Taken(k, i, regs);
        if c.Err? then Stop
        else if c.v == Bool(false) then Exec(m, k, code, pc + 2, regs)
        else if pc + 1 < |code| && code[pc + 1].Jmp? then Exec(m, k, code, pc + 1, Kept(i, regs))
        else Bad
      else
        var o := Effect(m, k, i, regs);
        if o.Fall? then Exec(m, k, code, pc + Width(i), o.regs) else o
  }

  // ----- well-formed code -----

  /** Control comes to `pc' other than from a test that jumps. */
  predicate Landing(code: seq<Instr>, pc: int) {
    1 <= pc <= |code| ==> !IsTest(code[pc - 1])
  }

  predicate InstrOk(code: seq<Instr>, i: int, limit: int)
    requires 0 <= i < |code|
  {
    match code[i]
    case Jmp(sbx) => sbx == NO_JUMP || (sbx >= 0 && i + 1 + sbx <= limit && Landing(code, i + 1 + sbx))
    case LoadBool(_, _, skip) => skip ==> i + 2 <= limit && i + 1 < |code| && code[i + 1].LoadBool?
    case LoadNil(a, b) => a <= b
    case ForLoop(_, _) => false
    case ForPrep(_, _) => false
    case Return(_, _) => false
    case _ => IsTest(code[i]) ==> i + 1 < |code| && code[i + 1].Jmp?
  }

  /** Every test has its jump, and every jump is open or goes forward to a place not beyond `limit'. */
  ghost predicate WellFormed(code: seq<Instr>, limit: int) {
    limit <= |code| && forall i :: 0 <= i < |code| ==> InstrOk(code, i, limit)
  }

  lemma {:induction false} ExecGood(m: Machine, k: seq<Value>, code: seq<Instr>, limit: int, pc: int, regs: Regs)
    requires WellFormed(code, limit) && 0 <= pc <= |code|
    ensures Exec(m, k, code, pc, regs) != Bad
    ensures Exec(m, k, code, pc, regs).Out? ==> OpenAt(code, Exec(m, k, code, pc, regs).j)
    decreases |code| - pc
  {
    if pc < |code| {
      var i := code[pc];
      assert InstrOk(code, pc, limit);
      if i.Jmp? {
        if i.sbx != NO_JUMP { ExecGood(m, k, code, limit, pc + 1 + i.sbx, regs); }
      } else if IsTest(i) {
        var c := Taken(k, i, regs);
        if c.Ok? {
          if c.v == Bool(false) { ExecGood(m, k, code, limit, pc + 2, regs); } else { ExecGood(m, k, code, limit, pc + 1, Kept(i, regs)); }
        }
      } else {
        var o := Effect(m, k, i, regs);
        if o.Fall? { ExecGood(m, k, code, limit, pc + Width(i), o.regs); }
      }
    }
  }

  /** A jump without a target. */
  predicate OpenAt(code: seq<Instr>, j: int) {
    0 <= j < |code| && code[j] == Jmp(NO_JUMP)
  }

  /** Appended code is run where the code before falls off its end. */
  lemma {:induction false} ExecAppend(m: Machine, k: seq<Value>, code: seq<Instr>, ext: seq<Instr>, pc: int, regs: Regs)
    requires Exec(m, k, code, pc, regs) != Bad
    ensures var o := Exec(m, k, code, pc, regs);
            Exec(m, k, code + ext, pc, regs) == if o.Fall? then Exec(m, k, code + ext, |code|, o.regs) else o
    decreases |code| - pc
  {
    if pc < |code| {
      var i := code[pc];
      assert (code + ext)[pc] == i;
      if i.Jmp? {
        if i.sbx != NO_JUMP { ExecAppend(m, k, code, ext, pc + 1 + i.sbx, regs); }
      } else if IsTest(i) {
        var c := Taken(k, i, regs);
        if c.Ok? {
          if c.v == Bool(false) { ExecAppend(m, k, code, ext, pc + 2, regs); }
          else {
            assert (code + ext)[pc + 1] == code[pc + 1];
            ExecAppend(m, k, code, ext, pc + 1, Kept(i, regs));
          }
        }
      } else {
        var o := Effect(m, k, i, regs);
        if o.Fall? { ExecAppend(m, k, code, ext, pc + Width(i), o.regs); }
      }
    }
  }

  // ----- giving jumps their targets -----

  /** `code2' is `code' with targets for the jumps in `list'; a test that keeps its value may be told
      where to put it if its jump is one of them, or told not to keep it. */
  ghost predicate PatchedAt(code: seq<Instr>, code2: seq<Instr>, list: set<int>, i: int)
    requires |code2| == |code| && 0 <= i < |code|
  {
    if i in list then code[i] == Jmp(NO_JUMP) && code2[i].Jmp? && code2[i].sbx >= 0
    else
      || code2[i] == code[i]
      || (code[i].TestSet? && code[i].dest.NoReg? && code2[i] == Test(code[i].b, code[i].cond))
      || (i + 1 in list && code[i].TestSet? && code[i].dest.NoReg? && code2[i].TestSet? && code2[i] == code[i].(dest := code2[i].dest))
  }

  ghost predicate Patched(code: seq<Instr>, code2: seq<Instr>, list: set<int>) {
    |code2| == |code| && forall i :: 0 <= i < |code| ==> PatchedAt(code, code2, list, i)
  }

  /** The registers after patched jump `j'. */
  function AfterJump(code2: seq<Instr>, j: int, regs: Regs): Regs {
    if 1 <= j <= |code2| then Kept(code2[j - 1], regs) else regs
  }

  /** Where a run of the code went out by `j', the patched code goes on from the target of `j'. */
  function Continued(m: Machine, k: seq<Value>, code2: seq<Instr>, list: set<int>, o: Outcome): Outcome {
    if o.Out? && o.j in list && 0 <= o.j < |code2| && code2[o.j].Jmp?
    then Exec(m, k, code2, o.j + 1 + code2[o.j].sbx, AfterJump(code2, o.j, o.regs))
    else o
  }

  lemma PatchedTest(code: seq<Instr>, code2: seq<Instr>, list: set<int>, limit: int, k: seq<Value>, pc: int, regs: Regs)
    requires Patched(code, code2, list) && WellFormed(code, limit) && 0 <= pc < |code| && IsTest(code[pc])
    ensures IsTest(code2[pc]) && Taken(k, code2[pc], regs) == Taken(k, code[pc], regs)
    ensures pc + 1 < |code| && code[pc + 1].Jmp? && code2[pc + 1].Jmp?
    ensures pc + 1 !in list ==> code2[pc + 1] == code[pc + 1] && Kept(code2[pc], regs) == Kept(code[pc], regs)
    ensures pc + 1 in list ==> Kept(code2[pc], regs) == AfterJump(code2, pc + 1, regs) && code[pc + 1] == Jmp(NO_JUMP) && code2[pc + 1].sbx >= 0
  {
    assert InstrOk(code, pc, limit);
    assert PatchedAt(code, code2, list, pc) && PatchedAt(code, code2, list, pc + 1);
  }

  /** In code under construction a test keeps its value only for an open jump without a register. */
  ghost predicate Unkept(code: seq<Instr>, list: set<int>) {
    forall j :: j in list && 1 <= j <= |code| && code[j - 1].TestSet? ==> code[j - 1].dest.NoReg?
  }

  lemma {:induction false} ExecPatch(m: Machine, k: seq<Value>, code: seq<Instr>, code2: seq<Instr>, list: set<int>, limit: int, pc: int, regs: Regs)
    requires WellFormed(code, limit) && Patched(code, code2, list) && Unkept(code, list) && 0 <= pc <= |code| && Landing(code, pc)
    ensures Exec(m, k, code2, pc, regs) == Continued(m, k, code2, list, Exec(m, k, code, pc, regs))
    decreases |code| - pc
  {
    if pc < |code| {
      var i := code[pc];
      assert InstrOk(code, pc, limit) && PatchedAt(code, code2, list, pc);
      if i.Jmp? {
        if i.sbx != NO_JUMP { ExecPatch(m, k, code, code2, list, limit, pc + 1 + i.sbx, regs); }
        else if pc > 0 { assert PatchedAt(code, code2, list, pc - 1); }
      } else if IsTest(i) {
        ExecPatchTest(m, k, code, code2, list, limit, pc, regs);
      } else {
        var o := Effect(m, k, i, regs);
        if o.Fall? { ExecPatch(m, k, code, code2, list, limit, pc + Width(i), o.regs); }
      }
    }
  }

  lemma {:induction false} ExecPatchTest(m: Machine, k: seq<Value>, code: seq<Instr>, code2: seq<Instr>, list: set<int>, limit: int, pc: int, regs: Regs)
    requires WellFormed(code, limit) && Patched(code, code2, list) && Unkept(code, list) && 0 <= pc < |code| && IsTest(code[pc])
    ensures Exec(m, k, code2, pc, regs) == Continued(m, k, code2, list, Exec(m, k, code, pc, regs))
    decreases |code| - pc, 0
  {
    PatchedTest(code, code2, list, limit, k, pc, regs);
    var i := code[pc];
    var c := Taken(k, i, regs);
    if c.Ok? {
      if c.v == Bool(false) { ExecPatch(m, k, code, code2, list, limit, pc + 2, regs); }
      else {
        assert InstrOk(code, pc + 1, limit);
        var regs1 := Kept(i, regs);
        if code[pc + 1].sbx != NO_JUMP { ExecPatch(m, k, code, code2, list, limit, pc + 2 + code[pc + 1].sbx, regs1); }
      }
    }
  }
}
