/** An expression for which the generated code can return the wrong value: ((x or false) and true) or false
    for a local x. The jump that leaves `x or false' with a value is pending when the `true' after it makes
    generation jump always; it joins that jump instead of losing its value. */
module LuaClash {
  import opened LuaVm
  import opened LuaCode
  import opened LuaReturn
  import opened LuaText
  import P = LuaOpen

  const Inner := EBin(OrOp, ELocal(0), EFalse)
  const Middle := EBin(AndOp, Inner, ETrue)
  const Whole := EBin(OrOp, Middle, EFalse)

  function After(code: seq<Instr>, jpc: seq<int>, lasttarget: int): Fs {
    Fs(code, jpc, lasttarget, 1, 1, 2, [], map[], false)
  }

  const First := [TestSet(NoReg, 0, true), Jmp(NO_JUMP)]

  lemma JumpHere(fs: Fs)
    ensures Jump(fs) == (fs.(code := fs.code + [Jmp(NO_JUMP)], jpc := []), [|fs.code|] + fs.jpc)
  {
  }

  lemma InnerCode(m: Machine)
    ensures Compile(m, NewFunction(1), Inner) == (After(First, [], 2), Exp(VFalse, [1], []))
  {
    var fs := NewFunction(1);
    var fs1 := Emit(fs, TestSet(NoReg, 0, true));
    assert fs1 == After([TestSet(NoReg, 0, true)], [], -1);
    JumpHere(fs1);
    assert fs1.code + [Jmp(NO_JUMP)] == First && [1] + [] == [1] && [] + [1] == [1];
    assert CondJump(fs, TestSet(NoReg, 0, true)) == (After(First, [], -1), [1]);
    var e := Exp(VNonReloc(0), [], []);
    assert JumpOnCond(fs, e, true) == (After(First, [], -1), e, [1]);
    var none: seq<int> := [];
    assert none + none == none;
    assert GoIfFalse(fs, Exp(VLocal(0), [], [])) == (After(First, [], 2), Exp(VNonReloc(0), [1], []));
  }

  lemma MiddleCode(m: Machine)
    ensures Compile(m, NewFunction(1), Middle) == (After(First + [Jmp(NO_JUMP)], [1], 3), Exp(VTrue, [], [2]))
  {
    InnerCode(m);
    var fs := After(First, [], 2);
    JumpHere(fs);
    assert [] + [1] == [1] && [2] + [] == [2] && [] + [2] == [2];
    assert Jump(fs) == (After(First + [Jmp(NO_JUMP)], [], 2), [2]);
    assert GoIfTrue(fs, Exp(VFalse, [1], [])) == (After(First + [Jmp(NO_JUMP)], [1], 3), Exp(VFalse, [], [2]));
  }

  lemma WholeCode(m: Machine)
    ensures Compile(m, NewFunction(1), Whole) == (After(First + [Jmp(NO_JUMP), Jmp(NO_JUMP)], [2], 4), Exp(VFalse, [3, 1], []))
  {
    MiddleCode(m);
    var code := First + [Jmp(NO_JUMP)];
    var fs := After(code, [1], 3);
    assert code + [Jmp(NO_JUMP)] == First + [Jmp(NO_JUMP), Jmp(NO_JUMP)];
    JumpHere(fs);
    assert [3] + [1] == [3, 1] && [] + [3, 1] == [3, 1] && [] + [2] == [2] && [3, 1] + [] == [3, 1];
    assert Jump(fs) == (After(First + [Jmp(NO_JUMP), Jmp(NO_JUMP)], [], 3), [3, 1]);
    assert GoIfFalse(fs, Exp(VTrue, [], [2])) == (After(First + [Jmp(NO_JUMP), Jmp(NO_JUMP)], [2], 4), Exp(VTrue, [3, 1], []));
  }

  /** The finished code: the test of the local jumps to the end with the local in the register. */
  const Code := [
    TestSet(ToReg(1), 0, true), Jmp(6), Jmp(1), Jmp(3), LoadBool(1, false, false), Jmp(2),
    LoadBool(1, false, true), LoadBool(1, true, false), Return(1, 1), Return(0, 0)]

  const WholeState := After(First + [Jmp(NO_JUMP), Jmp(NO_JUMP)], [2], 4)
  const WholeExp := Exp(VFalse, [3, 1], [])

  const RegState := Fs(Closed, [5], 8, 2, 1, 2, [], map[], false)

  lemma InRegister()
    ensures Exp2AnyReg(WholeState, WholeExp) == (RegState, Exp(VNonReloc(1), [], []))
  {
    hide Emit, CloseLists;
    var fs1 := WholeState.(freereg := 2);
    assert ReserveRegs(WholeState, 1) == fs1;
    var fs2 := fs1.(code := First + [Jmp(1), Jmp(NO_JUMP), LoadBool(1, false, false)], jpc := []);
    LoadFalse(fs1);
    CloseCode(fs2);
    assert Discharge2Reg(fs1, WholeExp, 1) == (fs2, WholeExp.(k := VNonReloc(1)));
  }

  lemma WholeFinished(m: Machine)
    ensures Finished(ReturnExpr(m, NewFunction(1), Whole).0).code == Code
  {
    hide Compile, Emit, Exp2AnyReg, ReturnExpr, After, NewFunction;
    WholeCode(m);
    InRegister();
    P.ReturnIs(m, 1, Whole, WholeState, WholeExp, RegState, Exp(VNonReloc(1), [], []));
    LastCode(RegState);
  }

  lemma LoadFalse(fs1: Fs)
    requires fs1 == After(First + [Jmp(NO_JUMP), Jmp(NO_JUMP)], [2], 4).(freereg := 2)
    ensures Emit(fs1, LoadBool(1, false, false)) == fs1.(code := First + [Jmp(1), Jmp(NO_JUMP), LoadBool(1, false, false)], jpc := [])
  {
    var d := FixJump(fs1, 2, 4);
    assert d.code == First + [Jmp(1), Jmp(NO_JUMP)];
    assert PatchListAux(fs1, [2], 4, NoReg, 4) == PatchListAux(d, [], 4, NoReg, 4);
    assert d.code + [LoadBool(1, false, false)] == First + [Jmp(1), Jmp(NO_JUMP), LoadBool(1, false, false)];
  }

  const Closed := [
    TestSet(ToReg(1), 0, true), Jmp(6), Jmp(1), Jmp(3), LoadBool(1, false, false), Jmp(NO_JUMP),
    LoadBool(1, false, true), LoadBool(1, true, false)]

  lemma CloseCode(fs2: Fs)
    requires fs2.code == First + [Jmp(1), Jmp(NO_JUMP), LoadBool(1, false, false)] && fs2.jpc == [] && !fs2.failed
    ensures CloseLists(fs2, [3, 1], [], 1, false) == fs2.(code := Closed, jpc := [5], lasttarget := 8)
  {
    assert NeedValue(fs2.code, [3, 1]);
    var (fs3, fj) := Jump(fs2);
    assert fj == [5] && fs3.code == fs2.code + [Jmp(NO_JUMP)];
    var fs4 := PatchToHere(LoadBools(fs3, 1), fj);
    assert fs4.code == fs3.code + [LoadBool(1, false, true), LoadBool(1, true, false)];
    assert |fs4.code| == 8 && fs4.jpc == [5];
    var fs5 := GetLabel(fs4);
    var fs6 := FixJump(fs5, 3, 7);
    assert [3, 1][1..] == [1];
    assert PatchListAux(fs5, [3, 1], 8, ToReg(1), 7) == PatchListAux(fs6, [1], 8, ToReg(1), 7);
    var fs7 := FixJump(PatchTestReg(fs6, 1, ToReg(1)), 1, 8);
    assert PatchListAux(fs6, [1], 8, ToReg(1), 7) == PatchListAux(fs7, [], 8, ToReg(1), 7);
    assert fs7.code == Closed;
  }

  lemma LastCode(fs3: Fs)
    requires fs3.code == Closed && fs3.jpc == [5]
    ensures Finished(Emit(fs3, Return(1, 1))).code == Code
  {
    FinishedCode(fs3, Return(1, 1));
    var d := FixJump(fs3, 5, 8);
    assert PatchListAux(fs3, [5], 8, NoReg, 8) == PatchListAux(d, [], 8, NoReg, 8);
  }

  lemma WholeValue(m: Machine, regs: Regs)
    ensures Eval(m, Whole, regs) == Ok(Bool(Truthy(Read(regs, 0))))
  {
    var x := Read(regs, 0);
    assert Eval(m, Inner, regs) == Ok(if Truthy(x) then x else Bool(false));
    assert Eval(m, Middle, regs) == Ok(Bool(Truthy(x)));
  }

  lemma FirstStep(m: Machine, p: Proto, regs: Regs)
    requires p.code == Code
    ensures var x := Read(regs, 0); Step(m, p, At(0, regs)) == if Truthy(x) then At(8, regs[1 := x]) else At(2, regs)
  {
    assert p.code[0] == TestSet(ToReg(1), 0, true) && p.code[1] == Jmp(6);
  }

  lemma FalseSteps(m: Machine, p: Proto, regs: Regs)
    requires p.code == Code
    ensures var r1 := regs[1 := Bool(false)];
      && Step(m, p, At(2, regs)) == At(4, regs) && Step(m, p, At(4, regs)) == At(5, r1) && Step(m, p, At(5, r1)) == At(8, r1)
  {
    assert p.code[2] == Jmp(1) && p.code[4] == LoadBool(1, false, false) && p.code[5] == Jmp(2);
  }

  lemma LastStep(m: Machine, p: Proto, regs: Regs, v: Value)
    requires p.code == Code
    ensures Step(m, p, At(8, regs[1 := v])) == Returned([v])
  {
    assert p.code[8] == Return(1, 1);
    ReturnsOne(m, p, 8, regs[1 := v], 1);
  }

  lemma Steps(m: Machine, p: Proto, regs: Regs)
    requires p.code == Code
    ensures var x := Read(regs, 0); Run(m, p, At(0, regs), 5) == Returned([if Truthy(x) then x else Bool(false)])
  {
    hide Step, Run;
    var x, s0 := Read(regs, 0), At(0, regs);
    FirstStep(m, p, regs);
    Two(m, p, s0);
    if Truthy(x) {
      LastStep(m, p, regs, x);
      RunMore(m, p, s0, 2, 3);
      Done(m, p, [x], 3);
    } else {
      FalseSteps(m, p, regs);
      LastStep(m, p, regs, Bool(false));
      Two(m, p, At(4, regs));
      RunMore(m, p, s0, 2, 2);
      RunMore(m, p, s0, 4, 1);
      One(m, p, At(8, regs[1 := Bool(false)]));
    }
  }

  lemma One(m: Machine, p: Proto, c: Config)
    ensures Run(m, p, c, 1) == Step(m, p, c)
  {
    assert Run(m, p, c, 1) == Step(m, p, Run(m, p, c, 0));
  }

  lemma Two(m: Machine, p: Proto, c: Config)
    ensures Run(m, p, c, 2) == Step(m, p, Step(m, p, c))
  {
    assert Run(m, p, c, 1) == Step(m, p, Run(m, p, c, 0));
    assert Run(m, p, c, 2) == Step(m, p, Run(m, p, c, 1));
  }

  lemma {:induction false} Done(m: Machine, p: Proto, results: seq<Value>, n: nat)
    ensures Run(m, p, Returned(results), n) == Returned(results)
  {
    if n > 0 { Done(m, p, results, n - 1); }
  }

  /** The expression is a boolean; for a true operand the code returns the operand itself. So the value is
      right exactly when the operand is false or nil, or is `true'. */
  lemma WrongValue(m: Machine, regs: Regs)
    ensures !TextOk(m, Whole)
    ensures var x, p := Read(regs, 0), Finished(ReturnExpr(m, NewFunction(1), Whole).0);
      && Eval(m, Whole, regs) == Ok(Bool(Truthy(x)))
      && Run(m, p, At(0, regs), 5) == Returned([if Truthy(x) then x else Bool(false)])
      && (Run(m, p, At(0, regs), 5) == Returned([Eval(m, Whole, regs).v]) <==> !Truthy(x) || x == Bool(true))
  {
    hide Compile, ReturnExpr, Eval, TextOk, Run, Step, NewFunction;
    WholeFinished(m);
    WholeValue(m, regs);
    Steps(m, Finished(ReturnExpr(m, NewFunction(1), Whole).0), regs);
    WholeReading(m);
  }

  /** The negation of the same expression is right: of the value that is wrong only the truth counts. */
  lemma NegationRight(m: Machine)
    ensures !TextOk(m, Whole) && TextOk(m, EUn(NotOp, Whole))
  {
    WholeReading(m);
  }

  lemma WholeReading(m: Machine)
    ensures !TextOk(m, Whole)
    ensures ReadExpr(m, Fresh, Whole).bad.t && !ReadExpr(m, Fresh, Whole).lost
  {
    assert ReadExpr(m, Fresh, Inner) == Reading(Place(false, {}, 0), Text(FFalse, Values, None), Sound, false, false);
    assert ReadExpr(m, Fresh, Middle) == Reading(Place(true, {}, 0), Text(FTrue, None, Bools), Sound, false, false);
  }
}
