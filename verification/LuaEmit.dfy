/** Patch lists and emission: what the low-level functions of the generator do to a run of the code. */
module LuaEmit {
  import opened LuaVm
  import opened LuaCode
  import opened LuaExec

  // ----- patch lists -----

  ghost predicate AllOpen(code: seq<Instr>, list: seq<int>) {
    forall j :: j in list ==> OpenAt(code, j)
  }

  ghost predicate NoRepeat(list: seq<int>) {
    forall x, y :: 0 <= x < y < |list| ==> list[x] != list[y]
  }

  ghost predicate Apart(a: seq<int>, b: seq<int>) {
    forall j :: !(j in a && j in b)
  }

  /** A patch list: distinct jumps without targets. */
  ghost predicate PatchList(code: seq<Instr>, list: seq<int>) {
    AllOpen(code, list) && NoRepeat(list)
  }

  lemma PatchListConcat(code: seq<Instr>, a: seq<int>, b: seq<int>)
    requires PatchList(code, a) && PatchList(code, b) && Apart(a, b)
    ensures PatchList(code, a + b)
  {
    forall x, y | 0 <= x < y < |a + b| ensures (a + b)[x] != (a + b)[y] {
      if x < |a| && y >= |a| { assert (a + b)[x] in a && (a + b)[y] in b; }
    }
  }

  /** A test that keeps its value for an open jump does not know its register yet. */
  ghost predicate OpenUnkept(code: seq<Instr>) {
    forall j :: OpenAt(code, j) && Carries(code, j) ==> code[j - 1].dest.NoReg?
  }

  /** The instruction at `i' after patchlistaux. */
  function PatchedInstr(code: seq<Instr>, list: seq<int>, vtarget: int, reg: Dest, dtarget: int, i: int): Instr
    requires 0 <= i < |code|
  {
    if i in list then Jmp((if Carries(code, i) then vtarget else dtarget) - (i + 1))
    else if i + 1 in list && code[i].TestSet? then Retest(code[i], reg)
    else code[i]
  }

  /** One round of patchlistaux. */
  function PatchOne(fs: Fs, j: int, vtarget: int, reg: Dest, dtarget: int): Fs {
    FixJump(PatchTestReg(fs, j, reg), j, if Carries(fs.code, j) then vtarget else dtarget)
  }

  lemma PatchOneAt(fs: Fs, j: int, vtarget: int, reg: Dest, dtarget: int)
    requires OpenAt(fs.code, j)
    ensures var p := PatchOne(fs, j, vtarget, reg, dtarget);
            && |p.code| == |fs.code| && p == fs.(code := p.code, failed := p.failed)
            && forall i :: 0 <= i < |fs.code| ==> p.code[i] == PatchedInstr(fs.code, [j], vtarget, reg, dtarget, i)
  {
  }

  lemma PatchRest(code: seq<Instr>, code1: seq<Instr>, list: seq<int>, vtarget: int, reg: Dest, dtarget: int)
    requires PatchList(code, list) && list != [] && |code1| == |code|
    requires forall i :: 0 <= i < |code| ==> code1[i] == PatchedInstr(code, [list[0]], vtarget, reg, dtarget, i)
    ensures PatchList(code1, list[1..])
    ensures forall i :: 0 <= i < |code| ==>
              PatchedInstr(code1, list[1..], vtarget, reg, dtarget, i) == PatchedInstr(code, list, vtarget, reg, dtarget, i)
  {
    var j, rest := list[0], list[1..];
    assert OpenAt(code, j) && j !in rest && list == [j] + rest;
    forall i | i in rest ensures OpenAt(code1, i) && OpenAt(code, i) && Carries(code1, i) == Carries(code, i) {
      assert OpenAt(code, i);
    }
    forall i | 0 <= i < |code|
      ensures PatchedInstr(code1, rest, vtarget, reg, dtarget, i) == PatchedInstr(code, list, vtarget, reg, dtarget, i)
    {
      if i in rest { assert OpenAt(code, i); }
      else if i == j && j + 1 in rest { assert !code1[j].TestSet?; }
    }
  }

  lemma {:induction false} PatchListAuxAt(fs: Fs, list: seq<int>, vtarget: int, reg: Dest, dtarget: int)
    requires PatchList(fs.code, list)
    ensures var p := PatchListAux(fs, list, vtarget, reg, dtarget);
            && |p.code| == |fs.code| && p == fs.(code := p.code, failed := p.failed)
            && forall i :: 0 <= i < |fs.code| ==> p.code[i] == PatchedInstr(fs.code, list, vtarget, reg, dtarget, i)
    decreases |list|
  {
    if list != [] {
      assert OpenAt(fs.code, list[0]);
      var fs1 := PatchOne(fs, list[0], vtarget, reg, dtarget);
      PatchOneAt(fs, list[0], vtarget, reg, dtarget);
      PatchRest(fs.code, fs1.code, list, vtarget, reg, dtarget);
      hide PatchOne, PatchedInstr, PatchList;
      PatchListAuxAt(fs1, list[1..], vtarget, reg, dtarget);
      assert PatchListAux(fs, list, vtarget, reg, dtarget) == PatchListAux(fs1, list[1..], vtarget, reg, dtarget) by {
        UnfoldPatch(fs, list, vtarget, reg, dtarget);
      }
    }
  }

  lemma UnfoldPatch(fs: Fs, list: seq<int>, vtarget: int, reg: Dest, dtarget: int)
    requires list != []
    ensures PatchListAux(fs, list, vtarget, reg, dtarget)
            == PatchListAux(PatchOne(fs, list[0], vtarget, reg, dtarget), list[1..], vtarget, reg, dtarget)
  {
  }

  lemma {:induction false} RemoveValuesAt(fs: Fs, list: seq<int>)
    requires PatchList(fs.code, list)
    ensures var p := RemoveValues(fs, list);
            && |p.code| == |fs.code| && p == fs.(code := p.code)
            && forall i :: 0 <= i < |fs.code| ==>
                 p.code[i] == if i + 1 in list && fs.code[i].TestSet? then Retest(fs.code[i], NoReg) else fs.code[i]
    decreases |list|
  {
    if list != [] {
      var j, rest := list[0], list[1..];
      assert OpenAt(fs.code, j);
      var fs1 := PatchTestReg(fs, j, NoReg);
      assert j !in rest;
      assert AllOpen(fs1.code, rest) by {
        forall i | i in rest ensures OpenAt(fs1.code, i) { assert OpenAt(fs.code, i); }
      }
      RemoveValuesAt(fs1, rest);
      assert list == [j] + rest;
    }
  }

  /** Patching to targets ahead gives patched code, and well-formed code again. */
  lemma PatchGood(fs: Fs, list: seq<int>, vtarget: int, reg: Dest, dtarget: int, limit: int)
    requires PatchList(fs.code, list) && OpenUnkept(fs.code) && WellFormed(fs.code, fs.lasttarget) && fs.lasttarget <= limit <= |fs.code|
    requires forall j :: j in list ==> TargetOk(fs.code, j, if Carries(fs.code, j) then vtarget else dtarget, limit)
    ensures var p := PatchListAux(fs, list, vtarget, reg, dtarget);
            Patched(fs.code, p.code, set j | j in list) && WellFormed(p.code, limit) && OpenUnkept(p.code)
  {
    PatchListAuxAt(fs, list, vtarget, reg, dtarget);
    hide PatchListAux, PatchedInstr;
    var p := PatchListAux(fs, list, vtarget, reg, dtarget);
    PatchGoodPatched(fs.code, p.code, list, vtarget, reg, dtarget, limit);
    PatchGoodFormed(fs.code, p.code, list, vtarget, reg, dtarget, fs.lasttarget, limit);
    PatchGoodUnkept(fs.code, p.code, list, vtarget, reg, dtarget, limit);
  }

  ghost predicate PatchedList(code: seq<Instr>, code2: seq<Instr>, list: seq<int>, vtarget: int, reg: Dest, dtarget: int, limit: int) {
    && PatchList(code, list) && OpenUnkept(code) && |code2| == |code|
    && (forall i :: 0 <= i < |code| ==> code2[i] == PatchedInstr(code, list, vtarget, reg, dtarget, i))
    && (forall j :: j in list ==> TargetOk(code, j, if Carries(code, j) then vtarget else dtarget, limit))
  }

  lemma PatchGoodPatched(code: seq<Instr>, code2: seq<Instr>, list: seq<int>, vtarget: int, reg: Dest, dtarget: int, limit: int)
    requires PatchedList(code, code2, list, vtarget, reg, dtarget, limit)
    ensures Patched(code, code2, set j | j in list)
  {
    var s := set j | j in list;
    forall i | 0 <= i < |code| ensures PatchedAt(code, code2, s, i) {
      assert code2[i] == PatchedInstr(code, list, vtarget, reg, dtarget, i);
      if i in list { assert OpenAt(code, i) && TargetOk(code, i, if Carries(code, i) then vtarget else dtarget, limit); }
      else if i + 1 in list && code[i].TestSet? { assert OpenAt(code, i + 1) && Carries(code, i + 1); }
    }
  }

  lemma PatchGoodFormed(code: seq<Instr>, code2: seq<Instr>, list: seq<int>, vtarget: int, reg: Dest, dtarget: int, last: int, limit: int)
    requires PatchedList(code, code2, list, vtarget, reg, dtarget, limit) && WellFormed(code, last) && last <= limit <= |code|
    ensures WellFormed(code2, limit)
  {
    forall i | 0 <= i < |code|
      ensures IsTest(code2[i]) == IsTest(code[i]) && code2[i].Jmp? == code[i].Jmp? && code2[i].LoadBool? == code[i].LoadBool?
    {
      assert code2[i] == PatchedInstr(code, list, vtarget, reg, dtarget, i);
      if i in list { assert OpenAt(code, i); }
    }
    forall i | 0 <= i < |code2| ensures InstrOk(code2, i, limit) {
      assert InstrOk(code, i, last);
      assert code2[i] == PatchedInstr(code, list, vtarget, reg, dtarget, i);
      if i in list { assert TargetOk(code, i, if Carries(code, i) then vtarget else dtarget, limit); }
    }
  }

  lemma PatchGoodUnkept(code: seq<Instr>, code2: seq<Instr>, list: seq<int>, vtarget: int, reg: Dest, dtarget: int, limit: int)
    requires PatchedList(code, code2, list, vtarget, reg, dtarget, limit)
    ensures OpenUnkept(code2)
  {
    forall j | OpenAt(code2, j) && Carries(code2, j) ensures code2[j - 1].dest.NoReg? {
      assert code2[j] == PatchedInstr(code, list, vtarget, reg, dtarget, j);
      assert code2[j - 1] == PatchedInstr(code, list, vtarget, reg, dtarget, j - 1);
      assert j in list ==> TargetOk(code, j, if Carries(code, j) then vtarget else dtarget, limit);
      assert OpenAt(code, j);
      assert j - 1 in list ==> OpenAt(code, j - 1);
      assert Carries(code, j);
    }
  }

  predicate TargetOk(code: seq<Instr>, j: int, target: int, limit: int) {
    j < target <= limit && Landing(code, target)
  }

  // ----- the state of the generator -----

  ghost predicate ConstsOk(fs: Fs) {
    forall v :: v in fs.h ==> 0 <= fs.h[v] < |fs.k| && fs.k[fs.h[v]] == v
  }

  /** The code is well-formed and its jumps end at `lasttarget' or before; the jumps pending to the
      present place are open ones. */
  ghost predicate FsOk(fs: Fs) {
    && WellFormed(fs.code, fs.lasttarget) && -1 <= fs.lasttarget
    && (fs.jpc != [] ==> fs.lasttarget == |fs.code|)
    && PatchList(fs.code, fs.jpc) && OpenUnkept(fs.code) && ConstsOk(fs)
    && 0 <= fs.nactvar
  }

  /** A jump pending to the end of the code goes there. */
  function Joined(o: Outcome, jpc: seq<int>): Outcome {
    if o.Out? && o.j in jpc then Fall(o.regs) else o
  }

  /** A run of the code so far from the entry of the function. */
  function RunFs(m: Machine, k: seq<Value>, fs: Fs, regs: Regs): Outcome {
    Joined(Exec(m, k, fs.code, 0, regs), fs.jpc)
  }

  /** The test of jump `j', or that it has none, is the same in both codes. */
  ghost predicate SameControl(code0: seq<Instr>, code1: seq<Instr>, j: int) {
    1 <= j <= |code0| && j <= |code1| ==>
      IsTest(code0[j - 1]) == IsTest(code1[j - 1]) && (IsTest(code0[j - 1]) ==> code1[j - 1] == code0[j - 1])
  }

  /** Open jumps of `code0' outside `jpc0' are still open in `code1', with the same test. */
  ghost predicate StillOpen(code0: seq<Instr>, jpc0: seq<int>, code1: seq<Instr>) {
    forall j :: OpenAt(code0, j) && j !in jpc0 ==> OpenAt(code1, j) && SameControl(code0, code1, j)
  }

  lemma LastNoTest(code: seq<Instr>, limit: int)
    requires WellFormed(code, limit)
    ensures Landing(code, |code|)
  {
    if |code| > 0 { assert InstrOk(code, |code| - 1, limit); }
  }

  lemma DischargeOk(fs: Fs)
    requires FsOk(fs)
    ensures var d := DischargeJpc(fs);
            && FsOk(d) && |d.code| == |fs.code| && d == fs.(code := d.code, jpc := [], failed := d.failed)
            && Patched(fs.code, d.code, set j | j in fs.jpc)
            && StillOpen(fs.code, fs.jpc, d.code)
  {
    var n := |fs.code|;
    LastNoTest(fs.code, fs.lasttarget);
    forall j | j in fs.jpc ensures TargetOk(fs.code, j, n, fs.lasttarget) { assert OpenAt(fs.code, j); }
    PatchGood(fs, fs.jpc, n, NoReg, n, fs.lasttarget);
    PatchListAuxAt(fs, fs.jpc, n, NoReg, n);
    DischargeKeeps(fs);
  }

  lemma DischargeKeeps(fs: Fs)
    requires PatchList(fs.code, fs.jpc)
    ensures StillOpen(fs.code, fs.jpc, DischargeJpc(fs).code)
  {
    var n := |fs.code|;
    PatchListAuxAt(fs, fs.jpc, n, NoReg, n);
    var d := DischargeJpc(fs);
    forall j | OpenAt(fs.code, j) && j !in fs.jpc ensures OpenAt(d.code, j) && SameControl(fs.code, d.code, j) {
      assert d.code[j] == PatchedInstr(fs.code, fs.jpc, n, NoReg, n, j);
      if j >= 1 {
        assert d.code[j - 1] == PatchedInstr(fs.code, fs.jpc, n, NoReg, n, j - 1);
        if j - 1 in fs.jpc { assert OpenAt(fs.code, j - 1); }
      }
    }
  }

  /** Giving the pending jumps their target changes no run. */
  lemma DischargeRun(m: Machine, k: seq<Value>, fs: Fs, regs: Regs)
    requires FsOk(fs)
    ensures Exec(m, k, DischargeJpc(fs).code, 0, regs) == RunFs(m, k, fs, regs)
  {
    var n := |fs.code|;
    var d := DischargeJpc(fs);
    var s := set j | j in fs.jpc;
    DischargeOk(fs);
    ExecPatch(m, k, fs.code, d.code, s, fs.lasttarget, 0, regs);
    var o := Exec(m, k, fs.code, 0, regs);
    if o.Out? && o.j in s {
      PatchListAuxAt(fs, fs.jpc, n, NoReg, n);
      assert OpenAt(fs.code, o.j);
      assert d.code[o.j] == PatchedInstr(fs.code, fs.jpc, n, NoReg, n, o.j);
      if o.j >= 1 { assert d.code[o.j - 1] == PatchedInstr(fs.code, fs.jpc, n, NoReg, n, o.j - 1); }
      assert AfterJump(d.code, o.j, o.regs) == o.regs;
    }
  }

  // ----- emission -----

  /** An instruction that runs on to the next one. */
  predicate Plain(i: Instr) {
    i.Move? || i.LoadK? || (i.LoadBool? && !i.skip) || (i.LoadNil? && i.a <= i.b) || i.Arith? || i.Unm? || i.Not?
  }

  lemma WellFormedAppend(code: seq<Instr>, limit: int, ext: seq<Instr>)
    requires WellFormed(code, limit) && OpenUnkept(code)
    requires (|ext| == 1 && (Plain(ext[0]) || ext[0] == Jmp(NO_JUMP)))
          || (|ext| == 2 && IsTest(ext[0]) && ext[1] == Jmp(NO_JUMP) && (ext[0].TestSet? ==> ext[0].dest.NoReg?))
    ensures WellFormed(code + ext, limit) && OpenUnkept(code + ext)
  {
    var c := code + ext;
    LastNoTest(code, limit);
    forall i | 0 <= i < |c| ensures InstrOk(c, i, limit) {
      if i < |code| {
        assert c[i] == code[i] && InstrOk(code, i, limit);
        if i + 1 < |code| { assert c[i + 1] == code[i + 1]; }
        if code[i].Jmp? && code[i].sbx != NO_JUMP {
          var t := i + 1 + code[i].sbx;
          assert c[t - 1] == code[t - 1];
        }
      } else {
        assert c[i] == ext[i - |code|];
        if IsTest(c[i]) { assert c[i + 1] == ext[1]; }
      }
    }
    forall j | OpenAt(c, j) && Carries(c, j) ensures c[j - 1].dest.NoReg? {
      if j < |code| { assert OpenAt(code, j) && Carries(code, j); }
    }
  }

  lemma StillOpenAppend(code0: seq<Instr>, jpc0: seq<int>, code1: seq<Instr>, ext: seq<Instr>)
    requires StillOpen(code0, jpc0, code1)
    ensures StillOpen(code0, jpc0, code1 + ext)
  {
    forall j | OpenAt(code0, j) && j !in jpc0 ensures OpenAt(code1 + ext, j) && SameControl(code0, code1 + ext, j) {
      assert OpenAt(code1, j);
    }
  }

  lemma EmitOk(fs: Fs, i: Instr)
    requires FsOk(fs) && Plain(i)
    ensures var e := Emit(fs, i);
            && FsOk(e) && e.jpc == [] && |e.code| == |fs.code| + 1 && e.code[|fs.code|] == i
            && e.code[..|fs.code|] == DischargeJpc(fs).code
            && e == fs.(code := e.code, jpc := [], failed := e.failed)
            && StillOpen(fs.code, fs.jpc, e.code)
  {
    DischargeOk(fs);
    var d := DischargeJpc(fs);
    WellFormedAppend(d.code, d.lasttarget, [i]);
    StillOpenAppend(fs.code, fs.jpc, d.code, [i]);
    assert (d.code + [i])[..|fs.code|] == d.code;
  }

  /** What running up to the last instruction and then the last instruction comes to. */
  function Then(o: Outcome, m: Machine, k: seq<Value>, i: Instr): Outcome {
    if o.Fall? then Effect(m, k, i, o.regs) else o
  }

  lemma ExecLast(m: Machine, k: seq<Value>, code: seq<Instr>, i: Instr, regs: Regs)
    requires Exec(m, k, code, 0, regs) != Bad && Plain(i)
    ensures Exec(m, k, code + [i], 0, regs) == Then(Exec(m, k, code, 0, regs), m, k, i)
  {
    ExecAppend(m, k, code, [i], 0, regs);
    assert (code + [i])[|code|] == i;
  }

  lemma EmitRun(m: Machine, k: seq<Value>, fs: Fs, i: Instr, regs: Regs)
    requires FsOk(fs) && Plain(i)
    ensures RunFs(m, k, Emit(fs, i), regs) == Then(RunFs(m, k, fs, regs), m, k, i)
  {
    DischargeOk(fs);
    DischargeRun(m, k, fs, regs);
    var d := DischargeJpc(fs);
    ExecGood(m, k, d.code, d.lasttarget, 0, regs);
    ExecLast(m, k, d.code, i, regs);
  }

  lemma EmitTestCode(fs: Fs, test: Instr)
    requires FsOk(fs) && IsTest(test)
    ensures var e := CondJump(fs, test).0; var n := |fs.code|;
            && |e.code| == n + 2 && e.jpc == [] && CondJump(fs, test).1 == [n + 1]
            && e.code == DischargeJpc(fs).code + [test, Jmp(NO_JUMP)]
            && e == fs.(code := e.code, jpc := [], failed := e.failed)
  {
    DischargeOk(fs);
  }

  lemma CondJumpOk(fs: Fs, test: Instr)
    requires FsOk(fs) && IsTest(test) && (test.TestSet? ==> test.dest.NoReg?)
    ensures var e := CondJump(fs, test).0; var n := |fs.code|;
            && FsOk(e) && |e.code| == n + 2 && e.jpc == [] && CondJump(fs, test).1 == [n + 1]
            && e.code[..n] == DischargeJpc(fs).code && e.code[n] == test && e.code[n + 1] == Jmp(NO_JUMP)
            && e == fs.(code := e.code, jpc := [], failed := e.failed)
            && StillOpen(fs.code, fs.jpc, e.code)
  {
    EmitTestCode(fs, test);
    DischargeOk(fs);
    var d := DischargeJpc(fs);
    WellFormedAppend(d.code, d.lasttarget, [test, Jmp(NO_JUMP)]);
    StillOpenAppend(fs.code, fs.jpc, d.code, [test, Jmp(NO_JUMP)]);
    assert (d.code + [test, Jmp(NO_JUMP)])[..|fs.code|] == d.code;
  }

  /** A conditional jump leaves by its jump or goes on, as the test says. */
  function Tested(o: Outcome, k: seq<Value>, test: Instr, j: int): Outcome {
    if !o.Fall? then o
    else
      var c := Taken(k, test, o.regs);
      if c.Err? then Stop else if c.v == Bool(false) then Fall(o.regs) else Out(j, Kept(test, o.regs))
  }

  lemma ExecTest(m: Machine, k: seq<Value>, code: seq<Instr>, test: Instr, regs: Regs)
    requires Exec(m, k, code, 0, regs) != Bad && IsTest(test)
    ensures Exec(m, k, code + [test, Jmp(NO_JUMP)], 0, regs) == Tested(Exec(m, k, code, 0, regs), k, test, |code| + 1)
  {
    var ext := [test, Jmp(NO_JUMP)];
    ExecAppend(m, k, code, ext, 0, regs);
    assert (code + ext)[|code|] == test && (code + ext)[|code| + 1] == Jmp(NO_JUMP);
  }

  lemma CondJumpRun(m: Machine, k: seq<Value>, fs: Fs, test: Instr, regs: Regs)
    requires FsOk(fs) && IsTest(test) && (test.TestSet? ==> test.dest.NoReg?)
    ensures RunFs(m, k, CondJump(fs, test).0, regs) == Tested(RunFs(m, k, fs, regs), k, test, |fs.code| + 1)
  {
    DischargeOk(fs);
    DischargeRun(m, k, fs, regs);
    EmitTestCode(fs, test);
    var d := DischargeJpc(fs);
    ExecGood(m, k, d.code, d.lasttarget, 0, regs);
    ExecTest(m, k, d.code, test, regs);
  }

  lemma JumpOk(fs: Fs)
    requires FsOk(fs)
    ensures var e := Jump(fs).0; var n := |fs.code|;
            && FsOk(e) && e.code == fs.code + [Jmp(NO_JUMP)] && e.jpc == [] && Jump(fs).1 == [n] + fs.jpc
            && e == fs.(code := e.code, jpc := []) && PatchList(e.code, Jump(fs).1)
            && StillOpen(fs.code, [], e.code)
  {
    var n := |fs.code|;
    WellFormedAppend(fs.code, fs.lasttarget, [Jmp(NO_JUMP)]);
    var e := Jump(fs).0;
    assert e.code == fs.code + [Jmp(NO_JUMP)];
    forall j | j in Jump(fs).1 ensures OpenAt(e.code, j) {
      if j in fs.jpc { assert OpenAt(fs.code, j); }
    }
    forall j | j in fs.jpc ensures j != n { assert OpenAt(fs.code, j); }
    forall x, y | 0 <= x < y < |Jump(fs).1| ensures Jump(fs).1[x] != Jump(fs).1[y] {
      assert Jump(fs).1[y] in fs.jpc;
    }
    StillOpenAppend(fs.code, [], fs.code, [Jmp(NO_JUMP)]);
  }

  /** An unconditional jump leaves, whether reached or joined by a pending jump. */
  lemma JumpRun(m: Machine, k: seq<Value>, fs: Fs, regs: Regs)
    requires FsOk(fs)
    ensures var o := Exec(m, k, fs.code, 0, regs);
            RunFs(m, k, Jump(fs).0, regs) == if o.Fall? then Out(|fs.code|, o.regs) else o
  {
    JumpOk(fs);
    ExecGood(m, k, fs.code, fs.lasttarget, 0, regs);
    ExecAppend(m, k, fs.code, [Jmp(NO_JUMP)], 0, regs);
    assert (fs.code + [Jmp(NO_JUMP)])[|fs.code|] == Jmp(NO_JUMP);
  }

  lemma PatchToHereOk(fs: Fs, list: seq<int>)
    requires FsOk(fs) && PatchList(fs.code, list) && Apart(fs.jpc, list)
    ensures FsOk(PatchToHere(fs, list))
  {
    PatchListConcat(fs.code, fs.jpc, list);
    assert WellFormed(fs.code, |fs.code|) by { Relax(fs.code, fs.lasttarget, |fs.code|); }
  }

  lemma Relax(code: seq<Instr>, limit: int, limit2: int)
    requires WellFormed(code, limit) && limit <= limit2 <= |code|
    ensures WellFormed(code, limit2)
  {
    forall i | 0 <= i < |code| ensures InstrOk(code, i, limit2) { assert InstrOk(code, i, limit); }
  }

  lemma GetLabelOk(fs: Fs)
    requires FsOk(fs)
    ensures FsOk(GetLabel(fs))
  {
    Relax(fs.code, fs.lasttarget, |fs.code|);
  }
}
