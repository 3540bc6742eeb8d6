/** The function being compiled, as the generator keeps it: patch lists are threaded through the
    offsets of the jumps in them, and code and lists are changed in place. */
module LuaFunc {
  import opened LuaVm
  import opened LuaCode
  import opened LuaExec
  import opened LuaEmit

  /** getjump: the jump after `pc' on its list. */
  function NextJump(code: seq<Instr>, pc: int): int
    requires 0 <= pc < |code| && code[pc].Jmp?
  {
    if code[pc].sbx == NO_JUMP then NO_JUMP else pc + 1 + code[pc].sbx
  }

  /** The list that starts at `head' is `s'. */
  ghost predicate IsList(code: seq<Instr>, head: int, s: seq<int>)
    decreases |s|
  {
    if s == [] then head == NO_JUMP
    else head == s[0] && 0 <= head < |code| && code[head].Jmp? && IsList(code, NextJump(code, head), s[1..])
  }

  /** The code and its abstraction differ only in the offsets of open jumps, which hold the links. */
  ghost predicate CodeRel(code: seq<Instr>, acode: seq<Instr>) {
    && |code| == |acode|
    && forall i :: 0 <= i < |code| ==> if acode[i] == Jmp(NO_JUMP) then code[i].Jmp? else code[i] == acode[i]
  }

  /** Open jumps outside the two lists hold the links they held. */
  ghost predicate Untouched(code0: seq<Instr>, acode0: seq<Instr>, s: seq<int>, jpc: seq<int>, code1: seq<Instr>) {
    |code0| == |acode0| && forall j :: OpenAt(acode0, j) && j !in s && j !in jpc ==> j < |code1| && code1[j] == code0[j]
  }

  lemma {:induction false} ListFrame(code: seq<Instr>, code2: seq<Instr>, head: int, s: seq<int>)
    requires IsList(code, head, s) && |code| <= |code2| && forall j :: j in s && 0 <= j < |code| ==> code2[j] == code[j]
    ensures IsList(code2, head, s)
    decreases |s|
  {
    if s != [] { ListFrame(code, code2, NextJump(code, head), s[1..]); }
  }

  /** A list is found again after a change elsewhere. */
  lemma ListUntouched(code0: seq<Instr>, acode0: seq<Instr>, s: seq<int>, jpc: seq<int>, code1: seq<Instr>, head: int, other: seq<int>)
    requires Untouched(code0, acode0, s, jpc, code1) && |code0| <= |code1| && IsList(code0, head, other)
    requires AllOpen(acode0, other) && Apart(other, s) && Apart(other, jpc)
    ensures IsList(code1, head, other)
  {
    forall j | j in other && 0 <= j < |code0| ensures code1[j] == code0[j] { assert OpenAt(acode0, j); }
    ListFrame(code0, code1, head, other);
  }

  /** The list is determined by the code, finite, and ends at the jump whose offset is NO_JUMP. */
  lemma {:induction false} ListUnique(code: seq<Instr>, head: int, s: seq<int>, s2: seq<int>)
    requires IsList(code, head, s) && IsList(code, head, s2)
    ensures s == s2
    decreases |s|
  {
    if s != [] && s2 != [] {
      ListUnique(code, NextJump(code, head), s[1..], s2[1..]);
      assert s == [s[0]] + s[1..] && s2 == [s2[0]] + s2[1..];
    }
  }

  lemma {:induction false} ListTail(code: seq<Instr>, head: int, s: seq<int>, i: nat)
    requires IsList(code, head, s) && i < |s|
    ensures 0 <= s[i] < |code| && code[s[i]].Jmp? && IsList(code, s[i], s[i..])
    ensures NextJump(code, s[i]) == if i + 1 < |s| then s[i + 1] else NO_JUMP
    decreases |s|
  {
    if i > 0 {
      ListTail(code, NextJump(code, head), s[1..], i - 1);
      assert s[1..][i - 1..] == s[i..];
    } else {
      assert s[0..] == s;
      assert i + 1 < |s| ==> s[1..][0] == s[1];
    }
  }

  /** Linking the end of one list to the head of another. The offset can never be the one that marks
      the end of a list, because the jumps are distinct. */
  lemma {:induction false} ListLinked(code: seq<Instr>, l1: int, s1: seq<int>, l2: int, s2: seq<int>, i: nat)
    requires IsList(code, l1, s1) && IsList(code, l2, s2) && s1 != [] && s2 != [] && NoRepeat(s1) && Apart(s1, s2) && i < |s1|
    ensures var last := s1[|s1| - 1]; 0 <= last < |code| && IsList(code[last := Jmp(l2 - (last + 1))], s1[i], s1[i..] + s2)
    decreases |s1| - i
  {
    var last := s1[|s1| - 1];
    ListTail(code, l1, s1, |s1| - 1);
    ListTail(code, l1, s1, i);
    var code2 := code[last := Jmp(l2 - (last + 1))];
    var rest := s1[i..] + s2;
    if i == |s1| - 1 {
      assert l2 == s2[0] && last in s1 && s2[0] in s2;
      ListFrame(code, code2, l2, s2);
      assert rest == [last] + s2;
      assert rest[1..] == s2;
    } else {
      ListLinked(code, l1, s1, l2, s2, i + 1);
      assert s1[i] != last;
      assert rest[1..] == s1[i + 1..] + s2;
    }
  }

  lemma RelControl(code: seq<Instr>, acode: seq<Instr>, j: int)
    requires CodeRel(code, acode)
    ensures Carries(code, j) == Carries(acode, j) && (Carries(acode, j) ==> code[j - 1] == acode[j - 1])
    ensures 1 <= j <= |code| ==> IsTest(code[j - 1]) == IsTest(acode[j - 1])
  {
  }

  /** NeedValue does not look at the links. */
  lemma {:induction false} RelNeedValue(code: seq<Instr>, acode: seq<Instr>, s: seq<int>)
    requires CodeRel(code, acode)
    ensures NeedValue(code, s) == NeedValue(acode, s)
    decreases |s|
  {
    if s != [] {
      RelControl(code, acode, s[0]);
      RelNeedValue(code, acode, s[1..]);
    }
  }

  class FuncState {
    /** The arithmetic constants are folded with. */
    const m: Machine
    var code: seq<Instr>
    var jpc: int
    var lasttarget: int
    var freereg: int
    var nactvar: int
    var maxstack: int
    var k: seq<Value>
    var h: map<Value, int>
    var failed: bool
    /** The same with lists as sequences. */
    ghost var abs: Fs

    ghost predicate Rep()
      reads this
    {
      && CodeRel(code, abs.code) && IsList(code, jpc, abs.jpc)
      && abs.lasttarget == lasttarget && abs.freereg == freereg && abs.nactvar == nactvar && abs.maxstack == maxstack
      && abs.k == k && abs.h == h && (abs.failed ==> failed)
    }

    /** The state, and no two lists sharing a jump. */
    ghost predicate Valid()
      reads this
    {
      Rep() && FsOk(abs)
    }

    /** open_func and parlist: a function with `n' parameters and no code. */
    constructor (m: Machine, n: nat)
      ensures this.m == m && Rep() && abs == NewFunction(n) && code == []
    {
      this.m := m;
      code, jpc, lasttarget, freereg, nactvar := [], NO_JUMP, -1, n, n;
      maxstack, failed := if n > 2 then n else 2, n > 2 && n >= MAXSTACK;
      k, h := [], map[];
      abs := NewFunction(n);
    }

    method GetJump(pc: int) returns (next: int)
      requires 0 <= pc < |code| && code[pc].Jmp?
      ensures next == NextJump(code, pc)
    {
      var offset := code[pc].sbx;
      if offset == NO_JUMP { next := NO_JUMP; } else { next := pc + 1 + offset; }
    }

    /** fixjump */
    method FixJump(pc: int, dest: int)
      requires 0 <= pc < |code|
      modifies this`code, this`failed
      ensures code == old(code)[pc := Jmp(dest - (pc + 1))]
      ensures failed == (old(failed) || dest - (pc + 1) > MAXARG_SBX || (pc + 1) - dest > MAXARG_SBX)
    {
      var offset := dest - (pc + 1);
      if offset > MAXARG_SBX || -offset > MAXARG_SBX { failed := true; }
      code := code[pc := Jmp(offset)];
    }

    /** luaK_concat: the second list is appended to the first, and nothing else changes. */
    method Concat(l1: int, l2: int, ghost s1: seq<int>, ghost s2: seq<int>) returns (l: int)
      requires CodeRel(code, abs.code) && IsList(code, l1, s1) && IsList(code, l2, s2)
      requires AllOpen(abs.code, s1) && NoRepeat(s1) && Apart(s1, s2)
      modifies this`code, this`failed
      ensures IsList(code, l, s1 + s2) && CodeRel(code, abs.code) && (old(failed) ==> failed)
      ensures Untouched(old(code), abs.code, s1, [], code)
    {
      if l2 == NO_JUMP {
        ListHead(code, l2, s2);
        assert s1 + s2 == s1;
        return l1;
      }
      if l1 == NO_JUMP {
        ListHead(code, l1, s1);
        assert s1 + s2 == s2;
        return l2;
      }
      ListHead(code, l1, s1);
      ListHead(code, l2, s2);
      var list := l1;
      ghost var i := 0;
      ListTail(code, l1, s1, 0);
      var next := GetJump(list);
      while next != NO_JUMP
        invariant 0 <= i < |s1| && list == s1[i] && 0 <= list < |code| && code[list].Jmp? && next == NextJump(code, list)
        invariant code == old(code) && failed == old(failed)
        decreases |s1| - i
      {
        ListTail(code, l1, s1, i);
        i := i + 1;
        list := next;
        ListTail(code, l1, s1, i);
        next := GetJump(list);
      }
      ListTail(code, l1, s1, i);
      ListNoEnd(code, l1, s1, i);
      ListLinked(code, l1, s1, l2, s2, 0);
      assert OpenAt(abs.code, list);
      FixJump(list, l2);
      assert s1[0..] == s1;
      l := l1;
    }

    /** patchtestreg */
    method PatchTestReg(node: int, reg: Dest) returns (carried: bool)
      requires 0 <= node < |code| && CodeRel(code, abs.code) && OpenAt(abs.code, node)
      modifies this`code, this`abs
      ensures carried == Carries(old(abs).code, node) && abs == LuaCode.PatchTestReg(old(abs), node, reg)
      ensures CodeRel(code, abs.code)
      ensures forall i :: 0 <= i < |code| && i != node - 1 ==> code[i] == old(code)[i]
      ensures !carried ==> code == old(code)
      ensures forall i :: 0 <= i < |code| ==> code[i].Jmp? == old(code)[i].Jmp? && (code[i].Jmp? ==> code[i] == old(code)[i])
    {
      RelControl(code, abs.code, node);
      if node >= 1 && code[node - 1].TestSet? {
        abs := LuaCode.PatchTestReg(abs, node, reg);
        code := code[node - 1 := Retest(code[node - 1], reg)];
        carried := true;
      } else {
        carried := false;
      }
    }

    /** need_value */
    method NeedValue(list: int, ghost s: seq<int>) returns (need: bool)
      requires CodeRel(code, abs.code) && IsList(code, list, s)
      ensures need == LuaCode.NeedValue(abs.code, s)
    {
      var l := list;
      ghost var i := 0;
      RelNeedValue(code, abs.code, s);
      while l != NO_JUMP
        invariant 0 <= i <= |s| && IsList(code, l, s[i..])
        invariant LuaCode.NeedValue(code, s) == LuaCode.NeedValue(code, s[i..])
        decreases |s| - i
      {
        ListHead(code, l, s[i..]);
        if !(l >= 1 && code[l - 1].TestSet?) { return true; }
        assert s[i..][1..] == s[i + 1..];
        l := GetJump(l);
        i := i + 1;
      }
      ListHead(code, l, s[i..]);
      need := false;
    }

    /** removevalues */
    method RemoveValues(list: int, ghost s: seq<int>)
      requires CodeRel(code, abs.code) && IsList(code, list, s) && PatchList(abs.code, s)
      modifies this`code, this`abs
      ensures abs == LuaCode.RemoveValues(old(abs), s) && CodeRel(code, abs.code)
      ensures SameJumps(old(code), code)
    {
      var l := list;
      ghost var i := 0;
      assert s[0..] == s;
      while l != NO_JUMP
        invariant 0 <= i <= |s| && IsList(code, l, s[i..]) && CodeRel(code, abs.code) && AllOpen(abs.code, s[i..])
        invariant LuaCode.RemoveValues(abs, s[i..]) == LuaCode.RemoveValues(old(abs), s)
        invariant SameJumps(old(code), code)
        decreases |s| - i
      {
        ListHead(code, l, s[i..]);
        ghost var code0, acode0 := code, abs.code;
        assert OpenAt(abs.code, l) && s[i..][0] == l;
        var _ := PatchTestReg(l, NoReg);
        RestOpen(acode0, abs.code, s, i);
        RestList(code0, code, l, s, i);
        l := GetJump(l);
        i := i + 1;
      }
      ListHead(code, l, s[i..]);
    }

    /** One round of patchlistaux. */
    method PatchJump(l: int, vtarget: int, reg: Dest, dtarget: int)
      requires CodeRel(code, abs.code) && OpenAt(abs.code, l) && (abs.failed ==> failed)
      modifies this`code, this`abs, this`failed
      ensures abs == PatchOne(old(abs), l, vtarget, reg, dtarget) && CodeRel(code, abs.code)
      ensures (abs.failed ==> failed) && (old(failed) ==> failed) && |code| == |old(code)|
      ensures forall i :: 0 <= i < |code| && i != l && old(code)[i].Jmp? ==> code[i] == old(code)[i]
    {
      var carried := PatchTestReg(l, reg);
      FixJump(l, if carried then vtarget else dtarget);
      abs := LuaCode.FixJump(abs, l, if carried then vtarget else dtarget);
    }

    /** patchlistaux: each jump of the list gets its target, its test is told where to put the value, and
        no other jump changes. */
    method PatchListAux(list: int, vtarget: int, reg: Dest, dtarget: int, ghost s: seq<int>)
      requires CodeRel(code, abs.code) && IsList(code, list, s) && PatchList(abs.code, s) && (abs.failed ==> failed)
      modifies this`code, this`abs, this`failed
      ensures abs == LuaCode.PatchListAux(old(abs), s, vtarget, reg, dtarget) && CodeRel(code, abs.code) && (abs.failed ==> failed)
      ensures Untouched(old(code), old(abs).code, s, [], code) && |code| == |old(code)| && (old(failed) ==> failed)
    {
      hide PatchOne, PatchList, NoRepeat, IsList, Untouched, LuaCode.PatchListAux;
      var l := list;
      ghost var i := 0;
      assert s[0..] == s;
      UntouchedSelf(code, abs.code, s);
      while l != NO_JUMP
        invariant 0 <= i <= |s| && IsList(code, l, s[i..]) && CodeRel(code, abs.code) && PatchList(abs.code, s[i..])
        invariant LuaCode.PatchListAux(abs, s[i..], vtarget, reg, dtarget) == LuaCode.PatchListAux(old(abs), s, vtarget, reg, dtarget)
        invariant Untouched(old(code), old(abs).code, s, [], code) && |code| == |old(code)|
        invariant (abs.failed ==> failed) && (old(failed) ==> failed)
        decreases |s| - i
      {
        ListHead(code, l, s[i..]);
        ghost var code0, abs0 := code, abs;
        OpenHead(abs.code, s[i..]);
        RepeatFact(abs.code, s[i..]);
        var next := GetJump(l);
        PatchJump(l, vtarget, reg, dtarget);
        UnfoldPatch(abs0, s[i..], vtarget, reg, dtarget);
        assert s[i..][1..] == s[i + 1..];
        PatchOneAt(abs0, l, vtarget, reg, dtarget) by { assert abs == PatchOne(abs0, l, vtarget, reg, dtarget); }
        PatchRest(abs0.code, abs.code, s[i..], vtarget, reg, dtarget);
        PatchedRest(code0, code, l, s[i..]);
        UntouchedStep(old(code), old(abs).code, s, code0, code, l) by { assert s[i] in s; }
        l := next;
        i := i + 1;
      }
      ListHead(code, l, s[i..]);
      NothingToPatch(abs, vtarget, reg, dtarget);
    }

    method DischargeJpc()
      requires Rep() && PatchList(abs.code, abs.jpc)
      modifies this`code, this`abs, this`failed, this`jpc
      ensures abs == LuaCode.DischargeJpc(old(abs)) && Rep() && |code| == |old(code)|
      ensures Untouched(old(code), old(abs).code, [], old(abs).jpc, code)
      ensures FsOk(old(abs)) ==> FsOk(abs)
    {
      if FsOk(abs) { DischargeOk(abs); }
      PatchListAuxAt(abs, abs.jpc, |code|, NoReg, |code|);
      PatchListAux(jpc, |code|, NoReg, |code|, abs.jpc);
      jpc := NO_JUMP;
      abs := abs.(jpc := []);
    }

    /** luaK_code */
    method Code(i: Instr)
      requires Rep() && PatchList(abs.code, abs.jpc)
      modifies this`code, this`abs, this`failed, this`jpc
      ensures abs == Emit(old(abs), i) && Rep() && |code| == |old(code)| + 1 && code[|old(code)|] == i
      ensures Untouched(old(code), old(abs).code, [], old(abs).jpc, code)
      ensures jpc == NO_JUMP
    {
      DischargeJpc();
      code := code + [i];
      abs := abs.(code := abs.code + [i]);
    }

    /** luaK_jump: the new jump, and the list it starts. */
    method Jump() returns (j: int)
      requires Rep() && PatchList(abs.code, abs.jpc)
      modifies this`code, this`abs, this`failed, this`jpc
      ensures abs == LuaCode.Jump(old(abs)).0 && Rep() && |code| == |old(code)| + 1
      ensures IsList(code, j, LuaCode.Jump(old(abs)).1)
      ensures Untouched(old(code), old(abs).code, [], old(abs).jpc, code)
      ensures FsOk(old(abs)) ==> FsOk(abs)
    {
      if FsOk(abs) { JumpOk(abs); }
      ghost var s, code0 := abs.jpc, code;
      var held := jpc;
      jpc := NO_JUMP;
      abs := abs.(jpc := []);
      j := |code|;
      Code(Jmp(NO_JUMP));
      JumpLinks(old(abs), code0, code, j, held);
      JumpCode(old(abs), abs);
      j := Concat(j, held, [j], s);
    }

    method GetLabel() returns (pc: int)
      requires Rep()
      modifies this`lasttarget, this`abs
      ensures pc == |code| && abs == LuaCode.GetLabel(old(abs)) && Rep()
      ensures FsOk(old(abs)) ==> FsOk(abs)
    {
      if FsOk(abs) { GetLabelOk(abs); }
      lasttarget := |code|;
      abs := LuaCode.GetLabel(abs);
      pc := |code|;
    }

    method PatchToHere(list: int, ghost s: seq<int>)
      requires Rep() && (FsOk(abs) || FsOk(LuaCode.GetLabel(abs)))
      requires IsList(code, list, s) && PatchList(abs.code, s) && Apart(abs.jpc, s)
      modifies this`code, this`abs, this`failed, this`jpc, this`lasttarget
      ensures abs == LuaCode.PatchToHere(old(abs), s) && Valid() && |code| == |old(code)|
      ensures Untouched(old(code), old(abs).code, [], old(abs).jpc, code)
    {
      hide FsOk, PatchList, CodeRel, IsList, Untouched;
      ghost var code0, fs := code, abs;
      HerePending(fs, s);
      var _ := GetLabel();
      jpc := Concat(jpc, list, abs.jpc, s);
      abs := abs.(jpc := abs.jpc + s);
      PendingUntouched(code0, fs, code);
    }

    method CondJump(test: Instr) returns (j: int)
      requires Valid() && IsTest(test) && (test.TestSet? ==> test.dest.NoReg?)
      modifies this`code, this`abs, this`failed, this`jpc
      ensures abs == LuaCode.CondJump(old(abs), test).0 && Valid() && |code| == |old(code)| + 2
      ensures IsList(code, j, LuaCode.CondJump(old(abs), test).1)
      ensures Untouched(old(code), old(abs).code, [], old(abs).jpc, code)
    {
      CondJumpOk(abs, test);
      ghost var code0, acode0, jpc0 := code, abs.code, abs.jpc;
      Code(test);
      EmptyJpc(old(abs), test);
      ghost var code1, acode1 := code, abs.code;
      j := Jump();
      UntouchedTrans(code0, acode0, jpc0, code1, acode1, code) by { EmitOpen(old(abs), test); }
    }
  }

  lemma HerePending(fs: Fs, s: seq<int>)
    requires (FsOk(fs) || FsOk(LuaCode.GetLabel(fs))) && PatchList(fs.code, s) && Apart(fs.jpc, s)
    ensures AllOpen(fs.code, fs.jpc) && NoRepeat(fs.jpc)
    ensures FsOk(LuaCode.PatchToHere(fs, s))
  {
    if FsOk(fs) { PatchToHereOk(fs, s); } else { PatchToHereOk(LuaCode.GetLabel(fs), s); }
  }

  lemma PendingUntouched(code0: seq<Instr>, fs: Fs, code: seq<Instr>)
    requires Untouched(code0, fs.code, fs.jpc, [], code)
    ensures Untouched(code0, fs.code, [], fs.jpc, code)
  {
  }

  lemma ListHead(code: seq<Instr>, head: int, s: seq<int>)
    requires IsList(code, head, s)
    ensures s == [] <==> head == NO_JUMP
    ensures s != [] ==> head == s[0] && 0 <= head < |code| && code[head].Jmp?
  {
  }

  /** The walk stops at the last jump only. */
  lemma ListNoEnd(code: seq<Instr>, head: int, s: seq<int>, i: nat)
    requires IsList(code, head, s) && i < |s|
    ensures 0 <= s[i] < |code| && code[s[i]].Jmp? && (NextJump(code, s[i]) == NO_JUMP ==> i == |s| - 1)
  {
    ListTail(code, head, s, i);
    if i + 1 < |s| { ListTail(code, head, s, i + 1); }
  }

  /** No jump of the code changes. */
  ghost predicate SameJumps(code0: seq<Instr>, code1: seq<Instr>) {
    |code1| == |code0| && forall i :: 0 <= i < |code0| ==> code1[i].Jmp? == code0[i].Jmp? && (code0[i].Jmp? ==> code1[i] == code0[i])
  }

  lemma RestOpen(acode0: seq<Instr>, acode1: seq<Instr>, s: seq<int>, i: nat)
    requires i < |s| && AllOpen(acode0, s[i..]) && |acode1| == |acode0|
    requires acode1 == LuaCode.PatchTestReg(Fs(acode0, [], 0, 0, 0, 0, [], map[], false), s[i], NoReg).code
    ensures AllOpen(acode1, s[i + 1..])
  {
    forall j | j in s[i + 1..] ensures OpenAt(acode1, j) {
      assert j in s[i..] && OpenAt(acode0, j);
    }
  }

  lemma RestList(code0: seq<Instr>, code1: seq<Instr>, l: int, s: seq<int>, i: nat)
    requires i < |s| && IsList(code0, l, s[i..]) && SameJumps(code0, code1)
    ensures 0 <= l < |code1| && code1[l].Jmp? && IsList(code1, NextJump(code1, l), s[i + 1..])
  {
    assert s[i..][1..] == s[i + 1..];
    SameJumpsList(code0, code1, NextJump(code0, l), s[i + 1..]);
  }

  lemma {:induction false} SameJumpsList(code0: seq<Instr>, code1: seq<Instr>, head: int, s: seq<int>)
    requires IsList(code0, head, s) && SameJumps(code0, code1)
    ensures IsList(code1, head, s)
    decreases |s|
  {
    if s != [] { SameJumpsList(code0, code1, NextJump(code0, head), s[1..]); }
  }

  lemma OpenHead(acode: seq<Instr>, s: seq<int>)
    requires PatchList(acode, s) && s != []
    ensures OpenAt(acode, s[0])
  {
  }

  lemma RepeatFact(acode: seq<Instr>, s: seq<int>)
    requires PatchList(acode, s) && s != []
    ensures s[0] !in s[1..]
  {
  }

  /** The rest of a list when the head has been patched. */
  lemma PatchedRest(code0: seq<Instr>, code1: seq<Instr>, l: int, s: seq<int>)
    requires IsList(code0, l, s) && s != [] && s[0] !in s[1..] && |code1| == |code0|
    requires forall i :: 0 <= i < |code0| && i != l ==> code0[i].Jmp? ==> code1[i] == code0[i]
    ensures IsList(code1, NextJump(code0, l), s[1..])
  {
    AllJumps(code0, NextJump(code0, l), s[1..]);
    ListFrame(code0, code1, NextJump(code0, l), s[1..]);
  }

  lemma {:induction false} AllJumps(code: seq<Instr>, head: int, s: seq<int>)
    requires IsList(code, head, s)
    ensures forall j :: j in s ==> 0 <= j < |code| && code[j].Jmp?
    decreases |s|
  {
    if s != [] {
      AllJumps(code, NextJump(code, head), s[1..]);
      assert s == [s[0]] + s[1..];
    }
  }

  lemma UntouchedStep(code: seq<Instr>, acode: seq<Instr>, s: seq<int>, code0: seq<Instr>, code1: seq<Instr>, l: int)
    requires Untouched(code, acode, s, [], code0) && l in s && |code0| == |code1| == |code| && CodeRel(code, acode)
    requires forall i :: 0 <= i < |code0| && i != l ==> code0[i].Jmp? ==> code1[i] == code0[i]
    ensures Untouched(code, acode, s, [], code1)
  {
    forall j | OpenAt(acode, j) && j !in s ensures j < |code1| && code1[j] == code[j] { assert code[j].Jmp?; }
  }

  /** The new jump with the jumps held for it. */
  lemma JumpLinks(fs: Fs, code0: seq<Instr>, code1: seq<Instr>, j: int, held: int)
    requires PatchList(fs.code, fs.jpc) && CodeRel(code0, fs.code) && IsList(code0, held, fs.jpc) && j == |code0|
    requires |code1| == |code0| + 1 && code1[j] == Jmp(NO_JUMP) && Untouched(code0, fs.code, [], [], code1)
    ensures IsList(code1, j, [j]) && IsList(code1, held, fs.jpc) && Apart([j], fs.jpc)
  {
    ListUntouched(code0, fs.code, [], [], code1, held, fs.jpc);
    assert [j][1..] == [];
    forall x | x in fs.jpc ensures x != j { assert OpenAt(fs.code, x); }
  }

  lemma UntouchedSelf(code: seq<Instr>, acode: seq<Instr>, s: seq<int>)
    requires CodeRel(code, acode)
    ensures Untouched(code, acode, s, [], code)
  {
  }

  lemma NothingToPatch(fs: Fs, vtarget: int, reg: Dest, dtarget: int)
    ensures LuaCode.PatchListAux(fs, [], vtarget, reg, dtarget) == fs
  {
  }

  lemma JumpCode(fs: Fs, fs2: Fs)
    requires fs2 == Emit(fs.(jpc := []), Jmp(NO_JUMP))
    ensures fs2.code == fs.code + [Jmp(NO_JUMP)] && AllOpen(fs2.code, [|fs.code|])
    ensures forall x :: AllOpen(fs.code, x) ==> AllOpen(fs2.code, x)
  {
    forall x, j | AllOpen(fs.code, x) && j in x ensures OpenAt(fs2.code, j) { assert OpenAt(fs.code, j); }
  }

  lemma EmptyJpc(fs: Fs, i: Instr)
    ensures Emit(fs, i).jpc == [] && PatchList(Emit(fs, i).code, [])
  {
  }

  lemma EmitOpen(fs: Fs, test: Instr)
    requires FsOk(fs)
    ensures forall j :: OpenAt(fs.code, j) && j !in fs.jpc ==> OpenAt(Emit(fs, test).code, j)
  {
    DischargeOk(fs);
  }

  lemma UntouchedTrans(code0: seq<Instr>, acode0: seq<Instr>, jpc0: seq<int>, code1: seq<Instr>, acode1: seq<Instr>, code2: seq<Instr>)
    requires Untouched(code0, acode0, [], jpc0, code1) && Untouched(code1, acode1, [], [], code2)
    requires forall j :: OpenAt(acode0, j) && j !in jpc0 ==> OpenAt(acode1, j)
    ensures Untouched(code0, acode0, [], jpc0, code2)
  {
  }
}
