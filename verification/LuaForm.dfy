/** The shape of generated code without regard to any run, and the parts of it a method needs to know. */
module LuaForm {
  import opened LuaVm
  import opened LuaCode
  import opened LuaExec
  import opened LuaEmit
  import opened LuaExp
  import opened LuaClose
  import opened LuaReg
  import opened LuaOperand
  import opened LuaCond
  import opened LuaOps
  import opened LuaBinary
  import opened LuaCompile
  import opened LuaFunc

  /** Generation from `fs0' has come to `fs' with the descriptor `e'. */
  ghost predicate Formed0(fs0: Fs, fs: Fs, e: Exp) {
    FsOk(fs0) && 0 <= fs0.nactvar <= fs0.freereg && Shape(fs0, fs, e)
  }

  ghost predicate Formed(fs0: Fs, fs: Fs, e: Exp) {
    Formed0(fs0, fs, e) && RegOk(fs0, fs, e)
  }

  function Shapes(m: Machine, fs0: Fs): Ctx {
    Ctx(m, [], fs0, map[], false, {})
  }

  lemma FormedIs(m: Machine, fs0: Fs, fs: Fs, e: Exp)
    ensures Formed(fs0, fs, e) <==> Denotes(Shapes(m, fs0), fs, e, Nil)
    ensures Formed0(fs0, fs, e) <==> Denotes0(Shapes(m, fs0), fs, e, Nil)
  {
    hide Shape, FsOk, RegOk;
  }

  lemma FormedShape(fs0: Fs, fs: Fs, e: Exp)
    requires Formed0(fs0, fs, e)
    ensures Shape(fs0, fs, e)
  {
  }

  /** A conditional jump has been generated; `list' are the jumps that leave. */
  ghost predicate GuardFormed(fs0: Fs, fs: Fs, list: seq<int>) {
    && FsOk(fs0) && 0 <= fs0.nactvar <= fs0.freereg && FsOk(fs) && Grown(fs0, fs) && fs.freereg == fs0.freereg
    && PatchList(fs.code, list) && Apart(list, fs.jpc) && Within(list, fs0)
  }

  lemma GuardIs(m: Machine, fs0: Fs, fs: Fs, list: seq<int>, v: Value, go: bool)
    requires Guard(Shapes(m, fs0), fs, list, v, go)
    ensures GuardFormed(fs0, fs, list)
  {
  }

  lemma FormedFacts(fs0: Fs, fs: Fs, e: Exp)
    requires Formed0(fs0, fs, e)
    ensures FsOk(fs) && ExOk(fs, e) && fs.nactvar == fs0.nactvar
    ensures PatchList(fs.code, e.t) && PatchList(fs.code, e.f) && Apart(e.t, e.f) && Apart(e.t, fs.jpc) && Apart(e.f, fs.jpc)
    ensures PatchList(fs.code, fs.jpc)
  {
  }

  // ----- descriptors with threaded lists -----

  /** expdesc: the heads of the lists. */
  datatype ExpDesc = ExpDesc(k: Kind, t: int, f: int)

  ghost predicate ExpRep(code: seq<Instr>, d: ExpDesc, e: Exp) {
    d.k == e.k && IsList(code, d.t, e.t) && IsList(code, d.f, e.f) && (e.k.VJmp? ==> IsList(code, e.k.pc, [e.k.pc]))
  }

  /** The jumps an expression may still change. */
  function Own(e: Exp): seq<int> {
    e.t + e.f + if e.k.VJmp? then [e.k.pc] else []
  }

  /** luaK_dischargevars */
  function Vars(d: ExpDesc): ExpDesc {
    if d.k.VLocal? then d.(k := VNonReloc(d.k.r)) else d
  }

  lemma VarsRep(code: seq<Instr>, d: ExpDesc, e: Exp)
    requires ExpRep(code, d, e)
    ensures ExpRep(code, Vars(d), DischargeVars(e))
  {
  }

  /** hasjumps compares the heads of the lists, which differ unless both are empty. */
  lemma HeadsDiffer(code: seq<Instr>, d: ExpDesc, e: Exp)
    requires ExpRep(code, d, e) && Apart(e.t, e.f)
    ensures d.t != d.f <==> HasJumps(e)
  {
    ListHead(code, d.t, e.t);
    ListHead(code, d.f, e.f);
    if e.t != [] && e.f != [] { assert e.t[0] in e.t && e.f[0] in e.f; }
  }

  /** The lists of an expression after a step that does not touch them. */
  lemma ExpKept(code0: seq<Instr>, fs: Fs, d: ExpDesc, e: Exp, used: seq<int>, code1: seq<Instr>)
    requires ExpRep(code0, d, e) && ExOk(fs, e) && Untouched(code0, fs.code, used, fs.jpc, code1) && |code0| <= |code1|
    requires Apart(Own(e), used)
    ensures ExpRep(code1, d, e)
  {
    assert forall j :: j in e.t || j in e.f ==> j in Own(e);
    ListUntouched(code0, fs.code, used, fs.jpc, code1, d.t, e.t);
    ListUntouched(code0, fs.code, used, fs.jpc, code1, d.f, e.f);
    if e.k.VJmp? {
      assert e.k.pc in Own(e);
      ListUntouched(code0, fs.code, used, fs.jpc, code1, e.k.pc, [e.k.pc]);
    }
  }

  lemma UntouchedMore(code0: seq<Instr>, acode0: seq<Instr>, s: seq<int>, s2: seq<int>, jpc: seq<int>, code1: seq<Instr>)
    requires Untouched(code0, acode0, s, jpc, code1) && forall j :: j in s ==> j in s2 || j in jpc
    ensures Untouched(code0, acode0, s2, jpc, code1)
  {
  }
}
