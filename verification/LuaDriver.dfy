/** The parser of expressions, which calls the generator as it goes. */
module LuaDriver {
  import opened LuaVm
  import opened LuaExec
  import opened LuaEmit
  import opened LuaExp
  import opened LuaCompile
  import opened LuaFunc
  import opened LuaForm
  import opened LuaGen
  import opened LuaGenOps
  import opened LuaGenCond
  import B = LuaGenBinary
  import opened LuaGenBinary
  import opened LuaParse
  import C = LuaCode
  import opened LuaCode

  /** Names stand for active local variables. */
  predicate LocalToks(toks: seq<Token>, n: int) {
    forall i :: 0 <= i < |toks| && toks[i].TkLocal? ==> 0 <= toks[i].r < n
  }

  /** The state a statement starts in. */
  ghost predicate Settled(fs: Fs) {
    FsOk(fs) && 0 <= fs.nactvar <= fs.freereg
  }

  /** Generation has come from `fs0' to here with the tree, and has left the jumps of others alone. */
  ghost predicate Generated(s: FuncState, fs0: Fs, code0: seq<Instr>, tree: Expr, d: ExpDesc, e: Exp)
    reads s
  {
    && (s.abs, e) == C.Compile(s.m, fs0, tree) && Holds(s, fs0, d, e) && !e.k.VK?
    && Untouched(code0, fs0.code, [], fs0.jpc, s.code)
  }

  lemma LeafFormed(fs0: Fs, k: Kind)
    requires Settled(fs0) && (k.VNil? || k.VTrue? || k.VFalse? || k.VKNum? || (k.VLocal? && 0 <= k.r < fs0.nactvar))
    ensures Formed(fs0, fs0, Exp(k, [], []))
  {
    GrownSelf(fs0);
  }

  lemma LeafGenerated(s: FuncState, fs0: Fs, code0: seq<Instr>, tree: Expr, k: Kind)
    requires s.Rep() && s.abs == fs0 && s.code == code0 && Settled(fs0)
    requires k.VNil? || k.VTrue? || k.VFalse? || k.VKNum? || (k.VLocal? && 0 <= k.r < fs0.nactvar)
    requires C.Compile(s.m, fs0, tree) == (fs0, Exp(k, [], []))
    ensures Generated(s, fs0, code0, tree, ExpDesc(k, NO_JUMP, NO_JUMP), Exp(k, [], []))
  {
    LeafFormed(fs0, k);
  }

  /** A step of generation on an expression leaves the jumps of others alone. */
  lemma StepUntouched(fs0: Fs, code0: seq<Instr>, fs: Fs, e: Exp, code1: seq<Instr>, code2: seq<Instr>)
    requires Untouched(code0, fs0.code, [], fs0.jpc, code1) && Untouched(code1, fs.code, Own(e), fs.jpc, code2) && Formed(fs0, fs, e)
    ensures Untouched(code0, fs0.code, [], fs0.jpc, code2)
  {
    forall j | OpenAt(fs0.code, j) && j !in fs0.jpc ensures j < |code2| && code2[j] == code0[j] {
      assert OpenAt(fs.code, j);
      assert j !in Own(e) && j !in fs.jpc;
    }
  }

  /** So does the generation of the second operand; and the first one waits unchanged. */
  lemma SecondUntouched(fs0: Fs, code0: seq<Instr>, op: BinOp, fs1: Fs, y: Exp, d: ExpDesc, code1: seq<Instr>, code2: seq<Instr>)
    requires Untouched(code0, fs0.code, [], fs0.jpc, code1) && Untouched(code1, fs1.code, [], fs1.jpc, code2) && |code1| == |fs1.code|
    requires Waiting(fs0, fs1, op, y) && WaitingRep(code1, op, d, y) && |code1| <= |code2|
    ensures Untouched(code0, fs0.code, [], fs0.jpc, code2) && WaitingRep(code2, op, d, y)
  {
    WaitingGrown(fs0, fs1, op, y);
    forall j | OpenAt(fs0.code, j) && j !in fs0.jpc ensures j < |code2| && code2[j] == code0[j] { assert OpenAt(fs1.code, j); }
    match op
    case AndOp => ListUntouched(code1, fs1.code, [], fs1.jpc, code2, d.f, y.f);
    case OrOp => ListUntouched(code1, fs1.code, [], fs1.jpc, code2, d.t, y.t);
    case _ => assert d.k == y.k;
  }

  lemma WaitingGrown(fs0: Fs, fs1: Fs, op: BinOp, y: Exp)
    requires Waiting(fs0, fs1, op, y)
    ensures Grown(fs0, fs1) && Settled(fs1) && fs1.nactvar == fs0.nactvar
  {
  }

  lemma FormedGrown(fs0: Fs, fs: Fs, e: Exp)
    requires Formed(fs0, fs, e)
    ensures |fs0.code| <= |fs.code| && fs.nactvar == fs0.nactvar
  {
  }

  lemma ParenCompile(m: Machine, fs: Fs, e: Expr)
    ensures C.Compile(m, fs, EParen(e)) == (C.Compile(m, fs, e).0, DischargeVars(C.Compile(m, fs, e).1))
  {
  }

  lemma UnaryCompile(m: Machine, fs: Fs, op: UnOp, e: Expr)
    ensures C.Compile(m, fs, EUn(op, e)) == C.Prefix(C.Compile(m, fs, e).0, op, C.Compile(m, fs, e).1)
  {
    hide C.Prefix;
  }

  lemma VarsGenerated(s: FuncState, fs0: Fs, code0: seq<Instr>, tree: Expr, d: ExpDesc, e: Exp)
    requires Generated(s, fs0, code0, tree, d, e)
    ensures Generated(s, fs0, code0, EParen(tree), Vars(d), DischargeVars(e))
  {
    ParenCompile(s.m, fs0, tree);
    DischargedVars(fs0, s.abs, e);
    VarsRep(s.code, d, e);
  }

  /** The lexical state and the function being compiled. */
  class Parser {
    const s: FuncState
    var toks: seq<Token>

    constructor (s: FuncState, toks: seq<Token>)
      ensures this.s == s && this.toks == toks
    {
      this.s, this.toks := s, toks;
    }

    method Next()
      requires toks != []
      modifies this`toks
      ensures toks == old(toks)[1..]
    {
      toks := toks[1..];
    }

    ghost predicate Ready()
      reads this, s
    {
      s.Rep() && Settled(s.abs) && LocalToks(toks, s.nactvar)
    }

    /** simpleexp and prefixexp, for the expressions of this model. */
    method SimpleExp() returns (ok: bool, d: ExpDesc, ghost e: Exp)
      requires Ready() && toks != [] && !UnaryOf(toks[0]).0
      modifies this`toks, s
      ensures ok <==> ParseHead(old(toks)).Some?
      ensures ok ==> toks == ParseHead(old(toks)).rest && Generated(s, old(s.abs), old(s.code), ParseHead(old(toks)).tree, d, e)
      decreases |toks|, 0
    {
      hide C.Prefix, C.Infix, C.Posfix, Untouched, Formed, IsList, CodeRel, FsOk;
      ghost var fs0, code0 := s.abs, s.code;
      ghost var tree := ENil;
      var k := VNil;
      ok := true;
      match toks[0] {
        case TkNumber(n) => k := VKNum(n); tree := ENum(n);
        case TkNil => k := VNil; tree := ENil;
        case TkTrue => k := VTrue; tree := ETrue;
        case TkFalse => k := VFalse; tree := EFalse;
        case TkLocal(r) => k := VLocal(r); tree := ELocal(r);
        case TkOpen =>
          Next();
          ok, d, e := SubExpr(0);
          if !ok || toks == [] || !toks[0].TkClose? { return false, d, e; }
          VarsGenerated(s, fs0, code0, ParseSub(old(toks)[1..], 0).tree, d, e);
          d, e := Vars(d), DischargeVars(e);
          Next();
          return;
        case _ => return false, ExpDesc(VNil, NO_JUMP, NO_JUMP), Exp(VNil, [], []);
      }
      d, e := ExpDesc(k, NO_JUMP, NO_JUMP), Exp(k, [], []);
      LeafGenerated(s, fs0, code0, tree, k);
      Next();
    }

    /** subexpr: the code generated is that of the tree that is parsed. */
    method SubExpr(limit: int) returns (ok: bool, d: ExpDesc, ghost e: Exp)
      requires Ready()
      modifies this`toks, s
      ensures ok <==> ParseSub(old(toks), limit).Some?
      ensures ok ==> toks == ParseSub(old(toks), limit).rest && Generated(s, old(s.abs), old(s.code), ParseSub(old(toks), limit).tree, d, e)
      decreases |toks|, 2
    {
      hide C.Compile, C.Infix, C.Posfix, C.Prefix, Formed, Untouched, IsList, CodeRel, FsOk;
      d, e := ExpDesc(VNil, NO_JUMP, NO_JUMP), Exp(VNil, [], []);
      if toks == [] { return false, d, e; }
      ghost var fs0, code0 := s.abs, s.code;
      ghost var tree;
      ok, d, e, tree := Head();
      if !ok { return; }
      while toks != [] && toks[0].TkOp? && LeftPriority(toks[0].op) > limit
        invariant |toks| < |old(toks)| && LocalToks(toks, fs0.nactvar) && Generated(s, fs0, code0, tree, d, e)
        invariant ParseSub(old(toks), limit) == Continue(tree, toks, limit)
        decreases |toks|
      {
        hide ParseSub, ParseHead;
        ok, d, e, tree := Operation(d, fs0, code0, e, tree);
        if !ok { return; }
      }
      ok := true;
    }

    /** A prefix operator and its operand, or a simple expression. */
    method Head() returns (ok: bool, d: ExpDesc, ghost e: Exp, ghost tree: Expr)
      requires Ready() && toks != []
      modifies this`toks, s
      ensures ok <==> ParseHead(old(toks)).Some?
      ensures ok ==> toks == ParseHead(old(toks)).rest && tree == ParseHead(old(toks)).tree && LocalToks(toks, old(s.nactvar))
      ensures ok ==> Generated(s, old(s.abs), old(s.code), tree, d, e)
      decreases |toks|, 1
    {
      hide C.Compile, C.Infix, C.Posfix, C.Prefix, Formed, Untouched, IsList, CodeRel, FsOk;
      ghost var fs0, code0 := s.abs, s.code;
      tree := ENil;
      var (unary, uop) := UnaryOf(toks[0]);
      HeadSound0(toks);
      if unary {
        Next();
        ok, d, e := SubExpr(UNARY_PRIORITY);
        if !ok { return; }
        ghost var operand := ParseSub(old(toks)[1..], UNARY_PRIORITY).tree;
        ghost var code1, fs1, e1 := s.code, s.abs, e;
        d := B.Prefix(s, uop, d, fs0, e);
        e := C.Prefix(fs1, uop, e1).1;
        tree := EUn(uop, operand);
        UnaryCompile(s.m, fs0, uop, operand);
        StepUntouched(fs0, code0, fs1, e1, code1, s.code);
      } else {
        ok, d, e := SimpleExp();
        if !ok { return; }
        tree := ParseHead(old(toks)).tree;
      }
    }

    /** One round of the loop: an operator and its second operand. */
    method Operation(d0: ExpDesc, ghost fs0: Fs, ghost code0: seq<Instr>, ghost e0: Exp, ghost left: Expr)
      returns (ok: bool, d: ExpDesc, ghost e: Exp, ghost tree: Expr)
      requires toks != [] && toks[0].TkOp? && LocalToks(toks, fs0.nactvar) && Generated(s, fs0, code0, left, d0, e0)
      modifies this`toks, s
      ensures ok <==> ParseSub(old(toks)[1..], RightPriority(old(toks)[0].op)).Some?
      ensures var p := ParseSub(old(toks)[1..], RightPriority(old(toks)[0].op));
              ok ==> tree == EBin(old(toks)[0].op, left, p.tree) && toks == p.rest && LocalToks(toks, fs0.nactvar) && Generated(s, fs0, code0, tree, d, e)
      decreases |toks|, 0
    {
      hide C.Compile, C.Infix, C.Posfix, C.Prefix, Formed, Untouched, IsList, CodeRel, FsOk, Waiting, WaitingRep, ParseSub;
      tree := left;
      ghost var fs, code1 := s.abs, s.code;
      var op := toks[0].op;
      Next();
      var y := B.Infix(s, op, d0, fs0, e0);
      ghost var fs1, code2, y1 := s.abs, s.code, C.Infix(fs, op, e0).1;
      StepUntouched(fs0, code0, fs, e0, code1, code2);
      WaitingGrown(fs0, fs1, op, y1);
      ghost var e2;
      ok, d, e2 := SubExpr(RightPriority(op));
      e := e2;
      if !ok { return; }
      ghost var right := ParseSub(old(toks)[1..], RightPriority(op));
      SubRest(old(toks)[1..], RightPriority(op), fs0.nactvar);
      ghost var fs2, code3 := s.abs, s.code;
      FormedGrown(fs1, fs2, e2);
      SameLength(code2, fs1);
      SameLength(code3, fs2);
      SecondUntouched(fs0, code0, op, fs1, y1, y, code2, code3);
      CompileBinary(s.m, fs0, op, left, right.tree);
      d := B.Posfix(s, op, y, d, fs0, fs1, y1, e2);
      e := C.Posfix(s.m, fs2, op, y1, e2).1;
      tree := EBin(op, left, right.tree);
      LastUntouched(fs0, code0, fs1, fs2, e2, code3, s.code) by { WaitingGrown(fs0, fs1, op, y1); }
    }
  }

  lemma LastUntouched(fs0: Fs, code0: seq<Instr>, fs1: Fs, fs2: Fs, e: Exp, code1: seq<Instr>, code2: seq<Instr>)
    requires Grown(fs0, fs1) && Formed(fs1, fs2, e)
    requires Untouched(code0, fs0.code, [], fs0.jpc, code1) && Untouched(code1, fs2.code, Own(e), fs2.jpc, code2)
    ensures Untouched(code0, fs0.code, [], fs0.jpc, code2)
  {
    forall j | OpenAt(fs0.code, j) && j !in fs0.jpc ensures j < |code2| && code2[j] == code0[j] {
      assert OpenAt(fs1.code, j) && j !in fs1.jpc;
      assert OpenAt(fs2.code, j);
      assert j !in Own(e) && j !in fs2.jpc;
    }
  }

  /** What is left is part of the text. */
  lemma {:induction false} SubRest(toks: seq<Token>, limit: int, n: int)
    requires ParseSub(toks, limit).Some? && LocalToks(toks, n)
    ensures LocalToks(ParseSub(toks, limit).rest, n)
  {
    ParseSound(toks, limit);
    var p := ParseSub(toks, limit);
    forall i | 0 <= i < |p.rest| && p.rest[i].TkLocal? ensures 0 <= p.rest[i].r < n { assert toks[|Tokens(p.tree)| + i] == p.rest[i]; }
  }

  lemma HeadSound0(toks: seq<Token>)
    requires toks != []
    ensures ParseHead(toks).Some? ==> forall n :: LocalToks(toks, n) ==> LocalToks(ParseHead(toks).rest, n)
  {
    if ParseHead(toks).Some? {
      HeadSound(toks);
      var p := ParseHead(toks);
      forall n | LocalToks(toks, n) ensures LocalToks(p.rest, n) {
        forall i | 0 <= i < |p.rest| && p.rest[i].TkLocal? ensures 0 <= p.rest[i].r < n { assert toks[|Tokens(p.tree)| + i] == p.rest[i]; }
      }
    }
  }
}
