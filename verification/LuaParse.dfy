/** subexpr: operator precedence climbing over the priority table, and the grammar it reads. */
module LuaParse {
  import opened LuaVm
  import opened LuaCode

  /** The tokens of expressions over locals; the name of a local comes with its register. */
  datatype Token = TkNumber(n: int) | TkNil | TkTrue | TkFalse | TkLocal(r: int) | TkNot | TkOp(op: BinOp) | TkOpen | TkClose | TkOther

  datatype Parsed = Some(tree: Expr, rest: seq<Token>) | SyntaxError

  const UNARY_PRIORITY := 8

  /** The table `priority': how strongly an operator takes what is on its left and on its right. */
  function LeftPriority(op: BinOp): int {
    match op
    case ArithBin(a) => if a.Pow? then 10 else if a.Add? || a.Sub? then 6 else 7
    case AndOp => 2
    case OrOp => 1
    case _ => 3
  }

  function RightPriority(op: BinOp): int {
    match op
    case ArithBin(a) => if a.Pow? then 9 else if a.Add? || a.Sub? then 6 else 7
    case AndOp => 2
    case OrOp => 1
    case _ => 3
  }

  /** The minus sign is a binary operator, or a unary one at the start of an operand. */
  function UnaryOf(t: Token): (bool, UnOp) {
    if t.TkNot? then (true, NotOp) else if t == TkOp(ArithBin(Sub)) then (true, Minus) else (false, NotOp)
  }

  // ----- the grammar -----

  function MinusToken(): Token {
    TkOp(ArithBin(Sub))
  }

  /** The text of a tree. */
  function Tokens(e: Expr): seq<Token> {
    match e
    case ENil => [TkNil]
    case ETrue => [TkTrue]
    case EFalse => [TkFalse]
    case ENum(n) => [TkNumber(n)]
    case ELocal(r) => [TkLocal(r)]
    case EParen(e1) => [TkOpen] + Tokens(e1) + [TkClose]
    case EUn(op, e1) => [if op.NotOp? then TkNot else MinusToken()] + Tokens(e1)
    case EBin(op, l, r) => Tokens(l) + [TkOp(op)] + Tokens(r)
  }

  /** The text behind does not go on with an operator stronger than `limit'. */
  predicate Ends(rest: seq<Token>, limit: int) {
    rest != [] && rest[0].TkOp? ==> LeftPriority(rest[0].op) <= limit
  }

  /** No operand at the right edge of the tree would take in the operator that follows. */
  predicate Stops(e: Expr, rest: seq<Token>) {
    match e
    case EUn(_, e1) => Ends(rest, UNARY_PRIORITY) && Stops(e1, rest)
    case EBin(op, _, r) => Ends(rest, RightPriority(op)) && Stops(r, rest)
    case _ => true
  }

  /** The tree groups its text as the priorities say, in a place where only operators stronger than
      `limit' may stand outside parentheses. */
  predicate Grouped(e: Expr, limit: int) {
    match e
    case EParen(e1) => Grouped(e1, 0)
    case EUn(_, e1) => Grouped(e1, UNARY_PRIORITY)
    case EBin(op, l, r) =>
      LeftPriority(op) > limit && Grouped(l, limit) && Stops(l, [TkOp(op)]) && Grouped(r, RightPriority(op))
    case _ => true
  }

  // ----- the parser as a function -----

  /** The tree subexpr goes through, without the code generation. */
  function ParseSub(toks: seq<Token>, limit: int): (r: Parsed)
    ensures r.Some? ==> |r.rest| < |toks|
    decreases |toks|, 1
  {
    if toks == [] then SyntaxError
    else
      var head := ParseHead(toks);
      if head.SyntaxError? then SyntaxError else Continue(head.tree, head.rest, limit)
  }

  /** An operand: a prefix operator and what it applies to, a simple expression or a parenthesis. */
  function ParseHead(toks: seq<Token>): (r: Parsed)
    requires toks != []
    ensures r.Some? ==> |r.rest| < |toks|
    decreases |toks|, 0
  {
    var (unary, op) := UnaryOf(toks[0]);
    if unary then
      var x := ParseSub(toks[1..], UNARY_PRIORITY);
      if x.Some? then Some(EUn(op, x.tree), x.rest) else SyntaxError
    else match toks[0]
      case TkNumber(n) => Some(ENum(n), toks[1..])
      case TkNil => Some(ENil, toks[1..])
      case TkTrue => Some(ETrue, toks[1..])
      case TkFalse => Some(EFalse, toks[1..])
      case TkLocal(r) => Some(ELocal(r), toks[1..])
      case TkOpen =>
        var x := ParseSub(toks[1..], 0);
        if x.Some? && x.rest != [] && x.rest[0].TkClose? then Some(EParen(x.tree), x.rest[1..]) else SyntaxError
      case _ => SyntaxError
  }

  /** The loop of subexpr. */
  function Continue(left: Expr, toks: seq<Token>, limit: int): (r: Parsed)
    ensures r.Some? ==> |r.rest| <= |toks|
    decreases |toks|, 2
  {
    if toks != [] && toks[0].TkOp? && LeftPriority(toks[0].op) > limit then
      var x := ParseSub(toks[1..], RightPriority(toks[0].op));
      if x.Some? then Continue(EBin(toks[0].op, left, x.tree), x.rest, limit) else SyntaxError
    else Some(left, toks)
  }

  // ----- the parser reads exactly the grammar -----

  /** What is parsed is the text of the tree, grouped by the priorities. */
  lemma {:induction false} ParseSound(toks: seq<Token>, limit: int)
    requires ParseSub(toks, limit).Some?
    ensures var p := ParseSub(toks, limit);
            toks == Tokens(p.tree) + p.rest && Grouped(p.tree, limit) && Ends(p.rest, limit) && Stops(p.tree, p.rest)
    decreases |toks|, 1
  {
    var head := ParseHead(toks);
    HeadSound(toks);
    HeadStops(toks);
    assert toks == Tokens(head.tree) + head.rest;
    ContinueSound(head.tree, head.rest, limit, toks);
  }

  lemma {:induction false} HeadSound(toks: seq<Token>)
    requires toks != [] && ParseHead(toks).Some?
    ensures var p := ParseHead(toks); toks == Tokens(p.tree) + p.rest && forall limit :: Grouped(p.tree, limit)
    decreases |toks|, 0
  {
    hide ParseSub, Continue;
    var (unary, op) := UnaryOf(toks[0]);
    var p := ParseHead(toks);
    assert toks == [toks[0]] + toks[1..];
    if unary {
      ParseSound(toks[1..], UNARY_PRIORITY);
      var x := ParseSub(toks[1..], UNARY_PRIORITY);
      assert toks == [toks[0]] + Tokens(x.tree) + x.rest;
    } else if toks[0].TkOpen? {
      ParseSound(toks[1..], 0);
      var x := ParseSub(toks[1..], 0);
      assert x.rest == [TkClose] + x.rest[1..];
      assert toks == [TkOpen] + Tokens(x.tree) + [TkClose] + x.rest[1..];
    }
  }

  lemma {:induction false} HeadStops(toks: seq<Token>)
    requires toks != [] && ParseHead(toks).Some?
    ensures Stops(ParseHead(toks).tree, ParseHead(toks).rest)
    decreases |toks|, 0
  {
    if UnaryOf(toks[0]).0 { ParseSound(toks[1..], UNARY_PRIORITY); }
  }

  lemma {:induction false} ContinueSound(left: Expr, toks: seq<Token>, limit: int, all: seq<Token>)
    requires Continue(left, toks, limit).Some? && |toks| < |all|
    requires Grouped(left, limit) && Stops(left, toks)
    ensures var p := Continue(left, toks, limit);
            Tokens(left) + toks == Tokens(p.tree) + p.rest && Grouped(p.tree, limit) && Ends(p.rest, limit) && Stops(p.tree, p.rest)
    decreases |toks|, 2
  {
    hide ParseSub, ParseHead, Continue, LeftPriority, RightPriority;
    if toks != [] && toks[0].TkOp? && LeftPriority(toks[0].op) > limit {
      var op := toks[0].op;
      var x := ParseSub(toks[1..], RightPriority(op));
      ContinueStep(left, toks, limit);
      ParseSound(toks[1..], RightPriority(op));
      StopsNext(left, toks);
      ContinueSound(EBin(op, left, x.tree), x.rest, limit, toks);
      BinaryText(op, left, x.tree, toks, x.rest);
    } else {
      ContinueStop(left, toks, limit);
    }
  }

  lemma BinaryText(op: BinOp, left: Expr, right: Expr, toks: seq<Token>, rest: seq<Token>)
    requires toks != [] && toks[0] == TkOp(op) && toks[1..] == Tokens(right) + rest
    ensures Tokens(left) + toks == Tokens(EBin(op, left, right)) + rest
  {
    assert toks == [TkOp(op)] + toks[1..];
  }

  /** Only the next token counts. */
  lemma {:induction false} StopsNext(e: Expr, toks: seq<Token>)
    requires toks != [] && Stops(e, toks)
    ensures Stops(e, [toks[0]])
  {
    match e
    case EUn(_, e1) => StopsNext(e1, toks);
    case EBin(_, _, r) => StopsNext(r, toks);
    case _ =>
  }

  lemma {:induction false} StopsAfter(e: Expr, toks: seq<Token>)
    requires toks != [] && Stops(e, [toks[0]])
    ensures Stops(e, toks)
  {
    match e
    case EUn(_, e1) => StopsAfter(e1, toks);
    case EBin(_, _, r) => StopsAfter(r, toks);
    case _ =>
  }

  /** A tree grouped by the priorities is parsed from its text, and so is the only one with that text. */
  lemma {:induction false} ParseComplete(e: Expr, limit: int, rest: seq<Token>)
    requires Grouped(e, limit) && Stops(e, rest)
    ensures ParseSub(Tokens(e) + rest, limit) == Continue(e, rest, limit)
    decreases e
  {
    match e
    case EParen(e1) =>
      StopsClose(e1, rest);
      ParseComplete(e1, 0, [TkClose] + rest);
      ParenParsed(e1, limit, rest);
    case EUn(op, e1) =>
      ParseComplete(e1, UNARY_PRIORITY, rest);
      UnaryParsed(op, e1, limit, rest);
    case EBin(op, l, r) =>
      StopsAfter(l, [TkOp(op)] + (Tokens(r) + rest));
      ParseComplete(l, limit, [TkOp(op)] + (Tokens(r) + rest));
      ParseComplete(r, RightPriority(op), rest);
      BinaryParsed(op, l, r, limit, rest);
    case _ =>
      assert (Tokens(e) + rest)[1..] == rest;
  }

  lemma ParenParsed(e1: Expr, limit: int, rest: seq<Token>)
    requires ParseSub(Tokens(e1) + ([TkClose] + rest), 0) == Continue(e1, [TkClose] + rest, 0)
    ensures ParseSub(Tokens(EParen(e1)) + rest, limit) == Continue(EParen(e1), rest, limit)
  {
    var toks := Tokens(EParen(e1)) + rest;
    assert toks[1..] == Tokens(e1) + ([TkClose] + rest);
    assert ([TkClose] + rest)[1..] == rest;
    assert ParseHead(toks) == Some(EParen(e1), rest);
  }

  lemma UnaryParsed(op: UnOp, e1: Expr, limit: int, rest: seq<Token>)
    requires ParseSub(Tokens(e1) + rest, UNARY_PRIORITY) == Continue(e1, rest, UNARY_PRIORITY) && Ends(rest, UNARY_PRIORITY)
    ensures ParseSub(Tokens(EUn(op, e1)) + rest, limit) == Continue(EUn(op, e1), rest, limit)
  {
    var toks := Tokens(EUn(op, e1)) + rest;
    assert toks[1..] == Tokens(e1) + rest;
    assert ParseHead(toks) == Some(EUn(op, e1), rest);
  }

  lemma BinaryParsed(op: BinOp, l: Expr, r: Expr, limit: int, rest: seq<Token>)
    requires ParseSub(Tokens(l) + ([TkOp(op)] + (Tokens(r) + rest)), limit) == Continue(l, [TkOp(op)] + (Tokens(r) + rest), limit)
    requires ParseSub(Tokens(r) + rest, RightPriority(op)) == Continue(r, rest, RightPriority(op))
    requires LeftPriority(op) > limit && Ends(rest, RightPriority(op))
    ensures ParseSub(Tokens(EBin(op, l, r)) + rest, limit) == Continue(EBin(op, l, r), rest, limit)
  {
    hide ParseSub, ParseHead, Continue, LeftPriority, RightPriority;
    var rest1 := [TkOp(op)] + (Tokens(r) + rest);
    assert Tokens(EBin(op, l, r)) + rest == Tokens(l) + rest1;
    hide Tokens;
    assert rest1[1..] == Tokens(r) + rest;
    ContinueStep(l, rest1, limit);
    ContinueStop(r, rest, RightPriority(op));
  }

  lemma ContinueStep(left: Expr, toks: seq<Token>, limit: int)
    requires toks != [] && toks[0].TkOp? && LeftPriority(toks[0].op) > limit
    ensures var x := ParseSub(toks[1..], RightPriority(toks[0].op));
            Continue(left, toks, limit) == if x.Some? then Continue(EBin(toks[0].op, left, x.tree), x.rest, limit) else SyntaxError
  {
    hide ParseSub, ParseHead;
  }

  lemma ContinueStop(left: Expr, toks: seq<Token>, limit: int)
    requires Ends(toks, limit)
    ensures Continue(left, toks, limit) == Some(left, toks)
  {
  }

  lemma {:induction false} StopsClose(e: Expr, rest: seq<Token>)
    ensures Stops(e, [TkClose] + rest)
  {
    match e
    case EUn(_, e1) => StopsClose(e1, rest);
    case EBin(_, _, r) => StopsClose(r, rest);
    case _ =>
  }

  /** Printing and parsing: a whole expression has one reading. */
  lemma ParseRoundTrip(e: Expr)
    requires Grouped(e, 0)
    ensures ParseSub(Tokens(e), 0) == Some(e, [])
  {
    assert Tokens(e) + [] == Tokens(e);
    StopsEmpty(e);
    ParseComplete(e, 0, []);
  }

  lemma {:induction false} StopsEmpty(e: Expr)
    ensures Stops(e, [])
  {
    match e
    case EUn(_, e1) => StopsEmpty(e1);
    case EBin(_, _, r) => StopsEmpty(r);
    case _ =>
  }

  lemma CompileBinary(m: Machine, fs: Fs, op: BinOp, l: Expr, r: Expr)
    ensures Compile(m, fs, EBin(op, l, r)) ==
      var (fs1, x1) := Compile(m, fs, l);
      var (fs2, y1) := Infix(fs1, op, x1);
      var (fs3, x2) := Compile(m, fs2, r);
      Posfix(m, fs3, op, y1, x2)
  {
    hide Infix, Posfix;
  }
}
