/** The grammar of expressions, one level for each strength of operator, and the proof that the parser of
    the priority table reads exactly this grammar. */
module LuaGrammar {
  import opened LuaVm
  import opened LuaCode
  import opened LuaParse

  // ----- the levels -----

  predicate IsAddOp(op: BinOp) { op == ArithBin(Add) || op == ArithBin(Sub) }
  predicate IsMulOp(op: BinOp) { op == ArithBin(Mul) || op == ArithBin(Div) || op == ArithBin(Mod) }
  predicate IsPowOp(op: BinOp) { op == ArithBin(Pow) }
  predicate IsCompOp(op: BinOp) { op.EqOp? || op.NeOp? || op.LtOp? || op.LeOp? || op.GtOp? || op.GeOp? }

  /** A literal, a local or an expression in parentheses. */
  predicate AtomExp(e: Expr)
    decreases e, 0
  {
    match e
    case EParen(e1) => OrExp(e1)
    case EUn(_, _) => false
    case EBin(_, _, _) => false
    case _ => true
  }

  /** a ^ b ^ c is a ^ (b ^ c); the exponent may have a unary operator. */
  predicate PowExp(e: Expr)
    decreases e, 1
  {
    AtomExp(e) || (e.EBin? && IsPowOp(e.bop) && AtomExp(e.lhs) && UnaryExp(e.rhs))
  }

  predicate UnaryExp(e: Expr)
    decreases e, 2
  {
    PowExp(e) || (e.EUn? && UnaryExp(e.e))
  }

  predicate MulExp(e: Expr)
    decreases e, 3
  {
    UnaryExp(e) || (e.EBin? && IsMulOp(e.bop) && MulExp(e.lhs) && UnaryExp(e.rhs))
  }

  predicate AddExp(e: Expr)
    decreases e, 4
  {
    MulExp(e) || (e.EBin? && IsAddOp(e.bop) && AddExp(e.lhs) && MulExp(e.rhs))
  }

  predicate CompExp(e: Expr)
    decreases e, 5
  {
    AddExp(e) || (e.EBin? && IsCompOp(e.bop) && CompExp(e.lhs) && AddExp(e.rhs))
  }

  predicate AndExp(e: Expr)
    decreases e, 6
  {
    CompExp(e) || (e.EBin? && e.bop.AndOp? && AndExp(e.lhs) && CompExp(e.rhs))
  }

  predicate OrExp(e: Expr)
    decreases e, 7
  {
    AndExp(e) || (e.EBin? && e.bop.OrOp? && OrExp(e.lhs) && AndExp(e.rhs))
  }

  // ----- the table gives these levels -----

  /** What binds more strongly than the operator to come leaves it alone. */
  lemma {:induction false} Follows(e: Expr, limit: int, op: BinOp)
    requires Grouped(e, limit) && LeftPriority(op) <= limit <= 9
    ensures Stops(e, [TkOp(op)])
    decreases e
  {
    match e
    case EUn(_, e1) => Follows(e1, UNARY_PRIORITY, op);
    case EBin(op1, _, r) => Follows(r, RightPriority(op1), op);
    case _ =>
  }

  /** The level of a place with a limit. */
  predicate AtLimit(e: Expr, limit: int) {
    if limit <= 0 then OrExp(e) else if limit == 1 then AndExp(e) else if limit == 2 then CompExp(e)
    else if limit <= 5 then AddExp(e) else if limit == 6 then MulExp(e) else UnaryExp(e)
  }

  /** The first operand has the level of its operator, or that of an atom for a power. */
  predicate FirstLevel(e: Expr, op: BinOp) {
    if IsPowOp(op) then AtomExp(e) else AtLimit(e, LeftPriority(op) - 1)
  }

  lemma BinaryLevel(op: BinOp, l: Expr, r: Expr, limit: int)
    requires 0 <= limit <= 9
    ensures AtLimit(EBin(op, l, r), limit) <==> LeftPriority(op) > limit && FirstLevel(l, op) && AtLimit(r, RightPriority(op))
  {
    var e := EBin(op, l, r);
    assert !AtomExp(e);
    assert PowExp(e) <==> IsPowOp(op) && AtomExp(l) && UnaryExp(r);
    assert UnaryExp(e) <==> PowExp(e);
    assert MulExp(e) <==> UnaryExp(e) || (IsMulOp(op) && MulExp(l) && UnaryExp(r));
    assert AddExp(e) <==> MulExp(e) || (IsAddOp(op) && AddExp(l) && MulExp(r));
    assert CompExp(e) <==> AddExp(e) || (IsCompOp(op) && CompExp(l) && AddExp(r));
    assert AndExp(e) <==> CompExp(e) || (op.AndOp? && AndExp(l) && CompExp(r));
  }

  lemma LeafLevel(e: Expr, limit: int)
    requires !e.EUn? && !e.EBin?
    ensures AtLimit(e, limit) <==> AtomExp(e)
  {
    assert PowExp(e) <==> AtomExp(e);
    assert UnaryExp(e) <==> PowExp(e);
    assert MulExp(e) <==> UnaryExp(e);
    assert AddExp(e) <==> MulExp(e);
    assert CompExp(e) <==> AddExp(e);
    assert AndExp(e) <==> CompExp(e);
  }

  lemma UnaryLevel(op: UnOp, e1: Expr, limit: int)
    ensures AtLimit(EUn(op, e1), limit) <==> UnaryExp(e1)
  {
    var e := EUn(op, e1);
    assert !PowExp(e);
    assert UnaryExp(e) <==> UnaryExp(e1);
    assert MulExp(e) <==> UnaryExp(e);
    assert AddExp(e) <==> MulExp(e);
    assert CompExp(e) <==> AddExp(e);
    assert AndExp(e) <==> CompExp(e);
  }

  lemma {:induction false} FirstIs(e: Expr, limit: int, op: BinOp)
    requires 0 <= limit < LeftPriority(op)
    ensures Grouped(e, limit) && Stops(e, [TkOp(op)]) <==> FirstLevel(e, op)
    decreases e, 0
  {
    match e
    case EUn(uop, e1) =>
      GroupedIs(e1, UNARY_PRIORITY);
      UnaryLevel(uop, e1, LeftPriority(op) - 1);
      if !IsPowOp(op) && Grouped(e1, UNARY_PRIORITY) { Follows(e1, UNARY_PRIORITY, op); }
    case EBin(op1, l1, r1) =>
      GroupedIs(r1, RightPriority(op1));
      if LeftPriority(op) <= RightPriority(op1) && Grouped(r1, RightPriority(op1)) { Follows(r1, RightPriority(op1), op); }
      if limit < LeftPriority(op1) { FirstIs(l1, limit, op1); }
      BinaryLevel(op1, l1, r1, LeftPriority(op) - 1);
    case _ =>
      GroupedIs(e, limit);
      LeafLevel(e, LeftPriority(op) - 1);
      LeafLevel(e, limit);
  }

  /** A tree is grouped by the priorities in a place with a limit exactly when it has the level of the place. */
  lemma {:induction false} GroupedIs(e: Expr, limit: int)
    requires 0 <= limit <= 9
    ensures Grouped(e, limit) <==> AtLimit(e, limit)
    decreases e, if e.EUn? || e.EBin? then 1 else -1
  {
    match e
    case EParen(e1) =>
      GroupedIs(e1, 0);
      LeafLevel(e, limit);
    case EUn(op, e1) =>
      GroupedIs(e1, UNARY_PRIORITY);
      UnaryLevel(op, e1, limit);
    case EBin(op, l, r) =>
      GroupedIs(r, RightPriority(op));
      if limit < LeftPriority(op) { FirstIs(l, limit, op); }
      BinaryLevel(op, l, r, limit);
    case _ => LeafLevel(e, limit);
  }

  // ----- the parser reads the grammar -----

  /** The parser of a whole expression gives exactly the trees of the grammar, each from its own text. */
  lemma ParsesGrammar(toks: seq<Token>, e: Expr)
    ensures ParseSub(toks, 0) == Some(e, []) <==> OrExp(e) && Tokens(e) == toks
  {
    hide ParseSub, OrExp, Grouped, Tokens;
    GroupedIs(e, 0);
    if ParseSub(toks, 0) == Some(e, []) {
      ParseSound(toks, 0);
      assert Tokens(e) + [] == Tokens(e);
    }
    if Grouped(e, 0) { ParseRoundTrip(e); }
  }

  /** Of two operators in a row the second one takes the operand between them. */
  predicate SecondFirst(p: BinOp, q: BinOp) {
    || (p.OrOp? && !q.OrOp?)
    || (p.AndOp? && !q.OrOp? && !q.AndOp?)
    || (IsCompOp(p) && q.ArithBin?)
    || (IsAddOp(p) && (IsMulOp(q) || IsPowOp(q)))
    || IsPowOp(q)
  }

  lemma SecondIs(p: BinOp, q: BinOp)
    ensures SecondFirst(p, q) <==> LeftPriority(q) > RightPriority(p)
    ensures !SecondFirst(p, q) ==> !IsPowOp(q) && LeftPriority(p) > LeftPriority(q) - 1
    ensures LeftPriority(p) > 0 && 0 <= RightPriority(p) <= 9 && (!IsPowOp(p) ==> LeftPriority(p) <= 9)
  {
  }

  lemma AtomAt(e: Expr, limit: int, op: BinOp)
    requires AtomExp(e)
    ensures AtLimit(e, limit) && FirstLevel(e, op)
  {
    LeafLevel(e, limit);
    LeafLevel(e, LeftPriority(op) - 1);
  }

  /** a p b q c. */
  lemma TwoOperators(p: BinOp, q: BinOp, a: Expr, b: Expr, c: Expr)
    requires AtomExp(a) && AtomExp(b) && AtomExp(c)
    ensures ParseSub(Tokens(a) + [TkOp(p)] + Tokens(b) + [TkOp(q)] + Tokens(c), 0) ==
      Some(if SecondFirst(p, q) then EBin(p, a, EBin(q, b, c)) else EBin(q, EBin(p, a, b), c), [])
  {
    hide OrExp, SecondFirst, AtomExp, ParseSub;
    var toks := Tokens(a) + [TkOp(p)] + Tokens(b) + [TkOp(q)] + Tokens(c);
    var right, left := EBin(p, a, EBin(q, b, c)), EBin(q, EBin(p, a, b), c);
    assert Tokens(right) == toks by {
      assert Tokens(EBin(q, b, c)) == Tokens(b) + [TkOp(q)] + Tokens(c);
    }
    assert Tokens(left) == toks by {
      assert Tokens(EBin(p, a, b)) == Tokens(a) + [TkOp(p)] + Tokens(b);
    }
    hide Tokens;
    TwoLevels(p, q, a, b, c);
    ParsesGrammar(toks, if SecondFirst(p, q) then right else left);
  }

  lemma TwoLevels(p: BinOp, q: BinOp, a: Expr, b: Expr, c: Expr)
    requires AtomExp(a) && AtomExp(b) && AtomExp(c)
    ensures OrExp(if SecondFirst(p, q) then EBin(p, a, EBin(q, b, c)) else EBin(q, EBin(p, a, b), c))
  {
    hide AtomExp, OrExp, SecondFirst, LeftPriority, RightPriority, IsPowOp, AtLimit, FirstLevel;
    SecondIs(p, q);
    AtomAt(a, 0, p);
    AtomAt(b, RightPriority(p), q);
    AtomAt(c, RightPriority(q), q);
    if SecondFirst(p, q) {
      SecondIs(q, q);
      BinaryLevel(q, b, c, RightPriority(p));
      BinaryLevel(p, a, EBin(q, b, c), 0);
      WholeLevel(EBin(p, a, EBin(q, b, c)));
    } else {
      SecondIs(q, q);
      BinaryLevel(p, a, b, LeftPriority(q) - 1);
      FirstAt(EBin(p, a, b), q);
      BinaryLevel(q, EBin(p, a, b), c, 0);
      WholeLevel(EBin(q, EBin(p, a, b), c));
    }
  }

  lemma FirstAt(e: Expr, op: BinOp)
    requires !IsPowOp(op)
    ensures FirstLevel(e, op) <==> AtLimit(e, LeftPriority(op) - 1)
  {
  }

  lemma WholeLevel(e: Expr)
    ensures AtLimit(e, 0) <==> OrExp(e)
  {
  }

  /** A unary operator takes a power, and nothing weaker. */
  lemma UnaryFirst(u: UnOp, p: BinOp, a: Expr, b: Expr)
    requires AtomExp(a) && AtomExp(b)
    ensures ParseSub(Tokens(EUn(u, a)) + [TkOp(p)] + Tokens(b), 0) ==
      Some(if IsPowOp(p) then EUn(u, EBin(p, a, b)) else EBin(p, EUn(u, a), b), [])
  {
    hide OrExp, AtomExp, ParseSub, LeftPriority, RightPriority;
    var toks := Tokens(EUn(u, a)) + [TkOp(p)] + Tokens(b);
    var inner, outer := EUn(u, EBin(p, a, b)), EBin(p, EUn(u, a), b);
    assert Tokens(outer) == toks;
    assert Tokens(inner) == toks;
    hide Tokens;
    UnaryLevels(u, p, a, b);
    ParsesGrammar(toks, if IsPowOp(p) then inner else outer);
  }

  lemma UnaryLevels(u: UnOp, p: BinOp, a: Expr, b: Expr)
    requires AtomExp(a) && AtomExp(b)
    ensures OrExp(if IsPowOp(p) then EUn(u, EBin(p, a, b)) else EBin(p, EUn(u, a), b))
  {
    hide AtomExp, OrExp, AtLimit, FirstLevel, UnaryExp;
    SecondIs(p, p);
    AtomAt(a, UNARY_PRIORITY, p);
    AtomAt(b, RightPriority(p), p);
    UnaryAt(a);
    if IsPowOp(p) {
      BinaryLevel(p, a, b, UNARY_PRIORITY);
      UnaryAt(EBin(p, a, b));
      UnaryLevel(u, EBin(p, a, b), 0);
      WholeLevel(EUn(u, EBin(p, a, b)));
    } else {
      UnaryLevel(u, a, LeftPriority(p) - 1);
      FirstAt(EUn(u, a), p);
      BinaryLevel(p, EUn(u, a), b, 0);
      WholeLevel(EBin(p, EUn(u, a), b));
    }
  }

  lemma UnaryAt(e: Expr)
    ensures AtLimit(e, UNARY_PRIORITY) <==> UnaryExp(e)
  {
  }
}
