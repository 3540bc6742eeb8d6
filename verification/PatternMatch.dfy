/** The matcher of the string library over its match state, and the search for a pattern. */
module PatternMatch {
  import P = Patterns
  import opened Patterns
  import opened PatternSpec
  import opened PatternOrder

  const NULL := -1

  lemma AnyHasStep(x: Subject, item: ClassItem, rest: seq<ClassItem>, c: int)
    ensures AnyHas(x, [item] + rest, c) <==> HasChar(x, item, c) || AnyHas(x, rest, c)
  {
    var items := [item] + rest;
    if HasChar(x, item, c) { assert items[0] == item; }
    if i :| 0 <= i < |rest| && HasChar(x, rest[i], c) { assert items[i + 1] == rest[i]; }
  }

  /** matchbracketclass: `p' is the opening bracket and `ec' the closing one. */
  method MatchBracketClass(x: Subject, c: int, p0: int, ec: int) returns (b: bool)
    requires 0 <= p0
    ensures b == InBracket(x, c, p0, ec)
  {
    var p, sig := p0, true;
    if At(x.pat, p + 1) == '^' as int {
      sig := false;
      p := p + 1;
    }
    ghost var all := Items(x.pat, p + 1, ec);
    p := p + 1;
    while p < ec
      invariant AnyHas(x, all, c) <==> AnyHas(x, Items(x.pat, p, ec), c)
      decreases ec - p
    {
      if At(x.pat, p) == '%' as int {
        AnyHasStep(x, Escape(At(x.pat, p + 1)), Items(x.pat, p + 2, ec), c);
        p := p + 1;
        if MatchClass(x, c, At(x.pat, p)) { return sig; }
      } else if At(x.pat, p + 1) == '-' as int && p + 2 < ec {
        AnyHasStep(x, Range(At(x.pat, p), At(x.pat, p + 2)), Items(x.pat, p + 3, ec), c);
        p := p + 2;
        if At(x.pat, p - 2) <= c <= At(x.pat, p) { return sig; }
      } else {
        AnyHasStep(x, Char(At(x.pat, p)), Items(x.pat, p + 1, ec), c);
        if At(x.pat, p) == c { return sig; }
      }
      p := p + 1;
    }
    return !sig;
  }

  method SingleMatch(x: Subject, c: int, p: int, ep: int) returns (b: bool)
    requires 0 <= p
    ensures b == InClass(x, c, p, ep)
  {
    if At(x.pat, p) == '.' as int { return true; }
    if At(x.pat, p) == '%' as int { return MatchClass(x, c, At(x.pat, p + 1)); }
    if At(x.pat, p) == '[' as int {
      b := MatchBracketClass(x, c, p, ep - 1);
      return;
    }
    return At(x.pat, p) == c;
  }

  /** classend: -1 for the error of a malformed pattern. */
  method FindClassEnd(pat: seq<int>, p0: int) returns (ep: int)
    requires 0 <= p0 < |pat|
    ensures ep == ClassEnd(pat, p0)
  {
    var p := p0 + 1;
    if pat[p0] == '%' as int {
      return if At(pat, p) == 0 then -1 else p + 1;
    }
    if pat[p0] == '[' as int {
      if At(pat, p) == '^' as int { p := p + 1; }
      while true
        invariant p0 < p && ClassEnd(pat, p0) == BracketEnd(pat, p)
        decreases |pat| - p
      {
        if At(pat, p) == 0 { return -1; }
        var escaped := At(pat, p) == '%' as int;
        p := p + 1;
        if escaped && At(pat, p) != 0 { p := p + 1; }
        if At(pat, p) == ']' as int { return p + 1; }
      }
    }
    return p;
  }

  /** matchbalance */
  method FindBalance(x: Subject, s0: int, p: int) returns (t: int)
    requires 0 <= s0 <= |x.src|
    ensures t == MatchBalance(x, s0, p)
  {
    if !(s0 < |x.src| && x.src[s0] == At(x.pat, p)) { return -1; }
    var b, e, cont, s := At(x.pat, p), At(x.pat, p + 1), 1, s0 + 1;
    while s < |x.src|
      invariant s0 < s <= |x.src| && MatchBalance(x, s0, p) == BalanceFrom(x.src, s, b, e, cont)
      decreases |x.src| - s
    {
      if x.src[s] == e {
        cont := cont - 1;
        if cont == 0 { return s + 1; }
      } else if x.src[s] == b {
        cont := cont + 1;
      }
      s := s + 1;
    }
    return -1;
  }

  class MatchState {
    const x: Subject
    var level: int
    const capture: array<Cap>

    ghost predicate Valid()
      reads this
    {
      capture.Length == MAXCAPTURES && 0 <= level <= MAXCAPTURES
    }

    /** The captures so far. */
    ghost function Caps(): seq<Cap>
      requires Valid()
      reads this, capture
    {
      capture[..level]
    }

    constructor (x: Subject)
      ensures Valid() && this.x == x && level == 0 && fresh(capture)
    {
      this.x := x;
      level := 0;
      capture := new Cap[MAXCAPTURES](_ => Cap(0, 0));
    }

    /** What a matching function has done: found a match and recorded its captures; or failed, and then
        the captures are those there were before; or raised an error. */
    ghost predicate Did(r: Outcome, caps: seq<Cap>, ok: bool, res: int)
      requires Valid()
      reads this, capture
    {
      match r
      case Found(e, out) => ok && res == e && res != NULL && Caps() == out
      case Fail => ok && res == NULL && Caps() == caps
      case Error => !ok
    }

    method CaptureToCloseM() returns (l: int)
      requires Valid()
      ensures l == CaptureToClose(Caps())
    {
      l := level - 1;
      assert Caps()[..level] == Caps();
      while l >= 0
        invariant -1 <= l < level && CaptureToClose(Caps()) == CaptureToClose(Caps()[..l + 1])
        decreases l
      {
        if capture[l].len == CAP_UNFINISHED { return; }
        assert Caps()[..l + 1][..l] == Caps()[..l];
        l := l - 1;
      }
    }

    method StartCapture(s: int, next: int, what: int, ghost p: int) returns (ok: bool, res: int)
      requires Valid() && 0 <= s <= |x.src| && 0 <= p < next && p < |x.pat|
      modifies this`level, capture
      ensures Valid() && Did(P.StartCapture(x, s, p, next, old(Caps()), what), old(Caps()), ok, res)
      decreases |x.pat| - p, 2
    {
      if level >= MAXCAPTURES { return false, NULL; }
      ghost var caps := Caps();
      capture[level] := Cap(s, what);
      level := level + 1;
      assert Caps() == caps + [Cap(s, what)];
      ok, res := Match(s, next);
      if ok && res == NULL {
        level := level - 1;
        assert Caps() == (caps + [Cap(s, what)])[..|caps|];
      }
    }

    method EndCapture(s: int, p: int) returns (ok: bool, res: int)
      requires Valid() && 0 <= s <= |x.src| && 0 <= p < |x.pat| && At(x.pat, p) == ')' as int
      modifies this`level, capture
      ensures Valid() && Did(P.Match(x, s, p, old(Caps())), old(Caps()), ok, res)
      decreases |x.pat| - p, 2
    {
      ghost var caps := Caps();
      var l := CaptureToCloseM();
      if l == -1 { return false, NULL; }
      CaptureToCloseIs(caps);
      assert LastOpen(caps, l);
      capture[l] := Cap(capture[l].init, s - capture[l].init);
      assert Caps() == caps[l := Cap(caps[l].init, s - caps[l].init)];
      ghost var level1 := level;
      ok, res := Match(s, p + 1);
      if ok && res == NULL {
        assert Caps()[l] == capture[l];
        capture[l] := Cap(capture[l].init, CAP_UNFINISHED);
        assert Caps() == caps;
      }
    }

    /** match_capture for a finished capture: compare the bytes. */
    method MatchCapture(s: int, l: int) returns (t: int)
      requires Valid() && 0 <= s <= |x.src| && 0 <= l < level
      ensures t == if Repeats(x.src, s, capture[l]) then s + capture[l].len else NULL
    {
      var cap := capture[l];
      if cap.len < 0 || |x.src| - s < cap.len || cap.init < 0 || cap.init + cap.len > |x.src| { return NULL; }
      var i := 0;
      while i < cap.len
        invariant 0 <= i <= cap.len && x.src[cap.init..cap.init + i] == x.src[s..s + i]
      {
        if x.src[cap.init + i] != x.src[s + i] {
          assert x.src[cap.init..cap.init + cap.len][i] != x.src[s..s + cap.len][i];
          return NULL;
        }
        assert x.src[cap.init..cap.init + i + 1] == x.src[cap.init..cap.init + i] + [x.src[cap.init + i]];
        assert x.src[s..s + i + 1] == x.src[s..s + i] + [x.src[s + i]];
        i := i + 1;
      }
      return s + cap.len;
    }

    /** max_expand: as many as there are, then one less at a time. */
    method MaxExpand(s: int, p: int, ep: int) returns (ok: bool, res: int)
      requires Valid() && 0 <= s <= |x.src| && 0 <= p < ep < |x.pat|
      modifies this`level, capture
      ensures Valid() && Did(P.MaxExpand(x, s, p, ep, old(Caps()), Expand(x, s, p, ep)), old(Caps()), ok, res)
      decreases |x.pat| - p, 1
    {
      hide P.Match, InClass;
      ghost var caps := Caps();
      var i := 0;
      while true
        invariant 0 <= i && s + i <= |x.src| && Expand(x, s, p, ep) == i + Expand(x, s + i, p, ep)
        invariant Valid() && Caps() == caps
        decreases |x.src| - (s + i)
      {
        if !(s + i < |x.src|) { break; }
        var m := SingleMatch(x, x.src[s + i], p, ep);
        if !m { break; }
        i := i + 1;
      }
      assert i == Expand(x, s, p, ep);
      while i >= 0
        invariant -1 <= i && s + i <= |x.src| && Valid() && Caps() == caps
        invariant P.MaxExpand(x, s, p, ep, caps, Expand(x, s, p, ep)) == P.MaxExpand(x, s, p, ep, caps, i)
        decreases i
      {
        ok, res := Match(s + i, ep + 1);
        if !ok || res != NULL { return; }
        i := i - 1;
      }
      return true, NULL;
    }

    method MinExpand(s0: int, p: int, ep: int) returns (ok: bool, res: int)
      requires Valid() && 0 <= s0 <= |x.src| && 0 <= p < ep < |x.pat|
      modifies this`level, capture
      ensures Valid() && Did(P.MinExpand(x, s0, p, ep, old(Caps())), old(Caps()), ok, res)
      decreases |x.pat| - p, 1
    {
      hide P.Match, InClass;
      ghost var caps := Caps();
      var s := s0;
      while true
        invariant s0 <= s <= |x.src| && Valid() && Caps() == caps
        invariant P.MinExpand(x, s0, p, ep, caps) == P.MinExpand(x, s, p, ep, caps)
        decreases |x.src| - s
      {
        ok, res := Match(s, ep + 1);
        if !ok || res != NULL { return; }
        if s >= |x.src| { return true, NULL; }
        var m := SingleMatch(x, x.src[s], p, ep);
        if !m { return true, NULL; }
        s := s + 1;
      }
    }

    /** The part of match for a single character with a suffix. */
    method Repeated(s: int, p: int, ep: int, m: bool) returns (ok: bool, res: int)
      requires Valid() && 0 <= s <= |x.src| && 0 <= p < |x.pat| && ep == ClassEnd(x.pat, p) != -1 && m == ItemAt(x, s, p, ep)
      requires At(x.pat, ep) == '*' as int || At(x.pat, ep) == '+' as int || At(x.pat, ep) == '-' as int
      modifies this`level, capture
      ensures Valid() && Did(MatchItem(x, s, p, old(Caps())), old(Caps()), ok, res)
      decreases |x.pat| - p, 2
    {
      hide P.Match, InClass, P.MaxExpand, P.MinExpand, ClassEnd;
      if At(x.pat, ep) == '*' as int {
        ok, res := MaxExpand(s, p, ep);
      } else if At(x.pat, ep) == '+' as int {
        if m { ok, res := MaxExpand(s + 1, p, ep); } else { return true, NULL; }
      } else {
        ok, res := MinExpand(s, p, ep);
      }
    }

    /** match: the jumps back to `init' are the rounds of a loop. */
    method Match(s0: int, p0: int) returns (ok: bool, res: int)
      requires Valid() && 0 <= s0 <= |x.src| && 0 <= p0
      modifies this`level, capture
      ensures Valid() && Did(P.Match(x, s0, p0, old(Caps())), old(Caps()), ok, res)
      ensures ok && res != NULL ==> Best(x, s0, p0, old(Caps()), res, Caps())
      decreases |x.pat| - p0, 4
    {
      hide P.Match, InClass, InBracket, ClassEnd, MatchItem, P.MaxExpand, P.MinExpand, Repeats, MatchBalance, P.StartCapture, Best;
      ghost var caps := Caps();
      MatchBest(x, s0, p0, caps);
      var s, p := s0, p0;
      while true
        invariant 0 <= s <= |x.src| && p0 <= p && Valid() && Caps() == caps
        invariant P.Match(x, s0, p0, caps) == P.Match(x, s, p, caps)
        decreases |x.pat| - p
      {
        MatchRound(x, s, p, caps);
        var c, d := At(x.pat, p), At(x.pat, p + 1);
        if c == 0 { return true, s; }
        if c == '(' as int {
          if d == ')' as int { ok, res := StartCapture(s, p + 2, CAP_POSITION, p); } else { ok, res := StartCapture(s, p + 1, CAP_UNFINISHED, p); }
          return;
        }
        if c == ')' as int {
          ok, res := EndCapture(s, p);
          return;
        }
        if c == '$' as int && d == 0 { return true, if s == |x.src| then s else NULL; }
        var done;
        if c == '%' as int && (d == 'b' as int || d == 'f' as int || IsDigit(d)) {
          done, ok, s, p := Special(s, p, caps);
          if done { return ok, NULL; }
        } else {
          done, ok, res, s, p := Item(s, p, caps);
          if done { return; }
        }
      }
    }

    /** %b, %f and %1: done with NULL or an error, or going on from a new place. */
    method Special(s: int, p: int, ghost caps: seq<Cap>) returns (done: bool, ok: bool, s1: int, p1: int)
      requires Valid() && Caps() == caps && 0 <= s <= |x.src| && 0 <= p < |x.pat| && At(x.pat, p) == '%' as int
      requires At(x.pat, p + 1) == 'b' as int || At(x.pat, p + 1) == 'f' as int || IsDigit(At(x.pat, p + 1))
      ensures done ==> P.Match(x, s, p, caps) == if ok then Fail else Error
      ensures !done ==> 0 <= s1 <= |x.src| && p < p1 && P.Match(x, s, p, caps) == P.Match(x, s1, p1, caps)
    {
      hide P.Match, InBracket, Repeats, MatchBalance;
      MatchRound(x, s, p, caps);
      done, ok, s1, p1 := true, false, s, p;
      if At(x.pat, p + 1) == 'b' as int {
        if At(x.pat, p + 2) == 0 || At(x.pat, p + 3) == 0 { return; }
        BalanceIs(x, s, p);
        s1 := FindBalance(x, s, p + 2);
        if s1 == -1 { ok := true; return; }
        done, p1 := false, p + 4;
      } else if At(x.pat, p + 1) == 'f' as int {
        if At(x.pat, p + 2) != '[' as int { return; }
        var ep := FindClassEnd(x.pat, p + 2);
        if ep == -1 { return; }
        var before := MatchBracketClass(x, Previous(x.src, s), p + 2, ep - 1);
        var here := MatchBracketClass(x, At(x.src, s), p + 2, ep - 1);
        if before || !here { ok := true; return; }
        done, p1 := false, ep;
      } else {
        var l := At(x.pat, p + 1) - '1' as int;
        if l < 0 || l >= level || capture[l].len == CAP_UNFINISHED { return; }
        assert capture[l] == caps[l];
        if Repeats(x.src, s, caps[l]) { RepeatsIn(x.src, s, caps[l]); }
        s1 := MatchCapture(s, l);
        if s1 == NULL { ok := true; return; }
        done, p1 := false, p + 2;
      }
    }

    /** A single character: done with a result, or going on behind it. */
    method Item(s: int, p: int, ghost caps: seq<Cap>) returns (done: bool, ok: bool, res: int, s1: int, p1: int)
      requires Valid() && Caps() == caps && 0 <= s <= |x.src| && 0 <= p < |x.pat| && IsItem(x, p)
      modifies this`level, capture
      ensures Valid()
      ensures done ==> Did(P.Match(x, s, p, caps), caps, ok, res)
      ensures !done ==> Caps() == caps && 0 <= s1 <= |x.src| && p < p1 && P.Match(x, s, p, caps) == P.Match(x, s1, p1, caps)
      decreases |x.pat| - p, 3
    {
      hide P.Match, InClass, ClassEnd, P.MaxExpand, P.MinExpand;
      ItemUnfold(x, s, p, caps);
      done, ok, res, s1, p1 := true, false, NULL, s, p;
      var ep := FindClassEnd(x.pat, p);
      if ep == -1 { return; }
      var m := false;
      if s < |x.src| { m := SingleMatch(x, x.src[s], p, ep); }
      var q := At(x.pat, ep);
      if q == '?' as int {
        if m {
          ok, res := Match(s + 1, ep + 1);
          if !ok || res != NULL { return; }
        }
        done, p1 := false, ep + 1;
      } else if q == '*' as int || q == '+' as int || q == '-' as int {
        ok, res := Repeated(s, p, ep, m);
      } else {
        if !m { ok := true; return; }
        done, s1, p1 := false, s + 1, ep;
      }
    }
  }

  ghost function OpenStep(x: Subject, s: int, p: int, caps: seq<Cap>): Outcome
    requires 0 <= p < |x.pat|
  {
    if At(x.pat, p + 1) == ')' as int then P.StartCapture(x, s, p, p + 2, caps, CAP_POSITION)
    else P.StartCapture(x, s, p, p + 1, caps, CAP_UNFINISHED)
  }

  ghost function BalanceStep(x: Subject, s: int, p: int, caps: seq<Cap>): Outcome {
    if At(x.pat, p + 2) == 0 || At(x.pat, p + 3) == 0 then Error
    else if MatchBalance(x, s, p + 2) == -1 then Fail
    else P.Match(x, MatchBalance(x, s, p + 2), p + 4, caps)
  }

  ghost function FrontierStep(x: Subject, s: int, p: int, caps: seq<Cap>): Outcome
    requires 0 <= p
  {
    if At(x.pat, p + 2) != '[' as int then Error
    else
      var ep := ClassEnd(x.pat, p + 2);
      if ep == -1 then Error
      else if InBracket(x, Previous(x.src, s), p + 2, ep - 1) || !InBracket(x, At(x.src, s), p + 2, ep - 1) then Fail
      else P.Match(x, s, ep, caps)
  }

  ghost function BackStep(x: Subject, s: int, p: int, caps: seq<Cap>): Outcome {
    var l := CheckCapture(caps, At(x.pat, p + 1));
    if l == -1 then Error else if Repeats(x.src, s, caps[l]) then P.Match(x, s + caps[l].len, p + 2, caps) else Fail
  }

  /** One unfolding of Match. */
  lemma MatchRound(x: Subject, s: int, p: int, caps: seq<Cap>)
    requires 0 <= s <= |x.src| && 0 <= p
    ensures At(x.pat, p) != 0 ==> p < |x.pat|
    ensures At(x.pat, p) == 0 ==> P.Match(x, s, p, caps) == Found(s, caps)
    ensures At(x.pat, p) == '(' as int ==> P.Match(x, s, p, caps) == OpenStep(x, s, p, caps)
    ensures At(x.pat, p) == '$' as int && At(x.pat, p + 1) == 0 ==> P.Match(x, s, p, caps) == if s == |x.src| then Found(s, caps) else Fail
    ensures At(x.pat, p) == '%' as int && At(x.pat, p + 1) == 'b' as int ==> P.Match(x, s, p, caps) == BalanceStep(x, s, p, caps)
    ensures At(x.pat, p) == '%' as int && At(x.pat, p + 1) == 'f' as int ==> P.Match(x, s, p, caps) == FrontierStep(x, s, p, caps)
    ensures At(x.pat, p) == '%' as int && IsDigit(At(x.pat, p + 1)) ==> P.Match(x, s, p, caps) == BackStep(x, s, p, caps)
  {
    hide InBracket, ClassEnd, Repeats, MatchBalance, P.StartCapture, MatchItem;
  }
}
