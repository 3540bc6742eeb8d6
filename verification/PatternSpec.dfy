/** What a pattern means: the ends and captures a match may have, whatever the order of trying. */
module PatternSpec {
  import opened Patterns

  /** All of src[s..t] is in the class at `p'. */
  ghost predicate AllIn(x: Subject, s: int, t: int, p: int, ep: int) {
    0 <= s <= t <= |x.src| && forall k :: s <= k < t ==> InClass(x, x.src[k], p, ep)
  }

  /** The rest of the pattern from `p' can match from `s' with the captures so far, up to `e', and leave
      the captures `out'. */
  ghost predicate Matches(x: Subject, s: int, p: int, caps: seq<Cap>, e: int, out: seq<Cap>)
    decreases |x.pat| - p, 2
  {
    if At(x.pat, p) == 0 then e == s && out == caps
    else if At(x.pat, p) == '(' as int then
      |caps| < MAXCAPTURES &&
      if At(x.pat, p + 1) == ')' as int then Matches(x, s, p + 2, caps + [Cap(s, CAP_POSITION)], e, out)
      else Matches(x, s, p + 1, caps + [Cap(s, CAP_UNFINISHED)], e, out)
    else if At(x.pat, p) == ')' as int then
      exists l :: LastOpen(caps, l) && Matches(x, s, p + 1, caps[l := Cap(caps[l].init, s - caps[l].init)], e, out)
    else if At(x.pat, p) == '%' as int && At(x.pat, p + 1) == 'b' as int then
      && At(x.pat, p + 2) != 0 && At(x.pat, p + 3) != 0
      && exists t :: BalancedAt(x, s, t, p) && Matches(x, t, p + 4, caps, e, out)
    else if At(x.pat, p) == '%' as int && At(x.pat, p + 1) == 'f' as int then
      && At(x.pat, p + 2) == '[' as int && ClassEnd(x.pat, p + 2) != -1
      && !InBracket(x, Previous(x.src, s), p + 2, ClassEnd(x.pat, p + 2) - 1)
      && InBracket(x, At(x.src, s), p + 2, ClassEnd(x.pat, p + 2) - 1)
      && Matches(x, s, ClassEnd(x.pat, p + 2), caps, e, out)
    else if At(x.pat, p) == '%' as int && IsDigit(At(x.pat, p + 1)) then
      var l := At(x.pat, p + 1) - '1' as int;
      && 0 <= l < |caps| && Repeats(x.src, s, caps[l]) && Matches(x, s + caps[l].len, p + 2, caps, e, out)
    else if At(x.pat, p) == '$' as int && At(x.pat, p + 1) == 0 then s == |x.src| && e == s && out == caps
    else ClassEnd(x.pat, p) != -1 && ItemMatches(x, s, p, caps, e, out)
  }

  /** src[s..t] is a balanced string for the two characters after the %b at `p'. */
  ghost predicate BalancedAt(x: Subject, s: int, t: int, p: int) {
    Balanced(x.src, s, t, At(x.pat, p + 2), At(x.pat, p + 3))
  }

  /** The last capture that is open. */
  ghost predicate LastOpen(caps: seq<Cap>, l: int) {
    0 <= l < |caps| && caps[l].len == CAP_UNFINISHED && forall k :: l < k < |caps| ==> caps[k].len != CAP_UNFINISHED
  }

  ghost predicate ItemMatches(x: Subject, s: int, p: int, caps: seq<Cap>, e: int, out: seq<Cap>)
    requires 0 <= p < |x.pat| && ClassEnd(x.pat, p) != -1
    decreases |x.pat| - p, 1
  {
    var ep := ClassEnd(x.pat, p);
    if At(x.pat, ep) == '?' as int then
      (ItemAt(x, s, p, ep) && Matches(x, s + 1, ep + 1, caps, e, out)) || Matches(x, s, ep + 1, caps, e, out)
    else if At(x.pat, ep) == '*' as int || At(x.pat, ep) == '-' as int then
      SomeRepeat(x, s, s, p, ep, caps, e, out)
    else if At(x.pat, ep) == '+' as int then
      SomeRepeat(x, s, s + 1, p, ep, caps, e, out)
    else ItemAt(x, s, p, ep) && Matches(x, s + 1, ep, caps, e, out)
  }

  /** Some number of characters in the class, ending at `from' or later, and the rest of the pattern. */
  ghost predicate SomeRepeat(x: Subject, s: int, from: int, p: int, ep: int, caps: seq<Cap>, e: int, out: seq<Cap>)
    requires 0 <= p < ep && p < |x.pat|
    decreases |x.pat| - p, 0
  {
    exists t :: from <= t && AllIn(x, s, t, p, ep) && Matches(x, t, ep + 1, caps, e, out)
  }

  /** The same for an outcome. */
  ghost predicate RightRepeat(x: Subject, s: int, from: int, p: int, ep: int, caps: seq<Cap>, r: Outcome)
    requires 0 <= p < ep && p < |x.pat|
  {
    match r
    case Found(e, out) => SomeRepeat(x, s, from, p, ep, caps, e, out)
    case Fail => forall e, out :: !SomeRepeat(x, s, from, p, ep, caps, e, out)
    case Error => true
  }

  /** An outcome is right: a match that is found is one, and none is missed. Errors say nothing. */
  ghost predicate Right(x: Subject, s: int, p: int, caps: seq<Cap>, r: Outcome) {
    match r
    case Found(e, out) => Matches(x, s, p, caps, e, out)
    case Fail => forall e, out :: !Matches(x, s, p, caps, e, out)
    case Error => true
  }

  lemma {:induction false} CaptureToCloseIs(caps: seq<Cap>)
    ensures var l := CaptureToClose(caps);
            if l == -1 then forall k :: !LastOpen(caps, k) else forall k :: LastOpen(caps, k) <==> k == l
  {
    if caps != [] && caps[|caps| - 1].len != CAP_UNFINISHED {
      var front := caps[..|caps| - 1];
      CaptureToCloseIs(front);
      forall k ensures LastOpen(caps, k) <==> LastOpen(front, k) { }
    }
  }

  lemma BalanceIs(x: Subject, s: int, p: int)
    requires 0 <= s <= |x.src|
    ensures var t := MatchBalance(x, s, p + 2);
            if t == -1 then forall u :: !BalancedAt(x, s, u, p) else s <= t <= |x.src| && forall u :: BalancedAt(x, s, u, p) <==> u == t
  {
    var b, e := At(x.pat, p + 2), At(x.pat, p + 3);
    if s < |x.src| && x.src[s] == b {
      BalanceFromIs(x.src, s, s + 1, b, e, 1);
      var t := MatchBalance(x, s, p + 2);
      if t != -1 {
        forall u ensures BalancedAt(x, s, u, p) <==> u == t {
          if u < t { assert BalancedOnce(x.src, s, u, t, b, e) by { OnceBalanced(x.src, s, u, t, b, e); } }
          if t < u { assert BalancedOnce(x.src, s, t, u, b, e) by { OnceBalanced(x.src, s, t, u, b, e); } }
        }
      }
    }
  }

  /** The shorter of two prefixes is not closed if the longer one is, for the first time. */
  ghost predicate BalancedOnce(src: seq<int>, s: int, u: int, t: int, b: int, e: int) {
    !(Balanced(src, s, u, b, e) && Balanced(src, s, t, b, e))
  }

  lemma OnceBalanced(src: seq<int>, s: int, u: int, t: int, b: int, e: int)
    requires u < t
    ensures BalancedOnce(src, s, u, t, b, e)
  {
  }

  /** A stretch in the class does not go over a character that is not. */
  lemma NotIn(x: Subject, s0: int, s: int, t: int, p: int, ep: int)
    requires s0 <= s && !ItemAt(x, s, p, ep)
    ensures AllIn(x, s0, t, p, ep) ==> t <= s
  {
    hide InClass;
  }

  lemma {:induction false} ExpandIs(x: Subject, s: int, p: int, ep: int)
    requires 0 <= s <= |x.src|
    ensures s + Expand(x, s, p, ep) <= |x.src|
    ensures forall t :: AllIn(x, s, t, p, ep) <==> s <= t <= s + Expand(x, s, p, ep)
    decreases |x.src| - s
  {
    hide InClass;
    if ItemAt(x, s, p, ep) {
      ExpandIs(x, s + 1, p, ep);
      forall t ensures AllIn(x, s, t, p, ep) <==> s <= t <= s + Expand(x, s, p, ep) {
        if t > s { assert AllIn(x, s, t, p, ep) <==> AllIn(x, s + 1, t, p, ep); }
      }
    } else {
      forall t ensures AllIn(x, s, t, p, ep) ==> t == s { NotIn(x, s, s, t, p, ep); }
    }
  }

  /** The matcher finds a match exactly when there is one. */
  lemma {:induction false} MatchRight(x: Subject, s: int, p: int, caps: seq<Cap>)
    requires 0 <= s <= |x.src| && 0 <= p
    ensures Right(x, s, p, caps, Match(x, s, p, caps))
    decreases |x.pat| - p, 3, 0
  {
    hide ClassEnd, InClass, InBracket;
    var c, d := At(x.pat, p), At(x.pat, p + 1);
    if c == 0 {
    } else if c == '(' as int {
      OpenRight(x, s, p, caps);
    } else if c == ')' as int {
      CloseRight(x, s, p, caps);
    } else if c == '%' as int && d == 'b' as int {
      BalanceRight(x, s, p, caps);
    } else if c == '%' as int && d == 'f' as int {
      if At(x.pat, p + 2) == '[' as int {
        var ep := ClassEnd(x.pat, p + 2);
        if ep != -1 { FrontierRight(x, s, p, ep, caps); }
      }
    } else if c == '%' as int && IsDigit(d) {
      BackRight(x, s, p, caps);
    } else if c == '$' as int && d == 0 {
    } else {
      ItemRight(x, s, p, caps);
    }
  }

  lemma {:induction false} CloseRight(x: Subject, s: int, p: int, caps: seq<Cap>)
    requires 0 <= s <= |x.src| && 0 <= p < |x.pat| && At(x.pat, p) == ')' as int
    ensures Right(x, s, p, caps, Match(x, s, p, caps))
    decreases |x.pat| - p, 2, 0
  {
    CaptureToCloseIs(caps);
    var l := CaptureToClose(caps);
    if l != -1 {
      MatchRight(x, s, p + 1, caps[l := Cap(caps[l].init, s - caps[l].init)]);
      assert LastOpen(caps, l);
    }
  }

  /** Two ways of saying the same have the same right outcomes. */
  lemma Transfer(x: Subject, s: int, p: int, caps: seq<Cap>, s': int, p': int, caps': seq<Cap>, r: Outcome)
    requires forall e, out :: Matches(x, s, p, caps, e, out) <==> Matches(x, s', p', caps', e, out)
    requires Right(x, s', p', caps', r)
    ensures Right(x, s, p, caps, r)
  {
    hide Matches;
  }

  lemma ErrorRight(x: Subject, s: int, p: int, caps: seq<Cap>)
    ensures Right(x, s, p, caps, Error)
  {
  }

  lemma {:induction false} OpenRight(x: Subject, s: int, p: int, caps: seq<Cap>)
    requires 0 <= s <= |x.src| && 0 <= p < |x.pat| && At(x.pat, p) == '(' as int
    ensures Right(x, s, p, caps, Match(x, s, p, caps))
    decreases |x.pat| - p, 2, 0
  {
    hide Right;
    var position := At(x.pat, p + 1) == ')' as int;
    var next, caps' := if position then p + 2 else p + 1, caps + [Cap(s, if position then CAP_POSITION else CAP_UNFINISHED)];
    if |caps| < MAXCAPTURES {
      MatchRight(x, s, next, caps');
      forall e, out ensures Matches(x, s, p, caps, e, out) <==> Matches(x, s, next, caps', e, out) { }
      Transfer(x, s, p, caps, s, next, caps', Match(x, s, next, caps'));
    } else {
      ErrorRight(x, s, p, caps);
    }
  }

  lemma {:induction false} FrontierRight(x: Subject, s: int, p: int, ep: int, caps: seq<Cap>)
    requires 0 <= s <= |x.src| && 0 <= p < |x.pat| && At(x.pat, p) == '%' as int && At(x.pat, p + 1) == 'f' as int
    requires At(x.pat, p + 2) == '[' as int && ep == ClassEnd(x.pat, p + 2) != -1
    ensures Right(x, s, p, caps, Match(x, s, p, caps))
    decreases |x.pat| - p, 2, 0
  {
    hide InBracket, ClassEnd;
    if !InBracket(x, Previous(x.src, s), p + 2, ep - 1) && InBracket(x, At(x.src, s), p + 2, ep - 1) {
      MatchRight(x, s, ep, caps);
      forall e, out ensures Matches(x, s, p, caps, e, out) <==> Matches(x, s, ep, caps, e, out) { }
      hide Matches;
      Transfer(x, s, p, caps, s, ep, caps, Match(x, s, ep, caps));
    }
  }

  lemma {:induction false} BackRight(x: Subject, s: int, p: int, caps: seq<Cap>)
    requires 0 <= s <= |x.src| && 0 <= p < |x.pat| && At(x.pat, p) == '%' as int && IsDigit(At(x.pat, p + 1))
    ensures Right(x, s, p, caps, Match(x, s, p, caps))
    decreases |x.pat| - p, 2, 0
  {
    hide Repeats;
    var l := CheckCapture(caps, At(x.pat, p + 1));
    if l != -1 && Repeats(x.src, s, caps[l]) {
      var t := s + caps[l].len;
      assert 0 <= s <= t <= |x.src| by { RepeatsIn(x.src, s, caps[l]); }
      MatchRight(x, t, p + 2, caps);
      forall e, out ensures Matches(x, s, p, caps, e, out) <==> Matches(x, t, p + 2, caps, e, out) { }
      hide Matches;
      Transfer(x, s, p, caps, t, p + 2, caps, Match(x, t, p + 2, caps));
    }
  }

  lemma RepeatsIn(src: seq<int>, s: int, cap: Cap)
    requires Repeats(src, s, cap)
    ensures 0 <= s <= s + cap.len <= |src|
  {
  }

  lemma {:induction false} BalanceRight(x: Subject, s: int, p: int, caps: seq<Cap>)
    requires 0 <= s <= |x.src| && 0 <= p < |x.pat| && At(x.pat, p) == '%' as int && At(x.pat, p + 1) == 'b' as int
    ensures Right(x, s, p, caps, Match(x, s, p, caps))
    decreases |x.pat| - p, 2, 0
  {
    hide BalancedAt, MatchBalance;
    if At(x.pat, p + 2) != 0 && At(x.pat, p + 3) != 0 {
      BalanceIs(x, s, p);
      var t := MatchBalance(x, s, p + 2);
      if t != -1 {
        MatchRight(x, t, p + 4, caps);
        assert BalancedAt(x, s, t, p);
        forall e, out ensures Matches(x, s, p, caps, e, out) <==> Matches(x, t, p + 4, caps, e, out) { }
        hide Matches;
        Transfer(x, s, p, caps, t, p + 4, caps, Match(x, t, p + 4, caps));
      }
    }
  }

  /** The pattern at `p' is a single character with or without a suffix. */
  predicate IsItem(x: Subject, p: int) {
    var c, d := At(x.pat, p), At(x.pat, p + 1);
    && c != 0 && c != '(' as int && c != ')' as int
    && !(c == '%' as int && (d == 'b' as int || d == 'f' as int || IsDigit(d)))
    && !(c == '$' as int && d == 0)
  }

  lemma ItemUnfold(x: Subject, s: int, p: int, caps: seq<Cap>)
    requires 0 <= p < |x.pat| && IsItem(x, p)
    ensures Match(x, s, p, caps) == MatchItem(x, s, p, caps)
    ensures forall e, out :: Matches(x, s, p, caps, e, out) <==> ClassEnd(x.pat, p) != -1 && ItemMatches(x, s, p, caps, e, out)
  {
    hide MatchItem, ItemMatches, ClassEnd;
  }

  lemma {:induction false} ItemRight(x: Subject, s: int, p: int, caps: seq<Cap>)
    requires 0 <= s <= |x.src| && 0 <= p < |x.pat| && IsItem(x, p)
    ensures Right(x, s, p, caps, Match(x, s, p, caps))
    decreases |x.pat| - p, 2, 0
  {
    hide InClass, ClassEnd, Match, Matches, AllIn, SomeRepeat, MaxExpand, MinExpand;
    ItemUnfold(x, s, p, caps);
    var ep := ClassEnd(x.pat, p);
    if ep != -1 {
      var q := At(x.pat, ep);
      if q == '?' as int {
        MatchRight(x, s, ep + 1, caps);
        if ItemAt(x, s, p, ep) { MatchRight(x, s + 1, ep + 1, caps); }
        forall e, out ensures Matches(x, s, p, caps, e, out) <==>
          (ItemAt(x, s, p, ep) && Matches(x, s + 1, ep + 1, caps, e, out)) || Matches(x, s, ep + 1, caps, e, out) { }
      } else if q == '*' as int {
        StarRight(x, s, s, p, ep, caps);
        RepeatRight(x, s, s, p, ep, caps, Match(x, s, p, caps));
      } else if q == '+' as int {
        if ItemAt(x, s, p, ep) { StarRight(x, s, s + 1, p, ep, caps); } else { NoRepeat(x, s, p, ep, caps); }
        RepeatRight(x, s, s + 1, p, ep, caps, Match(x, s, p, caps));
      } else if q == '-' as int {
        assert AllIn(x, s, s, p, ep) by { NoneIn(x, s, p, ep); }
        MinRight(x, s, s, p, ep, caps);
        RepeatRight(x, s, s, p, ep, caps, Match(x, s, p, caps));
      } else {
        forall e, out ensures Matches(x, s, p, caps, e, out) <==> ItemAt(x, s, p, ep) && Matches(x, s + 1, ep, caps, e, out) { }
        if ItemAt(x, s, p, ep) {
          MatchRight(x, s + 1, ep, caps);
          Transfer(x, s, p, caps, s + 1, ep, caps, Match(x, s + 1, ep, caps));
        }
      }
    }
  }

  lemma RepeatRight(x: Subject, s: int, from: int, p: int, ep: int, caps: seq<Cap>, r: Outcome)
    requires 0 <= p < ep && p < |x.pat| && RightRepeat(x, s, from, p, ep, caps, r)
    requires forall e, out :: Matches(x, s, p, caps, e, out) <==> SomeRepeat(x, s, from, p, ep, caps, e, out)
    ensures Right(x, s, p, caps, r)
  {
    hide Matches, SomeRepeat;
  }

  lemma NoneIn(x: Subject, s: int, p: int, ep: int)
    requires 0 <= s <= |x.src|
    ensures AllIn(x, s, s, p, ep)
  {
  }

  lemma NoRepeat(x: Subject, s: int, p: int, ep: int, caps: seq<Cap>)
    requires 0 <= s <= |x.src| && 0 <= p < ep < |x.pat| && !ItemAt(x, s, p, ep)
    ensures RightRepeat(x, s, s + 1, p, ep, caps, Fail)
  {
    hide Matches, InClass;
    forall t ensures AllIn(x, s, t, p, ep) ==> t == s { NotIn(x, s, s, t, p, ep); }
  }

  /** An outcome is right for the rest of the pattern tried at the positions from..to. */
  ghost predicate RightAmong(x: Subject, from: int, to: int, q: int, caps: seq<Cap>, r: Outcome) {
    match r
    case Found(e, out) => exists t :: from <= t <= to && Matches(x, t, q, caps, e, out)
    case Fail => forall t, e, out :: from <= t <= to ==> !Matches(x, t, q, caps, e, out)
    case Error => true
  }

  lemma {:induction false} MaxRight(x: Subject, s: int, p: int, ep: int, caps: seq<Cap>, i: int)
    requires 0 <= s && s + i <= |x.src| && 0 <= p < ep < |x.pat| && i >= -1
    ensures RightAmong(x, s, s + i, ep + 1, caps, MaxExpand(x, s, p, ep, caps, i))
    decreases |x.pat| - p, 0, i
  {
    if i >= 0 {
      MatchRight(x, s + i, ep + 1, caps);
      hide Match, Matches;
      if Match(x, s + i, ep + 1, caps).Fail? { MaxRight(x, s, p, ep, caps, i - 1); }
    }
  }

  /** The repetitions counted from `from', which is `s' or, for the plus sign, the next position. */
  lemma {:induction false} StarRight(x: Subject, s: int, from: int, p: int, ep: int, caps: seq<Cap>)
    requires 0 <= s <= |x.src| && 0 <= p < ep < |x.pat| && (from == s || (from == s + 1 && ItemAt(x, s, p, ep)))
    ensures RightRepeat(x, s, from, p, ep, caps, MaxExpand(x, from, p, ep, caps, Expand(x, from, p, ep)))
    decreases |x.pat| - p, 1, 0
  {
    hide InClass, ClassEnd, Match, Matches, AllIn, MaxExpand;
    ExpandIs(x, from, p, ep);
    MaxRight(x, from, p, ep, caps, Expand(x, from, p, ep));
    forall t ensures from <= t && AllIn(x, s, t, p, ep) <==> AllIn(x, from, t, p, ep) { OneMore(x, s, from, t, p, ep); }
    AmongRepeat(x, s, from, p, ep, caps, Expand(x, from, p, ep), MaxExpand(x, from, p, ep, caps, Expand(x, from, p, ep)));
  }

  /** The positions tried are those where a stretch in the class may end. */
  lemma AmongRepeat(x: Subject, s: int, from: int, p: int, ep: int, caps: seq<Cap>, n: int, r: Outcome)
    requires 0 <= p < ep && p < |x.pat| && RightAmong(x, from, from + n, ep + 1, caps, r)
    requires forall t :: from <= t && AllIn(x, s, t, p, ep) <==> from <= t <= from + n
    ensures RightRepeat(x, s, from, p, ep, caps, r)
  {
    hide Matches, AllIn;
    var q := ep + 1;
    match r {
      case Found(e, out) =>
        var t :| from <= t <= from + n && Matches(x, t, q, caps, e, out);
        assert AllIn(x, s, t, p, ep);
      case Fail =>
        forall e, out ensures !SomeRepeat(x, s, from, p, ep, caps, e, out) {
          forall t ensures !(from <= t && AllIn(x, s, t, p, ep) && Matches(x, t, q, caps, e, out)) { }
        }
      case Error =>
    }
  }

  lemma MinNone(x: Subject, s0: int, s: int, p: int, ep: int, caps: seq<Cap>)
    requires 0 <= p < ep && p < |x.pat| && RightAmong(x, s0, s - 1, ep + 1, caps, Fail) && Right(x, s, ep + 1, caps, Fail)
    requires forall t :: AllIn(x, s0, t, p, ep) ==> t <= s
    ensures RightRepeat(x, s0, s0, p, ep, caps, Fail)
  {
    hide Matches, AllIn;
    var q := ep + 1;
    forall e, out ensures !SomeRepeat(x, s0, s0, p, ep, caps, e, out) {
      forall t ensures !(s0 <= t && AllIn(x, s0, t, p, ep) && Matches(x, t, q, caps, e, out)) { }
    }
  }

  lemma OneMore(x: Subject, s: int, from: int, t: int, p: int, ep: int)
    requires 0 <= s <= |x.src| && (from == s || (from == s + 1 && ItemAt(x, s, p, ep)))
    ensures from <= t && AllIn(x, s, t, p, ep) <==> AllIn(x, from, t, p, ep)
  {
  }

  /** min_expand at `s', when the positions before have been tried in vain from `s0' on. */
  lemma {:induction false} MinRight(x: Subject, s0: int, s: int, p: int, ep: int, caps: seq<Cap>)
    requires 0 <= s0 <= s <= |x.src| && 0 <= p < ep < |x.pat| && AllIn(x, s0, s, p, ep)
    requires RightAmong(x, s0, s - 1, ep + 1, caps, Fail)
    ensures RightRepeat(x, s0, s0, p, ep, caps, MinExpand(x, s, p, ep, caps))
    decreases |x.pat| - p, 0, |x.src| - s
  {
    hide InClass, ClassEnd, Match, Matches;
    MatchRight(x, s, ep + 1, caps);
    if Match(x, s, ep + 1, caps).Fail? {
      if ItemAt(x, s, p, ep) {
        MinRight(x, s0, s + 1, p, ep, caps);
      } else {
        forall t ensures AllIn(x, s0, t, p, ep) ==> t <= s { NotIn(x, s0, s, t, p, ep); }
        MinNone(x, s0, s, p, ep, caps);
      }
    }
  }
}
