/** Which of the matches a pattern may have is the one found: `*', `+' and `?' take as much as they can,
    `-' as little. */
module PatternOrder {
  import opened Patterns
  import opened PatternSpec

  /** The rest of the pattern has no match from `t'. */
  ghost predicate NoMatch(x: Subject, t: int, q: int, caps: seq<Cap>) {
    forall e, out :: !Matches(x, t, q, caps, e, out)
  }

  /** No stretch in the class longer than up to `t' leaves a match of the rest. */
  ghost predicate NoneBeyond(x: Subject, s: int, t: int, p: int, ep: int, caps: seq<Cap>) {
    forall u :: u > t && AllIn(x, s, u, p, ep) ==> NoMatch(x, u, ep + 1, caps)
  }

  /** No shorter one does. */
  ghost predicate NoneWithin(x: Subject, s: int, t: int, p: int, ep: int, caps: seq<Cap>) {
    forall u :: s <= u < t && AllIn(x, s, u, p, ep) ==> NoMatch(x, u, ep + 1, caps)
  }

  /** The match to be found: as Matches, with a choice at every item that leaves no better one. */
  ghost predicate Best(x: Subject, s: int, p: int, caps: seq<Cap>, e: int, out: seq<Cap>)
    decreases |x.pat| - p, 2
  {
    if At(x.pat, p) == 0 then e == s && out == caps
    else if At(x.pat, p) == '(' as int then
      |caps| < MAXCAPTURES &&
      if At(x.pat, p + 1) == ')' as int then Best(x, s, p + 2, caps + [Cap(s, CAP_POSITION)], e, out)
      else Best(x, s, p + 1, caps + [Cap(s, CAP_UNFINISHED)], e, out)
    else if At(x.pat, p) == ')' as int then
      exists l :: LastOpen(caps, l) && Best(x, s, p + 1, caps[l := Cap(caps[l].init, s - caps[l].init)], e, out)
    else if At(x.pat, p) == '%' as int && At(x.pat, p + 1) == 'b' as int then
      && At(x.pat, p + 2) != 0 && At(x.pat, p + 3) != 0
      && exists t :: BalancedAt(x, s, t, p) && Best(x, t, p + 4, caps, e, out)
    else if At(x.pat, p) == '%' as int && At(x.pat, p + 1) == 'f' as int then
      && At(x.pat, p + 2) == '[' as int && ClassEnd(x.pat, p + 2) != -1
      && !InBracket(x, Previous(x.src, s), p + 2, ClassEnd(x.pat, p + 2) - 1)
      && InBracket(x, At(x.src, s), p + 2, ClassEnd(x.pat, p + 2) - 1)
      && Best(x, s, ClassEnd(x.pat, p + 2), caps, e, out)
    else if At(x.pat, p) == '%' as int && IsDigit(At(x.pat, p + 1)) then
      var l := At(x.pat, p + 1) - '1' as int;
      && 0 <= l < |caps| && Repeats(x.src, s, caps[l]) && Best(x, s + caps[l].len, p + 2, caps, e, out)
    else if At(x.pat, p) == '$' as int && At(x.pat, p + 1) == 0 then s == |x.src| && e == s && out == caps
    else ClassEnd(x.pat, p) != -1 && ItemBest(x, s, p, caps, e, out)
  }

  ghost predicate ItemBest(x: Subject, s: int, p: int, caps: seq<Cap>, e: int, out: seq<Cap>)
    requires 0 <= p < |x.pat| && ClassEnd(x.pat, p) != -1
    decreases |x.pat| - p, 1
  {
    var ep := ClassEnd(x.pat, p);
    if At(x.pat, ep) == '?' as int then
      || (ItemAt(x, s, p, ep) && Best(x, s + 1, ep + 1, caps, e, out))
      || (Best(x, s, ep + 1, caps, e, out) && (ItemAt(x, s, p, ep) ==> NoMatch(x, s + 1, ep + 1, caps)))
    else if At(x.pat, ep) == '*' as int then Longest(x, s, s, p, ep, caps, e, out)
    else if At(x.pat, ep) == '+' as int then Longest(x, s, s + 1, p, ep, caps, e, out)
    else if At(x.pat, ep) == '-' as int then Shortest(x, s, p, ep, caps, e, out)
    else ItemAt(x, s, p, ep) && Best(x, s + 1, ep, caps, e, out)
  }

  ghost predicate Longest(x: Subject, s: int, from: int, p: int, ep: int, caps: seq<Cap>, e: int, out: seq<Cap>)
    requires 0 <= p < ep && p < |x.pat|
    decreases |x.pat| - p, 0
  {
    exists t :: from <= t && AllIn(x, s, t, p, ep) && Best(x, t, ep + 1, caps, e, out) && NoneBeyond(x, s, t, p, ep, caps)
  }

  ghost predicate Shortest(x: Subject, s: int, p: int, ep: int, caps: seq<Cap>, e: int, out: seq<Cap>)
    requires 0 <= p < ep && p < |x.pat|
    decreases |x.pat| - p, 0
  {
    exists t :: s <= t && AllIn(x, s, t, p, ep) && Best(x, t, ep + 1, caps, e, out) && NoneWithin(x, s, t, p, ep, caps)
  }

  // ----- the matcher finds it -----

  ghost predicate FoundBest(x: Subject, s: int, p: int, caps: seq<Cap>, r: Outcome) {
    r.Found? ==> Best(x, s, p, caps, r.e, r.caps)
  }

  lemma FailNone(x: Subject, t: int, q: int, caps: seq<Cap>)
    requires 0 <= t <= |x.src| && 0 <= q && Match(x, t, q, caps).Fail?
    ensures NoMatch(x, t, q, caps)
  {
    MatchRight(x, t, q, caps);
  }

  ghost predicate AllFail(x: Subject, from: int, to: int, q: int, caps: seq<Cap>) {
    forall u :: from <= u < to ==> Match(x, u, q, caps).Fail?
  }

  /** max_expand finds the last position from which the rest matches. */
  lemma {:induction false} MaxLast(x: Subject, s: int, p: int, ep: int, caps: seq<Cap>, i: int) returns (t: int)
    requires 0 <= p < ep < |x.pat| && MaxExpand(x, s, p, ep, caps, i).Found?
    ensures s <= t <= s + i && Match(x, t, ep + 1, caps) == MaxExpand(x, s, p, ep, caps, i)
    ensures AllFail(x, t + 1, s + i + 1, ep + 1, caps)
    decreases i
  {
    hide Match;
    if Match(x, s + i, ep + 1, caps).Fail? { t := MaxLast(x, s, p, ep, caps, i - 1); } else { t := s + i; }
  }

  /** min_expand finds the first one, all characters before it being in the class. */
  lemma {:induction false} MinFirst(x: Subject, s: int, p: int, ep: int, caps: seq<Cap>) returns (t: int)
    requires 0 <= s <= |x.src| && 0 <= p < ep < |x.pat| && MinExpand(x, s, p, ep, caps).Found?
    ensures AllIn(x, s, t, p, ep) && Match(x, t, ep + 1, caps) == MinExpand(x, s, p, ep, caps)
    ensures AllFail(x, s, t, ep + 1, caps)
    decreases |x.src| - s
  {
    hide Match, InClass;
    if Match(x, s, ep + 1, caps).Fail? { t := MinFirst(x, s + 1, p, ep, caps); } else { t := s; }
  }

  lemma {:induction false} MatchBest(x: Subject, s: int, p: int, caps: seq<Cap>)
    requires 0 <= s <= |x.src| && 0 <= p
    ensures FoundBest(x, s, p, caps, Match(x, s, p, caps))
    decreases |x.pat| - p, 3
  {
    hide ClassEnd, InClass, InBracket, ItemBest;
    var c, d := At(x.pat, p), At(x.pat, p + 1);
    if c == 0 {
    } else if c == '(' as int {
      if |caps| < MAXCAPTURES {
        if d == ')' as int { MatchBest(x, s, p + 2, caps + [Cap(s, CAP_POSITION)]); }
        else { MatchBest(x, s, p + 1, caps + [Cap(s, CAP_UNFINISHED)]); }
      }
    } else if c == ')' as int {
      CaptureToCloseIs(caps);
      var l := CaptureToClose(caps);
      if l != -1 {
        assert LastOpen(caps, l);
        MatchBest(x, s, p + 1, caps[l := Cap(caps[l].init, s - caps[l].init)]);
      }
    } else if c == '%' as int && (d == 'b' as int || d == 'f' as int || IsDigit(d)) {
      SpecialBest(x, s, p, caps);
    } else if c == '$' as int && d == 0 {
    } else {
      ItemIsBest(x, s, p, caps);
    }
  }

  lemma {:induction false} SpecialBest(x: Subject, s: int, p: int, caps: seq<Cap>)
    requires 0 <= s <= |x.src| && 0 <= p < |x.pat| && At(x.pat, p) == '%' as int
    requires At(x.pat, p + 1) == 'b' as int || At(x.pat, p + 1) == 'f' as int || IsDigit(At(x.pat, p + 1))
    ensures FoundBest(x, s, p, caps, Match(x, s, p, caps))
    decreases |x.pat| - p, 2
  {
    hide ClassEnd, InClass, InBracket, ItemBest, BalancedAt, MatchBalance, Repeats;
    var d := At(x.pat, p + 1);
    if d == 'b' as int {
      if At(x.pat, p + 2) != 0 && At(x.pat, p + 3) != 0 {
        BalanceIs(x, s, p);
        var t := MatchBalance(x, s, p + 2);
        if t != -1 {
          MatchBest(x, t, p + 4, caps);
          assert BalancedAt(x, s, t, p);
        }
      }
    } else if d == 'f' as int {
      if At(x.pat, p + 2) == '[' as int && ClassEnd(x.pat, p + 2) != -1 { MatchBest(x, s, ClassEnd(x.pat, p + 2), caps); }
    } else {
      var l := CheckCapture(caps, d);
      if l != -1 && Repeats(x.src, s, caps[l]) {
        RepeatsIn(x.src, s, caps[l]);
        MatchBest(x, s + caps[l].len, p + 2, caps);
      }
    }
  }

  lemma BestUnfold(x: Subject, s: int, p: int, caps: seq<Cap>, e: int, out: seq<Cap>)
    requires 0 <= p < |x.pat| && IsItem(x, p) && ClassEnd(x.pat, p) != -1
    ensures Best(x, s, p, caps, e, out) <==> ItemBest(x, s, p, caps, e, out)
  {
    hide ItemBest, ClassEnd;
  }

  lemma {:induction false} ItemIsBest(x: Subject, s: int, p: int, caps: seq<Cap>)
    requires 0 <= s <= |x.src| && 0 <= p < |x.pat| && IsItem(x, p)
    ensures FoundBest(x, s, p, caps, Match(x, s, p, caps))
    decreases |x.pat| - p, 2
  {
    hide InClass, ClassEnd, Match, Matches, AllIn, MaxExpand, MinExpand, Best, Longest, Shortest, NoMatch, Expand;
    ItemUnfold(x, s, p, caps);
    var ep, r := ClassEnd(x.pat, p), Match(x, s, p, caps);
    if ep != -1 && r.Found? {
      BestUnfold(x, s, p, caps, r.e, r.caps);
      var q := At(x.pat, ep);
      if q == '?' as int {
        MatchBest(x, s, ep + 1, caps);
        if ItemAt(x, s, p, ep) {
          MatchBest(x, s + 1, ep + 1, caps);
          if Match(x, s + 1, ep + 1, caps).Fail? { FailNone(x, s + 1, ep + 1, caps); }
        }
      } else if q == '*' as int {
        LongestFound(x, s, s, p, ep, caps);
      } else if q == '+' as int {
        LongestFound(x, s, s + 1, p, ep, caps);
      } else if q == '-' as int {
        ShortestFound(x, s, p, ep, caps);
      } else {
        MatchBest(x, s + 1, ep, caps);
      }
    }
  }

  lemma {:induction false} LongestFound(x: Subject, s: int, from: int, p: int, ep: int, caps: seq<Cap>)
    requires 0 <= s <= |x.src| && 0 <= p < ep < |x.pat| && (from == s || (from == s + 1 && ItemAt(x, s, p, ep)))
    requires MaxExpand(x, from, p, ep, caps, Expand(x, from, p, ep)).Found?
    ensures var r := MaxExpand(x, from, p, ep, caps, Expand(x, from, p, ep)); Longest(x, s, from, p, ep, caps, r.e, r.caps)
    decreases |x.pat| - p, 1
  {
    hide InClass, ClassEnd, Match, Matches, AllIn, MaxExpand, Best, NoMatch;
    ExpandIs(x, from, p, ep);
    var n := Expand(x, from, p, ep);
    var t := MaxLast(x, from, p, ep, caps, n);
    MatchBest(x, t, ep + 1, caps);
    assert AllIn(x, from, t, p, ep);
    OneMore(x, s, from, t, p, ep);
    forall u ensures from <= u && AllIn(x, s, u, p, ep) <==> AllIn(x, from, u, p, ep) { OneMore(x, s, from, u, p, ep); }
    forall u | u > t && AllIn(x, s, u, p, ep) ensures NoMatch(x, u, ep + 1, caps) {
      assert AllIn(x, from, u, p, ep);
      FailNone(x, u, ep + 1, caps);
    }
    assert NoneBeyond(x, s, t, p, ep, caps);
  }

  lemma {:induction false} ShortestFound(x: Subject, s: int, p: int, ep: int, caps: seq<Cap>)
    requires 0 <= s <= |x.src| && 0 <= p < ep < |x.pat| && MinExpand(x, s, p, ep, caps).Found?
    ensures var r := MinExpand(x, s, p, ep, caps); Shortest(x, s, p, ep, caps, r.e, r.caps)
    decreases |x.pat| - p, 1
  {
    hide InClass, ClassEnd, Match, Matches, MinExpand, Best, NoMatch;
    var t := MinFirst(x, s, p, ep, caps);
    MatchBest(x, t, ep + 1, caps);
    forall u | s <= u < t && AllIn(x, s, u, p, ep) ensures NoMatch(x, u, ep + 1, caps) { FailNone(x, u, ep + 1, caps); }
  }

  // ----- there is only one -----

  lemma {:induction false} BestMatches(x: Subject, s: int, p: int, caps: seq<Cap>, e: int, out: seq<Cap>)
    requires Best(x, s, p, caps, e, out)
    ensures Matches(x, s, p, caps, e, out)
    decreases |x.pat| - p, 1
  {
    hide ClassEnd, InClass, InBracket, ItemBest, ItemMatches, BalancedAt, Repeats;
    var c, d := At(x.pat, p), At(x.pat, p + 1);
    if c == 0 {
    } else if c == '(' as int {
      if d == ')' as int { BestMatches(x, s, p + 2, caps + [Cap(s, CAP_POSITION)], e, out); }
      else { BestMatches(x, s, p + 1, caps + [Cap(s, CAP_UNFINISHED)], e, out); }
    } else if c == ')' as int {
      var l :| LastOpen(caps, l) && Best(x, s, p + 1, caps[l := Cap(caps[l].init, s - caps[l].init)], e, out);
      BestMatches(x, s, p + 1, caps[l := Cap(caps[l].init, s - caps[l].init)], e, out);
    } else if c == '%' as int && d == 'b' as int {
      var t :| BalancedAt(x, s, t, p) && Best(x, t, p + 4, caps, e, out);
      BestMatches(x, t, p + 4, caps, e, out);
    } else if c == '%' as int && d == 'f' as int {
      BestMatches(x, s, ClassEnd(x.pat, p + 2), caps, e, out);
    } else if c == '%' as int && IsDigit(d) {
      BestMatches(x, s + caps[d - '1' as int].len, p + 2, caps, e, out);
    } else if !(c == '$' as int && d == 0) {
      ItemBestMatches(x, s, p, caps, e, out);
    }
  }

  lemma {:induction false} ItemBestMatches(x: Subject, s: int, p: int, caps: seq<Cap>, e: int, out: seq<Cap>)
    requires 0 <= p < |x.pat| && ClassEnd(x.pat, p) != -1 && ItemBest(x, s, p, caps, e, out)
    ensures ItemMatches(x, s, p, caps, e, out)
    decreases |x.pat| - p, 0
  {
    hide ClassEnd, InClass, Best, Matches, AllIn;
    var ep := ClassEnd(x.pat, p);
    var q := At(x.pat, ep);
    if q == '?' as int {
      if ItemAt(x, s, p, ep) && Best(x, s + 1, ep + 1, caps, e, out) { BestMatches(x, s + 1, ep + 1, caps, e, out); }
      else { BestMatches(x, s, ep + 1, caps, e, out); }
    } else if q == '*' as int || q == '+' as int {
      var from := if q == '*' as int then s else s + 1;
      var t :| from <= t && AllIn(x, s, t, p, ep) && Best(x, t, ep + 1, caps, e, out) && NoneBeyond(x, s, t, p, ep, caps);
      BestMatches(x, t, ep + 1, caps, e, out);
    } else if q == '-' as int {
      var t :| s <= t && AllIn(x, s, t, p, ep) && Best(x, t, ep + 1, caps, e, out) && NoneWithin(x, s, t, p, ep, caps);
      BestMatches(x, t, ep + 1, caps, e, out);
    } else {
      BestMatches(x, s + 1, ep, caps, e, out);
    }
  }

  lemma BestSome(x: Subject, t: int, q: int, caps: seq<Cap>, e: int, out: seq<Cap>)
    requires Best(x, t, q, caps, e, out)
    ensures !NoMatch(x, t, q, caps)
  {
    BestMatches(x, t, q, caps, e, out);
  }

  lemma {:induction false} BestUnique(x: Subject, s: int, p: int, caps: seq<Cap>, e: int, out: seq<Cap>, e': int, out': seq<Cap>)
    requires Best(x, s, p, caps, e, out) && Best(x, s, p, caps, e', out')
    ensures e == e' && out == out'
    decreases |x.pat| - p, 2
  {
    hide ClassEnd, InClass, InBracket, ItemBest, BalancedAt, Repeats;
    var c, d := At(x.pat, p), At(x.pat, p + 1);
    if c == 0 {
    } else if c == '(' as int {
      if d == ')' as int { BestUnique(x, s, p + 2, caps + [Cap(s, CAP_POSITION)], e, out, e', out'); }
      else { BestUnique(x, s, p + 1, caps + [Cap(s, CAP_UNFINISHED)], e, out, e', out'); }
    } else if c == ')' as int {
      var l :| LastOpen(caps, l) && Best(x, s, p + 1, caps[l := Cap(caps[l].init, s - caps[l].init)], e, out);
      BestUnique(x, s, p + 1, caps[l := Cap(caps[l].init, s - caps[l].init)], e, out, e', out');
    } else if c == '%' as int && d == 'b' as int {
      var t :| BalancedAt(x, s, t, p) && Best(x, t, p + 4, caps, e, out);
      var t' :| BalancedAt(x, s, t', p) && Best(x, t', p + 4, caps, e', out');
      OneBalanced(x, s, t, t', p);
      BestUnique(x, t, p + 4, caps, e, out, e', out');
    } else if c == '%' as int && d == 'f' as int {
      BestUnique(x, s, ClassEnd(x.pat, p + 2), caps, e, out, e', out');
    } else if c == '%' as int && IsDigit(d) {
      BestUnique(x, s + caps[d - '1' as int].len, p + 2, caps, e, out, e', out');
    } else if !(c == '$' as int && d == 0) {
      ItemUnique(x, s, p, caps, e, out, e', out');
    }
  }

  lemma OneBalanced(x: Subject, s: int, t: int, t': int, p: int)
    requires BalancedAt(x, s, t, p) && BalancedAt(x, s, t', p)
    ensures t == t'
  {
  }

  lemma {:induction false} ItemUnique(x: Subject, s: int, p: int, caps: seq<Cap>, e: int, out: seq<Cap>, e': int, out': seq<Cap>)
    requires 0 <= p < |x.pat| && ClassEnd(x.pat, p) != -1 && ItemBest(x, s, p, caps, e, out) && ItemBest(x, s, p, caps, e', out')
    ensures e == e' && out == out'
    decreases |x.pat| - p, 1
  {
    hide ClassEnd, InClass, Best, Matches, AllIn, NoMatch;
    var ep := ClassEnd(x.pat, p);
    var q := At(x.pat, ep);
    if q == '?' as int {
      OptionUnique(x, s, p, ep, caps, e, out, e', out');
    } else if q == '*' as int || q == '+' as int {
      var from := if q == '*' as int then s else s + 1;
      var t :| from <= t && AllIn(x, s, t, p, ep) && Best(x, t, ep + 1, caps, e, out) && NoneBeyond(x, s, t, p, ep, caps);
      var t' :| from <= t' && AllIn(x, s, t', p, ep) && Best(x, t', ep + 1, caps, e', out') && NoneBeyond(x, s, t', p, ep, caps);
      BestSome(x, t, ep + 1, caps, e, out);
      BestSome(x, t', ep + 1, caps, e', out');
      BestUnique(x, t, ep + 1, caps, e, out, e', out');
    } else if q == '-' as int {
      var t :| s <= t && AllIn(x, s, t, p, ep) && Best(x, t, ep + 1, caps, e, out) && NoneWithin(x, s, t, p, ep, caps);
      var t' :| s <= t' && AllIn(x, s, t', p, ep) && Best(x, t', ep + 1, caps, e', out') && NoneWithin(x, s, t', p, ep, caps);
      BestSome(x, t, ep + 1, caps, e, out);
      BestSome(x, t', ep + 1, caps, e', out');
      BestUnique(x, t, ep + 1, caps, e, out, e', out');
    } else {
      BestUnique(x, s + 1, ep, caps, e, out, e', out');
    }
  }

  lemma {:induction false} OptionUnique(x: Subject, s: int, p: int, ep: int, caps: seq<Cap>, e: int, out: seq<Cap>, e': int, out': seq<Cap>)
    requires 0 <= p < ep && p < |x.pat|
    requires (ItemAt(x, s, p, ep) && Best(x, s + 1, ep + 1, caps, e, out)) || (Best(x, s, ep + 1, caps, e, out) && (ItemAt(x, s, p, ep) ==> NoMatch(x, s + 1, ep + 1, caps)))
    requires (ItemAt(x, s, p, ep) && Best(x, s + 1, ep + 1, caps, e', out')) || (Best(x, s, ep + 1, caps, e', out') && (ItemAt(x, s, p, ep) ==> NoMatch(x, s + 1, ep + 1, caps)))
    ensures e == e' && out == out'
    decreases |x.pat| - p, 0
  {
    hide InClass, Best, Matches, NoMatch;
    if ItemAt(x, s, p, ep) && Best(x, s + 1, ep + 1, caps, e, out) {
      BestSome(x, s + 1, ep + 1, caps, e, out);
      BestUnique(x, s + 1, ep + 1, caps, e, out, e', out');
    } else {
      if ItemAt(x, s, p, ep) && Best(x, s + 1, ep + 1, caps, e', out') { BestSome(x, s + 1, ep + 1, caps, e', out'); }
      BestUnique(x, s, ep + 1, caps, e, out, e', out');
    }
  }

  /** Unless the pattern is malformed, the matcher finds exactly the best match. */
  lemma MatchExact(x: Subject, s: int, p: int, caps: seq<Cap>)
    requires 0 <= s <= |x.src| && 0 <= p && !Match(x, s, p, caps).Error?
    ensures forall e, out :: Best(x, s, p, caps, e, out) <==> Match(x, s, p, caps) == Found(e, out)
  {
    hide Match, Best, Matches;
    MatchBest(x, s, p, caps);
    MatchRight(x, s, p, caps);
    var r := Match(x, s, p, caps);
    forall e, out | Best(x, s, p, caps, e, out) ensures r == Found(e, out) {
      BestMatches(x, s, p, caps, e, out);
      if r.Found? { BestUnique(x, s, p, caps, e, out, r.e, r.caps); }
    }
  }
}
