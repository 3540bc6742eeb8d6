/** string.find and string.match: the search for the first place where a pattern matches. */
module PatternFind {
  import P = Patterns
  import opened Patterns
  import opened PatternSpec
  import opened PatternOrder
  import opened PatternMatch

  /** Where the search starts: positions count from 1, negative ones from the end. */
  function StartAt(pos: int, len: nat): (i: int)
    ensures 0 <= i <= len
  {
    var init := (if pos >= 0 then pos else len + pos + 1) - 1;
    if init < 0 then 0 else if init > len then len else init
  }

  /** The first character is 1 and the last one -1; a place before the string is its start, one behind it its
      end. */
  lemma StartAtIs(pos: int, len: nat)
    ensures 1 <= pos <= len ==> StartAt(pos, len) == pos - 1
    ensures 0 <= pos + len && pos <= -1 ==> StartAt(pos, len) == len + pos
    ensures pos == 0 || pos + len < 0 ==> StartAt(pos, len) == 0
    ensures pos > len ==> StartAt(pos, len) == len
  {
  }

  predicate Anchored(x: Subject) {
    At(x.pat, 0) == '^' as int
  }

  function Body(x: Subject): int {
    if Anchored(x) then 1 else 0
  }

  /** No match of the pattern starts at `t'. */
  ghost predicate NoMatchAt(x: Subject, t: int) {
    forall e, out :: !Matches(x, t, Body(x), [], e, out)
  }

  // ----- what a search gives -----

  /** The start, the end and the captures of what is found; nothing; or the error raised. */
  datatype Search = Located(start: int, e: int, caps: seq<Cap>) | Absent | Raised

  function Outcome(ok: bool, found: bool, start: int, e: int, caps: seq<Cap>): Search {
    if !ok then Raised else if !found then Absent else Located(start, e, caps)
  }

  /** The pattern search from `t': the starts are tried one after the other. */
  ghost function PatternSearch(x: Subject, t: int): Search
    decreases |x.src| - t
  {
    match P.Match(x, t, Body(x), [])
    case Found(e, caps) => Located(t, e, caps)
    case Error => Raised
    case Fail => if t < |x.src| && !Anchored(x) then PatternSearch(x, t + 1) else Absent
  }

  /** The loop of str_find_aux: the leftmost start at which the pattern matches, with the end and the
      captures of a match there; or none; or the error that stopped it. */
  method FindPattern(x: Subject, init: int) returns (ok: bool, found: bool, start: int, e: int, caps: seq<Cap>)
    requires 0 <= init <= |x.src|
    ensures ok && found ==> init <= start <= |x.src| && Matches(x, start, Body(x), [], e, caps)
    ensures ok && found ==> Best(x, start, Body(x), [], e, caps)
    ensures ok && found ==> (Anchored(x) ==> start == init) && forall t :: init <= t < start ==> NoMatchAt(x, t)
    ensures ok && !found ==> NoMatchAt(x, init) && (!Anchored(x) ==> forall t :: init <= t <= |x.src| ==> NoMatchAt(x, t))
    ensures !ok ==> init <= start <= |x.src| && P.Match(x, start, Body(x), []) == Error
    ensures Outcome(ok, found, start, e, caps) == PatternSearch(x, init)
  {
    hide Matches, P.Match, Best;
    var anchor := At(x.pat, 0) == '^' as int;
    var p := if anchor then 1 else 0;
    var ms := new MatchState(x);
    start, e, caps := init, 0, [];
    while true
      invariant init <= start <= |x.src| && ms.Valid() && fresh(ms) && fresh(ms.capture) && ms.x == x
      invariant forall t :: init <= t < start ==> NoMatchAt(x, t)
      invariant anchor ==> start == init
      invariant PatternSearch(x, init) == PatternSearch(x, start)
      decreases |x.src| - start
    {
      ms.level := 0;
      MatchRight(x, start, p, []);
      assert ms.Caps() == [];
      var res;
      ok, res := ms.Match(start, p);
      if !ok { return false, false, start, 0, []; }
      if res != NULL {
        caps := ms.capture[..ms.level];
        return true, true, start, res, caps;
      }
      assert NoMatchAt(x, start);
      if !(start < |x.src|) || anchor { return true, false, start, 0, []; }
      start := start + 1;
    }
  }

  // ----- the plain search -----

  ghost predicate OccursAt(s: seq<int>, w: seq<int>, i: int) {
    0 <= i && i + |w| <= |s| && s[i..i + |w|] == w
  }

  /** memchr over s[from..to]. */
  method MemChr(s: seq<int>, from: int, to: int, c: int) returns (i: int)
    requires 0 <= from <= to <= |s|
    ensures i == NULL ==> forall k :: from <= k < to ==> s[k] != c
    ensures i != NULL ==> from <= i < to && s[i] == c && forall k :: from <= k < i ==> s[k] != c
  {
    i := from;
    while i < to
      invariant from <= i <= to && forall k :: from <= k < i ==> s[k] != c
    {
      if s[i] == c { return; }
      i := i + 1;
    }
    return NULL;
  }

  /** lmemfind in s[from..]: the first place the word occurs. Its first character is looked for where
      the rest can still follow, and then the rest compared. */
  method MemFind(s: seq<int>, from: int, w: seq<int>) returns (i: int)
    requires 0 <= from <= |s|
    ensures i == NULL ==> forall k :: from <= k ==> !OccursAt(s, w, k)
    ensures i != NULL ==> from <= i && OccursAt(s, w, i) && forall k :: from <= k < i ==> !OccursAt(s, w, k)
  {
    if |w| == 0 {
      assert s[from..from] == w;
      return from;
    }
    if |w| > |s| - from { return NULL; }
    var last := |s| - (|w| - 1);
    var at := from;
    while at < last
      invariant from <= at <= last && forall k :: from <= k < at ==> !OccursAt(s, w, k)
      decreases last - at
    {
      var init := MemChr(s, at, last, w[0]);
      forall k | at <= k && (k >= last || s[k] != w[0]) ensures !OccursAt(s, w, k) { FirstDiffers(s, w, k); }
      if init == NULL { return NULL; }
      if s[init + 1..init + |w|] == w[1..] {
        assert s[init..init + |w|] == [s[init]] + s[init + 1..init + |w|];
        assert w == [w[0]] + w[1..];
        return init;
      }
      assert !OccursAt(s, w, init) by { RestDiffers(s, w, init); }
      at := init + 1;
    }
    forall k | at <= k ensures !OccursAt(s, w, k) { }
    return NULL;
  }

  lemma FirstDiffers(s: seq<int>, w: seq<int>, k: int)
    requires |w| > 0 && 0 <= k && (k >= |s| - (|w| - 1) || s[k] != w[0])
    ensures !OccursAt(s, w, k)
  {
    if k + |w| <= |s| { assert s[k..k + |w|][0] == s[k]; }
  }

  lemma RestDiffers(s: seq<int>, w: seq<int>, k: int)
    requires |w| > 0 && 0 <= k && k + |w| <= |s| && s[k + 1..k + |w|] != w[1..]
    ensures !OccursAt(s, w, k)
  {
    assert s[k..k + |w|][1..] == s[k + 1..k + |w|];
  }

  // ----- the plain search is the pattern search -----

  predicate IsSpecial(c: int) {
    c in {'^' as int, '$' as int, '*' as int, '+' as int, '?' as int, '.' as int, '(' as int, '[' as int, '%' as int, '-' as int}
  }

  /** strpbrk: it stops at a zero. */
  function HasSpecials(pat: seq<int>, i: int): bool
    decreases |pat| - i
  {
    At(pat, i) != 0 && i < |pat| && (IsSpecial(At(pat, i)) || HasSpecials(pat, i + 1))
  }

  /** The pattern is a word: no special character, and none of the two that the test for specials does
      not look at, the closing parenthesis and the zero. */
  predicate IsWord(pat: seq<int>) {
    forall i :: 0 <= i < |pat| ==> !IsSpecial(pat[i]) && pat[i] != ')' as int && pat[i] != 0
  }

  lemma {:induction false} WordHasNone(pat: seq<int>, i: int)
    requires IsWord(pat) && 0 <= i
    ensures !HasSpecials(pat, i)
    decreases |pat| - i
  {
    if i < |pat| { WordHasNone(pat, i + 1); }
  }

  /** A word as a pattern matches itself and nothing else. */
  lemma {:induction false} WordMatches(x: Subject, s: int, p: int, e: int, out: seq<Cap>)
    requires IsWord(x.pat) && 0 <= s <= |x.src| && 0 <= p <= |x.pat|
    ensures Matches(x, s, p, [], e, out) <==> OccursAt(x.src, x.pat[p..], s) && e == s + |x.pat| - p && out == []
    decreases |x.pat| - p
  {
    if p == |x.pat| {
      assert x.pat[p..] == [] && x.src[s..s] == [];
    } else {
      assert !IsSpecial(x.pat[p]) && (p + 1 < |x.pat| ==> !IsSpecial(x.pat[p + 1]));
      ItemUnfold(x, s, p, []);
      assert ClassEnd(x.pat, p) == p + 1;
      assert Matches(x, s, p, [], e, out) <==> ItemAt(x, s, p, p + 1) && Matches(x, s + 1, p + 1, [], e, out) by { PlainItem(x, s, p, e, out); }
      if s < |x.src| {
        WordMatches(x, s + 1, p + 1, e, out);
        OccursNext(x.src, x.pat[p..], s);
        assert x.pat[p..][1..] == x.pat[p + 1..];
      }
    }
  }

  lemma PlainItem(x: Subject, s: int, p: int, e: int, out: seq<Cap>)
    requires 0 <= p < |x.pat| && IsWord(x.pat) && IsItem(x, p) && ClassEnd(x.pat, p) == p + 1
    ensures ItemMatches(x, s, p, [], e, out) <==> ItemAt(x, s, p, p + 1) && Matches(x, s + 1, p + 1, [], e, out)
  {
    hide Matches, ClassEnd;
    assert p + 1 < |x.pat| ==> !IsSpecial(x.pat[p + 1]);
  }

  lemma OccursNext(s: seq<int>, w: seq<int>, i: int)
    requires |w| > 0 && 0 <= i < |s|
    ensures OccursAt(s, w, i) <==> s[i] == w[0] && OccursAt(s, w[1..], i + 1)
  {
    if i + |w| <= |s| {
      assert s[i..i + |w|] == [s[i]] + s[i + 1..i + |w|];
      assert w == [w[0]] + w[1..];
    }
  }

  /** The plain search from `t'. */
  ghost function PlainSearch(x: Subject, t: int): Search
    decreases |x.src| - t
  {
    if OccursAt(x.src, x.pat, t) then Located(t, t + |x.pat|, [])
    else if t < |x.src| then PlainSearch(x, t + 1)
    else Absent
  }

  lemma {:induction false} PlainIs(x: Subject, t: int, i: int)
    requires 0 <= t <= |x.src|
    requires i == NULL ==> forall k :: t <= k ==> !OccursAt(x.src, x.pat, k)
    requires i != NULL ==> t <= i && OccursAt(x.src, x.pat, i) && forall k :: t <= k < i ==> !OccursAt(x.src, x.pat, k)
    ensures PlainSearch(x, t) == if i == NULL then Absent else Located(i, i + |x.pat|, [])
    decreases |x.src| - t
  {
    if !OccursAt(x.src, x.pat, t) && t < |x.src| { PlainIs(x, t + 1, i); }
  }

  /** Where a pattern without special characters stops being a word: at the first closing parenthesis or
      zero. */
  function Stop(pat: seq<int>, i: nat): (q: nat)
    requires i <= |pat|
    ensures i <= q <= |pat| && (q < |pat| ==> pat[q] == ')' as int || pat[q] == 0)
    ensures forall k :: i <= k < q ==> pat[k] != ')' as int && pat[k] != 0
    decreases |pat| - i
  {
    if i == |pat| || pat[i] == ')' as int || pat[i] == 0 then i else Stop(pat, i + 1)
  }

  lemma {:induction false} WordBeforeStop(pat: seq<int>, i: nat)
    requires i <= |pat| && !HasSpecials(pat, i)
    ensures forall k :: i <= k < Stop(pat, i) ==> !IsSpecial(pat[k])
    decreases |pat| - i
  {
    if i < Stop(pat, i) { WordBeforeStop(pat, i + 1); }
  }

  /** The pattern up to the stop matches itself; a closing parenthesis there is an error, a zero the end. */
  lemma {:induction false} MatchToStop(x: Subject, s: int, p: int)
    requires !HasSpecials(x.pat, 0) && 0 <= s <= |x.src| && 0 <= p <= Stop(x.pat, 0)
    ensures var q := Stop(x.pat, 0);
            P.Match(x, s, p, []) ==
              if !OccursAt(x.src, x.pat[p..q], s) then Fail
              else if q < |x.pat| && x.pat[q] == ')' as int then Error
              else Found(s + q - p, [])
    decreases |x.pat| - p
  {
    var q := Stop(x.pat, 0);
    if p == q {
      assert x.pat[p..q] == [] && x.src[s..s] == [];
    } else {
      PlainStep(x, s, p);
      if s < |x.src| {
        MatchToStop(x, s + 1, p + 1);
        OccursNext(x.src, x.pat[p..q], s);
        assert x.pat[p..q][1..] == x.pat[p + 1..q];
      }
    }
  }

  lemma PlainStep(x: Subject, s: int, p: int)
    requires !HasSpecials(x.pat, 0) && 0 <= s <= |x.src| && 0 <= p < Stop(x.pat, 0)
    ensures P.Match(x, s, p, []) == if s < |x.src| && x.src[s] == x.pat[p] then P.Match(x, s + 1, p + 1, []) else Fail
  {
    WordBeforeStop(x.pat, 0);
    assert !IsSpecial(At(x.pat, p)) && !IsSpecial(At(x.pat, p + 1));
    ItemUnfold(x, s, p, []);
    assert ClassEnd(x.pat, p) == p + 1;
    assert ItemAt(x, s, p, p + 1) <==> s < |x.src| && x.src[s] == x.pat[p];
  }

  /** The part of the pattern before the stop occurs somewhere from `init' on. */
  ghost predicate StopReached(x: Subject, init: int) {
    Stop(x.pat, 0) < |x.pat| && exists t :: init <= t <= |x.src| && OccursAt(x.src, x.pat[..Stop(x.pat, 0)], t)
  }

  /** Without special characters the plain search gives what the pattern search gives if and only if the
      pattern search does not get to a closing parenthesis or a zero of the pattern. */
  lemma {:induction false} SearchesAgree(x: Subject, init: int)
    requires !HasSpecials(x.pat, 0) && 0 <= init <= |x.src|
    ensures PlainSearch(x, init) == PatternSearch(x, init) <==> !StopReached(x, init)
    decreases |x.src| - init
  {
    hide P.Match, OccursAt;
    var q := Stop(x.pat, 0);
    assert !Anchored(x);
    assert x.pat[0..q] == x.pat[..q];
    MatchToStop(x, init, 0);
    if q == |x.pat| { assert x.pat[..q] == x.pat; } else { PlainShift(x, init); }
    if !OccursAt(x.src, x.pat[..q], init) {
      if OccursAt(x.src, x.pat, init) { PrefixOccurs(x.src, x.pat, q, init); }
      if init < |x.src| { SearchesAgree(x, init + 1); }
    }
  }

  lemma PrefixOccurs(s: seq<int>, w: seq<int>, q: nat, i: int)
    requires q <= |w| && OccursAt(s, w, i)
    ensures OccursAt(s, w[..q], i)
  {
    assert s[i..i + |w|][..q] == s[i..i + q];
  }

  lemma {:induction false} PlainShift(x: Subject, t: int)
    ensures var r := PlainSearch(x, t); r == Absent || (r.Located? && r.e == r.start + |x.pat|)
    decreases |x.src| - t
  {
    if !OccursAt(x.src, x.pat, t) && t < |x.src| { PlainShift(x, t + 1); }
  }

  /** Among the patterns without special characters the words are exactly those for which the two searches
      always agree. */
  lemma WordsAgree(pat: seq<int>, cls: (int, int) -> bool)
    requires !HasSpecials(pat, 0)
    ensures IsWord(pat) <==>
      forall src, init :: 0 <= init <= |src| ==> PlainSearch(Subject(src, pat, cls), init) == PatternSearch(Subject(src, pat, cls), init)
  {
    WordBeforeStop(pat, 0);
    var q := Stop(pat, 0);
    if q == |pat| {
      forall src, init | 0 <= init <= |src| ensures PlainSearch(Subject(src, pat, cls), init) == PatternSearch(Subject(src, pat, cls), init) {
        SearchesAgree(Subject(src, pat, cls), init);
      }
    } else {
      var x := Subject(pat[..q], pat, cls);
      assert OccursAt(x.src, x.pat[..q], 0);
      SearchesAgree(x, 0);
    }
  }

  /** A closing parenthesis is found by the plain search and malformed as a pattern. */
  lemma ParenthesisDiffers(cls: (int, int) -> bool)
    ensures var x := Subject([')' as int], [')' as int], cls);
            !HasSpecials(x.pat, 0) && PlainSearch(x, 0) == Located(0, 1, []) && PatternSearch(x, 0) == Raised
  {
    var x := Subject([')' as int], [')' as int], cls);
    assert x.src[0..1] == x.pat;
  }

  /** A pattern with a zero is not found by the plain search where the pattern search finds what is before
      the zero. */
  lemma ZeroDiffers(cls: (int, int) -> bool)
    ensures var x := Subject(['a' as int], ['a' as int, 0], cls);
            !HasSpecials(x.pat, 0) && PlainSearch(x, 0) == Absent && PatternSearch(x, 0) == Located(0, 1, [])
  {
    var x := Subject(['a' as int], ['a' as int, 0], cls);
    assert Stop(x.pat, 0) == 1;
    assert x.src[0..1] == x.pat[..1];
    MatchToStop(x, 0, 0);
    assert x.pat[0..1] == x.pat[..1];
  }

  /** str_find_aux for string.find: a plain search when asked for or when there is nothing special in the
      pattern, a search for the pattern otherwise. */
  method StrFind(x: Subject, pos: int, plain: bool) returns (ok: bool, found: bool, start: int, e: int, caps: seq<Cap>)
    ensures var init := StartAt(pos, |x.src|);
            Outcome(ok, found, start, e, caps) == if plain || !HasSpecials(x.pat, 0) then PlainSearch(x, init) else PatternSearch(x, init)
    ensures var init := StartAt(pos, |x.src|);
            !plain ==> (Outcome(ok, found, start, e, caps) == PatternSearch(x, init) <==> HasSpecials(x.pat, 0) || !StopReached(x, init))
    ensures var init := StartAt(pos, |x.src|);
            plain || !HasSpecials(x.pat, 0) ==>
              if found then init <= start && OccursAt(x.src, x.pat, start) && e == start + |x.pat| && forall t :: init <= t < start ==> !OccursAt(x.src, x.pat, t)
              else forall t :: init <= t ==> !OccursAt(x.src, x.pat, t)
    ensures var init := StartAt(pos, |x.src|);
            ok && !plain && (HasSpecials(x.pat, 0) || !StopReached(x, init)) ==>
              if found then IsFirst(x, init, start, e, caps) else IsNone(x, init)
  {
    hide Matches, P.Match, OccursAt, PlainSearch, PatternSearch, StopReached;
    var init := StartAt(pos, |x.src|);
    if plain || !HasSpecials(x.pat, 0) {
      var i := MemFind(x.src, init, x.pat);
      PlainIs(x, init, i);
      if !HasSpecials(x.pat, 0) {
        SearchesAgree(x, init);
        SearchRight(x, init);
      }
      return true, i != NULL, i, i + |x.pat|, [];
    }
    ok, found, start, e, caps := FindPattern(x, init);
  }

  /** The result is the leftmost match. */
  ghost predicate IsFirst(x: Subject, init: int, start: int, e: int, caps: seq<Cap>) {
    && init <= start <= |x.src| && Matches(x, start, Body(x), [], e, caps)
    && (Anchored(x) ==> start == init) && forall t :: init <= t < start ==> NoMatchAt(x, t)
  }

  ghost predicate IsNone(x: Subject, init: int) {
    NoMatchAt(x, init) && (!Anchored(x) ==> forall t :: init <= t <= |x.src| ==> NoMatchAt(x, t))
  }

  /** What the pattern search gives is the leftmost match, and none only if there is none. */
  lemma {:induction false} SearchRight(x: Subject, init: int)
    requires 0 <= init <= |x.src|
    ensures var r := PatternSearch(x, init);
            (r.Located? ==> IsFirst(x, init, r.start, r.e, r.caps)) && (r.Absent? ==> IsNone(x, init))
    decreases |x.src| - init
  {
    hide Matches, P.Match;
    MatchRight(x, init, Body(x), []);
    var m := P.Match(x, init, Body(x), []);
    if m.Fail? {
      assert NoMatchAt(x, init);
      if init < |x.src| && !Anchored(x) { SearchRight(x, init + 1); }
    }
  }

  lemma WordSearch(x: Subject, init: int, i: int)
    requires IsWord(x.pat) && 0 <= init <= |x.src|
    requires i == NULL ==> forall k :: init <= k ==> !OccursAt(x.src, x.pat, k)
    requires i != NULL ==> init <= i && OccursAt(x.src, x.pat, i) && forall k :: init <= k < i ==> !OccursAt(x.src, x.pat, k)
    ensures if i == NULL then IsNone(x, init) else IsFirst(x, init, i, i + |x.pat|, [])
  {
    hide Matches, OccursAt;
    assert !Anchored(x) && Body(x) == 0 && x.pat[0..] == x.pat;
    forall t | init <= t <= |x.src| && !OccursAt(x.src, x.pat, t) ensures NoMatchAt(x, t) {
      forall e, out ensures !Matches(x, t, 0, [], e, out) { WordMatches(x, t, 0, e, out); }
    }
    if i != NULL {
      assert i <= |x.src| by { OccursIn(x.src, x.pat, i); }
      WordMatches(x, i, 0, i + |x.pat|, []);
    }
  }

  lemma OccursIn(s: seq<int>, w: seq<int>, i: int)
    requires OccursAt(s, w, i)
    ensures i <= |s|
  {
  }
}
