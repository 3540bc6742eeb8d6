/** Lua patterns: the backtracking matcher of the string library as functions over capture lists. */
module Patterns {

  /** A subject string, a pattern and the character classes of the C library: `cls(c, l)' is the class
      named by the lower-case letter `l'. Strings are bytes; reading past the end gives 0. */
  datatype Subject = Subject(src: seq<int>, pat: seq<int>, cls: (int, int) -> bool)

  const CAP_UNFINISHED := -1
  const CAP_POSITION := -2
  const MAXCAPTURES := 32

  datatype Cap = Cap(init: int, len: int)

  /** What a match gives: the end and the captures, NULL, or an error raised. */
  datatype Outcome = Found(e: int, caps: seq<Cap>) | Fail | Error

  function At(s: seq<int>, i: int): int {
    if 0 <= i < |s| then s[i] else 0
  }

  // ----- single characters -----

  function Lower(c: int): int {
    if 'A' as int <= c <= 'Z' as int then c + 32 else c
  }

  predicate IsLowerLetter(c: int) {
    'a' as int <= c <= 'z' as int
  }

  predicate IsDigit(c: int) {
    '0' as int <= c <= '9' as int
  }

  /** The letters that name a class. */
  predicate NamesClass(l: int) {
    l in {'a' as int, 'c' as int, 'd' as int, 'l' as int, 'p' as int, 's' as int, 'u' as int, 'w' as int, 'x' as int, 'z' as int}
  }

  /** match_class */
  predicate MatchClass(x: Subject, c: int, cl: int) {
    var l := Lower(cl);
    if NamesClass(l) then
      var res := if l == 'z' as int then c == 0 else x.cls(c, l);
      if IsLowerLetter(cl) then res else !res
    else cl == c
  }

  /** The end of the class that starts at `p', -1 for a malformed pattern. */
  function ClassEnd(pat: seq<int>, p: int): (ep: int)
    requires 0 <= p < |pat|
    ensures ep == -1 || p < ep <= |pat|
  {
    if pat[p] == '%' as int then (if At(pat, p + 1) == 0 then -1 else p + 2)
    else if pat[p] == '[' as int then BracketEnd(pat, if At(pat, p + 1) == '^' as int then p + 2 else p + 1)
    else p + 1
  }

  /** The loop that looks for the closing bracket; the first character never closes. */
  function BracketEnd(pat: seq<int>, p: int): (ep: int)
    requires 0 <= p
    ensures ep == -1 || p + 1 < ep <= |pat|
    decreases |pat| - p
  {
    if At(pat, p) == 0 then -1
    else
      var q := if pat[p] == '%' as int && At(pat, p + 1) != 0 then p + 2 else p + 1;
      if At(pat, q) == ']' as int then q + 1 else BracketEnd(pat, q)
  }

  /** A bracket class ends at the first closing bracket that is neither its first character nor escaped,
      and without one before the end of the pattern it is malformed. */
  lemma {:induction false} BracketEndIs(pat: seq<int>, p: int)
    requires 0 <= p
    ensures var ep := BracketEnd(pat, p);
      if ep == -1 then exists z :: p <= z && Unclosed(pat, p, z) && At(pat, z) == 0
      else Unclosed(pat, p, ep - 1) && pat[ep - 1] == ']' as int
    decreases |pat| - p
  {
    if At(pat, p) == 0 {
      assert Unclosed(pat, p, p);
    } else {
      var q := if pat[p] == '%' as int && At(pat, p + 1) != 0 then p + 2 else p + 1;
      if At(pat, q) == ']' as int {
        assert Unclosed(pat, p, q);
      } else {
        BracketEndIs(pat, q);
        var ep := BracketEnd(pat, q);
        if ep == -1 {
          var z :| q <= z && Unclosed(pat, q, z) && At(pat, z) == 0;
          UnclosedBefore(pat, p, q, z);
        } else {
          UnclosedBefore(pat, p, q, ep - 1);
        }
      }
    }
  }

  /** The pattern goes on from `p' to `q', and what closing brackets there are behind `p' are escaped. */
  ghost predicate Unclosed(pat: seq<int>, p: int, q: int) {
    0 <= p && (forall k :: p <= k < q ==> At(pat, k) != 0)
    && forall k :: p < k < q && At(pat, k) == ']' as int ==> At(pat, k - 1) == '%' as int
  }

  lemma UnclosedBefore(pat: seq<int>, p: int, q: int, z: int)
    requires 0 <= p < |pat| && pat[p] != 0 && At(pat, q) != ']' as int && q <= z && Unclosed(pat, q, z)
    requires q == if pat[p] == '%' as int && At(pat, p + 1) != 0 then p + 2 else p + 1
    ensures Unclosed(pat, p, z)
  {
  }

  /** An element of a bracket class. */
  datatype ClassItem = Escape(cl: int) | Range(lo: int, hi: int) | Char(c: int)

  predicate HasChar(x: Subject, item: ClassItem, c: int) {
    match item
    case Escape(cl) => MatchClass(x, c, cl)
    case Range(lo, hi) => lo <= c <= hi
    case Char(d) => d == c
  }

  /** The elements between `p' and the closing bracket at `ec'. */
  function Items(pat: seq<int>, p: int, ec: int): seq<ClassItem>
    decreases ec - p
  {
    if p >= ec then []
    else if At(pat, p) == '%' as int then [Escape(At(pat, p + 1))] + Items(pat, p + 2, ec)
    else if At(pat, p + 1) == '-' as int && p + 2 < ec then [Range(At(pat, p), At(pat, p + 2))] + Items(pat, p + 3, ec)
    else [Char(At(pat, p))] + Items(pat, p + 1, ec)
  }

  ghost predicate AnyHas(x: Subject, items: seq<ClassItem>, c: int) {
    exists i :: 0 <= i < |items| && HasChar(x, items[i], c)
  }

  /** The set a bracket class stands for: its elements, or the others after a caret. */
  ghost predicate InBracket(x: Subject, c: int, p: int, ec: int) {
    if At(x.pat, p + 1) == '^' as int then !AnyHas(x, Items(x.pat, p + 2, ec), c) else AnyHas(x, Items(x.pat, p + 1, ec), c)
  }

  /** The set a single-character class stands for. */
  ghost predicate InClass(x: Subject, c: int, p: int, ep: int) {
    if At(x.pat, p) == '.' as int then true
    else if At(x.pat, p) == '%' as int then MatchClass(x, c, At(x.pat, p + 1))
    else if At(x.pat, p) == '[' as int then InBracket(x, c, p, ep - 1)
    else At(x.pat, p) == c
  }

  ghost predicate ItemAt(x: Subject, s: int, p: int, ep: int) {
    0 <= s < |x.src| && InClass(x, x.src[s], p, ep)
  }

  // ----- captures -----

  /** capture_to_close: the last capture that is open, -1 if there is none. */
  function CaptureToClose(caps: seq<Cap>): (l: int)
    ensures -1 <= l < |caps|
  {
    if caps == [] then -1
    else if caps[|caps| - 1].len == CAP_UNFINISHED then |caps| - 1
    else CaptureToClose(caps[..|caps| - 1])
  }

  /** check_capture: the capture a digit refers to, -1 if there is no finished one. */
  function CheckCapture(caps: seq<Cap>, digit: int): (l: int)
    ensures -1 <= l < |caps|
  {
    var l := digit - '1' as int;
    if l < 0 || l >= |caps| || caps[l].len == CAP_UNFINISHED then -1 else l
  }

  // ----- balanced strings -----

  /** The scan of %bxy from `k' with `cont' open: the position after the closing character, -1 if none. */
  function BalanceFrom(src: seq<int>, k: int, b: int, e: int, cont: int): (r: int)
    requires 0 <= k
    ensures r == -1 || k < r <= |src|
    decreases |src| - k
  {
    if k >= |src| then -1
    else if src[k] == e then (if cont - 1 == 0 then k + 1 else BalanceFrom(src, k + 1, b, e, cont - 1))
    else BalanceFrom(src, k + 1, b, e, if src[k] == b then cont + 1 else cont)
  }

  /** The characters open after src[s..k], counting from one at `s'. */
  function Depth(src: seq<int>, s: int, k: int, b: int, e: int): int
    requires 0 <= s && k <= |src|
    decreases k - s
  {
    if k <= s + 1 then 1
    else Depth(src, s, k - 1, b, e) + if src[k - 1] == e then -1 else if src[k - 1] == b then 1 else 0
  }

  /** src[s..t] starts with `b' and is closed by `e', for the first time at its end. */
  ghost predicate Balanced(src: seq<int>, s: int, t: int, b: int, e: int) {
    && 0 <= s < |src| && src[s] == b && s + 1 < t <= |src|
    && Depth(src, s, t, b, e) == 0 && forall k :: s < k < t ==> Depth(src, s, k, b, e) != 0
  }

  lemma {:induction false} BalanceFromIs(src: seq<int>, s: int, k: int, b: int, e: int, cont: int)
    requires 0 <= s < k && s < |src| && src[s] == b && k <= |src|
    requires cont == Depth(src, s, k, b, e) && cont > 0 && forall j :: s < j < k ==> Depth(src, s, j, b, e) != 0
    ensures var r := BalanceFrom(src, k, b, e, cont);
            if r == -1 then forall t :: !Balanced(src, s, t, b, e) else Balanced(src, s, r, b, e)
    decreases |src| - k
  {
    if k == |src| {
      forall t ensures !Balanced(src, s, t, b, e) { assert t == k || t > k || t < k; }
    } else {
      var cont' := Depth(src, s, k + 1, b, e);
      if cont' > 0 { BalanceFromIs(src, s, k + 1, b, e, cont'); }
    }
  }

  // ----- the matcher -----

  /** matchbalance */
  function MatchBalance(x: Subject, s: int, p: int): int {
    if 0 <= s < |x.src| && x.src[s] == At(x.pat, p) then BalanceFrom(x.src, s + 1, At(x.pat, p), At(x.pat, p + 1), 1) else -1
  }

  /** The text of a finished capture again at `s'. */
  predicate Repeats(src: seq<int>, s: int, cap: Cap) {
    && 0 <= cap.len && 0 <= s && s + cap.len <= |src| && 0 <= cap.init && cap.init + cap.len <= |src|
    && src[cap.init..cap.init + cap.len] == src[s..s + cap.len]
  }

  function Previous(src: seq<int>, s: int): int {
    if s == 0 then 0 else At(src, s - 1)
  }

  ghost function Match(x: Subject, s: int, p: int, caps: seq<Cap>): Outcome
    decreases |x.pat| - p, 3, 0
  {
    if At(x.pat, p) == 0 then Found(s, caps)
    else if At(x.pat, p) == '(' as int then
      if At(x.pat, p + 1) == ')' as int then StartCapture(x, s, p, p + 2, caps, CAP_POSITION)
      else StartCapture(x, s, p, p + 1, caps, CAP_UNFINISHED)
    else if At(x.pat, p) == ')' as int then
      var l := CaptureToClose(caps);
      if l == -1 then Error else Match(x, s, p + 1, caps[l := Cap(caps[l].init, s - caps[l].init)])
    else if At(x.pat, p) == '%' as int && At(x.pat, p + 1) == 'b' as int then
      if At(x.pat, p + 2) == 0 || At(x.pat, p + 3) == 0 then Error
      else
        var t := MatchBalance(x, s, p + 2);
        if t == -1 then Fail else Match(x, t, p + 4, caps)
    else if At(x.pat, p) == '%' as int && At(x.pat, p + 1) == 'f' as int then
      if At(x.pat, p + 2) != '[' as int then Error
      else
        var ep := ClassEnd(x.pat, p + 2);
        if ep == -1 then Error
        else if InBracket(x, Previous(x.src, s), p + 2, ep - 1) || !InBracket(x, At(x.src, s), p + 2, ep - 1) then Fail
        else Match(x, s, ep, caps)
    else if At(x.pat, p) == '%' as int && IsDigit(At(x.pat, p + 1)) then
      var l := CheckCapture(caps, At(x.pat, p + 1));
      if l == -1 then Error
      else if Repeats(x.src, s, caps[l]) then Match(x, s + caps[l].len, p + 2, caps)
      else Fail
    else if At(x.pat, p) == '$' as int && At(x.pat, p + 1) == 0 then
      if s == |x.src| then Found(s, caps) else Fail
    else MatchItem(x, s, p, caps)
  }

  ghost function StartCapture(x: Subject, s: int, p: int, next: int, caps: seq<Cap>, what: int): Outcome
    requires p < next && 0 <= p < |x.pat|
    decreases |x.pat| - p, 2, 0
  {
    if |caps| >= MAXCAPTURES then Error else Match(x, s, next, caps + [Cap(s, what)])
  }

  /** A single character with or without a suffix. */
  ghost function MatchItem(x: Subject, s: int, p: int, caps: seq<Cap>): Outcome
    requires 0 <= p < |x.pat|
    decreases |x.pat| - p, 2, 0
  {
    var ep := ClassEnd(x.pat, p);
    if ep == -1 then Error
    else
      var m := ItemAt(x, s, p, ep);
      if At(x.pat, ep) == '?' as int then
        if m then
          var r := Match(x, s + 1, ep + 1, caps);
          if r.Fail? then Match(x, s, ep + 1, caps) else r
        else Match(x, s, ep + 1, caps)
      else if At(x.pat, ep) == '*' as int then MaxExpand(x, s, p, ep, caps, Expand(x, s, p, ep))
      else if At(x.pat, ep) == '+' as int then (if m then MaxExpand(x, s + 1, p, ep, caps, Expand(x, s + 1, p, ep)) else Fail)
      else if At(x.pat, ep) == '-' as int then MinExpand(x, s, p, ep, caps)
      else if m then Match(x, s + 1, ep, caps)
      else Fail
  }

  /** How many characters from `s' are in the class. */
  ghost function Expand(x: Subject, s: int, p: int, ep: int): (i: nat)
    decreases |x.src| - s
  {
    if ItemAt(x, s, p, ep) then 1 + Expand(x, s + 1, p, ep) else 0
  }

  /** The second loop of max_expand: the most repetitions first. */
  ghost function MaxExpand(x: Subject, s: int, p: int, ep: int, caps: seq<Cap>, i: int): Outcome
    requires 0 <= p < ep
    decreases |x.pat| - p, 1, i
  {
    if i < 0 || ep >= |x.pat| then Fail
    else
      var r := Match(x, s + i, ep + 1, caps);
      if r.Fail? then MaxExpand(x, s, p, ep, caps, i - 1) else r
  }

  /** min_expand: the fewest repetitions first. */
  ghost function MinExpand(x: Subject, s: int, p: int, ep: int, caps: seq<Cap>): Outcome
    requires 0 <= p < ep
    decreases |x.pat| - p, 1, |x.src| - s
  {
    if ep >= |x.pat| then Fail
    else
      var r := Match(x, s, ep + 1, caps);
      if !r.Fail? then r
      else if ItemAt(x, s, p, ep) then MinExpand(x, s + 1, p, ep, caps)
      else Fail
  }
}
