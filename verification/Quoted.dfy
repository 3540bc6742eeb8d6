/** The %q format against the reading of string literals. */
module Quoted {
  import opened ByteStrings
  import opened Zio

  const QUOTE: Byte := 34
  const BACKSLASH: Byte := 92
  const NEWLINE: Byte := 10
  const RETURN: Byte := 13
  const ZERO: Byte := 48
  const NINE: Byte := 57

  /** The largest line number, two below the largest int. */
  const MAX_INT: int := 0x7fff_fffd

  // ----- %q -----

  function QuotedByte(c: Byte): (r: Bytes)
    ensures r != []
  {
    if c == QUOTE || c == BACKSLASH || c == NEWLINE then [BACKSLASH, c]
    else if c == RETURN then [BACKSLASH, 114]
    else if c == 0 then [BACKSLASH, ZERO, ZERO, ZERO]
    else [c]
  }

  function QuotedBytes(s: Bytes): (r: Bytes) {
    if s == [] then [] else QuotedByte(s[0]) + QuotedBytes(s[1..])
  }

  function Quoted(s: Bytes): (r: Bytes) { [QUOTE] + QuotedBytes(s) + [QUOTE] }

  lemma {:induction false} QuotedNext(s: Bytes, i: nat)
    requires i < |s|
    ensures QuotedBytes(s[..i + 1]) == QuotedBytes(s[..i]) + QuotedByte(s[i])
    decreases i
  {
    hide QuotedByte;
    var t := s[..i + 1];
    if i == 0 {
      assert t == [s[0]] && t[1..] == [];
    } else {
      QuotedNext(s[1..], i - 1);
      assert t[1..] == s[1..][..i] && s[..i][1..] == s[1..][..i - 1];
      assert QuotedBytes(t) == QuotedByte(s[0]) + (QuotedBytes(s[..i][1..]) + QuotedByte(s[i]));
    }
  }

  method AddQuoted(s: Bytes) returns (b: Bytes)
    ensures b == Quoted(s)
  {
    assert QuotedBytes(s[..0]) == [];
    hide QuotedBytes;
    b := [QUOTE];
    var i := 0;
    while i < |s|
      invariant 0 <= i <= |s|
      invariant b == [QUOTE] + QuotedBytes(s[..i])
    {
      QuotedNext(s, i);
      b := AddByte(b, s[i]);
      assert b == [QUOTE] + (QuotedBytes(s[..i]) + QuotedByte(s[i]));
      i := i + 1;
    }
    assert s[..|s|] == s;
    b := b + [QUOTE];
  }

  /** The body of its loop. */
  method AddByte(done: Bytes, c: Byte) returns (b: Bytes)
    ensures b == done + QuotedByte(c)
  {
    b := done;
    if c == QUOTE || c == BACKSLASH || c == NEWLINE {
      b := b + [BACKSLASH];
      b := b + [c];
    } else if c == RETURN {
      b := b + [BACKSLASH, 114];
    } else if c == 0 {
      b := b + [BACKSLASH, ZERO, ZERO, ZERO];
    } else {
      b := b + [c];
    }
  }

  // ----- string literals -----

  datatype Error = UnfinishedAtEnd | UnfinishedString | EscapeTooLarge | TooManyLines

  /** The string, what follows it and the line there; or the error. */
  datatype Scanned = Text(s: Bytes, rest: Bytes, line: int) | Failed(e: Error)

  function Save(c: Byte, q: Scanned): (r: Scanned) {
    if q.Text? then q.(s := [c] + q.s) else q
  }

  predicate IsNewline(c: Byte) { c == NEWLINE || c == RETURN }
  predicate IsDigit(c: Byte) { ZERO <= c <= NINE }

  /** The value of a one-letter escape, -1 for other bytes. */
  function Escape(c: Byte): (r: int)
    ensures -1 <= r < 256
  {
    if c == 97 then 7
    else if c == 98 then 8
    else if c == 102 then 12
    else if c == 110 then 10
    else if c == 114 then 13
    else if c == 116 then 9
    else if c == 118 then 11
    else -1
  }

  /** A line end of one byte or of two different ones. */
  function SkipNewline(t: Bytes): (r: Bytes)
    requires t != []
    ensures |r| < |t|
  {
    if |t| > 1 && IsNewline(t[1]) && t[1] != t[0] then t[2..] else t[1..]
  }

  /** How many of the next bytes are digits, at most n. */
  function DigitCount(t: Bytes, n: nat): (r: nat)
    ensures r <= n && r <= |t|
  {
    if n == 0 || t == [] || !IsDigit(t[0]) then 0 else 1 + DigitCount(t[1..], n - 1)
  }

  function DecimalFrom(t: Bytes, c: int): (r: int)
    decreases t
  {
    if t == [] then c else DecimalFrom(t[1..], 10 * c + (t[0] - ZERO))
  }

  /** `t' is what follows the opening delimiter. */
  function Scan(t: Bytes, del: Byte, line: int): (r: Scanned)
    decreases |t|
  {
    if t == [] then Failed(UnfinishedAtEnd)
    else if t[0] == del then Text([], t[1..], line)
    else if IsNewline(t[0]) then Failed(UnfinishedString)
    else if t[0] == BACKSLASH then
      var u := t[1..];
      if u == [] then Failed(UnfinishedAtEnd)
      else if Escape(u[0]) >= 0 then Save(Escape(u[0]), Scan(u[1..], del, line))
      else if IsNewline(u[0]) then
        if line + 1 >= MAX_INT then Failed(TooManyLines) else Save(NEWLINE, Scan(SkipNewline(u), del, line + 1))
      else if IsDigit(u[0]) then
        var n := DigitCount(u, 3);
        var c := DecimalFrom(u[..n], 0);
        if c < 0 || c > 255 then Failed(EscapeTooLarge) else Save(c, Scan(u[n..], del, line))
      else Save(u[0], Scan(u[1..], del, line))
    else Save(t[0], Scan(t[1..], del, line))
  }

  function Newlines(s: Bytes): (r: nat) {
    if s == [] then 0 else (if s[0] == NEWLINE then 1 else 0) + Newlines(s[1..])
  }

  /** What reading a string printed with %q gives: the string, unless there are too many lines. */
  function Reread(s: Bytes, rest: Bytes, line: int): Scanned {
    if Newlines(s) == 0 || line + Newlines(s) < MAX_INT then Text(s, rest, line + Newlines(s)) else Failed(TooManyLines)
  }

  lemma ScanQuotedByte(c: Byte, tail: Bytes, line: int)
    requires tail != [] && !IsNewline(tail[0])
    ensures Scan(QuotedByte(c) + tail, QUOTE, line) ==
      Onward(c, line, Scan(tail, QUOTE, LineAfter(c, line)))
  {
    var t := QuotedByte(c) + tail;
    if c == 0 {
      var u := t[1..];
      assert u[..3] == [ZERO, ZERO, ZERO] && u[3..] == tail;
      assert DigitCount(u[3..], 0) == 0 && DigitCount(u[2..], 1) == 1 && DigitCount(u[1..], 2) == 2;
      assert DigitCount(u, 3) == 3;
      assert DecimalFrom([ZERO], 0) == 0 && DecimalFrom([ZERO, ZERO], 0) == 0;
      assert [ZERO, ZERO, ZERO][1..] == [ZERO, ZERO] && [ZERO, ZERO][1..] == [ZERO];
      assert DecimalFrom(u[..3], 0) == 0;
    } else if |QuotedByte(c)| == 1 {
      assert t[1..] == tail;
    } else {
      var u := t[1..];
      assert u[1..] == tail;
    }
  }

  /** The step from the rest of a string to the whole string. */
  function Onward(c: Byte, line: int, q: Scanned): Scanned {
    if c == NEWLINE && line + 1 >= MAX_INT then Failed(TooManyLines) else Save(c, q)
  }

  function LineAfter(c: Byte, line: int): int { if c == NEWLINE then line + 1 else line }

  lemma RereadNext(s: Bytes, rest: Bytes, line: int)
    requires s != [] && line < MAX_INT
    ensures Reread(s, rest, line) == Onward(s[0], line, Reread(s[1..], rest, LineAfter(s[0], line)))
  {
    assert [s[0]] + s[1..] == s;
  }

  lemma NothingLeft(rest: Bytes, line: int)
    ensures Scan([QUOTE] + rest, QUOTE, line) == Reread([], rest, line)
  {
  }

  /** Every string printed with %q is read back, whatever follows it, exactly as long as the line number
      stays in range. */
  lemma {:induction false} RoundTrip(s: Bytes, rest: Bytes, line: int)
    requires line < MAX_INT
    ensures Scan(QuotedBytes(s) + ([QUOTE] + rest), QUOTE, line) == Reread(s, rest, line)
    decreases |s|
  {
    hide Scan, Reread, QuotedByte;
    var close := [QUOTE] + rest;
    if s == [] {
      assert QuotedBytes(s) + close == close;
      NothingLeft(rest, line);
    } else {
      var tail := QuotedBytes(s[1..]) + close;
      assert QuotedBytes(s) + close == QuotedByte(s[0]) + tail;
      FirstQuoted(s[1..], close);
      ScanQuotedByte(s[0], tail, line);
      RereadNext(s, rest, line);
      if LineAfter(s[0], line) < MAX_INT {
        RoundTrip(s[1..], rest, LineAfter(s[0], line));
      }
    }
  }

  lemma FirstQuoted(s: Bytes, close: Bytes)
    requires close != [] && close[0] == QUOTE
    ensures var t := QuotedBytes(s) + close; t != [] && !IsNewline(t[0])
  {
    if s != [] { assert QuotedBytes(s)[0] == QuotedByte(s[0])[0]; }
  }

  /** A quoted string holds no zero byte, no carriage return, and no line end that is not escaped. */
  lemma {:induction false} QuotedClean(s: Bytes, i: nat)
    requires i < |QuotedBytes(s)|
    ensures var q := QuotedBytes(s);
      q[i] != 0 && q[i] != RETURN && (q[i] == NEWLINE ==> i > 0 && q[i - 1] == BACKSLASH)
    decreases |s|
  {
    var n := |QuotedByte(s[0])|;
    var q, tail := QuotedBytes(s), QuotedBytes(s[1..]);
    assert q == QuotedByte(s[0]) + tail;
    if i >= n {
      QuotedClean(s[1..], i - n);
      assert q[i] == tail[i - n];
    }
  }

  // ----- the escapes, said outright -----

  /** The letters a, b, f, n, r, t, v and the control characters they stand for. */
  predicate LetterFor(l: Byte, c: Byte) {
    (l, c) in {('a' as int, 7), ('b' as int, 8), ('f' as int, 12), ('n' as int, 10), ('r' as int, 13), ('t' as int, 9), ('v' as int, 11)}
  }

  /** A backslash and one of these letters is that character; before any other byte that is no digit and no line
      end it is left out. */
  lemma LetterEscapes(l: Byte, rest: Bytes, line: int)
    requires !IsNewline(l) && !IsDigit(l)
    ensures forall c :: LetterFor(l, c) ==> Scan([BACKSLASH, l, QUOTE] + rest, QUOTE, line) == Text([c], rest, line)
    ensures (forall c :: !LetterFor(l, c)) ==> Scan([BACKSLASH, l, QUOTE] + rest, QUOTE, line) == Text([l], rest, line)
  {
    var t := [BACKSLASH, l, QUOTE] + rest;
    var close := [QUOTE] + rest;
    assert t[1..][1..] == close && close[1..] == rest;
    assert Scan(close, QUOTE, line) == Text([], rest, line);
    if Escape(l) >= 0 { assert LetterFor(l, Escape(l)); }
  }

  lemma ThreeDigits(a: Byte, b: Byte, c: Byte)
    ensures DecimalFrom([a, b, c], 0) == 100 * (a - 48) + 10 * (b - 48) + (c - 48)
  {
    var x := 10 * (a - 48) + (b - 48);
    assert [a, b, c][1..] == [b, c] && [b, c][1..] == [c] && [c][1..] == [];
    assert DecimalFrom([c], x) == DecimalFrom([], 10 * x + (c - 48));
    assert DecimalFrom([b, c], a - 48) == DecimalFrom([c], x);
    assert DecimalFrom([a, b, c], 0) == DecimalFrom([b, c], a - 48);
  }

  /** Three digits are a decimal number, refused above 255. */
  lemma DigitEscapes(a: Byte, b: Byte, c: Byte, rest: Bytes, line: int)
    requires IsDigit(a) && IsDigit(b) && IsDigit(c)
    ensures var n := 100 * (a - 48) + 10 * (b - 48) + (c - 48);
      Scan([BACKSLASH, a, b, c, QUOTE] + rest, QUOTE, line) == if n <= 255 then Text([n], rest, line) else Failed(EscapeTooLarge)
  {
    var t := [BACKSLASH, a, b, c, QUOTE] + rest;
    var u, close := t[1..], [QUOTE] + rest;
    assert u[..3] == [a, b, c] && u[3..] == close && close[1..] == rest;
    assert u[2..][1..] == u[3..] && u[1..][1..] == u[2..];
    assert u[0] == a && u[1..][0] == b && u[2..][0] == c;
    assert DigitCount(u[3..], 0) == 0;
    assert DigitCount(u[2..], 1) == 1;
    assert DigitCount(u[1..], 2) == 2;
    assert DigitCount(u, 3) == 3;
    ThreeDigits(a, b, c);
    assert Scan(close, QUOTE, line) == Text([], rest, line);
  }

  /** An escaped line end is one line end, and a carriage return and a line feed together, in either order, are
      one. */
  lemma LineEscapes(a: Byte, b: Byte, rest: Bytes, line: int)
    requires (a == 13 && b == 10) || (a == 10 && b == 13)
    requires line + 1 < MAX_INT
    ensures Scan([BACKSLASH, a, QUOTE] + rest, QUOTE, line) == Text([10], rest, line + 1)
    ensures Scan([BACKSLASH, a, b, QUOTE] + rest, QUOTE, line) == Text([10], rest, line + 1)
    ensures Scan([BACKSLASH, a, a, QUOTE] + rest, QUOTE, line) == Failed(UnfinishedString)
  {
    var close := [QUOTE] + rest;
    assert close[1..] == rest;
    assert Scan(close, QUOTE, line + 1) == Text([], rest, line + 1);
    assert ([BACKSLASH, a, QUOTE] + rest)[1..][1..] == close;
    assert ([BACKSLASH, a, b, QUOTE] + rest)[1..][2..] == close;
    var twice := ([BACKSLASH, a, a, QUOTE] + rest)[1..];
    assert twice[1..][0] == a;
    assert Scan(twice[1..], QUOTE, line + 1) == Failed(UnfinishedString);
  }

  /** What %q makes of each byte. */
  lemma PrintedByte(c: Byte)
    ensures Quoted([c]) ==
      if c == '"' as int then ['"' as int, '\\' as int, '"' as int, '"' as int]
      else if c == '\\' as int then ['"' as int, '\\' as int, '\\' as int, '"' as int]
      else if c == 10 then ['"' as int, '\\' as int, 10, '"' as int]
      else if c == 13 then ['"' as int, '\\' as int, 'r' as int, '"' as int]
      else if c == 0 then ['"' as int, '\\' as int, '0' as int, '0' as int, '0' as int, '"' as int]
      else ['"' as int, c, '"' as int]
  {
    assert [c][1..] == [] && QuotedBytes([]) == [];
    assert QuotedBytes([c]) == QuotedByte(c);
  }

  // ----- the lexer -----

  datatype Option<T> = None | Some(value: T)
  datatype Result = Str(s: Bytes) | Err(e: Error)

  predicate Agrees(r: Result, q: Scanned, rest: Bytes, line: int) {
    match q
    case Text(s, t, l) => r == Str(s) && rest == t && line == l
    case Failed(e) => r == Err(e)
  }

  function SaveAll(done: Bytes, q: Scanned): (r: Scanned) {
    if q.Text? then q.(s := done + q.s) else q
  }

  lemma SaveNone(q: Scanned)
    ensures SaveAll([], q) == q
  {
    if q.Text? { assert [] + q.s == q.s; }
  }

  lemma SaveAllSave(done: Bytes, c: Byte, q: Scanned)
    ensures SaveAll(done, Save(c, q)) == SaveAll(done + [c], q)
  {
    if q.Text? { assert done + ([c] + q.s) == done + [c] + q.s; }
  }

  /** What an escape adds to the string and leaves to be read. */
  predicate Escaped(u: Bytes, line: int, d: Bytes, rest: Bytes, line': int, e: Option<Error>) {
    if u == [] then d == [] && rest == [] && line' == line && e == None
    else if Escape(u[0]) >= 0 then d == [Escape(u[0])] && rest == u[1..] && line' == line && e == None
    else if IsNewline(u[0]) then
      if line + 1 >= MAX_INT then e == Some(TooManyLines)
      else d == [NEWLINE] && rest == SkipNewline(u) && line' == line + 1 && e == None
    else if IsDigit(u[0]) then
      var n := DigitCount(u, 3);
      var c := DecimalFrom(u[..n], 0);
      if c < 0 || c > 255 then e == Some(EscapeTooLarge)
      else d == [c] && rest == u[n..] && line' == line && e == None
    else d == [u[0]] && rest == u[1..] && line' == line && e == None
  }

  lemma ScanStep(t: Bytes, del: Byte, line: int, done: Bytes)
    ensures t == [] ==> SaveAll(done, Scan(t, del, line)) == Failed(UnfinishedAtEnd)
    ensures t != [] && t[0] == del ==> SaveAll(done, Scan(t, del, line)) == Text(done, t[1..], line)
    ensures t != [] && t[0] != del && IsNewline(t[0]) ==> SaveAll(done, Scan(t, del, line)) == Failed(UnfinishedString)
    ensures t != [] && t[0] != del && !IsNewline(t[0]) && t[0] != BACKSLASH ==>
      SaveAll(done, Scan(t, del, line)) == SaveAll(done + [t[0]], Scan(t[1..], del, line))
  {
    if t != [] {
      SaveAllSave(done, t[0], Scan(t[1..], del, line));
      assert done + [] == done;
    }
  }

  lemma ScanEscape(t: Bytes, del: Byte, line: int, done: Bytes, d: Bytes, rest: Bytes, line': int, e: Option<Error>)
    requires t != [] && t[0] == BACKSLASH && t[0] != del && Escaped(t[1..], line, d, rest, line', e)
    ensures SaveAll(done, Scan(t, del, line)) ==
      if e.Some? then Failed(e.value) else SaveAll(done + d, Scan(rest, del, line'))
  {
    if e.None? && t[1..] != [] {
      SaveAllSave(done, d[0], Scan(rest, del, line'));
      assert d == [d[0]];
    }
  }

  lemma {:induction false} DecimalAppend(t: Bytes, d: Byte, c: int)
    ensures DecimalFrom(t + [d], c) == 10 * DecimalFrom(t, c) + (d - ZERO)
    decreases t
  {
    if t == [] {
      assert [d][1..] == [];
    } else {
      assert (t + [d])[1..] == t[1..] + [d];
      DecimalAppend(t[1..], d, 10 * c + (t[0] - ZERO));
    }
  }

  lemma DecimalNext(u: Bytes, i: nat)
    requires i < |u|
    ensures DecimalFrom(u[..i + 1], 0) == 10 * DecimalFrom(u[..i], 0) + (u[i] - ZERO)
  {
    assert u[..i + 1] == u[..i] + [u[i]];
    DecimalAppend(u[..i], u[i], 0);
  }

  class LexState {
    const z: Stream
    var current: int
    var linenumber: int
    var buff: Bytes

    /** The bytes from the current one on. */
    ghost function Ahead(): Bytes
      requires Valid()
      reads this, z
    {
      if current == EOZ then [] else [current] + z.Pending()
    }

    /** Once the end has been read the stream must not be asked again. */
    ghost predicate Valid()
      reads this, z
    {
      -1 <= current < 256 && (current != EOZ ==> z.Valid())
    }

    constructor (chunks: seq<Bytes>)
      ensures Valid() && fresh(z) && Ahead() == Flat(chunks) && linenumber == 1 && buff == []
    {
      z := new Stream(chunks);
      linenumber, buff := 1, [];
      new;
      current := z.Getc();
    }

    method Next()
      requires Valid() && current != EOZ
      modifies this`current, z
      ensures Valid() && Ahead() == old(Ahead())[1..]
    {
      current := z.Getc();
    }

    method SaveByte(c: Byte)
      modifies this`buff
      ensures buff == old(buff) + [c]
    {
      buff := buff + [c];
    }

    method SaveAndNext()
      requires Valid() && current != EOZ
      modifies this`buff, this`current, z
      ensures Valid() && Ahead() == old(Ahead())[1..] && buff == old(buff) + [old(current)]
    {
      SaveByte(current);
      Next();
    }

    method IncLineNumber() returns (ok: bool)
      requires Valid() && current != EOZ && IsNewline(current)
      modifies this`current, this`linenumber, z
      ensures Valid() && Ahead() == SkipNewline(old(Ahead()))
      ensures linenumber == old(linenumber) + 1 && (ok <==> linenumber < MAX_INT)
    {
      var was := current;
      Next();
      if current != EOZ && IsNewline(current) && current != was {
        Next();
      }
      linenumber := linenumber + 1;
      return linenumber < MAX_INT;
    }

    /** Up to three digits; 999 at most. */
    method ReadDecimal() returns (c: int)
      requires Valid() && current != EOZ && IsDigit(current)
      modifies this`current, z
      ensures Valid()
      ensures var u := old(Ahead());
        var n := DigitCount(u, 3);
        c == DecimalFrom(u[..n], 0) && c >= 0 && Ahead() == u[n..]
    {
      ghost var u := Ahead();
      var i := 0;
      c := 0;
      while i < 3 && current != EOZ && IsDigit(current)
        invariant 0 <= i <= 3 && i <= |u| && Valid() && c >= 0
        invariant Ahead() == u[i..] && c == DecimalFrom(u[..i], 0)
        invariant DigitCount(u, 3) == i + DigitCount(u[i..], 3 - i)
      {
        DecimalNext(u, i);
        c := 10 * c + (current - ZERO);
        Next();
        assert u[i..][1..] == u[i + 1..];
        i := i + 1;
      }
    }

    /** What follows a backslash. */
    method ReadEscape() returns (r: Option<Error>)
      requires Valid()
      modifies this, z
      ensures Valid() && old(buff) <= buff
      ensures Escaped(old(Ahead()), old(linenumber), buff[|old(buff)|..], Ahead(), linenumber, r)
      ensures |Ahead()| <= |old(Ahead())|
    {
      ghost var u := Ahead();
      if current == EOZ { return None; }
      var c := Escape(current);
      if c >= 0 {
        SaveByte(c);
        Next();
      } else if IsNewline(current) {
        SaveByte(NEWLINE);
        var ok := IncLineNumber();
        if !ok { return Some(TooManyLines); }
      } else if !IsDigit(current) {
        SaveAndNext();
      } else {
        c := ReadDecimal();
        if c > 255 { return Some(EscapeTooLarge); }
        SaveByte(c);
      }
      return None;
    }

    /** One byte or one escape of the string. */
    method ReadItem(del: Byte) returns (r: Option<Error>)
      requires Valid() && current != del && buff != [] && buff[0] == del
      modifies this, z
      ensures Valid() && buff != [] && buff[0] == del
      ensures SaveAll(old(buff)[1..], Scan(old(Ahead()), del, old(linenumber)))
        == if r.Some? then Failed(r.value) else SaveAll(buff[1..], Scan(Ahead(), del, linenumber))
      ensures r.None? ==> |Ahead()| < |old(Ahead())|
    {
      hide Scan, Escaped, SaveAll, Escape;
      ghost var t, line, done := Ahead(), linenumber, buff;
      ScanStep(t, del, line, done[1..]);
      if current == EOZ {
        return Some(UnfinishedAtEnd);
      } else if IsNewline(current) {
        return Some(UnfinishedString);
      } else if current == BACKSLASH {
        Next();
        r := ReadEscape();
        ScanEscape(t, del, line, done[1..], buff[|done|..], Ahead(), linenumber, r);
        assert buff[1..] == done[1..] + buff[|done|..];
      } else {
        SaveAndNext();
        assert buff[1..] == done[1..] + [t[0]];
        return None;
      }
    }

    method ReadString(del: Byte) returns (r: Result)
      requires Valid() && current == del && buff == []
      modifies this, z
      ensures Valid()
      ensures Agrees(r, Scan(old(Ahead())[1..], del, old(linenumber)), Ahead(), linenumber)
    {
      hide Scan, SaveAll;
      ghost var all := Scan(Ahead()[1..], del, linenumber);
      SaveAndNext();
      SaveNone(Scan(Ahead(), del, linenumber));
      assert buff[1..] == [];
      while current != del
        invariant Valid() && buff != [] && buff[0] == del
        invariant all == SaveAll(buff[1..], Scan(Ahead(), del, linenumber))
        decreases |Ahead()|
      {
        var e := ReadItem(del);
        if e.Some? { return Err(e.value); }
      }
      ScanStep(Ahead(), del, linenumber, buff[1..]);
      ghost var s := buff[1..];
      SaveAndNext();
      assert buff[1..|buff| - 1] == s;
      return Str(buff[1..|buff| - 1]);
    }
  }

  /** Printing with %q and reading the literal back through a reader that hands out any chunks. */
  method PrintAndRead(s: Bytes, rest: Bytes, chunks: seq<Bytes>) returns (r: Result)
    requires NoneEmpty(chunks) && Concat(chunks) == Quoted(s) + rest
    ensures r == if 1 + Newlines(s) < MAX_INT then Str(s) else Err(TooManyLines)
  {
    hide Scan;
    FlatConcat(chunks);
    var ls := new LexState(chunks);
    ghost var t := QuotedBytes(s) + ([QUOTE] + rest);
    assert Quoted(s) + rest == [QUOTE] + t;
    assert ls.Ahead()[1..] == t;
    RoundTrip(s, rest, 1);
    r := ls.ReadString(QUOTE);
  }
}
