/** The streaming part of MD5 over an arbitrary block function: buffering, counting and padding. */
module Md5 {
  import opened ByteStrings

  /** The four state words A, B, C, D. */
  type State = s: seq<Word> | |s| == 4 witness [0, 0, 0, 0]

  const INIT: State := [0x67452301, 0xefcdab89, 0x98badcfe, 0x10325476]
  const TWO29: int := 0x2000_0000
  const TWO32: int := 0x1_0000_0000
  const INT_MAX: int := 0x7fff_ffff

  // ----- reference definition: RFC 1321, sections 3.1 to 3.5 -----

  /** The block function over all whole blocks. */
  function Fold(f: (State, Bytes) -> State, s: State, b: Bytes): (r: State)
    decreases |b|
  {
    if |b| < 64 then s else Fold(f, f(s, b[..64]), b[64..])
  }

  function Zeros(n: nat): (r: Bytes)
    ensures |r| == n && forall i :: 0 <= i < n ==> r[i] == 0
  {
    if n == 0 then [] else [0] + Zeros(n - 1)
  }

  /** Section 3.1: one bit 1, then as few bits 0 as make the length 56 bytes modulo 64. */
  function Padding(n: nat): (r: Bytes)
    ensures 1 <= |r| <= 64 && (n + |r|) % 64 == 56
  {
    [0x80] + Zeros((55 - n) % 64)
  }

  /** Section 3.2: the length in bits, modulo 2^64, low word first. */
  function LengthBytes(bits: nat): (r: Bytes)
    ensures |r| == 8
  {
    Little(bits % TWO32, 4) + Little(bits / TWO32 % TWO32, 4)
  }

  function Padded(msg: Bytes): (r: Bytes)
    ensures |r| % 64 == 0
  {
    ModIs(|msg| + |Padding(|msg|)| + 8, (|msg| + |Padding(|msg|)|) / 64 + 1, 0);
    msg + Padding(|msg|) + LengthBytes(8 * |msg|)
  }

  /** The message, one bit 1, bits 0, and in the last eight bytes the length in bits modulo 2^64. */
  lemma PaddedIs(msg: Bytes)
    ensures var r, n := Padded(msg), |msg|;
      && |r| % 64 == 0 && n + 9 <= |r| < n + 73 && r[..n] == msg && r[n] == 0x80
      && (forall i :: n < i < |r| - 8 ==> r[i] == 0)
      && FromLittle(r[|r| - 8..]) == 8 * n % (TWO32 * TWO32)
  {
    var r, n, pad := Padded(msg), |msg|, Padding(|msg|);
    PaddingIs(n);
    LengthBack(8 * n);
    assert r[|r| - 8..] == LengthBytes(8 * n);
    assert forall i :: 0 <= i < |pad| ==> r[n + i] == pad[i];
    forall i | n < i < |r| - 8 ensures r[i] == 0 { assert r[i] == pad[i - n]; }
  }

  function Output(s: State): (r: Bytes)
    ensures |r| == 16
  {
    Little(s[0], 4) + Little(s[1], 4) + Little(s[2], 4) + Little(s[3], 4)
  }

  /** Section 3.3: the words A to D start as these bytes, each with the lowest one first; a digest has its words
      in this order too. */
  lemma InitialWords()
    ensures Output(INIT) ==
      [0x01, 0x23, 0x45, 0x67, 0x89, 0xab, 0xcd, 0xef, 0xfe, 0xdc, 0xba, 0x98, 0x76, 0x54, 0x32, 0x10]
  {
    hide Little;
    LittleWord(0x01, 0x23, 0x45, 0x67);
    LittleWord(0x89, 0xab, 0xcd, 0xef);
    LittleWord(0xfe, 0xdc, 0xba, 0x98);
    LittleWord(0x76, 0x54, 0x32, 0x10);
  }

  lemma LittleWord(a: Byte, b: Byte, c: Byte, d: Byte)
    ensures Little(a + 256 * b + 65536 * c + 16777216 * d, 4) == [a, b, c, d]
  {
    var x := a + 256 * b + 65536 * c + 16777216 * d;
    assert x / 256 == b + 256 * c + 65536 * d && x % 256 == a;
    assert x / 256 / 256 == c + 256 * d && x / 256 % 256 == b;
    assert x / 256 / 256 / 256 == d && x / 256 / 256 % 256 == c;
    assert Little(d, 1) == [d];
    assert Little(c + 256 * d, 2) == [c] + Little(d, 1);
    assert Little(b + 256 * c + 65536 * d, 3) == [b] + Little(c + 256 * d, 2);
  }

  function Rfc1321(f: (State, Bytes) -> State, msg: Bytes): (r: Bytes) {
    Output(Fold(f, INIT, Padded(msg)))
  }

  /** The bytes after the last whole block of a message of `n' bytes. */
  function Over(n: nat): (r: nat)
    ensures r < 64 && r <= n
  {
    n % 64
  }

  lemma PaddingIs(n: nat)
    ensures var r := Padding(n);
      && r[0] == 0x80 && (forall i :: 1 <= i < |r| ==> r[i] == 0)
      && Over(n + |r|) == 56 && forall len :: n < len < n + |r| ==> Over(len) != 56
  {
    var r := Padding(n);
    forall len | n < len < n + |r| ensures Over(len) != 56 {
      assert n + |r| == 64 * ((n + |r|) / 64) + 56;
      assert len == 64 * (len / 64) + Over(len);
    }
  }

  /** Read with the lowest byte first, the eight bytes are the length modulo 2^64. */
  lemma LengthBack(bits: nat)
    ensures FromLittle(LengthBytes(bits)) == bits % (TWO32 * TWO32)
  {
    var lo, hi := bits % TWO32, bits / TWO32 % TWO32;
    Pow256Four();
    LittleBack(lo, 4);
    LittleBack(hi, 4);
    FromLittleAppend(Little(lo, 4), Little(hi, 4));
    LowAndHigh(bits, bits / TWO32, bits / TWO32 / TWO32, lo, hi);
  }

  lemma LowAndHigh(bits: nat, low: nat, high: nat, lo: nat, hi: nat)
    requires bits == TWO32 * low + lo && low == TWO32 * high + hi && lo < TWO32 && hi < TWO32
    ensures bits % (TWO32 * TWO32) == lo + TWO32 * hi
  {
  }

  /** Whole blocks. */
  predicate Aligned(b: Bytes) { Over(|b|) == 0 }

  lemma ModIs(x: int, q: int, r: int)
    requires x == 64 * q + r && 0 <= r < 64
    ensures x % 64 == r && x / 64 == q
  {
  }

  lemma OverIs(n: nat, q: nat, r: nat)
    requires n == 64 * q + r && r < 64
    ensures Over(n) == r
  {
    ModIs(n, q, r);
  }

  lemma BlocksOf(n: nat) returns (q: nat)
    ensures n == 64 * q + Over(n)
  {
    q := n / 64;
  }

  lemma IsAligned(b: Bytes, q: nat)
    requires |b| == 64 * q
    ensures Aligned(b)
  {
    OverIs(|b|, q, 0);
  }

  lemma {:induction false} FoldAppend(f: (State, Bytes) -> State, s: State, a: Bytes, b: Bytes)
    requires Aligned(a)
    ensures Fold(f, s, a + b) == Fold(f, Fold(f, s, a), b)
    decreases |a|
  {
    if |a| == 0 {
      assert a + b == b;
    } else {
      assert (a + b)[..64] == a[..64] && (a + b)[64..] == a[64..] + b;
      FoldAppend(f, f(s, a[..64]), a[64..], b);
    }
  }

  lemma OneBlock(f: (State, Bytes) -> State, s: State, b: Bytes)
    requires |b| == 64
    ensures Fold(f, s, b) == f(s, b)
  {
    assert b[..64] == b && b[64..] == [];
  }

  /** The last bytes, short of a block, do not count. */
  lemma FoldTail(f: (State, Bytes) -> State, s: State, a: Bytes, b: Bytes)
    requires Aligned(a) && |b| < 64
    ensures Fold(f, s, a + b) == Fold(f, s, a)
  {
    FoldAppend(f, s, a, b);
  }

  // ----- the bit count -----

  /** The low word of the count after `n' more bytes. */
  function LowAfter(lo: Word, n: nat): Word { (lo + 8 * n) % TWO32 }

  /** The width of size_t. */
  datatype SizeT = Bits32 | Bits64

  function ShiftedLeft3(w: SizeT, n: nat): nat {
    8 * n % (if w.Bits32? then TWO32 else TWO32 * TWO32)
  }

  /** The high word: it is raised when the new low word is below the shifted number of bytes. */
  function HighAfter(w: SizeT, lo: Word, hi: Word, n: nat): Word {
    (hi + (if LowAfter(lo, n) < ShiftedLeft3(w, n) then 1 else 0) + n / TWO29) % TWO32
  }

  /** Where size_t is wider than 32 bits, a piece of 2^29 bytes or more counts as a carry even without one. */
  predicate Miscounts(w: SizeT, lo: Word, n: nat) {
    w == Bits64 && n >= TWO29 && lo + 8 * n % TWO32 < TWO32
  }

  lemma Carry(lo: Word, n: nat)
    ensures (lo + 8 * n) / TWO32 == n / TWO29 + (if lo + 8 * n % TWO32 >= TWO32 then 1 else 0)
    ensures LowAfter(lo, n) == lo + 8 * n % TWO32 - (if lo + 8 * n % TWO32 >= TWO32 then TWO32 else 0)
  {
    var q, r := n / TWO29, n % TWO29;
    assert 8 * n == q * TWO32 + 8 * r && 0 <= 8 * r < TWO32;
    assert 8 * n % TWO32 == 8 * r;
  }

  /** The count of a piece is right exactly when it is not miscounted; then it is one too high. */
  lemma HighExact(w: SizeT, lo: Word, hi: Word, n: nat)
    requires n <= INT_MAX
    ensures HighAfter(w, lo, hi, n) == (hi + (lo + 8 * n) / TWO32 + (if Miscounts(w, lo, n) then 1 else 0)) % TWO32
    ensures HighAfter(w, lo, hi, n) == (hi + (lo + 8 * n) / TWO32) % TWO32 <==> !Miscounts(w, lo, n)
  {
    Carry(lo, n);
    assert 8 * n < TWO32 * TWO32;
    if n < TWO29 { assert 8 * n % TWO32 == 8 * n; }
  }

  /** The first piece of 2^29 bytes of a message: 2^33 bits are counted for 2^32. */
  lemma MiscountedPiece()
    ensures LowAfter(0, TWO29) == 0 && HighAfter(Bits64, 0, 0, TWO29) == 2
    ensures 8 * TWO29 / TWO32 == 1
  {
  }

  /** The low word of the number of bits of `n' bytes. */
  function Low(n: nat): Word { 8 * n % TWO32 }

  /** The number of bytes in the buffer, from the low word of the count. */
  function Index(lo: Word): nat { lo / 8 % 64 }

  lemma ByteIndex(n: nat)
    ensures Index(Low(n)) == Over(n)
  {
    var lo := Low(n);
    var q := 8 * n / TWO32;
    assert lo == 8 * (n - q * TWO29);
    assert lo / 8 == n - q * TWO29;
    ModIs(lo / 8, n / 64 - q * (TWO29 / 64), n % 64);
  }

  lemma LowShifted(w: SizeT, lo: Word, k: nat)
    requires k <= INT_MAX
    ensures (lo + ShiftedLeft3(w, k)) % TWO32 == LowAfter(lo, k)
  {
    assert 8 * k < TWO32 * TWO32;
    var r := 8 * k / TWO32;
    assert (lo + 8 * k - r * TWO32) % TWO32 == (lo + 8 * k) % TWO32;
  }

  lemma LowTotal(n: nat, k: nat)
    ensures LowAfter(Low(n), k) == Low(n + k)
  {
    var lo := Low(n);
    var q := 8 * n / TWO32;
    assert 8 * (n + k) == q * TWO32 + lo + 8 * k;
  }

  lemma AlignedAppend(a: Bytes, b: Bytes)
    requires Aligned(a) && Aligned(b)
    ensures Aligned(a + b)
  {
    hide Over;
    var p := BlocksOf(|a|);
    var q := BlocksOf(|b|);
    IsAligned(a + b, p + q);
  }

  lemma FoldThree(f: (State, Bytes) -> State, whole: Bytes, a: Bytes, b: Bytes, c: Bytes)
    requires Aligned(whole) && Aligned(a) && Aligned(b) && |c| < 64
    ensures Fold(f, Fold(f, Fold(f, INIT, whole), a), b) == Fold(f, INIT, whole + a + b + c)
  {
    hide Fold, Aligned;
    AlignedAppend(whole, a);
    AlignedAppend(whole + a, b);
    FoldAppend(f, INIT, whole, a);
    FoldAppend(f, INIT, whole + a, b);
    FoldTail(f, INIT, whole + a + b, c);
  }

  /** The buffered part completed by the input, and the whole blocks after it. */
  lemma Blocks(f: (State, Bytes) -> State, msg: Bytes, input: Bytes, partLen: nat, len: nat)
    requires partLen == 64 - Over(|msg|) && partLen <= |input| && len == (|input| - partLen) / 64
    ensures var part := msg[|msg| - Over(|msg|)..];
      Fold(f, Fold(f, Fold(f, INIT, msg), part + input[..partLen]), input[partLen..partLen + 64 * len])
      == Fold(f, INIT, msg + input)
  {
    hide Fold, Aligned, Over;
    var r := Over(|msg|);
    var q := BlocksOf(|msg|);
    var whole, part := msg[..|msg| - r], msg[|msg| - r..];
    var i := partLen + 64 * len;
    assert i <= |input| < i + 64;
    var a, b, c := part + input[..partLen], input[partLen..i], input[i..];
    assert msg == whole + part;
    IsAligned(whole, q);
    IsAligned(a, 1);
    IsAligned(b, len);
    ThreeParts(f, whole, part, a, b, c);
    SameBytes(whole, part, input, partLen, i);
  }

  lemma ThreeParts(f: (State, Bytes) -> State, whole: Bytes, part: Bytes, a: Bytes, b: Bytes, c: Bytes)
    requires Aligned(whole) && Aligned(a) && Aligned(b) && |part| < 64 && |c| < 64
    ensures Fold(f, Fold(f, Fold(f, INIT, whole + part), a), b) == Fold(f, INIT, whole + a + b + c)
  {
    hide Fold, Aligned;
    FoldTail(f, INIT, whole, part);
    FoldThree(f, whole, a, b, c);
  }

  lemma SameBytes(whole: Bytes, part: Bytes, input: Bytes, j: nat, i: nat)
    requires j <= i <= |input|
    ensures whole + part + input == whole + (part + input[..j]) + input[j..i] + input[i..]
  {
    assert input == input[..j] + (input[j..i] + input[i..]);
  }

  lemma NoBlock(f: (State, Bytes) -> State, msg: Bytes, input: Bytes)
    requires Over(|msg|) + |input| < 64
    ensures Fold(f, INIT, msg + input) == Fold(f, INIT, msg)
  {
    hide Fold, Aligned, Over;
    var r := Over(|msg|);
    var q := BlocksOf(|msg|);
    var whole, part := msg[..|msg| - r], msg[|msg| - r..];
    IsAligned(whole, q);
    assert msg == whole + part && msg + input == whole + (part + input);
    FoldTail(f, INIT, whole, part);
    FoldTail(f, INIT, whole, part + input);
  }

  /** After the whole blocks: `byteIndex' bytes of the message are buffered, and the input from `i' on is to
      be added to them. */
  predicate Left(msg: Bytes, input: Bytes, byteIndex: nat, i: nat) {
    && i <= |input| && byteIndex + |input| - i < 64 && byteIndex <= |msg|
    && if i == 0 then byteIndex == Over(|msg|) else byteIndex == 0 && Over(|msg| + i) == 0
  }

  lemma BlocksLeft(msg: Bytes, input: Bytes, partLen: nat, len: nat)
    requires partLen == 64 - Over(|msg|) && partLen <= |input| && len == (|input| - partLen) / 64
    ensures Left(msg, input, 0, partLen + 64 * len)
  {
    hide Over;
    var q := BlocksOf(|msg|);
    OverIs(|msg| + partLen + 64 * len, q + 1 + len, 0);
  }

  /** The bytes in the buffer are then those after the last whole block. */
  lemma Tail(msg: Bytes, input: Bytes, byteIndex: nat, i: nat)
    requires Left(msg, input, byteIndex, i)
    ensures var all := msg + input;
      Over(|all|) == byteIndex + |input| - i &&
      all[|all| - Over(|all|)..] == msg[|msg| - byteIndex..] + input[i..]
  {
    var all, r := msg + input, byteIndex + |input| - i;
    hide Over;
    var q := BlocksOf(if i == 0 then |msg| else |msg| + i);
    OverIs(|all|, q, r);
  }

  lemma SliceNext(input: Bytes, from: nat, k: nat)
    requires from <= k < |input|
    ensures input[from..k + 1] == input[from..k] + [input[k]]
  {
    var a, b := input[from..k + 1], input[from..k] + [input[k]];
    assert |a| == |b| && forall i :: 0 <= i < |a| ==> a[i] == b[i];
  }

  lemma Extend(input: Bytes, at: nat, i: nat)
    requires at <= i && i + 64 <= |input|
    ensures input[at..i + 64] == input[at..i] + input[i..i + 64]
  {
  }

  // ----- the streaming context -----

  class Context {
    const transform: (State, Bytes) -> State
    const sizeT: SizeT
    var state: State
    var count0: Word
    var count1: Word
    const buffer: array<Byte>

    /** The context after the message `msg', with `hi' as the high word of the count. */
    ghost predicate Represents(msg: Bytes, hi: Word)
      reads this, buffer
    {
      && buffer.Length == 64
      && state == Fold(transform, INIT, msg)
      && count0 == Low(|msg|) && count1 == hi
      && buffer[..Over(|msg|)] == msg[|msg| - Over(|msg|)..]
    }

    constructor (transform: (State, Bytes) -> State, sizeT: SizeT)
      ensures this.transform == transform && this.sizeT == sizeT && fresh(buffer)
      ensures Represents([], 0)
    {
      this.transform, this.sizeT := transform, sizeT;
      buffer := new Byte[64];
      count0, count1 := 0, 0;
      state := INIT;
    }

    /** Copies input[from..] into the buffer from `at' on. */
    method CopyIn(at: nat, input: Bytes, from: nat)
      requires from <= |input| && at + |input| - from <= buffer.Length
      modifies buffer
      ensures buffer[..at + |input| - from] == old(buffer[..at]) + input[from..]
    {
      var k := from;
      while k < |input|
        invariant from <= k <= |input|
        invariant buffer[..at + k - from] == old(buffer[..at]) + input[from..k]
      {
        buffer[at + k - from] := input[k];
        SliceNext(input, from, k);
        k := k + 1;
      }
    }

    /** The block function over `repeat' blocks of `input', from `at' on. */
    method Transform(input: Bytes, at: nat, repeat: nat)
      requires at + 64 * repeat <= |input|
      modifies this`state
      ensures state == Fold(transform, old(state), input[at..at + 64 * repeat])
    {
      var i, n := at, repeat;
      while n > 0
        invariant 0 <= n <= repeat && i == at + 64 * (repeat - n)
        invariant state == Fold(transform, old(state), input[at..i])
      {
        FoldAppend(transform, old(state), input[at..i], input[i..i + 64]);
        OneBlock(transform, state, input[i..i + 64]);
        Extend(input, at, i);
        state := transform(state, input[i..i + 64]);
        i := i + 64;
        n := n - 1;
      }
    }

    method Count(n: nat)
      requires n <= INT_MAX
      modifies this`count0, this`count1
      ensures count0 == LowAfter(old(count0), n)
      ensures count1 == HighAfter(sizeT, old(count0), old(count1), n)
    {
      var shifted := ShiftedLeft3(sizeT, n);
      LowShifted(sizeT, count0, n);
      count0 := (count0 + shifted) % TWO32;
      if count0 < shifted { count1 := (count1 + 1) % TWO32; }
      count1 := (count1 + n / TWO29) % TWO32;
    }

    /** Adds a piece to the message `msg'. */
    method Update(input: Bytes, ghost msg: Bytes)
      requires |input| <= INT_MAX && Represents(msg, count1)
      modifies this, buffer
      ensures Represents(msg + input, HighAfter(sizeT, old(count0), old(count1), |input|))
    {
      hide Fold, HighAfter, LowAfter, Low, Over, Index;
      var byteIndex := Index(count0);
      ByteIndex(|msg|);
      LowTotal(|msg|, |input|);
      Count(|input|);
      var partLen := 64 - byteIndex;
      var i := 0;
      if |input| >= partLen {
        CopyIn(byteIndex, input[..partLen], 0);
        assert buffer[..] == msg[|msg| - byteIndex..] + input[..partLen];
        Transform(buffer[..], 0, 1);
        assert buffer[..][0..64] == buffer[..];
        var len := (|input| - partLen) / 64;
        Transform(input, partLen, len);
        i := partLen + 64 * len;
        byteIndex := 0;
        Blocks(transform, msg, input, partLen, len);
        BlocksLeft(msg, input, partLen, len);
      } else {
        NoBlock(transform, msg, input);
      }
      assert state == Fold(transform, INIT, msg + input);
      assert buffer[..byteIndex] == msg[|msg| - byteIndex..];
      Tail(msg, input, byteIndex, i);
      CopyIn(byteIndex, input, i);
    }

    /** Pads, adds the count, and clears the context. */
    method Final(ghost msg: Bytes) returns (digest: Bytes)
      requires Represents(msg, count1)
      modifies this, buffer
      ensures digest == Output(Fold(transform, INIT, msg + Padding(|msg|) + Counted(old(count0), old(count1))))
      ensures state == [0, 0, 0, 0] && count0 == count1 == 0 && buffer[..] == Zeros(buffer.Length)
    {
      hide Fold, HighAfter, LowAfter, Low, Over, Index;
      var byteIndex := Index(count0);
      ByteIndex(|msg|);
      var finalBlockLength := (if byteIndex < 56 then 56 else 120) - byteIndex;
      var finalBlock := [0x80] + Zeros(63);
      var bits := Counted(count0, count1);
      PaddingBlock(|msg|, finalBlockLength);
      Update(finalBlock[..finalBlockLength], msg);
      Update(bits, msg + Padding(|msg|));
      digest := Output(state);
      state, count0, count1 := [0, 0, 0, 0], 0, 0;
      forall k | 0 <= k < buffer.Length { buffer[k] := 0; }
      assert buffer[..] == Zeros(buffer.Length);
    }
  }

  // ----- whole messages -----

  /** The two words of the count, low word first. */
  function Counted(lo: Word, hi: Word): (r: Bytes)
    ensures |r| == 8
  {
    Little(lo, 4) + Little(hi, 4)
  }

  /** What is taken of the block 80 00 00 ... 00 is the padding. */
  lemma PaddingBlock(n: nat, k: nat)
    requires k == (if Over(n) < 56 then 56 else 120) - Over(n)
    ensures ([0x80] + Zeros(63))[..k] == Padding(n)
  {
    var z := Zeros(63);
    assert (55 - n) % 64 == k - 1;
    assert ([0x80] + z)[..k] == [0x80] + z[..k - 1];
    assert z[..k - 1] == Zeros(k - 1);
  }

  /** The high word of the count after all the pieces of a message. */
  function HighOf(w: SizeT, lo: Word, hi: Word, pieces: seq<Bytes>): Word
    decreases |pieces|
  {
    if pieces == [] then hi
    else HighOf(w, LowAfter(lo, |pieces[0]|), HighAfter(w, lo, hi, |pieces[0]|), pieces[1..])
  }

  /** How many pieces are miscounted. */
  function Miscounted(w: SizeT, lo: Word, pieces: seq<Bytes>): (r: nat)
    ensures r <= |pieces|
    decreases |pieces|
  {
    if pieces == [] then 0
    else (if Miscounts(w, lo, |pieces[0]|) then 1 else 0) + Miscounted(w, LowAfter(lo, |pieces[0]|), pieces[1..])
  }

  predicate Indexable(pieces: seq<Bytes>) {
    forall i :: 0 <= i < |pieces| ==> |pieces[i]| <= INT_MAX
  }

  /** Every miscounted piece makes the number of bits 2^32 too high. */
  lemma {:induction false} HighTotal(w: SizeT, n: nat, lo: Word, hi: Word, bad: nat, pieces: seq<Bytes>)
    requires Indexable(pieces)
    requires lo == Low(n) && hi == (8 * n / TWO32 + bad) % TWO32
    ensures HighOf(w, lo, hi, pieces)
      == (8 * (n + |Concat(pieces)|) / TWO32 + bad + Miscounted(w, lo, pieces)) % TWO32
    decreases |pieces|
  {
    if pieces != [] {
      hide HighAfter, LowAfter, Miscounts;
      var k := |pieces[0]|;
      LowTotal(n, k);
      var m := if Miscounts(w, lo, k) then 1 else 0;
      HighPiece(w, n, lo, hi, bad, k);
      HighTotal(w, n + k, LowAfter(lo, k), HighAfter(w, lo, hi, k), bad + m, pieces[1..]);
      assert |Concat(pieces)| == k + |Concat(pieces[1..])|;
    }
  }

  lemma HighPiece(w: SizeT, n: nat, lo: Word, hi: Word, bad: nat, k: nat)
    requires lo == Low(n) && hi == (8 * n / TWO32 + bad) % TWO32 && k <= INT_MAX
    ensures HighAfter(w, lo, hi, k) == (8 * (n + k) / TWO32 + bad + (if Miscounts(w, lo, k) then 1 else 0)) % TWO32
  {
    hide HighAfter, Miscounts;
    HighExact(w, lo, hi, k);
    var q, t, m := 8 * n / TWO32, (lo + 8 * k) / TWO32, if Miscounts(w, lo, k) then 1 else 0;
    assert 8 * (n + k) == q * TWO32 + (lo + 8 * k);
    assert 8 * (n + k) / TWO32 == q + t;
    ModAdd(q + bad, t + m);
  }

  lemma ModAdd(a: int, b: int)
    ensures (a % TWO32 + b) % TWO32 == (a + b) % TWO32
  {
    var q := a / TWO32;
    assert a % TWO32 + b == a + b - q * TWO32;
  }

  lemma HighIsRight(high: int, n: nat, bad: nat)
    requires high == (8 * n / TWO32 + bad) % TWO32
    ensures high == 8 * n / TWO32 % TWO32 <==> bad % TWO32 == 0
  {
    var q := 8 * n / TWO32;
    ModAdd(q, bad);
    ModAdd(bad, q);
    var a, b := q % TWO32, bad % TWO32;
    assert high == (a + bad) % TWO32;
    ModAdd(bad, a);
    assert high == (a + b) % TWO32;
    assert high == if a + b < TWO32 then a + b else a + b - TWO32;
  }

  lemma LittleSame(a: Word, b: Word)
    ensures Little(a, 4) == Little(b, 4) <==> a == b
  {
    Pow256Four();
    LittleBack(a, 4);
    LittleBack(b, 4);
  }

  /** The length that ends the padded message is right exactly when the number of miscounted pieces is a
      multiple of 2^32. */
  lemma TrailerRight(w: SizeT, pieces: seq<Bytes>)
    requires Indexable(pieces)
    ensures var n := |Concat(pieces)|;
      Counted(Low(n), HighOf(w, 0, 0, pieces)) == LengthBytes(8 * n) <==> Miscounted(w, 0, pieces) % TWO32 == 0
  {
    var n := |Concat(pieces)|;
    var high := HighOf(w, 0, 0, pieces);
    HighTotal(w, 0, 0, 0, 0, pieces);
    HighIsRight(high, n, Miscounted(w, 0, pieces));
    LittleSame(high, 8 * n / TWO32 % TWO32);
    var a, b := Counted(Low(n), high), LengthBytes(8 * n);
    assert a[..4] == b[..4] == Little(Low(n), 4);
    assert a[4..] == Little(high, 4) && b[4..] == Little(8 * n / TWO32 % TWO32, 4);
    assert a == a[..4] + a[4..] && b == b[..4] + b[4..];
  }

  /** No piece below 2^29 bytes is miscounted, and none at all where size_t has 32 bits. */
  lemma {:induction false} NoneMiscounted(w: SizeT, lo: Word, pieces: seq<Bytes>)
    requires w == Bits32 || forall i :: 0 <= i < |pieces| ==> |pieces[i]| < TWO29
    ensures Miscounted(w, lo, pieces) == 0
    decreases |pieces|
  {
    if pieces != [] { NoneMiscounted(w, LowAfter(lo, |pieces[0]|), pieces[1..]); }
  }

  /** The digest of a message fed in pieces. */
  method Digest(f: (State, Bytes) -> State, w: SizeT, pieces: seq<Bytes>) returns (digest: Bytes)
    requires Indexable(pieces)
    ensures var msg := Concat(pieces);
      digest == Output(Fold(f, INIT, msg + Padding(|msg|) + Counted(Low(|msg|), HighOf(w, 0, 0, pieces))))
    ensures Miscounted(w, 0, pieces) % TWO32 == 0 ==> digest == Rfc1321(f, Concat(pieces))
  {
    hide Fold, HighAfter, Low, LowAfter, Over, Context.Represents;
    var context := new Context(f, w);
    ghost var msg: Bytes := [];
    LowZero();
    var i := 0;
    assert pieces[0..] == pieces;
    while i < |pieces|
      invariant 0 <= i <= |pieces| && context.Represents(msg, context.count1)
      invariant context.transform == f && context.sizeT == w && context.count0 == Low(|msg|)
      invariant fresh(context) && fresh(context.buffer)
      invariant msg + Concat(pieces[i..]) == Concat(pieces)
      invariant HighOf(w, context.count0, context.count1, pieces[i..]) == HighOf(w, 0, 0, pieces)
    {
      LowTotal(|msg|, |pieces[i]|);
      assert pieces[i..][0] == pieces[i] && pieces[i..][1..] == pieces[i + 1..];
      assert msg + (pieces[i] + Concat(pieces[i + 1..])) == msg + pieces[i] + Concat(pieces[i + 1..]);
      ghost var hi := HighAfter(w, context.count0, context.count1, |pieces[i]|);
      context.Update(pieces[i], msg);
      LowOf(context, msg + pieces[i], hi);
      msg := msg + pieces[i];
      i := i + 1;
    }
    assert msg == Concat(pieces);
    digest := context.Final(msg);
    TrailerRight(w, pieces);
  }

  lemma LowZero()
    ensures Low(0) == 0
  {
  }

  lemma LowOf(context: Context, msg: Bytes, hi: Word)
    requires context.Represents(msg, hi)
    ensures context.count0 == Low(|msg|) && context.count1 == hi
  {
  }

  /** Pieces below 2^29 bytes: the digest is that of RFC 1321, however the message is split. */
  method DigestOfSplit(f: (State, Bytes) -> State, w: SizeT, msg: Bytes, pieces: seq<Bytes>) returns (digest: Bytes)
    requires Concat(pieces) == msg && forall i :: 0 <= i < |pieces| ==> |pieces[i]| < TWO29
    ensures digest == Rfc1321(f, msg)
  {
    NoneMiscounted(w, 0, pieces);
    digest := Digest(f, w, pieces);
  }
}
