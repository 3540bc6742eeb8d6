/** The bytes of a chunk, said outright for one function that has something everywhere, and what becomes of a
    chunk that is cut off. */
module ChunkFormat {
  import opened ByteStrings
  import opened Chunk
  import opened ChunkBack

  // ----- the order of the bytes of a number -----

  lemma LittleFour(x: nat)
    ensures Little(x, 4) == [x % 256, x / 256 % 256, x / 256 / 256 % 256, x / 256 / 256 / 256 % 256]
  {
    assert Little(x / 256 / 256 / 256, 1) == [x / 256 / 256 / 256 % 256];
    assert Little(x / 256 / 256, 2) == [x / 256 / 256 % 256] + Little(x / 256 / 256 / 256, 1);
    assert Little(x / 256, 3) == [x / 256 % 256] + Little(x / 256 / 256, 2);
  }

  /** Four bytes, the lowest one first or last. */
  lemma FourBytesOf(m: Machine, a: Byte, b: Byte, c: Byte, d: Byte)
    ensures var x := a + 256 * b + 65536 * c + 16777216 * d;
      Encode(m, x, 4) == if m.little then [a, b, c, d] else [d, c, b, a]
  {
    var x := a + 256 * b + 65536 * c + 16777216 * d;
    LittleFour(x);
    assert x / 256 == b + 256 * c + 65536 * d;
    assert x / 256 / 256 == c + 256 * d;
    assert x / 256 / 256 / 256 == d;
  }

  function Four(m: Machine, x: Byte): Bytes {
    if m.little then [x, 0, 0, 0] else [0, 0, 0, x]
  }

  lemma SmallInt(m: Machine, x: Byte)
    ensures DumpInt(m, x) == Four(m, x) && Encode(m, x, 4) == Four(m, x)
  {
    FourBytesOf(m, x, 0, 0, 0);
  }

  // ----- one function with something everywhere -----

  const Inner := Proto(Some([64, 97]), 21, 22, 0, 0, 0, 2, [], [], [], [], [], [])

  const Sample := Proto(
    Some([64, 97]), 11, 12, 3, 4, 5, 6, [0x04030201],
    [KNil, KBool(1), KNumber([1, 2, 3, 4, 5, 6, 7, 8]), KString(Some([107]))],
    [Inner], [13], [LocVar(Some([120]), 14, 15)], [Some([117])])

  /** A string of the sample: its size with the final zero, its bytes, the zero. */
  function Text(m: Machine, b: Bytes): Bytes
    requires |b| < 255
  {
    Four(m, |b| + 1) + b + [0]
  }

  lemma TextIs(m: Machine, b: Bytes)
    requires |b| < 255 && m.sizeT == 4
    ensures DumpString(m, Some(b)) == Text(m, b)
  {
    SmallInt(m, |b| + 1);
  }

  function SampleHeader(m: Machine): Bytes {
    [0x1b, 'L' as int, 'u' as int, 'a' as int, 0x51, 0, if m.little then 1 else 0, 4, 4, 4, 8, 0]
  }

  function SampleHead(m: Machine): Bytes {
    Text(m, [64, 97]) + Four(m, 11) + Four(m, 12) + [3, 4, 5, 6]
    + Four(m, 1) + (if m.little then [1, 2, 3, 4] else [4, 3, 2, 1])
    + Four(m, 4) + SampleConstants(m)
  }

  /** The tag of each constant and its value. */
  function SampleConstants(m: Machine): Bytes {
    [0] + [1, 1] + [3, 1, 2, 3, 4, 5, 6, 7, 8] + [4] + Text(m, [107])
  }

  function InnerBytes(m: Machine): Bytes {
    Four(m, 0) + Four(m, 21) + Four(m, 22) + [0, 0, 0, 2]
    + Four(m, 0) + Four(m, 0) + Four(m, 0) + Four(m, 0) + Four(m, 0) + Four(m, 0)
  }

  function SampleDebug(m: Machine): Bytes {
    Four(m, 1) + Four(m, 13)
    + Four(m, 1) + Text(m, [120]) + Four(m, 14) + Four(m, 15)
    + Four(m, 1) + Text(m, [117])
  }

  lemma OneMapped<T>(f: T -> Bytes, x: T)
    ensures ConcatMap(f, [x]) == f(x)
  {
    assert [x][1..] == [];
    assert ConcatMap(f, []) == [];
  }

  lemma NoneMapped<T>(f: T -> Bytes)
    ensures ConcatMap(f, []) == []
  {
  }

  lemma ConstantsOf(m: Machine)
    requires m.sizeT == 4
    ensures DumpConstants(m, Sample.k) == SampleConstants(m)
  {
    var k := Sample.k;
    var f := x => DumpConstant(m, x);
    TextIs(m, [107]);
    assert k[1..] == [k[1], k[2], k[3]] && k[1..][1..] == [k[2], k[3]] && k[1..][1..][1..] == [k[3]];
    OneMapped(f, k[3]);
    assert ConcatMap(f, [k[2], k[3]]) == f(k[2]) + ConcatMap(f, [k[3]]);
    assert ConcatMap(f, [k[1], k[2], k[3]]) == f(k[1]) + ConcatMap(f, [k[2], k[3]]);
    assert ConcatMap(f, k) == f(k[0]) + ConcatMap(f, k[1..]);
  }

  lemma HeadOf(m: Machine)
    requires m.sizeT == 4
    ensures DumpHead(m, Sample, None, false) == SampleHead(m)
  {
    hide DumpInt, DumpString, Encode, DumpConstants, Four, Text, SampleConstants, ConcatMap;
    TextIs(m, [64, 97]);
    SmallInt(m, 11);
    SmallInt(m, 12);
    SmallInt(m, 1);
    SmallInt(m, 4);
    FourBytesOf(m, 1, 2, 3, 4);
    OneMapped((x: Word) => Encode(m, x, 4), 0x04030201);
    ConstantsOf(m);
  }

  lemma DebugOf(m: Machine)
    requires m.sizeT == 4
    ensures DumpDebug(m, Sample) == SampleDebug(m)
  {
    hide DumpInt, DumpString, Encode, Four, Text, ConcatMap;
    TextIs(m, [120]);
    TextIs(m, [117]);
    SmallInt(m, 1);
    SmallInt(m, 13);
    SmallInt(m, 14);
    SmallInt(m, 15);
    OneMapped((x: Int) => DumpInt(m, x), 13);
    OneMapped(v => DumpLocVar(m, v), LocVar(Some([120]), 14, 15));
    OneMapped(s => DumpString(m, s), Some([117]));
  }

  lemma NothingMapped(m: Machine)
    ensures DumpCode(m, []) == [] && DumpConstants(m, []) == [] && DumpLines(m, []) == []
    ensures ConcatMap(v => DumpLocVar(m, v), []) == [] && ConcatMap(s => DumpString(m, s), []) == []
  {
    NoneMapped((x: Word) => Encode(m, x, 4));
    NoneMapped(x => DumpConstant(m, x));
    NoneMapped((x: Int) => DumpInt(m, x));
    NoneMapped(v => DumpLocVar(m, v));
    NoneMapped(s => DumpString(m, s));
  }

  lemma NoText(m: Machine)
    requires m.sizeT == 4
    ensures DumpString(m, None) == Four(m, 0)
  {
    SmallInt(m, 0);
  }

  /** The source of the inner function is that of the outer one and left out. */
  lemma InnerHead(m: Machine)
    requires m.sizeT == 4
    ensures DumpHead(m, Inner, Sample.source, false) ==
      Four(m, 0) + Four(m, 21) + Four(m, 22) + [0, 0, 0, 2] + Four(m, 0) + [] + Four(m, 0) + []
  {
    hide DumpInt, DumpString, Encode, Four, Text, ConcatMap, DumpCode, DumpConstants;
    NoText(m);
    SmallInt(m, 21);
    SmallInt(m, 22);
    SmallInt(m, 0);
    NothingMapped(m);
  }

  lemma InnerDebug(m: Machine)
    ensures DumpDebug(m, Inner) == Four(m, 0) + [] + Four(m, 0) + [] + Four(m, 0) + []
  {
    hide DumpInt, DumpString, Encode, Four, Text, ConcatMap, DumpLines;
    SmallInt(m, 0);
    NothingMapped(m);
  }

  lemma NoEmpty(a: Bytes, z: Bytes)
    ensures (a + z + [] + z + []) + z + [] + (z + [] + z + [] + z + []) == a + z + z + z + z + z + z
  {
    assert a + z + [] + z + [] == a + z + z;
    assert z + [] + z + [] + z + [] == z + z + z;
    assert (a + z + z) + z + [] == a + z + z + z;
    assert a + z + z + z + (z + z + z) == a + z + z + z + z + z + z;
  }

  lemma InnerOf(m: Machine)
    requires m.sizeT == 4
    ensures DumpFunction(m, Inner, Sample.source, false) == InnerBytes(m)
  {
    hide DumpHead, DumpDebug, DumpInt, Four, Text;
    InnerHead(m);
    InnerDebug(m);
    SmallInt(m, 0);
    assert DumpNested(m, Inner, 0, false) == [];
    NoEmpty(Four(m, 0) + Four(m, 21) + Four(m, 22) + [0, 0, 0, 2], Four(m, 0));
  }

  /** The chunk of the sample where size_t has four bytes, for both orders of bytes. */
  lemma SampleBytes(m: Machine)
    requires m.sizeT == 4
    ensures SmallAll(Sample)
    ensures Dump(m, Sample, false) == SampleHeader(m) + (SampleHead(m) + Four(m, 1) + InnerBytes(m) + SampleDebug(m))
  {
    hide DumpHead, DumpInt, DumpDebug, SampleHead, SampleDebug, InnerBytes, Four;
    assert SmallAll(Inner);
    assert Sample.p[0] == Inner;
    HeadOf(m);
    DebugOf(m);
    InnerOf(m);
    SmallInt(m, 1);
    assert DumpNested(m, Sample, 1, false) == [];
    assert InnerBytes(m) + [] == InnerBytes(m);
    assert DumpNested(m, Sample, 0, false) == InnerBytes(m);
  }

  // ----- what is refused -----

  /** A negative int is refused. */
  lemma NegativeRefused(m: Machine, x: Int, rest: Bytes)
    requires x < 0
    ensures LoadInt(m, DumpInt(m, x) + rest) == Fail(BadInteger)
  {
    TakeBack(DumpInt(m, x), rest);
    Pow256Four();
    DecodeEncode(m, ToWord(x), 4);
  }

  /** The constants are nil, booleans, numbers and strings. */
  lemma OtherTagRefused(m: Machine, tag: Byte, rest: Bytes)
    requires tag != 0 && tag != 1 && tag != 3 && tag != 4
    ensures LoadConstant(m, [tag] + rest) == Fail(BadConstant)
  {
    TakeBack([tag], rest);
  }

  /** A chunk with another header is refused whatever follows. */
  lemma OtherHeaderRefused(m: Machine, check: Proto -> bool, h: Bytes, rest: Bytes)
    requires |h| == 12 && h != Header(m)
    ensures Undump(m, check, h + rest) == Fail(BadHeader)
  {
    TakeBack(h, rest);
  }

  // ----- a chunk that is cut off -----

  /** What is read from some bytes is read from more bytes too, and the rest is longer. */
  ghost predicate Goes<T(!new)>(r: Parsed<T>, more: Parsed<T>, t: Bytes) {
    r.Done? ==> more == Done(r.v, r.rest + t)
  }

  lemma TakeMore(s: Bytes, n: nat, t: Bytes)
    ensures Goes(Take(s, n), Take(s + t, n), t)
  {
    if n <= |s| { assert (s + t)[..n] == s[..n] && (s + t)[n..] == s[n..] + t; }
  }

  lemma ByteMore(s: Bytes, t: Bytes)
    ensures Goes(LoadByte(s), LoadByte(s + t), t)
  {
    TakeMore(s, 1, t);
  }

  lemma IntMore(m: Machine, s: Bytes, t: Bytes)
    ensures Goes(LoadInt(m, s), LoadInt(m, s + t), t)
  {
    hide Decode;
    TakeMore(s, 4, t);
  }

  lemma StringMore(m: Machine, s: Bytes, t: Bytes)
    ensures Goes(LoadString(m, s), LoadString(m, s + t), t)
  {
    hide Decode;
    TakeMore(s, m.sizeT, t);
    var b := Take(s, m.sizeT);
    if b.Done? && Decode(m, b.v) != 0 { TakeMore(b.rest, Decode(m, b.v), t); }
  }

  lemma ConstantMore(m: Machine, s: Bytes, t: Bytes)
    ensures Goes(LoadConstant(m, s), LoadConstant(m, s + t), t)
  {
    hide LoadString;
    ByteMore(s, t);
    var b := LoadByte(s);
    if b.Done? {
      ByteMore(b.rest, t);
      TakeMore(b.rest, 8, t);
      StringMore(m, b.rest, t);
    }
  }

  lemma LocVarMore(m: Machine, s: Bytes, t: Bytes)
    ensures Goes(LoadLocVar(m, s), LoadLocVar(m, s + t), t)
  {
    hide LoadString, LoadInt;
    StringMore(m, s, t);
    var a := LoadString(m, s);
    if a.Done? {
      IntMore(m, a.rest, t);
      var b := LoadInt(m, a.rest);
      if b.Done? { IntMore(m, b.rest, t); }
    }
  }

  lemma {:induction false} ManyMore<T(!new)>(item: Bytes -> Parsed<T>, s: Bytes, n: nat, t: Bytes)
    requires forall u :: Goes(item(u), item(u + t), t)
    ensures Goes(Many(item, s, n), Many(item, s + t, n), t)
    decreases n
  {
    if n > 0 {
      assert Goes(item(s), item(s + t), t);
      if item(s).Done? { ManyMore(item, item(s).rest, n - 1, t); }
    }
  }

  lemma ConstantsMore(m: Machine, s: Bytes, n: nat, t: Bytes)
    ensures Goes(LoadConstants(m, s, n), LoadConstants(m, s + t, n), t)
  {
    var item := s => LoadConstant(m, s);
    forall u ensures Goes(item(u), item(u + t), t) { ConstantMore(m, u, t); }
    ManyMore(item, s, n, t);
  }

  lemma LocVarsMore(m: Machine, s: Bytes, n: nat, t: Bytes)
    ensures Goes(Many(s => LoadLocVar(m, s), s, n), Many(s => LoadLocVar(m, s), s + t, n), t)
  {
    var item := s => LoadLocVar(m, s);
    forall u ensures Goes(item(u), item(u + t), t) { LocVarMore(m, u, t); }
    ManyMore(item, s, n, t);
  }

  lemma NamesMore(m: Machine, s: Bytes, n: nat, t: Bytes)
    ensures Goes(Many(s => LoadString(m, s), s, n), Many(s => LoadString(m, s), s + t, n), t)
  {
    var item := s => LoadString(m, s);
    forall u ensures Goes(item(u), item(u + t), t) { StringMore(m, u, t); }
    ManyMore(item, s, n, t);
  }

  lemma HeadMore(m: Machine, s: Bytes, p: Option<Bytes>, t: Bytes)
    ensures Goes(LoadHead(m, s, p), LoadHead(m, s + t, p), t)
  {
    hide LoadString, LoadInt, LoadByte, LoadConstants, Take, Words;
    var r := LoadHead(m, s, p);
    if r.Done? {
      var a := LoadString(m, s);
      StringMore(m, s, t);
      var b := LoadInt(m, a.rest);
      IntMore(m, a.rest, t);
      var c := LoadInt(m, b.rest);
      IntMore(m, b.rest, t);
      var d := LoadByte(c.rest);
      ByteMore(c.rest, t);
      var e := LoadByte(d.rest);
      ByteMore(d.rest, t);
      var f := LoadByte(e.rest);
      ByteMore(e.rest, t);
      var g := LoadByte(f.rest);
      ByteMore(f.rest, t);
      var h := LoadInt(m, g.rest);
      IntMore(m, g.rest, t);
      var i := Take(h.rest, 4 * h.v);
      TakeMore(h.rest, 4 * h.v, t);
      var j := LoadInt(m, i.rest);
      IntMore(m, i.rest, t);
      ConstantsMore(m, j.rest, j.v, t);
    }
  }

  lemma DebugMore(m: Machine, s: Bytes, t: Bytes)
    ensures Goes(LoadDebug(m, s), LoadDebug(m, s + t), t)
  {
    hide LoadString, LoadInt, Take, Words, Many, Ints, LoadLocVar;
    var r := LoadDebug(m, s);
    if r.Done? {
      var a := LoadInt(m, s);
      IntMore(m, s, t);
      var b := Take(a.rest, 4 * a.v);
      TakeMore(a.rest, 4 * a.v, t);
      var c := LoadInt(m, b.rest);
      IntMore(m, b.rest, t);
      var d := Many(s => LoadLocVar(m, s), c.rest, c.v);
      LocVarsMore(m, c.rest, c.v, t);
      var e := LoadInt(m, d.rest);
      IntMore(m, d.rest, t);
      NamesMore(m, e.rest, e.v, t);
    }
  }

  lemma {:induction false} FunctionMore(m: Machine, check: Proto -> bool, s: Bytes, p: Option<Bytes>, t: Bytes)
    ensures Goes(LoadFunction(m, check, s, p), LoadFunction(m, check, s + t, p), t)
    decreases |s|, 0
  {
    hide LoadHead, LoadInt, LoadDebug;
    var r := LoadFunction(m, check, s, p);
    if r.Done? {
      var a := LoadHead(m, s, p);
      HeadMore(m, s, p, t);
      var b := LoadInt(m, a.rest);
      IntMore(m, a.rest, t);
      var c := LoadNested(m, check, b.rest, b.v, a.v.source);
      NestedMore(m, check, b.rest, b.v, a.v.source, t);
      DebugMore(m, c.rest, t);
    }
  }

  lemma {:induction false} NestedMore(m: Machine, check: Proto -> bool, s: Bytes, n: nat, source: Option<Bytes>, t: Bytes)
    ensures Goes(LoadNested(m, check, s, n, source), LoadNested(m, check, s + t, n, source), t)
    decreases |s|, n + 1
  {
    hide LoadFunction;
    if n > 0 && LoadNested(m, check, s, n, source).Done? {
      FunctionMore(m, check, s, source, t);
      var a := LoadFunction(m, check, s, source);
      NestedMore(m, check, a.rest, n - 1, source, t);
    }
  }

  /** A chunk that is cut off anywhere is refused. */
  lemma CutOffRefused(m: Machine, check: Proto -> bool, f: Proto, strip: bool, n: nat)
    requires FitsAll(m, f) && n < |Dump(m, f, strip)|
    ensures Undump(m, check, Dump(m, f, strip)[..n]).Fail?
  {
    hide LoadFunction, DumpFunction;
    var d := Dump(m, f, strip);
    var s, t := d[..n], d[n..];
    assert s + t == d;
    UndumpDump(m, check, f, strip);
    var r := Undump(m, check, s);
    if r.Done? {
      TakeMore(s, 12, t);
      FunctionMore(m, check, Take(s, 12).rest, Some(UNKNOWN), t);
    }
  }
}
