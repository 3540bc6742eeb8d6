/** Reading a dumped chunk gives back what was dumped. */
module ChunkBack {
  import opened ByteStrings
  import opened Chunk

  // ----- what can be dumped -----

  /** The length of a string and its final zero fits a size_t. */
  predicate StringFits(m: Machine, s: Option<Bytes>) {
    s.Some? ==> |s.value| + 1 < Pow256(m.sizeT)
  }

  predicate ConstantFits(m: Machine, k: Constant) { k.KString? ==> StringFits(m, k.s) }

  predicate LocVarFits(m: Machine, v: LocVar) {
    StringFits(m, v.varname) && v.startpc >= 0 && v.endpc >= 0
  }

  predicate Fits(m: Machine, f: Proto) {
    && Small(f) && StringFits(m, f.source) && f.linedefined >= 0 && f.lastlinedefined >= 0
    && (forall i :: 0 <= i < |f.k| ==> ConstantFits(m, f.k[i]))
    && (forall i :: 0 <= i < |f.locvars| ==> LocVarFits(m, f.locvars[i]))
    && (forall i :: 0 <= i < |f.upvalues| ==> StringFits(m, f.upvalues[i]))
  }

  /** A function as the compiler makes them, on the machine it runs on. */
  predicate FitsAll(m: Machine, f: Proto)
    ensures FitsAll(m, f) ==> SmallAll(f)
    decreases f
  {
    Fits(m, f) && forall i :: 0 <= i < |f.p| ==> FitsAll(m, f.p[i])
  }

  // ----- what comes back -----

  /** A function without a source of its own, or dumped without it, gets the one of its surroundings. */
  function SourceBack(f: Proto, p: Option<Bytes>, pl: Option<Bytes>, strip: bool): Option<Bytes> {
    if f.source == p || strip || f.source.None? then pl else f.source
  }

  /** `p' is the source of the enclosing function when dumped, `pl' when loaded. */
  function Restored(f: Proto, p: Option<Bytes>, pl: Option<Bytes>, strip: bool): (r: Proto)
    decreases f, |f.p| + 1
  {
    var source := SourceBack(f, p, pl, strip);
    var g := if strip then NoDebug(f) else f;
    g.(source := source, p := RestoredFrom(f, 0, source, strip))
  }

  function RestoredFrom(f: Proto, i: nat, source: Option<Bytes>, strip: bool): (r: seq<Proto>)
    requires i <= |f.p|
    ensures |r| == |f.p| - i
    decreases f, |f.p| - i
  {
    if i == |f.p| then []
    else [Restored(f.p[i], f.source, source, strip)] + RestoredFrom(f, i + 1, source, strip)
  }

  /** The checker takes a function and all the functions in it. */
  predicate CheckedAll(check: Proto -> bool, f: Proto)
    decreases f
  {
    check(f) && forall i :: 0 <= i < |f.p| ==> CheckedAll(check, f.p[i])
  }

  // ----- the pieces -----

  lemma TakeBack(a: Bytes, rest: Bytes)
    ensures Take(a + rest, |a|) == Done(a, rest)
  {
  }

  lemma IntBack(m: Machine, x: Int, rest: Bytes)
    requires x >= 0
    ensures LoadInt(m, DumpInt(m, x) + rest) == Done(x, rest)
  {
    TakeBack(DumpInt(m, x), rest);
    Pow256Four();
    DecodeEncode(m, x, 4);
  }

  lemma ByteBack(b: Byte, rest: Bytes)
    ensures LoadByte([b] + rest) == Done(b, rest)
  {
    TakeBack([b], rest);
  }

  lemma StringBack(m: Machine, s: Option<Bytes>, rest: Bytes)
    requires StringFits(m, s)
    ensures LoadString(m, DumpString(m, s) + rest) == Done(s, rest)
  {
    if s.None? {
      TakeBack(DumpSize(m, 0), rest);
      DecodeEncode(m, 0, m.sizeT);
    } else {
      var b := s.value;
      var n := DumpSize(m, |b| + 1);
      var t := b + [0];
      assert DumpString(m, s) + rest == n + (t + rest);
      TakeBack(n, t + rest);
      DecodeEncode(m, |b| + 1, m.sizeT);
      TakeBack(t, rest);
      assert t[..|b|] == b;
    }
  }

  lemma ConstantBack(m: Machine, k: Constant, rest: Bytes)
    requires ConstantFits(m, k)
    ensures LoadConstant(m, DumpConstant(m, k) + rest) == Done(k, rest)
  {
    hide LoadString, DumpString, LoadByte, StringFits, Take;
    match k {
      case KNil => ByteBack(LUA_TNIL, rest);
      case KBool(b) =>
        assert DumpConstant(m, k) + rest == [LUA_TBOOLEAN] + ([b] + rest);
        ByteBack(LUA_TBOOLEAN, [b] + rest);
        ByteBack(b, rest);
      case KNumber(n) =>
        assert DumpConstant(m, k) + rest == [LUA_TNUMBER] + (n + rest);
        ByteBack(LUA_TNUMBER, n + rest);
        TakeBack(n, rest);
      case KString(s) =>
        var d := DumpString(m, s);
        assert DumpConstant(m, k) + rest == [LUA_TSTRING] + (d + rest);
        ByteBack(LUA_TSTRING, d + rest);
        StringBack(m, s, rest);
    }
  }

  lemma LocVarBack(m: Machine, v: LocVar, rest: Bytes)
    requires LocVarFits(m, v)
    ensures LoadLocVar(m, DumpLocVar(m, v) + rest) == Done(v, rest)
  {
    var a, b, c := DumpString(m, v.varname), DumpInt(m, v.startpc), DumpInt(m, v.endpc);
    assert DumpLocVar(m, v) + rest == a + (b + (c + rest));
    StringBack(m, v.varname, b + (c + rest));
    IntBack(m, v.startpc, c + rest);
    IntBack(m, v.endpc, rest);
  }

  lemma {:induction false} ManyBack<T>(dump: T -> Bytes, item: Bytes -> Parsed<T>, xs: seq<T>, rest: Bytes)
    requires forall i, t :: 0 <= i < |xs| ==> item(dump(xs[i]) + t) == Done(xs[i], t)
    ensures Many(item, ConcatMap(dump, xs) + rest, |xs|) == Done(xs, rest)
    decreases |xs|
  {
    if xs != [] {
      var d, tail := dump(xs[0]), ConcatMap(dump, xs[1..]);
      assert ConcatMap(dump, xs) + rest == d + (tail + rest);
      assert item(dump(xs[0]) + (tail + rest)) == Done(xs[0], tail + rest);
      ManyBack(dump, item, xs[1..], rest);
      assert [xs[0]] + xs[1..] == xs;
    } else {
      assert ConcatMap(dump, xs) + rest == rest;
    }
  }

  lemma {:induction false} CodeBack(m: Machine, code: seq<Word>)
    ensures |DumpCode(m, code)| == 4 * |code|
    ensures Words(m, DumpCode(m, code), |code|) == code
  {
    hide Encode, Decode, Pow256;
    var d := DumpCode(m, code);
    if code != [] {
      var e := Encode(m, code[0], 4);
      CodeBack(m, code[1..]);
      Pow256Four();
      DecodeEncode(m, code[0], 4);
      assert d == e + DumpCode(m, code[1..]);
      assert d[..4] == e && d[4..] == DumpCode(m, code[1..]);
      assert Words(m, d, |code|)[1..] == Words(m, d[4..], |code| - 1);
    }
  }

  lemma {:induction false} LinesBack(m: Machine, lines: seq<Int>)
    ensures |DumpLines(m, lines)| == 4 * |lines|
    ensures Ints(Words(m, DumpLines(m, lines), |lines|)) == lines
  {
    hide Encode, Decode, Pow256;
    var d := DumpLines(m, lines);
    if lines != [] {
      var e := DumpInt(m, lines[0]);
      LinesBack(m, lines[1..]);
      Pow256Four();
      DecodeEncode(m, ToWord(lines[0]), 4);
      assert d == e + DumpLines(m, lines[1..]);
      assert d[..4] == e && d[4..] == DumpLines(m, lines[1..]);
      assert Words(m, d, |lines|)[1..] == Words(m, d[4..], |lines| - 1);
    }
  }

  lemma NoneFits(m: Machine)
    ensures StringFits(m, None)
  {
  }

  lemma FourBytes(a: Byte, b: Byte, c: Byte, d: Byte, rest: Bytes)
    ensures LoadByte([a] + ([b] + ([c] + ([d] + rest)))) == Done(a, [b] + ([c] + ([d] + rest)))
    ensures LoadByte([b] + ([c] + ([d] + rest))) == Done(b, [c] + ([d] + rest))
    ensures LoadByte([c] + ([d] + rest)) == Done(c, [d] + rest)
    ensures LoadByte([d] + rest) == Done(d, rest)
  {
    ByteBack(a, [b] + ([c] + ([d] + rest)));
    ByteBack(b, [c] + ([d] + rest));
    ByteBack(c, [d] + rest);
    ByteBack(d, rest);
  }

  lemma HeadParts(b0: Bytes, b1: Bytes, b2: Bytes, q: Bytes, b3: Bytes, b4: Bytes, b5: Bytes, b6: Bytes, rest: Bytes)
    ensures b0 + b1 + b2 + q + b3 + b4 + b5 + b6 + rest
         == b0 + (b1 + (b2 + (q + (b3 + (b4 + (b5 + (b6 + rest)))))))
  {
  }

  lemma ConstantsBack(m: Machine, k: seq<Constant>, rest: Bytes)
    requires forall i :: 0 <= i < |k| ==> ConstantFits(m, k[i])
    ensures LoadConstants(m, DumpConstants(m, k) + rest, |k|) == Done(k, rest)
  {
    var dump, item := (x => DumpConstant(m, x)), (s => LoadConstant(m, s));
    forall i, t | 0 <= i < |k|
      ensures item(dump(k[i]) + t) == Done(k[i], t)
    {
      ConstantBack(m, k[i], t);
    }
    ManyBack(dump, item, k, rest);
  }

  // ----- a function -----

  /** The fields read before the nested functions. */
  function HeadOf(f: Proto, source: Option<Bytes>): Proto {
    f.(source := source, p := [], lineinfo := [], locvars := [], upvalues := [])
  }

  lemma HeadBack(m: Machine, f: Proto, p: Option<Bytes>, pl: Option<Bytes>, strip: bool, rest: Bytes)
    requires Fits(m, f)
    ensures LoadHead(m, DumpHead(m, f, p, strip) + rest, pl) == Done(HeadOf(f, SourceBack(f, p, pl, strip)), rest)
  {
    hide LoadString, DumpString, LoadInt, DumpInt, LoadByte, StringFits, LoadConstants, DumpConstants, DumpCode, Words;
    var source := if f.source == p || strip then None else f.source;
    var b0, b1, b2 := DumpString(m, source), DumpInt(m, f.linedefined), DumpInt(m, f.lastlinedefined);
    var b3, b4 := DumpInt(m, |f.code|), DumpCode(m, f.code);
    var b5, b6 := DumpInt(m, |f.k|), DumpConstants(m, f.k);
    var r5 := b5 + (b6 + rest);
    var r3 := b3 + (b4 + r5);
    var r2 := [f.nups] + ([f.numparams] + ([f.isVararg] + ([f.maxstacksize] + r3)));
    var r1 := b1 + (b2 + r2);
    HeadParts(b0, b1, b2, [f.nups, f.numparams, f.isVararg, f.maxstacksize], b3, b4, b5, b6, rest);
    assert r2 == [f.nups, f.numparams, f.isVararg, f.maxstacksize] + r3;
    assert DumpHead(m, f, p, strip) + rest == b0 + r1;
    NoneFits(m);
    StringBack(m, source, r1);
    IntBack(m, f.linedefined, b2 + r2);
    IntBack(m, f.lastlinedefined, r2);
    FourBytes(f.nups, f.numparams, f.isVararg, f.maxstacksize, r3);
    IntBack(m, |f.code|, b4 + r5);
    CodeBack(m, f.code);
    TakeBack(b4, r5);
    IntBack(m, |f.k|, b6 + rest);
    ConstantsBack(m, f.k, rest);
  }

  lemma DebugParts(b0: Bytes, b1: Bytes, b2: Bytes, b3: Bytes, b4: Bytes, b5: Bytes, rest: Bytes)
    ensures b0 + b1 + b2 + b3 + b4 + b5 + rest == b0 + (b1 + (b2 + (b3 + (b4 + (b5 + rest)))))
  {
  }

  lemma LocVarsBack(m: Machine, vs: seq<LocVar>, rest: Bytes)
    requires forall i :: 0 <= i < |vs| ==> LocVarFits(m, vs[i])
    ensures Many(s => LoadLocVar(m, s), ConcatMap(v => DumpLocVar(m, v), vs) + rest, |vs|) == Done(vs, rest)
  {
    var dump, item := (v => DumpLocVar(m, v)), (s => LoadLocVar(m, s));
    forall i, t | 0 <= i < |vs|
      ensures item(dump(vs[i]) + t) == Done(vs[i], t)
    {
      LocVarBack(m, vs[i], t);
    }
    ManyBack(dump, item, vs, rest);
  }

  lemma NamesBack(m: Machine, names: seq<Option<Bytes>>, rest: Bytes)
    requires forall i :: 0 <= i < |names| ==> StringFits(m, names[i])
    ensures Many(s => LoadString(m, s), ConcatMap(s => DumpString(m, s), names) + rest, |names|) == Done(names, rest)
  {
    var dump, item := (s => DumpString(m, s)), (s => LoadString(m, s));
    forall i, t | 0 <= i < |names|
      ensures item(dump(names[i]) + t) == Done(names[i], t)
    {
      StringBack(m, names[i], t);
    }
    ManyBack(dump, item, names, rest);
  }

  lemma DebugBack(m: Machine, f: Proto, rest: Bytes)
    requires Fits(m, f)
    ensures LoadDebug(m, DumpDebug(m, f) + rest) == Done((f.lineinfo, f.locvars, f.upvalues), rest)
  {
    hide LoadLocVar, LoadString, LoadInt, DumpInt, DumpString, DumpLocVar, Many, ConcatMap, Words, Ints, DumpLines;
    var b0, b1 := DumpInt(m, |f.lineinfo|), DumpLines(m, f.lineinfo);
    var b2, b3 := DumpInt(m, |f.locvars|), ConcatMap(v => DumpLocVar(m, v), f.locvars);
    var b4, b5 := DumpInt(m, |f.upvalues|), ConcatMap(s => DumpString(m, s), f.upvalues);
    DebugParts(b0, b1, b2, b3, b4, b5, rest);
    var r4 := b4 + (b5 + rest);
    var r2 := b2 + (b3 + r4);
    IntBack(m, |f.lineinfo|, b1 + r2);
    LinesBack(m, f.lineinfo);
    TakeBack(b1, r2);
    IntBack(m, |f.locvars|, b3 + r4);
    LocVarsBack(m, f.locvars, r4);
    IntBack(m, |f.upvalues|, b5 + rest);
    NamesBack(m, f.upvalues, rest);
  }

  // ----- whole functions -----

  predicate CheckedFrom(check: Proto -> bool, fs: seq<Proto>) {
    forall i :: 0 <= i < |fs| ==> CheckedAll(check, fs[i])
  }

  lemma CheckedParts(check: Proto -> bool, f: Proto)
    ensures CheckedAll(check, f) <==> check(f) && CheckedFrom(check, f.p)
  {
  }

  lemma CheckedCons(check: Proto -> bool, f: Proto, fs: seq<Proto>)
    ensures CheckedFrom(check, [f] + fs) <==> CheckedAll(check, f) && CheckedFrom(check, fs)
  {
    var gs := [f] + fs;
    assert gs[0] == f && gs[1..] == fs;
    if CheckedFrom(check, gs) {
      forall i | 0 <= i < |fs| ensures CheckedAll(check, fs[i]) {
        assert gs[i + 1] == fs[i];
      }
    }
  }

  /** A dumped function is read back exactly when the checker takes it, and exactly its bytes are read. */
  lemma {:induction false} FunctionBack(m: Machine, check: Proto -> bool, f: Proto, p: Option<Bytes>, pl: Option<Bytes>,
                                        strip: bool, rest: Bytes)
    requires FitsAll(m, f)
    ensures var g := Restored(f, p, pl, strip);
            LoadFunction(m, check, DumpFunction(m, f, p, strip) + rest, pl)
            == if CheckedAll(check, g) then Done(g, rest) else Fail(BadCode)
    decreases f, |f.p| + 1
  {
    hide LoadHead, LoadInt, DumpInt, LoadNested, DumpHead, DumpNested, LoadDebug, DumpDebug, CheckedAll, CheckedFrom;
    var source := SourceBack(f, p, pl, strip);
    var h := if strip then NoDebug(f) else f;
    var r0, r1, r2, r3 := DumpHead(m, f, p, strip), DumpInt(m, |f.p|), DumpNested(m, f, 0, strip), DumpDebug(m, h);
    assert DumpFunction(m, f, p, strip) + rest == r0 + (r1 + (r2 + (r3 + rest)));
    HeadBack(m, f, p, pl, strip, r1 + (r2 + (r3 + rest)));
    IntBack(m, |f.p|, r2 + (r3 + rest));
    NestedBack(m, check, f, 0, source, strip, r3 + rest);
    DebugBack(m, h, rest);
    CheckedParts(check, Restored(f, p, pl, strip));
  }

  lemma {:induction false} NestedBack(m: Machine, check: Proto -> bool, f: Proto, i: nat, source: Option<Bytes>,
                                      strip: bool, rest: Bytes)
    requires FitsAll(m, f) && i <= |f.p|
    ensures var gs := RestoredFrom(f, i, source, strip);
            LoadNested(m, check, DumpNested(m, f, i, strip) + rest, |f.p| - i, source)
            == if CheckedFrom(check, gs) then Done(gs, rest) else Fail(BadCode)
    decreases f, |f.p| - i
  {
    hide LoadFunction, DumpFunction, CheckedFrom;
    if i < |f.p| {
      var d0, d1 := DumpFunction(m, f.p[i], f.source, strip), DumpNested(m, f, i + 1, strip);
      assert DumpNested(m, f, i, strip) + rest == d0 + (d1 + rest);
      FunctionBack(m, check, f.p[i], f.source, source, strip, d1 + rest);
      NestedBack(m, check, f, i + 1, source, strip, rest);
      CheckedCons(check, Restored(f.p[i], f.source, source, strip), RestoredFrom(f, i + 1, source, strip));
    } else {
      assert DumpNested(m, f, i, strip) + rest == rest;
      NoneChecked(check);
    }
  }

  lemma NoneChecked(check: Proto -> bool)
    ensures CheckedFrom(check, [])
  {
  }

  // ----- the round trip -----

  predicate Named(f: Proto)
    decreases f
  {
    f.source.Some? && forall i :: 0 <= i < |f.p| ==> Named(f.p[i])
  }

  function UndumpOf(m: Machine, check: Proto -> bool, f: Proto, strip: bool): Parsed<Proto>
    requires FitsAll(m, f)
  {
    Undump(m, check, Dump(m, f, strip))
  }

  /** Every dumped function comes back whole, up to the sources, unless the checker refuses a part of it. */
  lemma UndumpDump(m: Machine, check: Proto -> bool, f: Proto, strip: bool)
    requires FitsAll(m, f)
    ensures var g := Restored(f, None, Some(UNKNOWN), strip);
            UndumpOf(m, check, f, strip) == if CheckedAll(check, g) then Done(g, []) else Fail(BadCode)
  {
    hide LoadFunction, DumpFunction;
    var d := DumpFunction(m, f, None, strip);
    TakeBack(Header(m), d);
    FunctionBack(m, check, f, None, Some(UNKNOWN), strip, []);
    assert d + [] == d;
  }

  lemma {:induction false} RestoredSame(f: Proto, p: Option<Bytes>, pl: Option<Bytes>)
    requires pl.Some? && (f.source == p ==> f.source.None? || p == pl)
    ensures Restored(f, p, pl, false) == f <==> Named(f)
    decreases f, |f.p| + 1
  {
    var source := SourceBack(f, p, pl, false);
    if f.source.Some? {
      assert source == f.source;
      RestoredNested(f, 0);
      assert Restored(f, p, pl, false) == f <==> RestoredFrom(f, 0, source, false) == f.p;
      assert f.p[0..] == f.p;
    }
  }

  lemma {:induction false} RestoredNested(f: Proto, i: nat)
    requires i <= |f.p| && f.source.Some?
    ensures RestoredFrom(f, i, f.source, false) == f.p[i..] <==> forall j :: i <= j < |f.p| ==> Named(f.p[j])
    decreases f, |f.p| - i
  {
    if i < |f.p| {
      RestoredSame(f.p[i], f.source, f.source);
      RestoredNested(f, i + 1);
      var a, b := RestoredFrom(f, i, f.source, false), f.p[i..];
      assert a == [a[0]] + a[1..] && b == [b[0]] + b[1..];
      assert a[1..] == RestoredFrom(f, i + 1, f.source, false) && b[1..] == f.p[i + 1..];
      assert a == b <==> a[0] == b[0] && a[1..] == b[1..];
    }
  }

  /** The round trip is exact exactly when every function knows its source: a function without one comes
      back with the source of its surroundings. */
  lemma RoundTrip(m: Machine, check: Proto -> bool, f: Proto)
    requires FitsAll(m, f) && CheckedAll(check, Restored(f, None, Some(UNKNOWN), false))
    ensures UndumpOf(m, check, f, false) == Done(f, []) <==> Named(f)
  {
    UndumpDump(m, check, f, false);
    RestoredSame(f, None, Some(UNKNOWN));
  }

  /** A function without a source, and one with the source `@' around it. */
  const Nameless := Proto(None, 0, 0, 0, 0, 0, 2, [], [], [], [], [], [])
  const Outer := Proto(Some([64]), 0, 0, 0, 0, 2, 2, [], [], [Nameless], [], [], [])

  /** The inner function comes back with the source of the outer one. */
  lemma NamelessGetsSource(m: Machine)
    requires m.sizeT > 0
    ensures FitsAll(m, Outer) && !Named(Outer)
    ensures var g := Outer.(p := [Nameless.(source := Some([64]))]); UndumpOf(m, _ => true, Outer, false) == Done(g, []) && g != Outer
  {
    assert FitsAll(m, Nameless);
    assert Outer.p[0] == Nameless && !Named(Nameless);
    var inner := Restored(Nameless, Some([64]), Some([64]), false);
    assert inner == Nameless.(source := Some([64]));
    var g := Outer.(p := [inner]);
    assert Restored(Outer, None, Some(UNKNOWN), false) == g by {
      assert RestoredFrom(Outer, 1, Some([64]), false) == [];
      assert RestoredFrom(Outer, 0, Some([64]), false) == [inner];
    }
    assert CheckedAll(_ => true, inner);
    assert CheckedAll(_ => true, g);
    UndumpDump(m, _ => true, Outer, false);
  }

  function Stripped(f: Proto): (r: Proto)
    decreases f, |f.p| + 1
  {
    NoDebug(f).(source := Some(UNKNOWN), p := StrippedFrom(f, 0))
  }

  function StrippedFrom(f: Proto, i: nat): (r: seq<Proto>)
    requires i <= |f.p|
    decreases f, |f.p| - i
  {
    if i == |f.p| then [] else [Stripped(f.p[i])] + StrippedFrom(f, i + 1)
  }

  lemma {:induction false} RestoredStripped(f: Proto, p: Option<Bytes>)
    ensures Restored(f, p, Some(UNKNOWN), true) == Stripped(f)
    decreases f, |f.p| + 1
  {
    RestoredStrippedFrom(f, 0);
  }

  lemma {:induction false} RestoredStrippedFrom(f: Proto, i: nat)
    requires i <= |f.p|
    ensures RestoredFrom(f, i, Some(UNKNOWN), true) == StrippedFrom(f, i)
    decreases f, |f.p| - i
  {
    if i < |f.p| {
      RestoredStripped(f.p[i], f.source);
      RestoredStrippedFrom(f, i + 1);
    }
  }

  /** A stripped chunk holds everything but the sources and the debug information. */
  lemma StrippedRoundTrip(m: Machine, check: Proto -> bool, f: Proto)
    requires FitsAll(m, f) && CheckedAll(check, Stripped(f))
    ensures UndumpOf(m, check, f, true) == Done(Stripped(f), [])
  {
    RestoredStripped(f, None);
    UndumpDump(m, check, f, true);
  }

  /** A chunk of a machine that stores numbers another way is refused. */
  lemma ForeignChunk(m: Machine, m': Machine, check: Proto -> bool, f: Proto, strip: bool)
    requires FitsAll(m, f)
    ensures Undump(m', check, Dump(m, f, strip)) == Fail(BadHeader) <==> m != m'
  {
    hide LoadFunction, DumpFunction;
    TakeBack(Header(m), DumpFunction(m, f, None, strip));
    assert Header(m)[6] == (if m.little then 1 else 0) && Header(m')[6] == (if m'.little then 1 else 0);
    assert Header(m)[8] == m.sizeT && Header(m')[8] == m'.sizeT;
    if m == m' { UndumpDump(m, check, f, strip); }
  }
}
