/** Dumping a function through a writer that can fail. */
module DumpStates {
  import opened ByteStrings
  import opened Chunk

  /** What had been written, whether the writer had failed, and what was to be written since. */
  datatype Log = Log(failed: bool, was: Bytes, d: Bytes)

  function More(g: Log, d: Bytes): Log { g.(d := g.d + d) }

  /** Everything is written, or as much of it as the writer took before it failed; after a failure nothing
      more is. */
  ghost predicate Wrote(g: Log, failed: bool, now: Bytes) {
    && (g.failed ==> failed && now == g.was)
    && (!failed ==> now == g.was + g.d)
    && g.was <= now <= g.was + g.d
  }

  lemma ConcatNext<T>(f: T -> Bytes, xs: seq<T>, i: int, done: Bytes)
    requires 0 <= i < |xs|
    ensures done + ConcatMap(f, xs[i..]) == done + f(xs[i]) + ConcatMap(f, xs[i + 1..])
  {
    assert xs[i..][0] == xs[i] && xs[i..][1..] == xs[i + 1..];
  }

  lemma MoreMore(g: Log, a: Bytes, b: Bytes)
    ensures More(More(g, a), b) == More(g, a + b)
  {
    assert g.d + a + b == g.d + (a + b);
  }

  class DumpState {
    /** The status the writer returns for a block, given what it has written. */
    const writer: (Bytes, Bytes) -> int
    const strip: bool
    const m: Machine
    var status: int
    var data: Bytes

    constructor (m: Machine, writer: (Bytes, Bytes) -> int, strip: bool)
      ensures this.m == m && this.writer == writer && this.strip == strip && status == 0 && data == []
    {
      this.m, this.writer, this.strip := m, writer, strip;
      status, data := 0, [];
    }

    ghost predicate Since(g: Log)
      reads this
    {
      Wrote(g, status != 0, data)
    }

    method DumpBlock(b: Bytes, ghost g: Log)
      requires Since(g)
      modifies this
      ensures Since(More(g, b))
      ensures old(status) != 0 ==> status == old(status)
      ensures old(status) == 0 ==> status == writer(old(data), b)
    {
      assert g.was + (g.d + b) == (g.was + g.d) + b;
      if status == 0 {
        status := writer(data, b);
        if status == 0 { data := data + b; }
      }
    }

    method WriteChar(b: Byte, ghost g: Log)
      requires Since(g)
      modifies this
      ensures Since(More(g, [b]))
    {
      DumpBlock([b], g);
    }

    method WriteInt(x: Int, ghost g: Log)
      requires Since(g)
      modifies this
      ensures Since(More(g, DumpInt(m, x)))
    {
      DumpBlock(Encode(m, ToWord(x), 4), g);
    }

    method WriteString(s: Option<Bytes>, ghost g: Log)
      requires Since(g)
      modifies this
      ensures Since(More(g, DumpString(m, s)))
    {
      if s.None? {
        DumpBlock(DumpSize(m, 0), g);
      } else {
        var size := DumpSize(m, |s.value| + 1);
        DumpBlock(size, g);
        DumpBlock(s.value + [0], More(g, size));
        assert DumpString(m, s) == size + (s.value + [0]);
        MoreMore(g, size, s.value + [0]);
      }
    }

    method WriteConstant(k: Constant, ghost g: Log)
      requires Since(g)
      modifies this
      ensures Since(More(g, DumpConstant(m, k)))
    {
      match k
      case KNil =>
        WriteChar(LUA_TNIL, g);
      case KBool(b) =>
        WriteChar(LUA_TBOOLEAN, g);
        WriteChar(b, More(g, [LUA_TBOOLEAN]));
        MoreMore(g, [LUA_TBOOLEAN], [b]);
      case KNumber(n) =>
        WriteChar(LUA_TNUMBER, g);
        DumpBlock(n, More(g, [LUA_TNUMBER]));
        MoreMore(g, [LUA_TNUMBER], n);
      case KString(s) =>
        WriteChar(LUA_TSTRING, g);
        WriteString(s, More(g, [LUA_TSTRING]));
        MoreMore(g, [LUA_TSTRING], DumpString(m, s));
    }

    method WriteConstants(k: seq<Constant>, ghost g: Log)
      requires Since(g)
      modifies this
      ensures Since(More(g, DumpConstants(m, k)))
    {
      hide Wrote, DumpConstant;
      ghost var h, dump := g, x => DumpConstant(m, x);
      var i := 0;
      assert k[0..] == k;
      while i < |k|
        invariant 0 <= i <= |k| && Since(h)
        invariant More(h, ConcatMap(dump, k[i..])) == More(g, DumpConstants(m, k))
      {
        ConcatNext(dump, k, i, h.d);
        WriteConstant(k[i], h);
        h := More(h, DumpConstant(m, k[i]));
        i := i + 1;
      }
      assert h == More(g, DumpConstants(m, k)) by { assert h.d + [] == h.d; }
    }

    method WriteLocVars(vs: seq<LocVar>, ghost g: Log)
      requires Since(g)
      modifies this
      ensures Since(More(g, ConcatMap(v => DumpLocVar(m, v), vs)))
    {
      hide Wrote, DumpString, DumpInt;
      ghost var h, dump := g, v => DumpLocVar(m, v);
      var i := 0;
      assert vs[0..] == vs;
      while i < |vs|
        invariant 0 <= i <= |vs| && Since(h)
        invariant More(h, ConcatMap(dump, vs[i..])) == More(g, ConcatMap(dump, vs))
      {
        ConcatNext(dump, vs, i, h.d);
        WriteString(vs[i].varname, h);
        h := More(h, DumpString(m, vs[i].varname));
        WriteInt(vs[i].startpc, h);
        h := More(h, DumpInt(m, vs[i].startpc));
        WriteInt(vs[i].endpc, h);
        h := More(h, DumpInt(m, vs[i].endpc));
        i := i + 1;
      }
      assert h == More(g, ConcatMap(dump, vs)) by { assert h.d + [] == h.d; }
    }

    method WriteNames(names: seq<Option<Bytes>>, ghost g: Log)
      requires Since(g)
      modifies this
      ensures Since(More(g, ConcatMap(s => DumpString(m, s), names)))
    {
      hide Wrote, DumpString;
      ghost var h, dump := g, s => DumpString(m, s);
      var i := 0;
      assert names[0..] == names;
      while i < |names|
        invariant 0 <= i <= |names| && Since(h)
        invariant More(h, ConcatMap(dump, names[i..])) == More(g, ConcatMap(dump, names))
      {
        ConcatNext(dump, names, i, h.d);
        WriteString(names[i], h);
        h := More(h, DumpString(m, names[i]));
        i := i + 1;
      }
      assert h == More(g, ConcatMap(dump, names)) by { assert h.d + [] == h.d; }
    }

    method WriteDebug(f: Proto, ghost g: Log)
      requires Since(g) && Small(f)
      modifies this
      ensures Since(More(g, DumpDebug(m, if strip then NoDebug(f) else f)))
    {
      hide Wrote, DumpInt, DumpLines, ConcatMap;
      ghost var h := if strip then NoDebug(f) else f;
      var lineinfo := if strip then [] else f.lineinfo;
      var locvars := if strip then [] else f.locvars;
      var upvalues := if strip then [] else f.upvalues;
      ghost var g1 := More(g, DumpInt(m, |lineinfo|));
      WriteInt(|lineinfo|, g);
      ghost var g2 := More(g1, DumpLines(m, lineinfo));
      DumpBlock(DumpLines(m, lineinfo), g1);
      ghost var g3 := More(g2, DumpInt(m, |locvars|));
      WriteInt(|locvars|, g2);
      ghost var g4 := More(g3, ConcatMap(v => DumpLocVar(m, v), locvars));
      WriteLocVars(locvars, g3);
      ghost var g5 := More(g4, DumpInt(m, |upvalues|));
      WriteInt(|upvalues|, g4);
      ghost var g6 := More(g5, ConcatMap(s => DumpString(m, s), upvalues));
      WriteNames(upvalues, g5);
      DebugLog(m, h, g);
      assert g6 == More(g, DumpDebug(m, h));
    }

    method WriteHead(f: Proto, p: Option<Bytes>, ghost g: Log)
      requires Since(g) && Small(f)
      modifies this
      ensures Since(More(g, DumpHead(m, f, p, strip)))
    {
      hide Wrote, DumpInt, DumpString, DumpCode, DumpConstants;
      var source := if f.source == p || strip then None else f.source;
      ghost var g1 := More(g, DumpString(m, source));
      WriteString(source, g);
      ghost var g2 := More(g1, DumpInt(m, f.linedefined));
      WriteInt(f.linedefined, g1);
      ghost var g3 := More(g2, DumpInt(m, f.lastlinedefined));
      WriteInt(f.lastlinedefined, g2);
      WriteChar(f.nups, g3);
      WriteChar(f.numparams, More(g3, [f.nups]));
      WriteChar(f.isVararg, More(More(g3, [f.nups]), [f.numparams]));
      WriteChar(f.maxstacksize, More(More(More(g3, [f.nups]), [f.numparams]), [f.isVararg]));
      FourMore(g3, f.nups, f.numparams, f.isVararg, f.maxstacksize);
      ghost var g4 := More(g3, [f.nups, f.numparams, f.isVararg, f.maxstacksize]);
      WriteInt(|f.code|, g4);
      ghost var g5 := More(g4, DumpInt(m, |f.code|));
      DumpBlock(DumpCode(m, f.code), g5);
      ghost var g6 := More(g5, DumpCode(m, f.code));
      WriteInt(|f.k|, g6);
      ghost var g7 := More(g6, DumpInt(m, |f.k|));
      WriteConstants(f.k, g7);
      HeadLog(m, f, p, strip, g);
      assert More(g7, DumpConstants(m, f.k)) == More(g, DumpHead(m, f, p, strip));
    }

    method WriteFunction(f: Proto, p: Option<Bytes>, ghost g: Log)
      requires Since(g) && SmallAll(f)
      modifies this
      ensures Since(More(g, DumpFunction(m, f, p, strip)))
      decreases f, |f.p| + 1
    {
      hide Wrote, DumpInt, DumpHead, DumpDebug;
      WriteHead(f, p, g);
      ghost var g1 := More(g, DumpHead(m, f, p, strip));
      WriteInt(|f.p|, g1);
      ghost var h := More(g1, DumpInt(m, |f.p|));
      ghost var all := More(h, DumpNested(m, f, 0, strip));
      var i := 0;
      while i < |f.p|
        invariant 0 <= i <= |f.p| && Since(h)
        invariant More(h, DumpNested(m, f, i, strip)) == all
      {
        NestedLog(m, f, i, strip, h);
        WriteFunction(f.p[i], f.source, h);
        h := More(h, DumpFunction(m, f.p[i], f.source, strip));
        i := i + 1;
      }
      assert h == all by { assert h.d + [] == h.d; }
      WriteDebug(f, h);
      FunctionLog(m, f, p, strip, g);
    }

    /** Afterwards the data are the chunk, or what the writer took of it before it failed. */
    method DumpChunk(f: Proto)
      requires status == 0 && data == [] && SmallAll(f)
      modifies this
      ensures status == 0 ==> data == Chunk.Dump(m, f, strip)
      ensures data <= Chunk.Dump(m, f, strip)
    {
      hide DumpFunction;
      ghost var g := Log(false, [], []);
      DumpBlock(Header(m), g);
      WriteFunction(f, None, More(g, Header(m)));
      MoreMore(g, Header(m), DumpFunction(m, f, None, strip));
      assert [] + Chunk.Dump(m, f, strip) == Chunk.Dump(m, f, strip);
    }
  }

  lemma FourMore(g: Log, a: Byte, b: Byte, c: Byte, d: Byte)
    ensures More(More(More(More(g, [a]), [b]), [c]), [d]) == More(g, [a, b, c, d])
  {
    assert g.d + [a] + [b] + [c] + [d] == g.d + [a, b, c, d];
  }

  lemma HeadLog(m: Machine, f: Proto, p: Option<Bytes>, strip: bool, g: Log)
    requires Small(f)
    ensures var source := if f.source == p || strip then None else f.source;
      g.d + DumpString(m, source) + DumpInt(m, f.linedefined) + DumpInt(m, f.lastlinedefined)
      + [f.nups, f.numparams, f.isVararg, f.maxstacksize]
      + DumpInt(m, |f.code|) + DumpCode(m, f.code) + DumpInt(m, |f.k|) + DumpConstants(m, f.k)
      == g.d + DumpHead(m, f, p, strip)
  {
    hide DumpInt, DumpString, DumpCode, DumpConstants;
  }

  lemma DebugLog(m: Machine, f: Proto, g: Log)
    requires Small(f)
    ensures
      g.d + DumpInt(m, |f.lineinfo|) + DumpLines(m, f.lineinfo)
      + DumpInt(m, |f.locvars|) + ConcatMap(v => DumpLocVar(m, v), f.locvars)
      + DumpInt(m, |f.upvalues|) + ConcatMap(s => DumpString(m, s), f.upvalues)
      == g.d + DumpDebug(m, f)
  {
    hide DumpInt, DumpString, DumpLines, ConcatMap;
  }

  lemma NestedLog(m: Machine, f: Proto, i: nat, strip: bool, h: Log)
    requires SmallAll(f) && i < |f.p|
    ensures More(h, DumpNested(m, f, i, strip))
      == More(More(h, DumpFunction(m, f.p[i], f.source, strip)), DumpNested(m, f, i + 1, strip))
  {
    hide DumpFunction;
    MoreMore(h, DumpFunction(m, f.p[i], f.source, strip), DumpNested(m, f, i + 1, strip));
  }

  lemma FunctionLog(m: Machine, f: Proto, p: Option<Bytes>, strip: bool, g: Log)
    requires SmallAll(f)
    ensures More(More(More(More(g, DumpHead(m, f, p, strip)), DumpInt(m, |f.p|)), DumpNested(m, f, 0, strip)),
                 DumpDebug(m, if strip then NoDebug(f) else f))
      == More(g, DumpFunction(m, f, p, strip))
  {
    hide DumpHead, DumpInt, DumpNested, DumpDebug;
    var a, b, c := DumpHead(m, f, p, strip), DumpInt(m, |f.p|), DumpNested(m, f, 0, strip);
    var d := DumpDebug(m, if strip then NoDebug(f) else f);
    assert g.d + a + b + c + d == g.d + (a + b + c + d);
  }
}
