/** Loading a precompiled chunk from a stream. */
module Undump {
  import opened ByteStrings
  import opened Chunk
  import opened Zio
  import opened ChunkBack

  datatype Result<T> = Ok(v: T) | Err(e: Error) {
    predicate IsFailure() { Err? }
    function PropagateFailure<U>(): Result<U>
      requires IsFailure()
    {
      Err(e)
    }
    function Extract(): T
      requires !IsFailure()
    {
      v
    }
  }

  /** The value is the one the bytes denote and the bytes after it are left, or the error is the same. */
  predicate Agrees<T(==)>(r: Result<T>, q: Parsed<T>, rest: Bytes) {
    match q
    case Done(v, t) => r == Ok(v) && rest == t
    case Fail(e) => r == Err(e)
  }

  /** What reading some items first makes of the rest. */
  function After<T>(done: seq<T>, q: Parsed<seq<T>>): (r: Parsed<seq<T>>) {
    match q
    case Done(v, t) => Done(done + v, t)
    case Fail(e) => Fail(e)
  }

  lemma AfterNext<T>(done: seq<T>, x: T, q: Parsed<seq<T>>)
    ensures After(done, After([x], q)) == After(done + [x], q)
  {
    if q.Done? { assert done + ([x] + q.v) == (done + [x]) + q.v; }
  }

  lemma AfterNone<T>(done: seq<T>, q: Parsed<seq<T>>)
    ensures After([], q) == q
    ensures forall s :: After(done, Done([], s)) == Done(done, s)
  {
    if q.Done? { assert [] + q.v == q.v; }
    assert done + [] == done;
  }

  lemma ManyNext<T>(item: Bytes -> Parsed<T>, s: Bytes, n: nat, done: seq<T>)
    requires n > 0
    ensures item(s).Done? ==>
      After(done, Many(item, s, n)) == After(done + [item(s).v], Many(item, item(s).rest, n - 1))
    ensures item(s).Fail? ==> After(done, Many(item, s, n)) == Fail(item(s).e)
  {
    if item(s).Done? {
      AfterNext(done, item(s).v, Many(item, item(s).rest, n - 1));
    }
  }

  lemma NestedNext(m: Machine, check: Proto -> bool, s: Bytes, n: nat, source: Option<Bytes>, done: seq<Proto>)
    requires n > 0
    ensures var f := LoadFunction(m, check, s, source);
      f.Done? ==>
      After(done, LoadNested(m, check, s, n, source)) == After(done + [f.v], LoadNested(m, check, f.rest, n - 1, source))
    ensures var f := LoadFunction(m, check, s, source);
      f.Fail? ==> After(done, LoadNested(m, check, s, n, source)) == Fail(f.e)
  {
    hide LoadFunction;
    var f := LoadFunction(m, check, s, source);
    if f.Done? {
      AfterNext(done, f.v, LoadNested(m, check, f.rest, n - 1, source));
    }
  }

  class LoadState {
    const z: Stream
    const m: Machine
    const check: Proto -> bool

    constructor (z: Stream, m: Machine, check: Proto -> bool)
      ensures this.z == z && this.m == m && this.check == check
    {
      this.z, this.m, this.check := z, m, check;
    }

    method LoadBlock(size: nat) returns (r: Result<Bytes>)
      requires z.Valid()
      modifies z
      ensures z.Valid() && Agrees(r, Take(old(z.Pending()), size), z.Pending())
      ensures r.Ok? ==> |r.v| == size
    {
      var b, missing := z.Read(size);
      if missing != 0 { return Err(UnexpectedEnd); }
      return Ok(b);
    }

    method LoadChar() returns (r: Result<Byte>)
      requires z.Valid()
      modifies z
      ensures z.Valid() && Agrees(r, LoadByte(old(z.Pending())), z.Pending())
    {
      var b :- LoadBlock(1);
      return Ok(b[0]);
    }

    method ReadInt() returns (r: Result<Int>)
      requires z.Valid()
      modifies z
      ensures z.Valid() && Agrees(r, LoadInt(m, old(z.Pending())), z.Pending())
      ensures r.Ok? ==> r.v >= 0
    {
      var b :- LoadBlock(4);
      var x := FromWord(Decode(m, b) % INT_RANGE);
      if x < 0 { return Err(BadInteger); }
      return Ok(x);
    }

    method ReadString() returns (r: Result<Option<Bytes>>)
      requires z.Valid()
      modifies z
      ensures z.Valid() && Agrees(r, LoadString(m, old(z.Pending())), z.Pending())
    {
      var b :- LoadBlock(m.sizeT);
      var size := Decode(m, b);
      if size == 0 { return Ok(None); }
      var s :- LoadBlock(size);
      return Ok(Some(s[..size - 1]));
    }

    method ReadConstant() returns (r: Result<Constant>)
      requires z.Valid()
      modifies z
      ensures z.Valid() && Agrees(r, LoadConstant(m, old(z.Pending())), z.Pending())
    {
      hide LoadString, LoadByte;
      var t :- LoadChar();
      if t == LUA_TNIL {
        return Ok(KNil);
      } else if t == LUA_TBOOLEAN {
        var b :- LoadChar();
        return Ok(KBool(b));
      } else if t == LUA_TNUMBER {
        var n :- LoadBlock(8);
        return Ok(KNumber(n));
      } else if t == LUA_TSTRING {
        var s :- ReadString();
        return Ok(KString(s));
      }
      return Err(BadConstant);
    }

    method ReadConstants(n: nat) returns (r: Result<seq<Constant>>)
      requires z.Valid()
      modifies z
      ensures z.Valid() && Agrees(r, LoadConstants(m, old(z.Pending()), n), z.Pending())
    {
      hide LoadConstant;
      ghost var item := s => LoadConstant(m, s);
      ghost var all := Many(item, z.Pending(), n);
      var k, i := [], 0;
      AfterNone(k, all);
      while i < n
        invariant 0 <= i <= n && z.Valid()
        invariant all == After(k, Many(item, z.Pending(), n - i))
      {
        ManyNext(item, z.Pending(), n - i, k);
        var c :- ReadConstant();
        k := k + [c];
        i := i + 1;
      }
      AfterNone(k, all);
      return Ok(k);
    }

    method ReadLocVar() returns (r: Result<LocVar>)
      requires z.Valid()
      modifies z
      ensures z.Valid() && Agrees(r, LoadLocVar(m, old(z.Pending())), z.Pending())
    {
      hide LoadString, LoadInt;
      var varname :- ReadString();
      var startpc :- ReadInt();
      var endpc :- ReadInt();
      return Ok(LocVar(varname, startpc, endpc));
    }

    method ReadLocVars(n: nat) returns (r: Result<seq<LocVar>>)
      requires z.Valid()
      modifies z
      ensures z.Valid() && Agrees(r, Many(s => LoadLocVar(m, s), old(z.Pending()), n), z.Pending())
    {
      hide LoadLocVar;
      ghost var item := s => LoadLocVar(m, s);
      ghost var all := Many(item, z.Pending(), n);
      var vs, i := [], 0;
      AfterNone(vs, all);
      while i < n
        invariant 0 <= i <= n && z.Valid()
        invariant all == After(vs, Many(item, z.Pending(), n - i))
      {
        ManyNext(item, z.Pending(), n - i, vs);
        var v :- ReadLocVar();
        vs := vs + [v];
        i := i + 1;
      }
      AfterNone(vs, all);
      return Ok(vs);
    }

    method ReadNames(n: nat) returns (r: Result<seq<Option<Bytes>>>)
      requires z.Valid()
      modifies z
      ensures z.Valid() && Agrees(r, Many(s => LoadString(m, s), old(z.Pending()), n), z.Pending())
    {
      hide LoadString;
      ghost var item := s => LoadString(m, s);
      ghost var all := Many(item, z.Pending(), n);
      var names, i := [], 0;
      AfterNone(names, all);
      while i < n
        invariant 0 <= i <= n && z.Valid()
        invariant all == After(names, Many(item, z.Pending(), n - i))
      {
        ManyNext(item, z.Pending(), n - i, names);
        var s :- ReadString();
        names := names + [s];
        i := i + 1;
      }
      AfterNone(names, all);
      return Ok(names);
    }

    method ReadDebug() returns (r: Result<(seq<Int>, seq<LocVar>, seq<Option<Bytes>>)>)
      requires z.Valid()
      modifies z
      ensures z.Valid() && Agrees(r, LoadDebug(m, old(z.Pending())), z.Pending())
    {
      hide LoadInt, LoadLocVar, LoadString, Many, Take, Words, Ints;
      var sizelineinfo :- ReadInt();
      var size: int := sizelineinfo;
      var b :- LoadBlock(4 * size);
      var sizelocvars :- ReadInt();
      var locvars :- ReadLocVars(sizelocvars);
      var sizeupvalues :- ReadInt();
      var upvalues :- ReadNames(sizeupvalues);
      return Ok((Ints(Words(m, b, sizelineinfo)), locvars, upvalues));
    }

    method ReadHead(p: Option<Bytes>) returns (r: Result<Proto>)
      requires z.Valid()
      modifies z
      ensures z.Valid() && Agrees(r, LoadHead(m, old(z.Pending()), p), z.Pending())
    {
      hide LoadInt, LoadString, LoadByte, LoadConstants, Take, Words;
      var source :- ReadString();
      var linedefined :- ReadInt();
      var lastlinedefined :- ReadInt();
      var nups :- LoadChar();
      var numparams :- LoadChar();
      var isVararg :- LoadChar();
      var maxstacksize :- LoadChar();
      var sizecode :- ReadInt();
      var size: int := sizecode;
      var code :- LoadBlock(4 * size);
      var sizek :- ReadInt();
      var k :- ReadConstants(sizek);
      return Ok(Proto(if source.None? then p else source, linedefined, lastlinedefined,
                      nups, numparams, isVararg, maxstacksize, Words(m, code, sizecode), k, [], [], [], []));
    }

    method ReadFunction(p: Option<Bytes>) returns (r: Result<Proto>)
      requires z.Valid()
      modifies z
      ensures z.Valid() && Agrees(r, LoadFunction(m, check, old(z.Pending()), p), z.Pending())
      decreases |z.Pending()|, 0
    {
      hide LoadHead, LoadInt, LoadNested, LoadDebug;
      var f :- ReadHead(p);
      var sizep :- ReadInt();
      var nested :- ReadNested(sizep, f.source);
      var d :- ReadDebug();
      var g := f.(p := nested, lineinfo := d.0, locvars := d.1, upvalues := d.2);
      if !check(g) { return Err(BadCode); }
      return Ok(g);
    }

    method ReadNested(n: nat, source: Option<Bytes>) returns (r: Result<seq<Proto>>)
      requires z.Valid()
      modifies z
      ensures z.Valid() && Agrees(r, LoadNested(m, check, old(z.Pending()), n, source), z.Pending())
      decreases |z.Pending()|, 1
    {
      hide LoadFunction;
      ghost var all := LoadNested(m, check, z.Pending(), n, source);
      var p, i := [], 0;
      AfterNone(p, all);
      while i < n
        invariant 0 <= i <= n && z.Valid() && |z.Pending()| <= |old(z.Pending())|
        invariant all == After(p, LoadNested(m, check, z.Pending(), n - i, source))
      {
        NestedNext(m, check, z.Pending(), n - i, source, p);
        var f :- ReadFunction(source);
        p := p + [f];
        i := i + 1;
      }
      AfterNone(p, all);
      return Ok(p);
    }

    /** However the reader splits the bytes, the result depends on the bytes only. */
    method UndumpChunk() returns (r: Result<Proto>)
      requires z.Valid()
      modifies z
      ensures z.Valid() && Agrees(r, Chunk.Undump(m, check, old(z.Pending())), z.Pending())
    {
      hide LoadFunction;
      var h :- LoadBlock(12);
      if h != Header(m) { return Err(BadHeader); }
      r := ReadFunction(Some(UNKNOWN));
    }
  }

  /** Loading through a reader that hands out `chunks'. */
  method LoadChunks(m: Machine, check: Proto -> bool, chunks: seq<Bytes>) returns (r: Result<Proto>)
    ensures var q := Chunk.Undump(m, check, Flat(chunks));
      r == if q.Done? then Ok(q.v) else Err(q.e)
  {
    var z := new Stream(chunks);
    var s := new LoadState(z, m, check);
    r := s.UndumpChunk();
  }

  /** However the dump of a function is split into non-empty chunks, loading them gives the function back. */
  method LoadSplitDump(m: Machine, check: Proto -> bool, f: Proto, chunks: seq<Bytes>) returns (r: Result<Proto>)
    requires FitsAll(m, f) && Named(f)
    requires NoneEmpty(chunks) && Concat(chunks) == Dump(m, f, false)
    ensures r == if CheckedAll(check, f) then Ok(f) else Err(BadCode)
  {
    hide Restored, FitsAll, Named, CheckedAll, Dump, Chunk.Undump;
    FlatConcat(chunks);
    UndumpDump(m, check, f, false);
    RestoredSame(f, None, Some(UNKNOWN));
    r := LoadChunks(m, check, chunks);
  }
}
