/** Precompiled chunks: the bytes a function is dumped as, and how they are read back. */
module Chunk {
  import opened ByteStrings

  const INT_RANGE: int := 0x1_0000_0000
  const INT_MAX: int := 0x7fff_ffff
  type Int = x: int | -0x8000_0000 <= x <= 0x7fff_ffff

  datatype Option<T> = None | Some(value: T)

  /** What differs between machines: the order of the bytes of a number and the width of size_t. */
  datatype Machine = Machine(little: bool, sizeT: Byte)

  /** A number constant is its eight bytes. */
  type Number = b: Bytes | |b| == 8 witness [0, 0, 0, 0, 0, 0, 0, 0]

  datatype Constant = KNil | KBool(b: Byte) | KNumber(n: Number) | KString(s: Option<Bytes>)
  datatype LocVar = LocVar(varname: Option<Bytes>, startpc: Int, endpc: Int)
  datatype Proto = Proto(
    source: Option<Bytes>, linedefined: Int, lastlinedefined: Int,
    nups: Byte, numparams: Byte, isVararg: Byte, maxstacksize: Byte,
    code: seq<Word>, k: seq<Constant>, p: seq<Proto>,
    lineinfo: seq<Int>, locvars: seq<LocVar>, upvalues: seq<Option<Bytes>>)

  // ----- numbers as bytes -----

  function Reversed(b: Bytes): (r: Bytes)
    ensures |r| == |b|
    ensures forall i :: 0 <= i < |b| ==> r[i] == b[|b| - 1 - i]
  {
    if b == [] then [] else Reversed(b[1..]) + [b[0]]
  }

  function Encode(m: Machine, x: nat, w: nat): (r: Bytes)
    ensures |r| == w
  {
    if m.little then Little(x, w) else Reversed(Little(x, w))
  }

  function Decode(m: Machine, b: Bytes): (r: nat) {
    if m.little then FromLittle(b) else FromLittle(Reversed(b))
  }

  lemma DecodeEncode(m: Machine, x: nat, w: nat)
    requires x < Pow256(w)
    ensures Decode(m, Encode(m, x, w)) == x
  {
    LittleBack(x, w);
    assert Reversed(Reversed(Little(x, w))) == Little(x, w);
  }

  function FromWord(x: nat): int { if x > INT_MAX then x - INT_RANGE else x }
  function ToWord(x: Int): (r: Word) { if x < 0 then x + INT_RANGE else x }

  // ----- dumping -----

  function ConcatMap<T>(f: T -> Bytes, xs: seq<T>): (r: Bytes) {
    if xs == [] then [] else f(xs[0]) + ConcatMap(f, xs[1..])
  }

  function DumpInt(m: Machine, x: Int): (r: Bytes)
    ensures |r| == 4
  {
    Encode(m, ToWord(x), 4)
  }

  function DumpSize(m: Machine, x: nat): (r: Bytes)
    ensures |r| == m.sizeT
  {
    Encode(m, x, m.sizeT)
  }

  function DumpString(m: Machine, s: Option<Bytes>): (r: Bytes) {
    match s
    case None => DumpSize(m, 0)
    case Some(b) => DumpSize(m, |b| + 1) + b + [0]
  }

  const LUA_TNIL: Byte := 0
  const LUA_TBOOLEAN: Byte := 1
  const LUA_TNUMBER: Byte := 3
  const LUA_TSTRING: Byte := 4

  function DumpConstant(m: Machine, k: Constant): (r: Bytes) {
    match k
    case KNil => [LUA_TNIL]
    case KBool(b) => [LUA_TBOOLEAN, b]
    case KNumber(n) => [LUA_TNUMBER] + n
    case KString(s) => [LUA_TSTRING] + DumpString(m, s)
  }

  function DumpLocVar(m: Machine, v: LocVar): (r: Bytes) {
    DumpString(m, v.varname) + DumpInt(m, v.startpc) + DumpInt(m, v.endpc)
  }

  function DumpCode(m: Machine, code: seq<Word>): (r: Bytes) {
    ConcatMap((x: Word) => Encode(m, x, 4), code)
  }

  function DumpConstants(m: Machine, k: seq<Constant>): (r: Bytes) {
    ConcatMap(x => DumpConstant(m, x), k)
  }

  /** The lines, the local variables and the names of the upvalues, each after its number. */
  function DumpDebug(m: Machine, f: Proto): (r: Bytes)
    requires Small(f)
  {
    DumpInt(m, |f.lineinfo|) + DumpLines(m, f.lineinfo)
    + DumpInt(m, |f.locvars|) + ConcatMap(v => DumpLocVar(m, v), f.locvars)
    + DumpInt(m, |f.upvalues|) + ConcatMap(s => DumpString(m, s), f.upvalues)
  }

  function DumpLines(m: Machine, lines: seq<Int>): (r: Bytes) {
    ConcatMap((x: Int) => DumpInt(m, x), lines)
  }

  /** The sizes of a function's vectors are ints. */
  predicate Small(f: Proto) {
    && |f.code| <= INT_MAX && |f.k| <= INT_MAX && |f.p| <= INT_MAX
    && |f.lineinfo| <= INT_MAX && |f.locvars| <= INT_MAX && |f.upvalues| <= INT_MAX
  }

  predicate SmallAll(f: Proto)
    decreases f
  {
    Small(f) && forall i :: 0 <= i < |f.p| ==> SmallAll(f.p[i])
  }

  function NoDebug(f: Proto): Proto {
    f.(lineinfo := [], locvars := [], upvalues := [])
  }

  function DumpHead(m: Machine, f: Proto, p: Option<Bytes>, strip: bool): (r: Bytes)
    requires Small(f)
  {
    DumpString(m, if f.source == p || strip then None else f.source)
    + DumpInt(m, f.linedefined) + DumpInt(m, f.lastlinedefined)
    + [f.nups, f.numparams, f.isVararg, f.maxstacksize]
    + DumpInt(m, |f.code|) + DumpCode(m, f.code)
    + DumpInt(m, |f.k|) + DumpConstants(m, f.k)
  }

  /** `p' is the source of the enclosing function. */
  function DumpFunction(m: Machine, f: Proto, p: Option<Bytes>, strip: bool): (r: Bytes)
    requires SmallAll(f)
    decreases f, |f.p| + 1
  {
    DumpHead(m, f, p, strip) + DumpInt(m, |f.p|) + DumpNested(m, f, 0, strip)
    + DumpDebug(m, if strip then NoDebug(f) else f)
  }

  function DumpNested(m: Machine, f: Proto, i: nat, strip: bool): (r: Bytes)
    requires SmallAll(f) && i <= |f.p|
    decreases f, |f.p| - i
  {
    if i == |f.p| then []
    else DumpFunction(m, f.p[i], f.source, strip) + DumpNested(m, f, i + 1, strip)
  }

  /** The signature, the version and format, and what the machine is like. */
  function Header(m: Machine): (r: Bytes)
    ensures |r| == 12
  {
    [27, 76, 117, 97, 0x51, 0, if m.little then 1 else 0, 4, m.sizeT, 4, 8, 0]
  }

  function Dump(m: Machine, f: Proto, strip: bool): (r: Bytes)
    requires SmallAll(f)
  {
    Header(m) + DumpFunction(m, f, None, strip)
  }

  // ----- reading back -----

  datatype Error = UnexpectedEnd | BadInteger | BadConstant | BadCode | BadHeader

  /** A value and the bytes after it, or the error raised. */
  datatype Parsed<T> = Done(v: T, rest: Bytes) | Fail(e: Error) {
    predicate IsFailure() { Fail? }
    function PropagateFailure<U>(): Parsed<U>
      requires IsFailure()
    {
      Fail(e)
    }
    function Extract(): (T, Bytes)
      requires !IsFailure()
    {
      (v, rest)
    }
  }

  function Take(s: Bytes, n: nat): (r: Parsed<Bytes>) {
    if n <= |s| then Done(s[..n], s[n..]) else Fail(UnexpectedEnd)
  }

  function LoadByte(s: Bytes): (r: Parsed<Byte>) {
    var (b, s1) :- Take(s, 1);
    Done(b[0], s1)
  }

  function LoadInt(m: Machine, s: Bytes): (r: Parsed<Int>)
    ensures r.Done? ==> r.v >= 0 && |r.rest| + 4 == |s|
  {
    var (b, s1) :- Take(s, 4);
    var x := FromWord(Decode(m, b) % INT_RANGE);
    if x < 0 then Fail(BadInteger) else Done(x, s1)
  }

  function LoadString(m: Machine, s: Bytes): (r: Parsed<Option<Bytes>>)
    ensures r.Done? ==> |r.rest| <= |s|
  {
    var (b, s1) :- Take(s, m.sizeT);
    var size := Decode(m, b);
    if size == 0 then Done(None, s1)
    else
      var (t, s2) :- Take(s1, size);
      Done(Some(t[..size - 1]), s2)
  }

  function LoadConstant(m: Machine, s: Bytes): (r: Parsed<Constant>)
    ensures r.Done? ==> |r.rest| <= |s|
  {
    var (t, s1) :- LoadByte(s);
    if t == LUA_TNIL then Done(KNil, s1)
    else if t == LUA_TBOOLEAN then
      var (b, s2) :- LoadByte(s1);
      Done(KBool(b), s2)
    else if t == LUA_TNUMBER then
      var (n, s2) :- Take(s1, 8);
      Done(KNumber(n), s2)
    else if t == LUA_TSTRING then
      var (str, s2) :- LoadString(m, s1);
      Done(KString(str), s2)
    else Fail(BadConstant)
  }

  function LoadLocVar(m: Machine, s: Bytes): (r: Parsed<LocVar>)
    ensures r.Done? ==> |r.rest| <= |s|
  {
    var (varname, s1) :- LoadString(m, s);
    var (startpc, s2) :- LoadInt(m, s1);
    var (endpc, s3) :- LoadInt(m, s2);
    Done(LocVar(varname, startpc, endpc), s3)
  }

  /** The words in a block of memory. */
  function Words(m: Machine, b: Bytes, n: nat): (r: seq<Word>)
    requires |b| == 4 * n
    ensures |r| == n
  {
    if n == 0 then [] else [Decode(m, b[..4]) % INT_RANGE] + Words(m, b[4..], n - 1)
  }

  function Ints(ws: seq<Word>): (r: seq<Int>)
    ensures |r| == |ws|
  {
    if ws == [] then [] else [FromWord(ws[0])] + Ints(ws[1..])
  }

  function Many<T>(item: Bytes -> Parsed<T>, s: Bytes, n: nat): (r: Parsed<seq<T>>)
    decreases n
  {
    if n == 0 then Done([], s)
    else
      var (x, s1) :- item(s);
      var (xs, s2) :- Many(item, s1, n - 1);
      Done([x] + xs, s2)
  }

  /** What is read before the nested functions; the source is that of the enclosing function unless given. */
  function LoadHead(m: Machine, s: Bytes, p: Option<Bytes>): (r: Parsed<Proto>)
    ensures r.Done? ==> |r.rest| < |s|
  {
    var (source, s1) :- LoadString(m, s);
    var (linedefined, s2) :- LoadInt(m, s1);
    var (lastlinedefined, s3) :- LoadInt(m, s2);
    var (nups, s4) :- LoadByte(s3);
    var (numparams, s5) :- LoadByte(s4);
    var (isVararg, s6) :- LoadByte(s5);
    var (maxstacksize, s7) :- LoadByte(s6);
    var (sizecode, s8) :- LoadInt(m, s7);
    var (b, s9) :- Take(s8, 4 * sizecode);
    var (sizek, s10) :- LoadInt(m, s9);
    var (k, s11) :- LoadConstants(m, s10, sizek);
    Done(Proto(if source.None? then p else source, linedefined, lastlinedefined,
               nups, numparams, isVararg, maxstacksize, Words(m, b, sizecode), k, [], [], [], []), s11)
  }

  function LoadConstants(m: Machine, s: Bytes, n: nat): (r: Parsed<seq<Constant>>)
    ensures r.Done? ==> |r.rest| <= |s|
  {
    ManyShrinks(s => LoadConstant(m, s), s, n);
    Many(s => LoadConstant(m, s), s, n)
  }

  function LoadDebug(m: Machine, s: Bytes): (r: Parsed<(seq<Int>, seq<LocVar>, seq<Option<Bytes>>)>)
    ensures r.Done? ==> |r.rest| <= |s|
  {
    var (sizelineinfo, s1) :- LoadInt(m, s);
    var (b, s2) :- Take(s1, 4 * sizelineinfo);
    var (sizelocvars, s3) :- LoadInt(m, s2);
    ManyShrinks(s => LoadLocVar(m, s), s3, sizelocvars);
    var (locvars, s4) :- Many(s => LoadLocVar(m, s), s3, sizelocvars);
    var (sizeupvalues, s5) :- LoadInt(m, s4);
    ManyShrinks(s => LoadString(m, s), s5, sizeupvalues);
    var (upvalues, s6) :- Many(s => LoadString(m, s), s5, sizeupvalues);
    Done((Ints(Words(m, b, sizelineinfo)), locvars, upvalues), s6)
  }

  /** `check' is the bytecode checker. */
  function LoadFunction(m: Machine, check: Proto -> bool, s: Bytes, p: Option<Bytes>): (r: Parsed<Proto>)
    ensures r.Done? ==> |r.rest| < |s|
    decreases |s|, 0
  {
    var (f, s1) :- LoadHead(m, s, p);
    var (sizep, s2) :- LoadInt(m, s1);
    var (nested, s3) :- LoadNested(m, check, s2, sizep, f.source);
    var (d, s4) :- LoadDebug(m, s3);
    var g := f.(p := nested, lineinfo := d.0, locvars := d.1, upvalues := d.2);
    if check(g) then Done(g, s4) else Fail(BadCode)
  }

  function LoadNested(m: Machine, check: Proto -> bool, s: Bytes, n: nat, source: Option<Bytes>): (r: Parsed<seq<Proto>>)
    ensures r.Done? ==> |r.rest| <= |s|
    decreases |s|, n + 1
  {
    if n == 0 then Done([], s)
    else
      var (f, s1) :- LoadFunction(m, check, s, source);
      var (fs, s2) :- LoadNested(m, check, s1, n - 1, source);
      Done([f] + fs, s2)
  }

  /** "=?", the source of a main function dumped without one. */
  const UNKNOWN: Bytes := [61, 63]

  function Undump(m: Machine, check: Proto -> bool, s: Bytes): (r: Parsed<Proto>) {
    var (h, s1) :- Take(s, 12);
    if h != Header(m) then Fail(BadHeader) else LoadFunction(m, check, s1, Some(UNKNOWN))
  }

  lemma {:induction false} ManyShrinks<T>(item: Bytes -> Parsed<T>, s: Bytes, n: nat)
    requires forall t :: item(t).Done? ==> |item(t).rest| <= |t|
    ensures Many(item, s, n).Done? ==> |Many(item, s, n).rest| <= |s|
    decreases n
  {
    if n > 0 && item(s).Done? { ManyShrinks(item, item(s).rest, n - 1); }
  }
}
