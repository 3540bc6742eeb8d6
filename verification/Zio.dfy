/** The buffered input stream: a reader hands out chunks, the bytes are consumed across them. */
module Zio {
  import opened ByteStrings

  const EOZ: int := -1

  /** The largest size_t, here that of a machine where it has 32 bits. */
  const SIZE_MAX: nat := 0xffff_ffff

  /** What a stream of chunks holds: the reader ends it with an empty chunk, or by having no more. */
  function Flat(chunks: seq<Bytes>): (r: Bytes) {
    if chunks == [] || chunks[0] == [] then [] else chunks[0] + Flat(chunks[1..])
  }

  predicate NoneEmpty(chunks: seq<Bytes>) {
    forall i :: 0 <= i < |chunks| ==> chunks[i] != []
  }

  /** How the bytes are split into non-empty chunks does not matter. */
  lemma {:induction false} FlatConcat(chunks: seq<Bytes>)
    requires NoneEmpty(chunks)
    ensures Flat(chunks) == Concat(chunks)
  {
    if chunks != [] { FlatConcat(chunks[1..]); }
  }

  class Stream {
    var chunks: seq<Bytes>
    var buff: Bytes
    var p: nat
    var n: nat

    ghost predicate Valid()
      reads this
    {
      p + n == |buff|
    }

    /** The bytes not read yet. */
    ghost function Pending(): Bytes
      requires Valid()
      reads this
    {
      buff[p..] + Flat(chunks)
    }

    constructor (chunks: seq<Bytes>)
      ensures Valid() && Pending() == Flat(chunks)
    {
      this.chunks := chunks;
      buff, p, n := [], 0, 0;
    }

    /** luaZ_fill: the first byte of the next chunk; at the end nothing changes, and the count of bytes
        not read stays as it was. */
    method Fill() returns (c: int)
      requires p == |buff|
      modifies this
      ensures -1 <= c < 256 && (c == EOZ <==> Flat(old(chunks)) == [])
      ensures c == EOZ ==> n == old(n) && p == old(p) && buff == old(buff)
      ensures c != EOZ ==> Valid() && [c] + Pending() == Flat(old(chunks))
      ensures c != EOZ ==> p == 1 && c == buff[0]
    {
      var chunk := [];
      if chunks != [] {
        chunk := chunks[0];
        chunks := chunks[1..];
      }
      if chunk == [] { return EOZ; }
      n := |chunk| - 1;
      buff, p := chunk, 0;
      c := buff[p];
      p := p + 1;
      assert [c] + buff[p..] == buff;
    }

    /** The next byte. The count is decremented before it is looked at: at the end of the stream it wraps,
        and from then on stands for bytes that are not there, so there must be no second call. */
    method Getc() returns (c: int)
      requires Valid()
      modifies this
      ensures -1 <= c < 256
      ensures c == EOZ <==> old(Pending()) == []
      ensures c != EOZ ==> Valid() && c == old(Pending())[0] && Pending() == old(Pending())[1..]
      ensures c == EOZ ==> n == SIZE_MAX && p == |buff| && !Valid()
    {
      ghost var was := Pending();
      var more := n > 0;
      n := if more then n - 1 else SIZE_MAX;
      if more {
        c := buff[p];
        p := p + 1;
      } else {
        assert was == Flat(chunks);
        c := Fill();
      }
    }

    method Lookahead() returns (c: int)
      requires Valid()
      modifies this
      ensures Valid()
      ensures c == EOZ <==> old(Pending()) == []
      ensures c == EOZ ==> n == 0
      ensures c != EOZ ==> n > 0 && c == Pending()[0] && Pending() == old(Pending())
    {
      ghost var was := Pending();
      if n == 0 {
        assert was == Flat(chunks);
        c := Fill();
        if c == EOZ { return; }
        ghost var tail := Pending();
        n := n + 1;
        p := p - 1;
        assert was == [c] + tail;
        assert Pending() == [c] + tail;
      }
      return buff[p];
    }

    /** Reads `size' bytes, or all that is left; returns how many are missing. */
    method Read(size: nat) returns (b: Bytes, missing: nat)
      requires Valid()
      modifies this
      ensures Valid()
      ensures missing == if size <= |old(Pending())| then 0 else size - |old(Pending())|
      ensures size <= |old(Pending())| ==> b == old(Pending())[..size] && Pending() == old(Pending())[size..]
      ensures size > |old(Pending())| ==> b == old(Pending())
    {
      hide Flat;
      ghost var all := Pending();
      b, missing := [], size;
      while missing > 0
        invariant Valid() && |b| + missing == size
        invariant all == b + Pending()
      {
        ghost var was := Pending();
        var c := Lookahead();
        if c == EOZ {
          assert was == [];
          return;
        }
        var d := Copy(if missing <= n then missing else n);
        assert all == (b + d) + Pending();
        b := b + d;
        missing := missing - |d|;
      }
      assert all[..size] == b && all[size..] == Pending();
    }

    /** Takes bytes of the current chunk. */
    method Copy(m: nat) returns (d: Bytes)
      requires Valid() && m <= n
      modifies this
      ensures Valid() && |d| == m && old(Pending()) == d + Pending()
    {
      d := buff[p..p + m];
      assert buff[p..] == d + buff[p + m..];
      n := n - m;
      p := p + m;
    }
  }
}
