/** Byte strings, and numbers stored with the lowest byte first. */
module ByteStrings {
  type Byte = x: int | 0 <= x < 256
  type Bytes = seq<Byte>
  type Word = x: int | 0 <= x < 0x1_0000_0000

  function Pow256(w: nat): (r: int)
    ensures r >= 1
  {
    if w == 0 then 1 else 256 * Pow256(w - 1)
  }

  function Little(x: nat, w: nat): (r: Bytes)
    ensures |r| == w
  {
    if w == 0 then [] else [x % 256] + Little(x / 256, w - 1)
  }

  function FromLittle(b: Bytes): (r: nat) {
    if b == [] then 0 else b[0] + 256 * FromLittle(b[1..])
  }

  lemma {:induction false} LittleBack(x: nat, w: nat)
    requires x < Pow256(w)
    ensures FromLittle(Little(x, w)) == x
  {
    if w > 0 {
      LittleBack(x / 256, w - 1);
      assert Little(x, w)[1..] == Little(x / 256, w - 1);
    }
  }

  lemma {:induction false} FromLittleAppend(a: Bytes, b: Bytes)
    ensures FromLittle(a + b) == FromLittle(a) + Pow256(|a|) * FromLittle(b)
  {
    if a == [] {
      assert a + b == b;
    } else {
      assert (a + b)[1..] == a[1..] + b;
      FromLittleAppend(a[1..], b);
      Times(256, Pow256(|a| - 1), FromLittle(b));
    }
  }

  lemma Times(a: int, b: int, c: int)
    ensures a * (b * c) == (a * b) * c
  {
  }

  lemma Pow256Four()
    ensures Pow256(4) == 0x1_0000_0000
  {
    assert Pow256(0) == 1 && Pow256(1) == 256 && Pow256(2) == 65536 && Pow256(3) == 16777216;
  }

  function Concat(chunks: seq<Bytes>): (r: Bytes) {
    if chunks == [] then [] else chunks[0] + Concat(chunks[1..])
  }
}
