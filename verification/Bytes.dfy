/** Integers in byte buffers, least significant byte first. */
module Bytes {

  type byte = x: int | 0 <= x < 256

  const TWO32 := 0x1_0000_0000
  const TWO64 := 0x1_0000_0000_0000_0000

  function Pow256(n: nat): (r: nat)
    ensures 0 < r
  {
    if n == 0 then 1 else 256 * Pow256(n - 1)
  }

  lemma Widths()
    ensures Pow256(4) == TWO32 && Pow256(8) == TWO64
  {
    assert Pow256(2) == 0x1_0000;
    assert Pow256(4) == TWO32;
    assert Pow256(6) == 0x1_0000 * TWO32;
  }

  /** The low n bytes of w. */
  function Encode(w: nat, n: nat): (b: seq<byte>)
    ensures |b| == n
  {
    if n == 0 then [] else [w % 256] + Encode(w / 256, n - 1)
  }

  function Decode(b: seq<byte>): nat {
    if b == [] then 0 else b[0] + 256 * Decode(b[1..])
  }

  lemma {:induction false} DecodeEncode(w: nat, n: nat)
    requires w < Pow256(n)
    ensures Decode(Encode(w, n)) == w
  {
    if n > 0 {
      DecodeEncode(w / 256, n - 1);
      assert Encode(w, n)[1..] == Encode(w / 256, n - 1);
    }
  }

  // ---------------------------------------------------------------- words in a buffer

  /** The 64-bit word at the offset. */
  function Word(b: seq<byte>, offset: nat): nat
    requires offset + 8 <= |b|
  {
    Decode(b[offset..offset + 8])
  }

  function PutWord(b: seq<byte>, offset: nat, w: nat): (r: seq<byte>)
    requires offset + 8 <= |b|
    ensures |r| == |b|
  {
    b[..offset] + Encode(w, 8) + b[offset + 8..]
  }

  lemma PutThenWord(b: seq<byte>, offset: nat, w: nat)
    requires offset + 8 <= |b| && w < TWO64
    ensures Word(PutWord(b, offset, w), offset) == w
  {
    Widths();
    DecodeEncode(w, 8);
    assert PutWord(b, offset, w)[offset..offset + 8] == Encode(w, 8);
  }

  /** A write touches nothing outside its eight bytes. */
  lemma PutElsewhere(b: seq<byte>, offset: nat, w: nat, lo: nat, hi: nat)
    requires offset + 8 <= |b| && lo <= hi <= |b| && (hi <= offset || offset + 8 <= lo)
    ensures PutWord(b, offset, w)[lo..hi] == b[lo..hi]
  {
  }
}
