/** Little-endian decoding of register bursts: byte 0 is the least significant.

    `Unsigned` and `Signed` are the reference definitions (any width, two's
    complement for the signed case) with their encoding partners; `U16`, `S16`,
    `S8` and `U24` are the fixed-width decoders the drivers use, written the way
    the drivers compute them (shift, OR, cast) and tied to the reference.
 */
module LittleEndian {
  import opened Spi

  function Pow256(n: nat): (r: int)
    ensures r >= 1
  {
    if n == 0 then 1 else 256 * Pow256(n - 1)
  }

  /** The unsigned value of a little-endian byte string. */
  function Unsigned(bs: seq<Byte>): nat
  {
    if bs == [] then 0 else bs[0] + 256 * Unsigned(bs[1..])
  }

  /** The `n` little-endian bytes of `v` (reduced modulo 256^n). */
  function Encode(v: nat, n: nat): (bs: seq<Byte>)
    ensures |bs| == n
  {
    if n == 0 then [] else [v % 256] + Encode(v / 256, n - 1)
  }

  /** Two's complement: the value of `bs` read as a signed integer of |bs| bytes. */
  function Signed(bs: seq<Byte>): int
    requires |bs| > 0
  {
    var u := Unsigned(bs);
    if u < Pow256(|bs|) / 2 then u else u - Pow256(|bs|)
  }

  /** The two's-complement encoding of a representable `v` in `n` bytes. */
  function EncodeSigned(v: int, n: nat): (bs: seq<Byte>)
    requires n > 0 && -Pow256(n) / 2 <= v < Pow256(n) / 2
    ensures |bs| == n
  {
    Encode(if v < 0 then v + Pow256(n) else v, n)
  }

  lemma {:induction false} UnsignedBound(bs: seq<Byte>)
    ensures Unsigned(bs) < Pow256(|bs|)
  {
    if bs != [] {
      UnsignedBound(bs[1..]);
    }
  }

  lemma {:induction false} DecodeEncode(v: nat, n: nat)
    requires v < Pow256(n)
    ensures Unsigned(Encode(v, n)) == v
  {
    if n > 0 {
      var bs := Encode(v, n);
      assert bs[1..] == Encode(v / 256, n - 1);
      DecodeEncode(v / 256, n - 1);
    }
  }

  lemma {:induction false} EncodeDecode(bs: seq<Byte>)
    ensures Encode(Unsigned(bs), |bs|) == bs
  {
    if bs != [] {
      var v := Unsigned(bs);
      assert v % 256 == bs[0];
      assert v / 256 == Unsigned(bs[1..]);
      EncodeDecode(bs[1..]);
    }
  }

  /** The most significant byte weighs 256^(n-1). */
  lemma {:induction false} UnsignedSplitLast(bs: seq<Byte>)
    requires |bs| > 0
    ensures Unsigned(bs) == Unsigned(bs[..|bs| - 1]) + Pow256(|bs| - 1) * bs[|bs| - 1]
  {
    if |bs| > 1 {
      UnsignedSplitLast(bs[1..]);
      assert bs[1..][..|bs| - 2] == bs[..|bs| - 1][1..];
    }
  }

  lemma TopByteDecides(lower: int, p: int, top: int)
    requires 0 <= lower < p && 0 <= top < 0x100
    ensures 0 <= lower + p * top < 256 * p
    ensures lower + p * top < 128 * p <==> top < 0x80
  {
    if top >= 0x80 {
      MulMonotone(p, 0x80, top);
    } else {
      MulMonotone(p, top, 0x7F);
    }
    MulMonotone(p, top, 0xFF);
    MulMonotone(p, 0, top);
  }

  lemma MulMonotone(p: int, a: int, b: int)
    requires 0 <= p && a <= b
    ensures p * a <= p * b
  {
    var d := b - a;
    assert p * b == p * a + p * d;
  }

  /** A signed value is negative exactly when bit 7 of its most significant byte is set. */
  lemma SignedIsNegative(bs: seq<Byte>)
    requires |bs| > 0
    ensures -Pow256(|bs|) / 2 <= Signed(bs) < Pow256(|bs|) / 2
    ensures Signed(bs) < 0 <==> bs[|bs| - 1] >= 0x80
  {
    var n := |bs|;
    var p := Pow256(n - 1);
    UnsignedSplitLast(bs);
    UnsignedBound(bs[..n - 1]);
    assert Pow256(n) == 256 * p;
    TopByteDecides(Unsigned(bs[..n - 1]), p, bs[n - 1]);
  }

  lemma SignedRoundTrip(v: int, n: nat)
    requires n > 0 && -Pow256(n) / 2 <= v < Pow256(n) / 2
    ensures Signed(EncodeSigned(v, n)) == v
  {
    DecodeEncode(if v < 0 then v + Pow256(n) else v, n);
  }

  lemma UnsignedPair(lo: Byte, hi: Byte)
    ensures Unsigned([lo, hi]) == lo + 256 * hi
  {
    assert [lo, hi][1..] == [hi];
    assert [hi][1..] == [];
    assert Unsigned([hi]) == hi + 256 * Unsigned([]);
  }

  lemma UnsignedTriple(b0: Byte, b1: Byte, b2: Byte)
    ensures Unsigned([b0, b1, b2]) == b0 + 256 * b1 + 65536 * b2
  {
    assert [b0, b1, b2][1..] == [b1, b2];
    UnsignedPair(b1, b2);
  }

  /** `uint16_t((hi << 8) | lo)`; as `lo < 256`, the OR adds. */
  function U16(lo: Byte, hi: Byte): (r: nat)
    ensures r < 0x1_0000
  {
    lo + 0x100 * hi
  }

  lemma U16IsUnsigned(lo: Byte, hi: Byte)
    ensures U16(lo, hi) == Unsigned([lo, hi])
  {
    UnsignedPair(lo, hi);
  }

  /** `int16_t((hi << 8) | lo)`: the 16-bit pattern read as two's complement. */
  function S16(lo: Byte, hi: Byte): (r: int)
    ensures -0x8000 <= r < 0x8000
    ensures r < 0 <==> hi >= 0x80
  {
    var u := U16(lo, hi);
    if u >= 0x8000 then u - 0x1_0000 else u
  }

  lemma S16IsSigned(lo: Byte, hi: Byte)
    ensures S16(lo, hi) == Signed([lo, hi])
  {
    UnsignedPair(lo, hi);
    assert Pow256(2) == 0x1_0000;
  }

  /** `int8_t(b)`. */
  function S8(b: Byte): (r: int)
    ensures -0x80 <= r < 0x80
    ensures r < 0 <==> b >= 0x80
  {
    if b >= 0x80 then b - 0x100 else b
  }

  lemma S8IsSigned(b: Byte)
    ensures S8(b) == Signed([b])
  {
    assert [b][1..] == [];
    assert Unsigned([b]) == b + 256 * Unsigned([]);
    assert Pow256(1) == 0x100;
  }

  /** `(uint32_t(b2) << 16) | (uint32_t(b1) << 8) | b0`: a 24-bit sample
      (the three shifted bytes occupy disjoint bits, so the ORs add). */
  function U24(b0: Byte, b1: Byte, b2: Byte): (r: nat)
    ensures r < 0x100_0000
  {
    b0 + 0x100 * b1 + 0x1_0000 * b2
  }

  lemma U24IsUnsigned(b0: Byte, b1: Byte, b2: Byte)
    ensures U24(b0, b1, b2) == Unsigned([b0, b1, b2])
  {
    UnsignedTriple(b0, b1, b2);
  }
}
