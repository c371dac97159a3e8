/** Bytes as numbers below 256, their bitwise exclusive-or, and big-endian numbers. */
module Octets {

  type byte = n: int | 0 <= n < 256

  // ---------------------------------------------------------------- exclusive or

  function Pow2(bits: nat): (p: nat)
    ensures p >= 1
  {
    if bits == 0 then 1 else 2 * Pow2(bits - 1)
  }

  /** Without the bit of weight `w`, if it is set. */
  function Below(n: int, w: nat): int {
    if n >= w then n - w else n
  }

  /** Exclusive or of two numbers of the given number of bits, from the highest bit down. */
  function XorBits(a: nat, b: nat, bits: nat): (r: nat)
    requires a < Pow2(bits) && b < Pow2(bits)
    ensures r < Pow2(bits)
  {
    if bits == 0 then 0
    else
      var w := Pow2(bits - 1);
      (if (a >= w) != (b >= w) then w else 0) + XorBits(Below(a, w), Below(b, w), bits - 1)
  }

  lemma {:induction false} XorBitsTwice(a: nat, b: nat, bits: nat)
    requires a < Pow2(bits) && b < Pow2(bits)
    ensures XorBits(XorBits(a, b, bits), b, bits) == a
  {
    if bits > 0 {
      var w := Pow2(bits - 1);
      var low := XorBits(Below(a, w), Below(b, w), bits - 1);
      XorBitsTwice(Below(a, w), Below(b, w), bits - 1);
      assert Below(XorBits(a, b, bits), w) == low;
    }
  }

  lemma ByteBits()
    ensures Pow2(8) == 256
  {
    assert Pow2(4) == 16;
  }

  function Xor(a: byte, b: byte): byte {
    ByteBits();
    XorBits(a, b, 8)
  }

  lemma XorTwice(a: byte, b: byte)
    ensures Xor(Xor(a, b), b) == a
  {
    ByteBits();
    XorBitsTwice(a, b, 8);
  }

  // ---------------------------------------------------------------- big-endian numbers

  function Pow256(width: nat): (p: nat)
    ensures p >= 1
  {
    if width == 0 then 1 else 256 * Pow256(width - 1)
  }

  /** The low `width` bytes of a number, most significant first. */
  function BigEndian(n: nat, width: nat): (bs: seq<byte>)
    ensures |bs| == width
  {
    if width == 0 then [] else BigEndian(n / 256, width - 1) + [n % 256]
  }

  function FromBigEndian(bs: seq<byte>): (n: nat)
    ensures n < Pow256(|bs|)
  {
    if bs == [] then 0 else FromBigEndian(bs[..|bs| - 1]) * 256 + bs[|bs| - 1]
  }

  lemma {:induction false} BigEndianRoundTrip(n: nat, width: nat)
    requires n < Pow256(width)
    ensures FromBigEndian(BigEndian(n, width)) == n
  {
    if width > 0 {
      BigEndianRoundTrip(n / 256, width - 1);
      var bs := BigEndian(n, width);
      assert bs[..|bs| - 1] == BigEndian(n / 256, width - 1);
    }
  }

  lemma DivideByte(high: nat, low: byte)
    ensures (high * 256 + low) / 256 == high && (high * 256 + low) % 256 == low
  {
  }

  lemma {:induction false} FromBigEndianRoundTrip(bs: seq<byte>)
    ensures BigEndian(FromBigEndian(bs), |bs|) == bs
  {
    if bs != [] {
      var last := |bs| - 1;
      FromBigEndianRoundTrip(bs[..last]);
      DivideByte(FromBigEndian(bs[..last]), bs[last]);
      assert bs == bs[..last] + [bs[last]];
    }
  }
}
