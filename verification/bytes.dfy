/**
 * Byte strings and the two `math/big` conversions the key loader uses:
 * `new(big.Int).SetBytes(b)` (big-endian unsigned value of a byte slice) and
 * `(*big.Int).Int64()` (the low 64 bits read as a signed two's-complement int64).
 */
module Bytes {

  type byte = x: int | 0 <= x < 256

  function Pow256(n: nat): (p: nat)
    ensures p >= 1
  {
    if n == 0 then 1 else 256 * Pow256(n - 1)
  }

  /** The value `SetBytes` gives a byte slice: most significant byte first. */
  function BigEndian(bs: seq<byte>): nat
  {
    if bs == [] then 0 else BigEndian(bs[..|bs| - 1]) * 256 + bs[|bs| - 1]
  }

  /** The minimal big-endian representation of `n` (what `(*big.Int).Bytes()` returns; empty for 0). */
  function MinimalBytes(n: nat): (bs: seq<byte>)
    ensures bs == [] || bs[0] != 0
    ensures |bs| == 0 <==> n == 0
  {
    if n == 0 then [] else MinimalBytes(n / 256) + [n % 256]
  }

  /** `BigEndian` reads back every number written by `MinimalBytes`. */
  lemma {:induction false} BigEndianOfMinimalBytes(n: nat)
    ensures BigEndian(MinimalBytes(n)) == n
  {
    if n != 0 {
      var bs := MinimalBytes(n);
      assert bs[..|bs| - 1] == MinimalBytes(n / 256);
      BigEndianOfMinimalBytes(n / 256);
    }
  }

  /** A value of `k` bytes is below 256^k. */
  lemma {:induction false} BigEndianBound(bs: seq<byte>)
    ensures BigEndian(bs) < Pow256(|bs|)
  {
    if bs != [] {
      BigEndianBound(bs[..|bs| - 1]);
    }
  }

  /** Leading zero bytes do not change the value. */
  lemma {:induction false} BigEndianLeadingZero(bs: seq<byte>)
    ensures BigEndian([0] + bs) == BigEndian(bs)
  {
    if bs != [] {
      var zs := [0] + bs;
      assert zs[..|zs| - 1] == [0] + bs[..|bs| - 1];
      BigEndianLeadingZero(bs[..|bs| - 1]);
    }
  }

  /** Byte strings without leading zeros are exactly the minimal representations of their values. */
  lemma {:induction false} MinimalBytesOfBigEndian(bs: seq<byte>)
    requires bs == [] || bs[0] != 0
    ensures MinimalBytes(BigEndian(bs)) == bs
  {
    if bs != [] {
      var init := bs[..|bs| - 1];
      var v := BigEndian(bs);
      if init == [] {
        assert BigEndian(init) == 0;
      } else {
        MinimalBytesOfBigEndian(init);
        BigEndianPositive(init);
      }
      assert v / 256 == BigEndian(init);
      assert v % 256 == bs[|bs| - 1];
    }
  }

  lemma {:induction false} BigEndianPositive(bs: seq<byte>)
    requires bs != [] && bs[0] != 0
    ensures BigEndian(bs) > 0
  {
    if |bs| > 1 {
      BigEndianPositive(bs[..|bs| - 1]);
    }
  }

  const TwoTo63: int := 0x8000_0000_0000_0000
  const TwoTo64: int := 0x1_0000_0000_0000_0000

  /**
   * `(*big.Int).Int64()` on a non-negative value: the low 64 bits, reinterpreted as a
   * signed 64-bit integer (values of 2^63 and above wrap around).
   */
  function Int64(n: nat): (r: int)
    ensures -TwoTo63 <= r < TwoTo63
    ensures n < TwoTo63 ==> r == n
    ensures (r - n) % TwoTo64 == 0
  {
    var low := n % TwoTo64;
    if low < TwoTo63 then low else low - TwoTo64
  }
}
