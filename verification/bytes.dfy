/**
 Byte-level building blocks of the Open Interface encoder: Go's fixed-width
 integer types as bounded integers, the big-endian two's-complement split of
 16-bit values, and the packing of ordered boolean flags into one bitfield byte.
 */
module Bytes {

  /** Go's `uint8` / `byte`. */
  type byte = b: int | 0 <= b < 256

  /** Go's `int8`. */
  type int8 = x: int | -128 <= x < 128

  /** Go's `int16`. */
  type int16 = x: int | -32768 <= x < 32768

  /** Go's `uint8(x)` conversion, equivalently `x & 0xFF` on a two's-complement
      value: the low eight bits. Dafny's `%` never returns a negative result,
      which is what the bit mask does. */
  function Low8(x: int): (b: byte)
    ensures (x - b) % 256 == 0
    ensures 0 <= x < 256 ==> b == x
  {
    x % 256
  }

  /** `uint8((v >> 8) & 0xFF)`: Go's `>>` on a signed value is an arithmetic
      shift, that is, division rounding toward minus infinity, which is what
      Dafny's `/` does for a positive divisor. */
  function HighByte(v: int16): (hb: byte)
    ensures v < 0 <==> hb >= 128
    ensures -128 <= v < 128 ==> hb == (if v < 0 then 255 else 0)
  {
    Low8(v / 256)
  }

  /** `uint8((v >> 0) & 0xFF)`. */
  function LowByte(v: int16): (lb: byte)
    ensures (v - lb) % 256 == 0
    ensures 0 <= v < 256 ==> lb == v
  {
    Low8(v)
  }

  /** Reads a big-endian byte pair as a 16-bit two's-complement value, the way
      the robot interprets the Drive, DriveDirect and DrivePWM data bytes. */
  function Join16(hi: byte, lo: byte): int16
  {
    var u := hi * 256 + lo;
    if u >= 32768 then u - 65536 else u
  }

  /** Reads one byte as an 8-bit two's-complement value. */
  function Int8Of(b: byte): int8
  {
    if b >= 128 then b - 256 else b
  }

  /** Splitting a 16-bit value high byte first and reading the pair back gives
      the value again: the encoding loses nothing, negative values included. */
  lemma SplitJoin16(v: int16)
    ensures Join16(HighByte(v), LowByte(v)) == v
  {
    var q := v / 256;
    assert v == 256 * q + LowByte(v);
    assert -128 <= q < 128;
    if q < 0 {
      assert HighByte(v) == q + 256;
    } else {
      assert HighByte(v) == q;
    }
  }

  /** The other direction: every byte pair is the encoding of exactly one
      16-bit value, so the split is a bijection. */
  lemma JoinSplit16(hi: byte, lo: byte)
    ensures HighByte(Join16(hi, lo)) == hi && LowByte(Join16(hi, lo)) == lo
  {
    var v := Join16(hi, lo);
    if hi >= 128 {
      assert v == (hi - 256) * 256 + lo;
      assert v / 256 == hi - 256;
    } else {
      assert v == hi * 256 + lo;
      assert v / 256 == hi;
    }
  }

  /** `uint8(x)` on an `int8` followed by reading the byte back as signed gives
      `x`. */
  lemma Int8RoundTrip(x: int8)
    ensures Int8Of(Low8(x)) == x
  {
  }

  /** -1 is sent as 0xFF 0xFF, and the two "drive straight" radius sentinels
      as 0x80 0x00 and 0x7F 0xFF. */
  lemma TwosComplementExamples()
    ensures HighByte(-1) == 0xFF && LowByte(-1) == 0xFF
    ensures HighByte(-32768) == 0x80 && LowByte(-32768) == 0x00
    ensures HighByte(32767) == 0x7F && LowByte(32767) == 0xFF
  {
  }

  /** 2 to the n. */
  function Pow2(n: nat): (p: nat)
    ensures p >= 1
  {
    if n == 0 then 1 else 2 * Pow2(n - 1)
  }

  lemma {:induction false} Pow2Monotone(m: nat, n: nat)
    requires m <= n
    ensures Pow2(m) <= Pow2(n)
    decreases n
  {
    if m < n {
      Pow2Monotone(m, n - 1);
    }
  }

  /** Bit `i` of `b` (bit 0 is the least significant). */
  predicate Bit(b: nat, i: nat)
  {
    if i == 0 then b % 2 == 1 else Bit(b / 2, i - 1)
  }

  lemma {:induction false} NoBitsOfZero(i: nat)
    ensures !Bit(0, i)
  {
    if i > 0 {
      NoBitsOfZero(i - 1);
    }
  }

  /** A number with no bit set is zero. */
  lemma {:induction false} NoBitsIsZero(b: nat)
    requires forall i: nat :: !Bit(b, i)
    ensures b == 0
  {
    if b > 0 {
      assert !Bit(b, 0);
      forall i: nat
        ensures !Bit(b / 2, i)
      {
        assert !Bit(b, i + 1);
      }
      NoBitsIsZero(b / 2);
    }
  }

  /** Two numbers with the same bits are equal. */
  lemma {:induction false} BitsDetermineByte(b: nat, c: nat)
    requires forall i: nat :: Bit(b, i) <==> Bit(c, i)
    ensures b == c
    decreases b + c
  {
    if b > 0 || c > 0 {
      assert Bit(b, 0) <==> Bit(c, 0);
      forall i: nat
        ensures Bit(b / 2, i) <==> Bit(c / 2, i)
      {
        assert Bit(b, i + 1) <==> Bit(c, i + 1);
      }
      BitsDetermineByte(b / 2, c / 2);
    }
  }

  /** Setting bit `i` of a number below 2^i (one whose bits from `i` up are
      all clear) adds 2^i and changes no other bit; this is why the source's
      `bits |= 0x01 << i` is an addition here. */
  lemma {:induction false} BitOfAddedPower(b: nat, i: nat, j: nat)
    requires b < Pow2(i)
    ensures Bit(b + Pow2(i), j) <==> j == i || Bit(b, j)
    decreases j
  {
    if i == 0 {
      assert b == 0;
      if j > 0 {
        assert (b + Pow2(i)) / 2 == 0;
        NoBitsOfZero(j - 1);
        NoBitsOfZero(j);
      }
    } else {
      var p := Pow2(i - 1);
      assert Pow2(i) == 2 * p;
      if j == 0 {
        assert (b + 2 * p) % 2 == b % 2;
      } else {
        assert (b + 2 * p) / 2 == b / 2 + p;
        BitOfAddedPower(b / 2, i - 1, j - 1);
      }
    }
  }

  lemma BitsOfAddedPower(b: nat, i: nat, c: nat)
    requires b < Pow2(i) && c == b + Pow2(i)
    ensures forall j: nat :: Bit(c, j) <==> j == i || Bit(b, j)
  {
    forall j: nat
      ensures Bit(c, j) <==> j == i || Bit(b, j)
    {
      BitOfAddedPower(b, i, j);
    }
  }

  /** The bitfield byte the source builds with
      `for i, v := range args { if v { bits |= 0x01 << i } }`: flag `i` of the
      ordered list lands on bit `i`, and no bit above the last flag is set. */
  function PackBits(flags: seq<bool>): (b: byte)
    requires |flags| <= 8
    ensures b < Pow2(|flags|)
    ensures forall j: nat {:trigger Bit(b, j)} :: Bit(b, j) <==> j < |flags| && flags[j]
    decreases |flags|
  {
    if |flags| == 0 then
      assert forall j: nat {:trigger Bit(0, j)} :: !Bit(0, j) by {
        forall j: nat { NoBitsOfZero(j); }
      }
      0
    else
      var i := |flags| - 1;
      var prefix := flags[..i];
      var low := PackBits(prefix);
      assert forall j :: 0 <= j < i ==> prefix[j] == flags[j];
      Pow2Monotone(i + 1, 8);
      assert Pow2(8) == 256;
      if flags[i] then
        var high := low + Pow2(i);
        BitsOfAddedPower(low, i, high);
        high
      else
        low
  }

  /** Reads the lowest `n` bits of `b` back as an ordered flag list. */
  function UnpackBits(b: nat, n: nat): (flags: seq<bool>)
    ensures |flags| == n
  {
    seq(n, (i: int) requires 0 <= i => Bit(b, i))
  }

  /** Unpacking a packed bitfield gives back the flags in their table order. */
  lemma UnpackPack(flags: seq<bool>)
    requires |flags| <= 8
    ensures UnpackBits(PackBits(flags), |flags|) == flags
  {
    var b := PackBits(flags);
    assert forall i :: 0 <= i < |flags| ==> UnpackBits(b, |flags|)[i] == flags[i];
  }

  /** A trailing clear flag leaves the packed byte unchanged, so a list
      packs to the same byte as its padding to a wider field. */
  lemma PackPadded(flags: seq<bool>)
    requires |flags| < 8
    ensures PackBits(flags + [false]) == PackBits(flags)
  {
    assert (flags + [false])[..|flags|] == flags;
  }

  /** An all-false flag list packs to the zero byte. */
  lemma {:induction false} PackNone(n: nat)
    requires n <= 8
    ensures PackBits(seq(n, _ => false)) == 0
  {
    if n > 0 {
      assert seq(n, _ => false)[..n - 1] == seq(n - 1, _ => false);
      PackNone(n - 1);
    }
  }

  /** The byte pairs `(a0, b0), (a1, b1), ...` laid out as `a0, b0, a1, b1, ...`,
      built by appending one pair at a time as the source's loops do. */
  function Flatten(pairs: seq<(byte, byte)>): (bs: seq<byte>)
    ensures |bs| == 2 * |pairs|
    ensures forall k :: 0 <= k < |pairs| ==> bs[2 * k] == pairs[k].0 && bs[2 * k + 1] == pairs[k].1
  {
    if |pairs| == 0 then []
    else
      var last := pairs[|pairs| - 1];
      var front := Flatten(pairs[..|pairs| - 1]);
      assert forall k :: 0 <= k < |pairs| - 1 ==> pairs[..|pairs| - 1][k] == pairs[k];
      front + [last.0, last.1]
  }
}
