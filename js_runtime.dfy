/**
 * The parts of JavaScript's number and Buffer semantics that the decoder relies on:
 * bytes, the 32-bit conversions behind `<<` and `>>> 0`, the shift-and-add loop that
 * every integer read runs, and `Buffer.prototype.slice` index clamping.
 */
module JsRuntime {

  /** One element of a Node.js Buffer or Uint8Array. */
  type Byte = b: int | 0 <= b < 256

  const TWO_31: int := 0x8000_0000
  const TWO_32: int := 0x1_0000_0000

  /** ToUint32, the conversion behind `x >>> 0`. */
  function Uint32(x: int): nat
  {
    x % TWO_32
  }

  /** ToInt32, the conversion applied to the result of `<<`. */
  function Int32(x: int): int
  {
    var m := x % TWO_32;
    if m < TWO_31 then m else m - TWO_32
  }

  /**
   * 2^(8 * (n mod 4)). JavaScript takes a shift count modulo 32, so the shift
   * `n * 8` of the n-th byte is 0, 8, 16, 24, 0, 8, 16, 24, ...
   */
  function Lane(n: nat): nat
  {
    var k := n % 4;
    if k == 0 then 1 else if k == 1 then 0x100 else if k == 2 then 0x1_0000 else 0x100_0000
  }

  /** The value of `b << (n * 8)` for a byte `b`. */
  function ShiftedByte(b: Byte, n: nat): int
  {
    Int32(b * Lane(n))
  }

  /** `rst` after the loop `rst += bs[n] << (n * 8)` over all of `bs`. */
  function ShiftSum(bs: seq<Byte>): int
  {
    if bs == [] then 0 else ShiftSum(bs[..|bs| - 1]) + ShiftedByte(bs[|bs| - 1], |bs| - 1)
  }

  /** The same accumulation with every term kept unsigned (no ToInt32 of the shifted byte). */
  function LaneSum(bs: seq<Byte>): nat
  {
    if bs == [] then 0 else LaneSum(bs[..|bs| - 1]) + bs[|bs| - 1] * Lane(|bs| - 1)
  }

  /** How many shifted terms ToInt32 turned negative. */
  function Wraps(bs: seq<Byte>): nat
  {
    if bs == [] then 0
    else Wraps(bs[..|bs| - 1]) + (if bs[|bs| - 1] * Lane(|bs| - 1) < TWO_31 then 0 else 1)
  }

  function Pow256(n: nat): nat
  {
    if n == 0 then 1 else 256 * Pow256(n - 1)
  }

  /** The unsigned little-endian number the bytes encode. */
  function LittleEndian(bs: seq<Byte>): nat
  {
    if bs == [] then 0 else LittleEndian(bs[..|bs| - 1]) + bs[|bs| - 1] * Pow256(|bs| - 1)
  }

  /** The `w`-byte little-endian encoding of `v` (the format's writer side). */
  function Encode(v: nat, w: nat): (bs: seq<Byte>)
    ensures |bs| == w
  {
    if w == 0 then [] else [v % 256] + Encode(v / 256, w - 1)
  }

  /**
   * `s.slice(start, end)` on a Buffer or Uint8Array: a negative index counts from the
   * end, every index is clamped to `[0, |s|]`, and an empty range gives `[]`.
   */
  function Slice<T>(s: seq<T>, start: int, end: int): (r: seq<T>)
    ensures |r| <= |s|
    ensures 0 <= start <= end <= |s| ==> r == s[start..end]
    ensures end <= start && (start < 0 <==> end < 0) ==> r == []
    ensures 0 <= start <= |s| <= end ==> r == s[start..]
  {
    var b := if start < 0 then Max(|s| + start, 0) else Min(start, |s|);
    var e := if end < 0 then Max(|s| + end, 0) else Min(end, |s|);
    if e <= b then [] else s[b..e]
  }

  function Max(a: int, b: int): int { if a < b then b else a }
  function Min(a: int, b: int): int { if a < b then a else b }

  // ---------------------------------------------------------------------------
  // Lemmas about the shift-and-add loop
  // ---------------------------------------------------------------------------

  lemma LaneBelow(b: Byte, n: nat)
    ensures 0 <= b * Lane(n) <= 255 * 0x100_0000
    ensures n % 4 < 3 ==> b * Lane(n) < 0x100_0000
  {
  }

  /** Every signed term differs from the unsigned one by 2^32 exactly when it wrapped. */
  lemma {:induction false} ShiftSumIsLaneSumMinusWraps(bs: seq<Byte>)
    ensures ShiftSum(bs) == LaneSum(bs) - TWO_32 * Wraps(bs)
  {
    if bs != [] {
      var p, b, n := bs[..|bs| - 1], bs[|bs| - 1], |bs| - 1;
      ShiftSumIsLaneSumMinusWraps(p);
      LaneBelow(b, n);
    }
  }

  /** `>>> 0` of the loop's result is the unsigned lane sum reduced mod 2^32. */
  lemma IntReadIsLaneSumMod(bs: seq<Byte>)
    ensures Uint32(ShiftSum(bs)) == LaneSum(bs) % TWO_32
  {
    ShiftSumIsLaneSumMinusWraps(bs);
    ModMultiple(ShiftSum(bs), Wraps(bs));
  }

  lemma ModMultiple(x: int, k: int)
    ensures (x + TWO_32 * k) % TWO_32 == x % TWO_32
  {
    var q, r := x / TWO_32, x % TWO_32;
    assert x + TWO_32 * k == TWO_32 * (q + k) + r;
  }

  lemma {:induction false} LaneSumIsLittleEndian(bs: seq<Byte>)
    requires |bs| <= 4
    ensures LaneSum(bs) == LittleEndian(bs)
  {
    if bs != [] {
      LaneSumIsLittleEndian(bs[..|bs| - 1]);
      assert Lane(|bs| - 1) == Pow256(|bs| - 1);
    }
  }

  lemma {:induction false} LittleEndianBound(bs: seq<Byte>)
    ensures LittleEndian(bs) < Pow256(|bs|)
  {
    if bs != [] {
      var p, b := bs[..|bs| - 1], bs[|bs| - 1];
      LittleEndianBound(p);
      var q := Pow256(|p|);
      assert b * q <= 255 * q by { MulMonotone(b, 255, q); }
    }
  }

  lemma MulMonotone(a: nat, b: nat, c: nat)
    requires a <= b
    ensures a * c <= b * c
  {
  }

  /** For 1 to 4 bytes an unsigned read is the plain little-endian value. */
  lemma ShortIntReadIsLittleEndian(bs: seq<Byte>)
    requires |bs| <= 4
    ensures Uint32(ShiftSum(bs)) == LittleEndian(bs) < TWO_32
  {
    IntReadIsLaneSumMod(bs);
    LaneSumIsLittleEndian(bs);
    LittleEndianBound(bs);
    assert Pow256(|bs|) <= TWO_32 by {
      assert Pow256(0) == 1 && Pow256(1) == 256 && Pow256(2) == 0x1_0000;
      assert Pow256(3) == 0x100_0000 && Pow256(4) == TWO_32;
    }
  }

  lemma LaneRestarts(m: nat, n: nat)
    requires m % 4 == 0
    ensures Lane(m + n) == Lane(n)
  {
    assert (m + n) % 4 == n % 4;
  }

  /** Lanes restart after every fourth byte, so the unsigned sums of two halves add up. */
  lemma {:induction false} LaneSumAppend(a: seq<Byte>, b: seq<Byte>)
    requires |a| % 4 == 0
    ensures LaneSum(a + b) == LaneSum(a) + LaneSum(b)
  {
    if b == [] {
      assert a + b == a;
    } else {
      var p, x := b[..|b| - 1], b[|b| - 1];
      LaneSumAppend(a, p);
      assert (a + b)[..|a + b| - 1] == a + p;
      assert (a + b)[|a + b| - 1] == x;
      LaneRestarts(|a|, |p|);
      var t := x * Lane(|p|);
      assert LaneSum(a + b) == LaneSum(a + p) + t;
      assert LaneSum(b) == LaneSum(p) + t;
    }
  }

  /** The same for the signed sums. */
  lemma {:induction false} ShiftSumAppend(a: seq<Byte>, b: seq<Byte>)
    requires |a| % 4 == 0
    ensures ShiftSum(a + b) == ShiftSum(a) + ShiftSum(b)
  {
    if b == [] {
      assert a + b == a;
    } else {
      var p, x := b[..|b| - 1], b[|b| - 1];
      ShiftSumAppend(a, p);
      assert (a + b)[..|a + b| - 1] == a + p;
      assert (a + b)[|a + b| - 1] == x;
      LaneRestarts(|a|, |p|);
      assert ShiftedByte(x, |a| + |p|) == ShiftedByte(x, |p|);
    }
  }

  /**
   * An 8-byte unsigned read folds the high word onto the low word: bytes 4..7 are
   * shifted by 0..24 again, and the sum is reduced mod 2^32.
   */
  lemma EightByteReadFolds(bs: seq<Byte>)
    requires |bs| == 8
    ensures Uint32(ShiftSum(bs)) == (LittleEndian(bs[..4]) + LittleEndian(bs[4..])) % TWO_32
  {
    assert bs == bs[..4] + bs[4..];
    LaneSumAppend(bs[..4], bs[4..]);
    LaneSumIsLittleEndian(bs[..4]);
    LaneSumIsLittleEndian(bs[4..]);
    IntReadIsLaneSumMod(bs);
  }

  lemma {:induction false} ShortShiftSumNoWrap(bs: seq<Byte>)
    requires |bs| <= 3
    ensures ShiftSum(bs) == LittleEndian(bs) < 0x100_0000
  {
    if bs != [] {
      var p, b := bs[..|bs| - 1], bs[|bs| - 1];
      ShortShiftSumNoWrap(p);
      LaneBelow(b, |p|);
      LaneSumIsLittleEndian(bs);
      LittleEndianBound(bs);
      assert Pow256(|bs|) <= 0x100_0000 by {
        assert Pow256(1) == 256 && Pow256(2) == 0x1_0000 && Pow256(3) == 0x100_0000;
      }
    }
  }

  /** Without `>>> 0`, a 4-byte read is the two's-complement (signed 32-bit) value. */
  lemma SignedFourByteRead(bs: seq<Byte>)
    requires |bs| == 4
    ensures ShiftSum(bs) == Int32(LittleEndian(bs))
  {
    var p, b := bs[..3], bs[3];
    ShortShiftSumNoWrap(p);
    LittleEndianBound(bs);
    assert Pow256(3) == 0x100_0000 && Pow256(4) == TWO_32;
    var t: int := (b as int) * 0x100_0000;
    assert ShiftSum(bs) == LittleEndian(p) + Int32(t);
    assert LittleEndian(bs) == LittleEndian(p) + t;
  }

  /** Without `>>> 0`, an 8-byte read is the sum of two signed 32-bit words. */
  lemma SignedEightByteRead(bs: seq<Byte>)
    requires |bs| == 8
    ensures ShiftSum(bs) == Int32(LittleEndian(bs[..4])) + Int32(LittleEndian(bs[4..]))
  {
    assert bs == bs[..4] + bs[4..];
    ShiftSumAppend(bs[..4], bs[4..]);
    SignedFourByteRead(bs[..4]);
    SignedFourByteRead(bs[4..]);
  }

  // ---------------------------------------------------------------------------
  // Round trips with the little-endian writer
  // ---------------------------------------------------------------------------

  lemma {:induction false} LittleEndianCons(b: Byte, rest: seq<Byte>)
    ensures LittleEndian([b] + rest) == b + 256 * LittleEndian(rest)
  {
    if rest != [] {
      var p, x := rest[..|rest| - 1], rest[|rest| - 1];
      LittleEndianCons(b, p);
      assert ([b] + rest)[..|rest|] == [b] + p;
      assert Pow256(|rest|) == 256 * Pow256(|p|);
      assert x * (256 * Pow256(|p|)) == 256 * (x * Pow256(|p|));
    }
  }

  lemma {:induction false} LittleEndianOfEncode(v: nat, w: nat)
    requires v < Pow256(w)
    ensures LittleEndian(Encode(v, w)) == v
  {
    if w > 0 {
      assert v / 256 < Pow256(w - 1);
      LittleEndianOfEncode(v / 256, w - 1);
      LittleEndianCons(v % 256, Encode(v / 256, w - 1));
    }
  }

  /** Reading back 1, 2, 3 or 4 encoded bytes returns the encoded value. */
  lemma ShortIntRoundTrip(v: nat, w: nat)
    requires w <= 4 && v < Pow256(w)
    ensures Uint32(ShiftSum(Encode(v, w))) == v
  {
    LittleEndianOfEncode(v, w);
    ShortIntReadIsLittleEndian(Encode(v, w));
  }

  lemma {:induction false} LittleEndianAppend(a: seq<Byte>, b: seq<Byte>)
    ensures LittleEndian(a + b) == LittleEndian(a) + Pow256(|a|) * LittleEndian(b)
  {
    if b == [] {
      assert a + b == a;
    } else {
      var p, x := b[..|b| - 1], b[|b| - 1];
      LittleEndianAppend(a, p);
      assert (a + b)[..|a + b| - 1] == a + p;
      assert (a + b)[|a + b| - 1] == x;
      Pow256Add(|a|, |p|);
      var A, P, L := Pow256(|a|), Pow256(|p|), LittleEndian(p);
      assert LittleEndian(a + b) == LittleEndian(a + p) + x * Pow256(|a| + |p|);
      assert LittleEndian(b) == L + x * P;
      Distribute(A, L, x, P);
    }
  }

  lemma Distribute(a: int, l: int, x: int, p: int)
    ensures a * l + x * (a * p) == a * (l + x * p)
  {
  }

  lemma {:induction false} Pow256Add(m: nat, n: nat)
    ensures Pow256(m + n) == Pow256(m) * Pow256(n)
  {
    if n > 0 {
      Pow256Add(m, n - 1);
    }
  }

  /**
   * Reading back an encoded 8-byte value does not return it: it returns the low and
   * the high 32-bit words added together, mod 2^32.
   */
  lemma EightByteRoundTripFolds(v: nat)
    requires v < Pow256(8)
    ensures Uint32(ShiftSum(Encode(v, 8))) == (v % TWO_32 + v / TWO_32) % TWO_32
  {
    var bs := Encode(v, 8);
    LittleEndianOfEncode(v, 8);
    assert bs == bs[..4] + bs[4..];
    LittleEndianAppend(bs[..4], bs[4..]);
    LittleEndianBound(bs[..4]);
    assert Pow256(4) == TWO_32;
    var lo, hi := LittleEndian(bs[..4]), LittleEndian(bs[4..]);
    assert v == lo + TWO_32 * hi;
    assert v % TWO_32 == lo && v / TWO_32 == hi;
    EightByteReadFolds(bs);
  }

  /** Two different 8-byte fields, 1 and 2^32, read as the same number. */
  lemma EightByteReadCollides()
    ensures Uint32(ShiftSum(Encode(1, 8))) == Uint32(ShiftSum(Encode(TWO_32, 8))) == 1
  {
    assert Pow256(8) == TWO_32 * TWO_32 by { Pow256Add(4, 4); assert Pow256(4) == TWO_32; }
    EightByteRoundTripFolds(1);
    EightByteRoundTripFolds(TWO_32);
  }
}
