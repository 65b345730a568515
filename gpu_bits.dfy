/**
 * Bit-level helpers of the GPU plugin, on Java `int`s held as their
 * 32-bit two's-complement patterns (`bv32`).  Dafny compares `bv32`
 * values as unsigned numbers, so Java's signed comparisons are written
 * out (`SignedLt`) and Java's `>>` is the arithmetic shift `Sar`.
 */
module GpuBits {
  import opened JavaInt

  /** The bit pattern of a Java `int`. */
  function ToBits(x: Int32): bv32
  {
    (if x < 0 then x + TWO_32 else x) as bv32
  }

  /** The Java `int` a bit pattern stands for. */
  function FromBits(b: bv32): Int32
  {
    if b as int <= MAX_INT then b as int else b as int - TWO_32
  }

  /** Java's signed `a < b` on bit patterns. */
  predicate SignedLt(a: bv32, b: bv32)
  {
    (a ^ 0x8000_0000) < (b ^ 0x8000_0000)
  }

  /** `Math.max(a, b)` on bit patterns. */
  function SignedMax(a: bv32, b: bv32): (r: bv32)
    ensures r == a || r == b
    ensures !SignedLt(r, a) && !SignedLt(r, b)
  {
    if SignedLt(a, b) then b else a
  }

  /** Java `b >> k`: the shift copies the sign bit. */
  function Sar(b: bv32, k: bv32): (r: bv32)
    requires k < 32
    ensures b & 0x8000_0000 == 0 ==> r == b >> k
  {
    if b & 0x8000_0000 != 0 then (b >> k) | !(0xFFFF_FFFF >> k) else b >> k
  }

  /** `1 << k`. */
  function Bit(k: bv32): bv32
    requires k < 32
  {
    1 << k
  }

  /** `nextPowerOfTwo`: smears the highest set bit of `v - 1` downwards, then adds one. */
  function NextPowerOfTwo(v: bv32): (r: bv32)
    ensures v == 0 ==> r == 0
  {
    var v1 := v - 1;
    var v2 := v1 | Sar(v1, 1);
    var v3 := v2 | Sar(v2, 2);
    var v4 := v3 | Sar(v3, 4);
    var v5 := v4 | Sar(v4, 8);
    var v6 := v5 | Sar(v5, 16);
    v6 + 1
  }

  /** `isPowerOfTwo`: positive, and `n & -n` (its lowest set bit) is `n` itself. */
  predicate IsPowerOfTwo(n: bv32)
  {
    SignedLt(0, n) && n & -n == n
  }

  /** `isPowerOfTwo` holds exactly for the single-bit values 1, 2, 4, ..., 2^30. */
  lemma IsPowerOfTwoIff(n: bv32)
    ensures IsPowerOfTwo(n) <==> exists k: bv32 :: k < 31 && n == Bit(k)
  {
    if IsPowerOfTwo(n) {
      var k: bv32 := 0;
      while n != Bit(k)
        invariant k < 31
        invariant n & (Bit(k) - 1) == 0
        decreases 31 - k
      {
        k := k + 1;
      }
    } else {
      forall k: bv32 | k < 31
        ensures n != Bit(k)
      {
        SingleBit(k);
      }
    }
  }

  /** A single bit below bit 31 passes `isPowerOfTwo`. */
  lemma SingleBit(k: bv32)
    requires k < 31
    ensures IsPowerOfTwo(Bit(k))
  {}

  /** A non-zero value with no bit besides its highest, up to 2^30, passes `isPowerOfTwo`. */
  lemma SingleBitIsPowerOfTwo(r: bv32)
    requires r != 0 && r <= 0x4000_0000 && r & (r - 1) == 0
    ensures IsPowerOfTwo(r)
  {}

  /** For 1 <= v <= 2^30, `nextPowerOfTwo(v)` is the least power of two at least `v`. */
  lemma NextPowerOfTwoExact(v: bv32)
    requires 1 <= v <= 0x4000_0000
    ensures var r := NextPowerOfTwo(v); IsPowerOfTwo(r) && v <= r && r < 2 * v
  {
    NextPowerOfTwoSingleBit(v);
    NextPowerOfTwoAtLeast(v);
    NextPowerOfTwoBelowDouble(v);
    SingleBitIsPowerOfTwo(NextPowerOfTwo(v));
  }

  /** After the smear `v - 1` is all ones below its top bit, so the sum has one bit set. */
  lemma NextPowerOfTwoSingleBit(v: bv32)
    requires 1 <= v <= 0x4000_0000
    ensures var r := NextPowerOfTwo(v); r & (r - 1) == 0
  {}

  /** The smeared value is at least `v - 1`, so the result is at least `v`. */
  lemma NextPowerOfTwoAtLeast(v: bv32)
    requires 1 <= v <= 0x4000_0000
    ensures v <= NextPowerOfTwo(v)
  {
    NextPowerOfTwoSingleBit(v);
  }

  /** The smear sets no bit above the top bit of `v - 1`, so the result is below `2 * v`. */
  lemma NextPowerOfTwoBelowDouble(v: bv32)
    requires 1 <= v <= 0x4000_0000
    ensures NextPowerOfTwo(v) < 2 * v
  {}

  /** A power of two is already its own next power of two. */
  lemma NextPowerOfTwoFixes(v: bv32)
    requires IsPowerOfTwo(v)
    ensures NextPowerOfTwo(v) == v
  {
    IsPowerOfTwoIff(v);
    var k: bv32 :| k < 31 && v == Bit(k);
    assert 1 <= v <= 0x4000_0000;
    NextPowerOfTwoExact(v);
  }

  /** Above 2^30 the result overflows to `Integer.MIN_VALUE`, so `Math.max(1024, ...)` yields 1024. */
  lemma NextPowerOfTwoOverflows(v: bv32)
    requires 0x4000_0000 < v <= 0x7fff_ffff
    ensures NextPowerOfTwo(v) == 0x8000_0000
    ensures SignedMax(1024, NextPowerOfTwo(v)) == 1024
  {}

  /** `1 << 26`: the hillskew bit of a descriptor's flags word. */
  const HILLSKEW_FLAG: bv32 := 0x0400_0000

  /** The scene-buffer and hillskew bits of a flags word; they lie above bit 25. */
  function FlagBits(sceneBuffer: bool, hillskew: bool): (h: bv32)
    ensures h & 0x03FF_FFFF == 0
    ensures (h & 0x8000_0000 != 0) == sceneBuffer && (h & HILLSKEW_FLAG != 0) == hillskew
  {
    (if sceneBuffer then 0x8000_0000 else 0) | (if hillskew then HILLSKEW_FLAG else 0)
  }

  /** The flags word of a model descriptor (the scene-buffer flag is bit 31). */
  function PackFlags(sceneBuffer: bool, hillskew: bool, plane: bv32, radius: bv32, orientation: bv32): bv32
  {
    FlagBits(sceneBuffer, hillskew) | (plane << 24) | (radius << 12) | orientation
  }

  /** The fields a descriptor's flags word carries. */
  datatype Flags = Flags(sceneBuffer: bool, hillskew: bool, plane: bv32, radius: bv32, orientation: bv32)

  /** The fields read back out of a flags word. */
  function UnpackFlags(w: bv32): (f: Flags)
    ensures f.plane < 4 && f.radius < 4096 && f.orientation < 4096
  {
    Flags(w & 0x8000_0000 != 0, w & HILLSKEW_FLAG != 0, (w >> 24) & 3, (w >> 12) & 0xFFF, w & 0xFFF)
  }

  /** Fields within their widths (plane < 4, radius and orientation < 4096) do not overlap. */
  lemma FlagsRoundTrip(sceneBuffer: bool, hillskew: bool, plane: bv32, radius: bv32, orientation: bv32)
    requires plane < 4 && radius < 4096 && orientation < 4096
    ensures UnpackFlags(PackFlags(sceneBuffer, hillskew, plane, radius, orientation)) ==
            Flags(sceneBuffer, hillskew, plane, radius, orientation)
  {
    LowFields(FlagBits(sceneBuffer, hillskew), plane, radius, orientation);
  }

  /** Below bit 26 the word holds the three fields, and above it the high bits unchanged. */
  lemma LowFields(high: bv32, plane: bv32, radius: bv32, orientation: bv32)
    requires high & 0x03FF_FFFF == 0 && plane < 4 && radius < 4096 && orientation < 4096
    ensures var w := high | (plane << 24) | (radius << 12) | orientation;
            w & 0x8000_0000 == high & 0x8000_0000 && w & HILLSKEW_FLAG == high & HILLSKEW_FLAG &&
            (w >> 24) & 3 == plane && (w >> 12) & 0xFFF == radius && w & 0xFFF == orientation
  {}
}
