/**
 * `uploadTileHeights`: the scene's tile heights, packed into the 16-bit
 * volume texture the compute shaders sample for hillskew.  Heights are
 * multiples of 8 and are stored divided by 8, level by level, row (y) by
 * row, column (x) by column; the scene array is indexed [z][x][y], so the
 * packing transposes x and y.
 */
module GpuTileHeights {
  import opened JavaInt

  /** `Constants.MAX_Z`: the number of planes. */
  const MAX_Z: nat := 4
  /** `Constants.EXTENDED_SCENE_SIZE`: tiles per side of the extended scene. */
  const EXTENDED_SCENE_SIZE: nat := 184
  /** Entries in the packed buffer. */
  const TILE_HEIGHT_ENTRIES: nat := MAX_Z * EXTENDED_SCENE_SIZE * EXTENDED_SCENE_SIZE

  /** Java's `(short) x`: keeps the low 16 bits, as a signed value. */
  function ToShort(x: int): (r: int)
    ensures -0x8000 <= r < 0x8000
    ensures (r - x) % 0x1_0000 == 0
    ensures -0x8000 <= x < 0x8000 ==> r == x
  {
    (x + 0x8000) % 0x1_0000 - 0x8000
  }

  /** The scene's height array is at least MAX_Z x E x E. */
  predicate CoversScene(tileHeights: seq<seq<seq<Int32>>>)
  {
    |tileHeights| >= MAX_Z &&
    forall z :: 0 <= z < MAX_Z ==>
      (|tileHeights[z]| >= EXTENDED_SCENE_SIZE &&
       forall x :: 0 <= x < EXTENDED_SCENE_SIZE ==> |tileHeights[z][x]| >= EXTENDED_SCENE_SIZE)
  }

  /** The value packed for plane `z`, column `x`, row `y`. */
  function Packed(tileHeights: seq<seq<seq<Int32>>>, z: nat, x: nat, y: nat): int
    requires CoversScene(tileHeights) && z < MAX_Z && x < EXTENDED_SCENE_SIZE && y < EXTENDED_SCENE_SIZE
  {
    ToShort(Shr(tileHeights[z][x][y], 3))
  }

  /** The buffer position of plane `z`, row `y`, column `x`. */
  function Offset(z: nat, y: nat, x: nat): nat
  {
    z * EXTENDED_SCENE_SIZE * EXTENDED_SCENE_SIZE + y * EXTENDED_SCENE_SIZE + x
  }

  /** The buffer entry at position `k`: position `k` is plane k / E², row (k / E) % E, column k % E. */
  function Entry(tileHeights: seq<seq<seq<Int32>>>, k: nat): int
    requires CoversScene(tileHeights) && k < TILE_HEIGHT_ENTRIES
  {
    var e := EXTENDED_SCENE_SIZE;
    Packed(tileHeights, k / (e * e), k % e, (k / e) % e)
  }

  /** Position `Offset(z, y, x)` decodes back to plane `z`, row `y`, column `x`. */
  lemma OffsetDecodes(z: nat, y: nat, x: nat)
    requires z < MAX_Z && y < EXTENDED_SCENE_SIZE && x < EXTENDED_SCENE_SIZE
    ensures Offset(z, y, x) < TILE_HEIGHT_ENTRIES
    ensures var k, e := Offset(z, y, x), EXTENDED_SCENE_SIZE; k / (e * e) == z && k % e == x && (k / e) % e == y
  {
    var e := EXTENDED_SCENE_SIZE;
    var k := Offset(z, y, x);
    DivUnique(k, e, z * e + y, x);
    DivUnique(z * e + y, e, z, y);
    DivUnique(k, e * e, z, y * e + x);
  }

  /** `tileBuffer` holds the scene's packed heights, entry by entry. */
  predicate HoldsPacked(tileBuffer: seq<int>, tileHeights: seq<seq<seq<Int32>>>)
    requires CoversScene(tileHeights)
  {
    |tileBuffer| == TILE_HEIGHT_ENTRIES &&
    forall k :: 0 <= k < |tileBuffer| ==> tileBuffer[k] == Entry(tileHeights, k)
  }

  /**
   * The packing loop.  The result is the buffer's contents in put order;
   * the texture upload that consumes it is not modelled.
   */
  method PackTileHeights(tileHeights: seq<seq<seq<Int32>>>) returns (tileBuffer: seq<int>)
    requires CoversScene(tileHeights)
    ensures HoldsPacked(tileBuffer, tileHeights)
  {
    var e := EXTENDED_SCENE_SIZE;
    tileBuffer := [];
    for z := 0 to MAX_Z
      invariant |tileBuffer| == z * e * e
      invariant forall k :: 0 <= k < |tileBuffer| ==> tileBuffer[k] == Entry(tileHeights, k)
    {
      for y := 0 to e
        invariant |tileBuffer| == z * e * e + y * e
        invariant forall k :: 0 <= k < |tileBuffer| ==> tileBuffer[k] == Entry(tileHeights, k)
      {
        for x := 0 to e
          invariant |tileBuffer| == Offset(z, y, x)
          invariant forall k :: 0 <= k < |tileBuffer| ==> tileBuffer[k] == Entry(tileHeights, k)
        {
          var h := tileHeights[z][x][y];
          var shifted := Shr(h, 3);
          OffsetDecodes(z, y, x);
          tileBuffer := tileBuffer + [ToShort(shifted)];
        }
      }
    }
  }

  /** The entry for plane `z`, row `y`, column `x` is the height at [z][x][y], divided by 8. */
  lemma PackedAt(tileHeights: seq<seq<seq<Int32>>>, tileBuffer: seq<int>, z: nat, y: nat, x: nat)
    requires CoversScene(tileHeights) && HoldsPacked(tileBuffer, tileHeights)
    requires z < MAX_Z && y < EXTENDED_SCENE_SIZE && x < EXTENDED_SCENE_SIZE
    ensures tileBuffer[Offset(z, y, x)] == ToShort(Shr(tileHeights[z][x][y], 3))
  {
    OffsetDecodes(z, y, x);
  }

  /**
   * A height that is a multiple of 8 and within 8 * 2^15 of zero is
   * stored exactly: multiplying the entry by 8 gives the height back.
   */
  lemma PackingLossless(h: int)
    requires h % 8 == 0 && -0x4_0000 <= h < 0x4_0000
    ensures ToShort(Shr(h, 3)) * 8 == h
  {
    assert Pow2(3) == 8 by {
      assert Pow2(3) == 2 * Pow2(2) == 4 * Pow2(1) == 8 * Pow2(0);
    }
    DivUnique(h, 8, h / 8, 0);
  }
}
