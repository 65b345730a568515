/**
 * The integer culling tests of the GPU plugin: `tileInFrustum` (is any
 * part of a scene tile in view?) and `isVisible` (is a model's bounding
 * cylinder in view?).  Both rotate the position into camera space with
 * 16.16 fixed-point sines and cosines in Java `int` arithmetic, give up
 * unless the depth exceeds 50, and only then compare against the
 * viewport's clip bounds.
 */
module GpuFrustum {
  import opened JavaInt

  /** `Perspective.LOCAL_COORD_BITS`: local units per tile are 2^7. */
  const LOCAL_COORD_BITS: nat := 7
  /** `(EXTENDED_SCENE_SIZE - SCENE_SIZE) / 2`, with sizes 184 and 104. */
  const SCENE_OFFSET: int := (184 - 104) / 2
  const GROUND_MIN_Y: int := 350
  /** Models closer than this are never drawn. */
  const MIN_DEPTH: int := 50

  /** Java `a - b` on `int`. */
  function Sub(a: Int32, b: Int32): Int32 { Wrap(a - b) }

  /** Java `a << k` on `int`. */
  function Shl(a: Int32, k: nat): Int32 { Wrap(a * Pow2(k)) }

  /** Java `Math.max` on `int`. */
  function Max(a: Int32, b: Int32): (r: Int32)
    ensures r >= a && r >= b && (r == a || r == b)
  {
    if a >= b then a else b
  }

  /** The camera's 16.16 fixed-point pitch and yaw sines and cosines. */
  datatype Camera = Camera(pitchSin: Int32, pitchCos: Int32, yawSin: Int32, yawCos: Int32)

  /** The client's zoom and the viewport's clip bounds (half widths and heights, with sign). */
  datatype Viewport = Viewport(zoom: Int32, clipMidX2: Int32, clipNegativeMidX: Int32,
                               clipNegativeMidY: Int32, clipMidY2: Int32)

  /** `var11`: the position rotated by yaw. */
  function YawRotated(c: Camera, x: Int32, z: Int32): Int32
  {
    Shr(Sub(Mul(c.yawCos, z), Mul(c.yawSin, x)), 16)
  }

  /** `var12 + var13`: depth of the position, pushed forward by `extent` along the pitch. */
  function Depth(c: Camera, x: Int32, y: Int32, z: Int32, extent: Int32): Int32
  {
    var var12 := Shr(Add(Mul(c.pitchSin, y), Mul(c.pitchCos, YawRotated(c, x, z))), 16);
    var var13 := Shr(Mul(c.pitchCos, extent), 16);
    Add(var12, var13)
  }

  /** `rx`: the horizontal screen-space coordinate before projection. */
  function ScreenX(c: Camera, x: Int32, z: Int32): Int32
  {
    Shr(Add(Mul(z, c.yawSin), Mul(c.yawCos, x)), 16)
  }

  /** `ry`: the vertical screen-space coordinate before projection. */
  function ScreenY(c: Camera, y: Int32, var11: Int32): Int32
  {
    Shr(Sub(Mul(c.pitchCos, y), Mul(var11, c.pitchSin)), 16)
  }

  /** The bounding radius `tileInFrustum` uses for a tile (about 64 * sqrt 2). */
  const TILE_RADIUS: Int32 := 96

  /**
   * `tileInFrustum` for the tile at (msx, msy) on the plane whose heights
   * are `heights` (indexed [x][y]); the camera position is in local units.
   */
  function TileInFrustum(heights: seq<seq<Int32>>, c: Camera, cameraX: Int32, cameraY: Int32, cameraZ: Int32,
                         v: Viewport, msx: nat, msy: nat): (r: bool)
    requires msx + 1 < |heights| && msy + 1 < |heights[msx]| && msy + 1 < |heights[msx + 1]|
    ensures r ==> MIN_DEPTH < Depth(c,
                                     Sub(Add(Shl(Wrap(msx - SCENE_OFFSET), LOCAL_COORD_BITS), 64), cameraX),
                                     Sub(Add(Max(Max(heights[msx][msy], heights[msx][msy + 1]),
                                                 Max(heights[msx + 1][msy], heights[msx + 1][msy + 1])),
                                             GROUND_MIN_Y), cameraY),
                                     Sub(Add(Shl(Wrap(msy - SCENE_OFFSET), LOCAL_COORD_BITS), 64), cameraZ),
                                     TILE_RADIUS)
  {
    var x := Sub(Add(Shl(Wrap(msx - SCENE_OFFSET), LOCAL_COORD_BITS), 64), cameraX);
    var z := Sub(Add(Shl(Wrap(msy - SCENE_OFFSET), LOCAL_COORD_BITS), 64), cameraZ);
    var y := Sub(Add(Max(Max(heights[msx][msy], heights[msx][msy + 1]),
                         Max(heights[msx + 1][msy], heights[msx + 1][msy + 1])), GROUND_MIN_Y), cameraY);
    var radius := TILE_RADIUS;
    var var11 := YawRotated(c, x, z);
    var depth := Depth(c, x, y, z, radius);
    if depth > MIN_DEPTH then
      var rx := ScreenX(c, x, z);
      var var16 := Mul(Sub(rx, radius), v.zoom);
      var var17 := Mul(Add(rx, radius), v.zoom);
      if var16 < Mul(v.clipMidX2, depth) && var17 > Mul(v.clipNegativeMidX, depth) then
        var ry := ScreenY(c, y, var11);
        var ybottom := Shr(Mul(c.pitchSin, radius), 16);
        var var20 := Mul(Add(ry, ybottom), v.zoom);
        var20 > Mul(v.clipNegativeMidY, depth)
      else false
    else false
  }

  /** The bounds `calculateBoundsCylinder` gives a model. */
  datatype ModelBounds = ModelBounds(xyzMag: Int32, bottomY: Int32, modelHeight: Int32)

  /** `isVisible` for a model at (x, y, z) relative to the camera. */
  function IsVisible(m: ModelBounds, c: Camera, v: Viewport, x: Int32, y: Int32, z: Int32): (r: bool)
    ensures r ==> MIN_DEPTH < Depth(c, x, y, z, m.xyzMag)
  {
    var var11 := YawRotated(c, x, z);
    var depth := Depth(c, x, y, z, m.xyzMag);
    if depth > MIN_DEPTH then
      var rx := ScreenX(c, x, z);
      var var16 := Mul(Sub(rx, m.xyzMag), v.zoom);
      if Div(var16, depth) < v.clipMidX2 then
        var var17 := Mul(Add(rx, m.xyzMag), v.zoom);
        if Div(var17, depth) > v.clipNegativeMidX then
          var ry := ScreenY(c, y, var11);
          var yheight := Shr(Mul(c.pitchSin, m.xyzMag), 16);
          var ybottom := Add(Shr(Mul(c.pitchCos, m.bottomY), 16), yheight);
          var var20 := Mul(Add(ry, ybottom), v.zoom);
          if Div(var20, depth) > v.clipNegativeMidY then
            var ytop := Add(Shr(Mul(c.pitchCos, m.modelHeight), 16), yheight);
            var var22 := Mul(Sub(ry, ytop), v.zoom);
            Div(var22, depth) < v.clipMidY2
          else false
        else false
      else false
    else false
  }

  /** Dividing a non-negative number by a positive one gives at most the number. */
  lemma QuotientBound(n: int, d: int)
    requires n >= 0 && d > 0
    ensures 0 <= n / d <= n
  {
    var q, r := n / d, n % d;
    assert n == q * d + r && 0 <= r < d;
    if q < 0 {
      MulMono(q, 0, d);
    } else {
      MulNonNeg(q, d - 1);
      assert q * d == q + q * (d - 1);
    }
  }

  /** Java's `a / depth` for a positive divisor: floor for `a >= 0`, minus the floor of `-a / depth` below. */
  lemma DivByPositive(a: Int32, depth: Int32)
    requires depth > 0
    ensures a >= 0 ==> Div(a, depth) == a / depth
    ensures a < 0 ==> Div(a, depth) == -((-(a as int)) / depth)
  {
    var na: int := -(a as int);
    assert Abs(depth) == depth;
    if a < 0 {
      QuotientBound(na, depth);
      assert Wrap(-(na / depth)) == -(na / depth);
    } else {
      QuotientBound(a, depth);
      assert Wrap(a / depth) == a / depth;
    }
  }

  /**
   * Against a positive bound, `isVisible`'s truncating `a / depth < c`
   * and `tileInFrustum`'s `a < c * depth` agree.
   */
  lemma DivBelowBound(a: Int32, depth: Int32, c: Int32)
    requires depth > 0 && c > 0 && c * depth <= MAX_INT
    ensures Div(a, depth) < c <==> a < c * depth
  {
    DivByPositive(a, depth);
    MulMono(0, c, depth);
    if a >= 0 {
      QuotientAgainst(a, depth, c);
    } else {
      QuotientBound(-(a as int), depth);
    }
  }

  /**
   * Against a negative bound, `isVisible`'s truncating `a / depth > c`
   * and `tileInFrustum`'s `a > c * depth` agree.
   */
  lemma DivAboveBound(a: Int32, depth: Int32, c: Int32)
    requires depth > 0 && c < 0 && MIN_INT <= c * depth
    ensures Div(a, depth) > c <==> a > c * depth
  {
    DivByPositive(a, depth);
    var nc: int := -(c as int);
    MulMono(0, nc, depth);
    var bound := nc * depth;
    assert c * depth == -bound;
    if a < 0 {
      var na: int := -(a as int);
      QuotientAgainst(na, depth, nc);
    } else {
      QuotientBound(a, depth);
    }
  }

  /** For positive `d`: `n / d < k` exactly when `n < k * d`. */
  lemma QuotientAgainst(n: int, d: int, k: int)
    requires n >= 0 && d > 0
    ensures n / d < k <==> n < k * d
  {
    var q, r := n / d, n % d;
    assert n == q * d + r && 0 <= r < d;
    if q < k {
      MulMono(q, k, d);
    } else {
      MulNonNeg(q - k, d);
      assert q * d == k * d + (q - k) * d;
    }
  }
}
