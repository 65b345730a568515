/**
 * The host-side frame bookkeeping of the GPU plugin.  During a frame the
 * client's draw callbacks append 8-word draw descriptors to three queues
 * (unordered tile geometry, small models, large models); each descriptor
 * names the range of the output vertex buffer its triangles go to, taken
 * from the running `targetBufferOffset`.  Around that sit the buffer growth
 * policy, the end-of-frame reset and the pending/current scene swap.
 *
 * The frame's state is a value (`DrawState`); the callbacks are specified
 * by pure step functions on it, and `GpuPlugin`'s methods are proved to
 * perform exactly those steps.  OpenGL and OpenCL calls are not modelled:
 * what the scene uploader returns and writes is a parameter (`Upload`).
 */
module GpuPlugin {
  import opened Wrappers
  import opened JavaInt
  import opened GpuBits
  import GpuFrustum
  import GpuTileHeights

  /** The most triangles the compute shaders accept for one model. */
  const MAX_TRIANGLE: Int32 := 6144
  /** Models with at most this many triangles go to the small queue. */
  const SMALL_TRIANGLE_COUNT: Int32 := 512
  /** Bit 31 of a descriptor's flags word: the vertices are in the scene buffer. */
  const FLAG_SCENE_BUFFER: Int32 := MIN_INT
  const DEFAULT_DISTANCE: Int32 := 25
  const MAX_DISTANCE: Int32 := 184

  datatype ComputeMode = NONE | OPENGL | OPENCL

  /** The client's game state; only LOGIN_SCREEN matters here, the rest are folded into OTHER_STATE. */
  datatype GameState = LOGIN_SCREEN | LOADING | LOGGED_IN | HOPPING | CONNECTION_LOST | OTHER_STATE

  /** `getDrawDistance`: the configured distance, clamped to [0, 184] with compute shaders and [0, 25] without. */
  function GetDrawDistance(mode: ComputeMode, configured: Int32): (r: Int32)
    ensures var limit := if mode != NONE then MAX_DISTANCE else DEFAULT_DISTANCE;
            0 <= r <= limit &&
            (0 <= configured <= limit ==> r == configured) &&
            (configured < 0 ==> r == 0) &&
            (configured > limit ==> r == limit)
  {
    var limit := if mode != NONE then MAX_DISTANCE else DEFAULT_DISTANCE;
    Clamp(configured, 0, limit)
  }

  // ---------------------------------------------------------------------
  // Buffer growth

  /** A GL buffer object: its allocated size in bytes, its OpenCL handle (-1 for none) and the data last uploaded at offset 0. */
  class GLBuffer {
    var size: bv32
    var clBuffer: int
    var contents: seq<int>

    /** A buffer before its first allocation: size -1, no OpenCL handle. */
    constructor()
      ensures size == 0xFFFF_FFFF && clBuffer == -1 && contents == []
    {
      size := 0xFFFF_FFFF;
      clBuffer := -1;
      contents := [];
    }
  }

  /**
   * The size `updateBuffer` leaves a buffer of size `current` at when
   * `request` bytes are asked for: unchanged unless the request is larger
   * (signed), else `max(1024, nextPowerOfTwo(request))`.
   */
  function ResizedTo(current: bv32, request: bv32): bv32
  {
    if SignedLt(current, request) then SignedMax(1024, NextPowerOfTwo(request)) else current
  }

  /**
   * A buffer that has to grow for a request of 1 to 2^30 bytes becomes a
   * power of two at least the request, and strictly larger than before.
   */
  lemma ResizeGrowsToPowerOfTwo(current: bv32, request: bv32)
    requires SignedLt(current, request) && 1 <= request <= 0x4000_0000
    ensures var r := ResizedTo(current, request);
            IsPowerOfTwo(r) && request <= r && SignedLt(current, r)
  {
    NextPowerOfTwoExact(request);
    var n := NextPowerOfTwo(request);
    assert IsPowerOfTwo(1024) by {
      SingleBitIsPowerOfTwo(1024);
    }
    assert n <= 0x4000_0000 by {
      IsPowerOfTwoIff(n);
    }
  }

  /** The byte size of an upload of `n` words: `remaining() << 2`. */
  function UploadSize(n: nat): bv32
  {
    ToBits(GpuFrustum.Shl(Wrap(n), 2))
  }

  // ---------------------------------------------------------------------
  // The frame's draw state

  /** The three descriptor queues. */
  datatype Queue = Unordered | Small | Large

  /**
   * The frame state the draw callbacks change.  `drawn` lists the lengths
   * of the output ranges handed out since `targetBufferOffset` was last
   * zeroed, in order (bookkeeping of the model, not a field of the plugin).
   */
  datatype DrawState = DrawState(
    targetBufferOffset: Int32,
    unorderedModels: Int32, smallModels: Int32, largeModels: Int32,
    tempOffset: Int32, tempUvOffset: Int32,
    vertexBuffer: seq<int>, uvBuffer: seq<int>,
    modelBufferUnordered: seq<Int32>, modelBufferSmall: seq<Int32>, modelBuffer: seq<Int32>,
    drawn: seq<int>)

  /** Sum of the range lengths. */
  function Sum(s: seq<int>): int
  {
    if |s| == 0 then 0 else Sum(s[..|s| - 1]) + s[|s| - 1]
  }

  /** Where range `i` starts: the lengths of the ranges before it, added up. */
  function Start(drawn: seq<int>, i: nat): int
    requires i <= |drawn|
  {
    Sum(drawn[..i])
  }

  /** A queue holds whole descriptors, and its counter is their number (as a Java `int`). */
  predicate Counted(queue: seq<Int32>, count: Int32)
  {
    |queue| % 8 == 0 && count == Wrap(|queue| / 8)
  }

  /** The invariant of the draw state: every counter counts its queue, and the target offset ends the last range. */
  predicate ValidState(s: DrawState)
  {
    Counted(s.modelBufferUnordered, s.unorderedModels) &&
    Counted(s.modelBufferSmall, s.smallModels) &&
    Counted(s.modelBuffer, s.largeModels) &&
    s.targetBufferOffset == Wrap(Sum(s.drawn))
  }

  /** The descriptor buffer of queue `q`. */
  function QueueOf(s: DrawState, q: Queue): seq<Int32>
  {
    match q
    case Unordered => s.modelBufferUnordered
    case Small => s.modelBufferSmall
    case Large => s.modelBuffer
  }

  /** Appends one descriptor to queue `q` and counts it. */
  function Enqueue(s: DrawState, q: Queue, record: seq<Int32>): DrawState
  {
    match q
    case Unordered => s.(modelBufferUnordered := s.modelBufferUnordered + record, unorderedModels := Add(s.unorderedModels, 1))
    case Small => s.(modelBufferSmall := s.modelBufferSmall + record, smallModels := Add(s.smallModels, 1))
    case Large => s.(modelBuffer := s.modelBuffer + record, largeModels := Add(s.largeModels, 1))
  }

  /** Hands out the next `len` words of the output buffer. */
  function Advance(s: DrawState, len: Int32): DrawState
  {
    s.(targetBufferOffset := Add(s.targetBufferOffset, len), drawn := s.drawn + [len])
  }

  /** What the scene uploader returns (a vertex count) and appends to the staging buffers. */
  datatype Upload = Upload(count: Int32, vertices: seq<int>, uvs: seq<int>)

  /** Appends an upload's vertices and UVs to the staging buffers. */
  function Stage(s: DrawState, u: Upload): DrawState
  {
    s.(vertexBuffer := s.vertexBuffer + u.vertices, uvBuffer := s.uvBuffer + u.uvs)
  }

  /** `bufferForTriangles`: which queue a model of `triangles` triangles goes to. */
  function ForTriangles(triangles: Int32): (q: Queue)
  {
    if triangles <= SMALL_TRIANGLE_COUNT then Small else Large
  }

  /** The total of the lengths handed out grows by the last one. */
  lemma SumSnoc(s: seq<int>, x: int)
    ensures Sum(s + [x]) == Sum(s) + x
  {
    assert (s + [x])[..|s|] == s;
  }

  /** Enqueueing an 8-word descriptor keeps every queue counted and appends it to queue `q`. */
  lemma EnqueueKeepsValid(s: DrawState, q: Queue, record: seq<Int32>)
    requires ValidState(s) && |record| == 8
    ensures ValidState(Enqueue(s, q, record))
    ensures QueueOf(Enqueue(s, q, record), q) == QueueOf(s, q) + record
  {
    match q
    case Unordered => CountedSnoc(s.modelBufferUnordered, s.unorderedModels, record);
    case Small => CountedSnoc(s.modelBufferSmall, s.smallModels, record);
    case Large => CountedSnoc(s.modelBuffer, s.largeModels, record);
  }

  /** Appending one descriptor to a counted queue and adding one to its counter keeps it counted. */
  lemma CountedSnoc(queue: seq<Int32>, count: Int32, record: seq<Int32>)
    requires Counted(queue, count) && |record| == 8
    ensures Counted(queue + record, Add(count, 1))
  {
    var n := |queue| / 8;
    DivUnique(|queue|, 8, n, 0);
    DivUnique(|queue| + 8, 8, n + 1, 0);
    WrapAdd(n, 1);
  }

  /** The output offset stays the (wrapped) total of the lengths handed out. */
  lemma AdvanceKeepsValid(s: DrawState, len: Int32)
    requires ValidState(s)
    ensures ValidState(Advance(s, len))
  {
    SumSnoc(s.drawn, len);
    WrapAdd(Sum(s.drawn), len);
  }

  /**
   * Range `i + 1` starts where range `i` ends, and when no length is
   * negative, range `i` ends no later than any later range `j` starts:
   * the ranges handed out are contiguous and pairwise disjoint.
   */
  lemma DestinationsDisjoint(drawn: seq<int>, i: nat, j: nat)
    requires i < j < |drawn|
    ensures Start(drawn, i + 1) == Start(drawn, i) + drawn[i]
    ensures (forall k :: 0 <= k < |drawn| ==> drawn[k] >= 0) ==> Start(drawn, i) + drawn[i] <= Start(drawn, j)
  {
    assert drawn[..i + 1] == drawn[..i] + [drawn[i]];
    SumSnoc(drawn[..i], drawn[i]);
    if forall k :: 0 <= k < |drawn| ==> drawn[k] >= 0 {
      StartMono(drawn, i + 1, j);
    }
  }

  /** With no negative length, later ranges start no earlier. */
  lemma {:induction false} StartMono(drawn: seq<int>, i: nat, j: nat)
    requires i <= j <= |drawn|
    requires forall k :: 0 <= k < |drawn| ==> drawn[k] >= 0
    ensures Start(drawn, i) <= Start(drawn, j)
    decreases j - i
  {
    if i < j {
      StartMono(drawn, i, j - 1);
      assert drawn[..j] == drawn[..j - 1] + [drawn[j - 1]];
      SumSnoc(drawn[..j - 1], drawn[j - 1]);
    }
  }

  // ---------------------------------------------------------------------
  // Tile paints and tile models

  /** A scene tile's paint or model, as far as the descriptor needs it. */
  datatype TileGeometry = TileGeometry(bufferOffset: Int32, uvBufferOffset: Int32, bufferLen: Int32)

  /** The descriptor of a tile paint or tile model with `triangles` triangles, placed at `targetOffset`. */
  function TileRecord(g: TileGeometry, triangles: Int32, targetOffset: Int32, tileX: Int32, tileY: Int32): seq<Int32>
  {
    [g.bufferOffset, g.uvBufferOffset, triangles, targetOffset, FLAG_SCENE_BUFFER,
     GpuFrustum.Shl(tileX, GpuFrustum.LOCAL_COORD_BITS), 0, GpuFrustum.Shl(tileY, GpuFrustum.LOCAL_COORD_BITS)]
  }

  /** `drawScenePaint`: a paint is two triangles, six vertices. */
  function ScenePaint(s: DrawState, mode: ComputeMode, paint: TileGeometry, tileX: Int32, tileY: Int32, u: Upload): DrawState
  {
    if mode == NONE then DirectDraw(s, u)
    else if paint.bufferLen > 0 then Advance(Enqueue(s, Unordered, TileRecord(paint, 2, s.targetBufferOffset, tileX, tileY)), 6)
    else s
  }

  /** `drawSceneModel`: a tile model of `bufferLen` vertices. */
  function TileModel(s: DrawState, mode: ComputeMode, model: TileGeometry, tileX: Int32, tileY: Int32, u: Upload): DrawState
  {
    if mode == NONE then DirectDraw(s, u)
    else if model.bufferLen > 0 then
      Advance(Enqueue(s, Unordered, TileRecord(model, Div(model.bufferLen, 3), s.targetBufferOffset, tileX, tileY)), model.bufferLen)
    else s
  }

  /** Drawing a tile paint keeps the draw state valid. */
  lemma ScenePaintKeepsValid(s: DrawState, mode: ComputeMode, paint: TileGeometry, tileX: Int32, tileY: Int32, u: Upload)
    requires ValidState(s)
    ensures ValidState(ScenePaint(s, mode, paint, tileX, tileY, u))
  {
    if mode == NONE {
      DirectDrawKeepsValid(s, u);
    } else if paint.bufferLen > 0 {
      var record := TileRecord(paint, 2, s.targetBufferOffset, tileX, tileY);
      EnqueueKeepsValid(s, Unordered, record);
      AdvanceKeepsValid(Enqueue(s, Unordered, record), 6);
    }
  }

  /** Drawing a tile model keeps the draw state valid. */
  lemma TileModelKeepsValid(s: DrawState, mode: ComputeMode, model: TileGeometry, tileX: Int32, tileY: Int32, u: Upload)
    requires ValidState(s)
    ensures ValidState(TileModel(s, mode, model, tileX, tileY, u))
  {
    if mode == NONE {
      DirectDrawKeepsValid(s, u);
    } else if model.bufferLen > 0 {
      var record := TileRecord(model, Div(model.bufferLen, 3), s.targetBufferOffset, tileX, tileY);
      EnqueueKeepsValid(s, Unordered, record);
      AdvanceKeepsValid(Enqueue(s, Unordered, record), model.bufferLen);
    }
  }

  /** For a non-negative `len`, Java's `len / 3` is the floor, and three times it is `len` when 3 divides `len`. */
  lemma ThirdOf(len: Int32)
    requires len >= 0
    ensures Div(len, 3) == len / 3
    ensures len % 3 == 0 ==> 3 * Div(len, 3) == len
  {
    assert Abs(3) == 3;
    assert 0 <= len / 3 <= len;
  }

  /**
   * A tile paint or tile model drawn with compute shaders appends one
   * descriptor to the unordered queue, whose word 3 is the offset before
   * the call, i.e. the start of the new output range; the range is three
   * times the descriptor's triangle count long (for a model, when its
   * length is a multiple of three).  Nothing is queued for an empty tile.
   */
  lemma TileDescriptors(s: DrawState, mode: ComputeMode, g: TileGeometry, tileX: Int32, tileY: Int32, u: Upload)
    requires ValidState(s) && mode != NONE
    ensures var r := ScenePaint(s, mode, g, tileX, tileY, u);
            if g.bufferLen > 0 then
              |r.modelBufferUnordered| == |s.modelBufferUnordered| + 8 &&
              r.modelBufferUnordered[..|s.modelBufferUnordered|] == s.modelBufferUnordered &&
              r.modelBufferUnordered[|s.modelBufferUnordered| + 3] == Wrap(Start(r.drawn, |s.drawn|)) &&
              r.drawn == s.drawn + [3 * r.modelBufferUnordered[|s.modelBufferUnordered| + 2]]
            else r == s
    ensures var r := TileModel(s, mode, g, tileX, tileY, u);
            if g.bufferLen > 0 then
              |r.modelBufferUnordered| == |s.modelBufferUnordered| + 8 &&
              r.modelBufferUnordered[..|s.modelBufferUnordered|] == s.modelBufferUnordered &&
              r.modelBufferUnordered[|s.modelBufferUnordered| + 3] == Wrap(Start(r.drawn, |s.drawn|)) &&
              (g.bufferLen % 3 == 0 ==> r.drawn == s.drawn + [3 * r.modelBufferUnordered[|s.modelBufferUnordered| + 2]])
            else r == s
  {
    if g.bufferLen > 0 {
      ThirdOf(g.bufferLen);
      assert (s.drawn + [6])[..|s.drawn|] == s.drawn;
      assert (s.drawn + [g.bufferLen])[..|s.drawn|] == s.drawn;
    }
  }

  // ---------------------------------------------------------------------
  // Models: draw(Renderable, ...)

  /** A client model, as far as the draw callback reads it. */
  datatype Model = Model(sceneId: Int32, faceCount: Int32, bufferOffset: Int32, uvBufferOffset: Int32,
                         radius: Int32, hasFaceTextures: bool, bounds: GpuFrustum.ModelBounds)

  /** A renderable: a model (with its unskewed original, if hillskew moved it), or something else that may give a model. */
  datatype Renderable =
    | ModelRenderable(model: Model, unskewed: Option<Model>)
    | OtherRenderable(getModel: Option<Model>)

  /** The model drawn, the model whose scene data is used, and whether the two differ (hillskew). */
  datatype DrawnModel = DrawnModel(model: Model, offsetModel: Model, hillskew: bool)

  /** The model a renderable draws: itself, or the one `getModel()` builds; none when that is null. */
  function ModelOf(r: Renderable): Option<DrawnModel>
  {
    match r
    case ModelRenderable(m, u) => Some(DrawnModel(m, if u.Some? then u.value else m, u.Some?))
    case OtherRenderable(om) => if om.None? then None else Some(DrawnModel(om.value, om.value, false))
  }

  /** The client's viewport and camera position, read by the draw callback. */
  datatype ClientView = ClientView(viewport: GpuFrustum.Viewport, cameraX2: Int32, cameraY2: Int32, cameraZ2: Int32)

  /** `Math.min(MAX_TRIANGLE, faceCount)`. */
  function TriangleCount(faceCount: Int32): (tc: Int32)
    ensures tc <= MAX_TRIANGLE && (tc == faceCount || tc == MAX_TRIANGLE)
  {
    if MAX_TRIANGLE <= faceCount then MAX_TRIANGLE else faceCount
  }

  /** The plane a model's hash encodes: `(int) ((hash >> 49) & 3)`. */
  function PlaneOf(hash: Int64): (plane: nat)
    ensures plane < 4
  {
    Shr(hash, 49) % 4
  }

  /** The flags word of a scene-buffer model: scene-buffer bit, hillskew bit, plane, radius and orientation. */
  function SceneFlags(hillskew: bool, hash: Int64, radius: Int32, orientation: Int32): Int32
  {
    FromBits(PackFlags(true, hillskew, PlaneOf(hash) as bv32, ToBits(radius), ToBits(orientation)))
  }

  /** The flags word of a temporary model: `(radius << 12) | orientation`. */
  function TemporaryFlags(radius: Int32, orientation: Int32): Int32
  {
    FromBits(PackFlags(false, false, 0, ToBits(radius), ToBits(orientation)))
  }

  /** The descriptor of a model whose vertices are in the scene buffer. */
  function SceneBufferRecord(d: DrawnModel, flags: Int32, x: Int32, y: Int32, z: Int32,
                             c: ClientView, targetOffset: Int32): seq<Int32>
  {
    [d.offsetModel.bufferOffset, d.offsetModel.uvBufferOffset, TriangleCount(d.offsetModel.faceCount), targetOffset,
     flags, Add(x, c.cameraX2), Add(y, c.cameraY2), Add(z, c.cameraZ2)]
  }

  /** The descriptor of a temporary model of `len` vertices, staged at `tempOffset`. */
  function TemporaryRecord(d: DrawnModel, flags: Int32, x: Int32, y: Int32, z: Int32, c: ClientView,
                           tempOffset: Int32, tempUvOffset: Int32, len: Int32, targetOffset: Int32): seq<Int32>
  {
    [tempOffset, if d.model.hasFaceTextures then tempUvOffset else -1, Div(len, 3), targetOffset,
     flags, Add(x, c.cameraX2), Add(y, c.cameraY2), Add(z, c.cameraZ2)]
  }

  /** Without compute shaders: the uploader writes the geometry and returns its vertex count. */
  function DirectDraw(s: DrawState, u: Upload): DrawState
  {
    Advance(Stage(s, u), u.count)
  }

  /** A model of the current scene, drawn from the scene buffer: at most 6144 triangles. */
  function SceneBufferDraw(s: DrawState, d: DrawnModel, flags: Int32, x: Int32, y: Int32, z: Int32,
                           c: ClientView): DrawState
  {
    var tc := TriangleCount(d.offsetModel.faceCount);
    Advance(Enqueue(s, ForTriangles(tc), SceneBufferRecord(d, flags, x, y, z, c, s.targetBufferOffset)),
            Mul(tc, 3))
  }

  /** The staging offsets move past a temporary model of `len` vertices; the UV offset only for a textured one. */
  function AdvanceTemp(s: DrawState, len: Int32, hasUv: bool): DrawState
  {
    s.(tempOffset := Add(s.tempOffset, len),
       tempUvOffset := if hasUv then Add(s.tempUvOffset, len) else s.tempUvOffset)
  }

  /** Any other model: staged as a temporary model of `u.count` vertices. */
  function TemporaryDraw(s: DrawState, d: DrawnModel, flags: Int32, x: Int32, y: Int32, z: Int32,
                         c: ClientView, u: Upload): DrawState
  {
    var len := u.count;
    var record := TemporaryRecord(d, flags, x, y, z, c, s.tempOffset, s.tempUvOffset, len, s.targetBufferOffset);
    Advance(AdvanceTemp(Enqueue(Stage(s, u), ForTriangles(Div(len, 3)), record), len, d.model.hasFaceTextures), len)
  }

  /**
   * A visible model, as `draw(Renderable, ...)` handles it: drawn directly
   * without compute shaders, from the scene buffer when its scene id is the
   * current scene's, and as a temporary model otherwise.
   */
  function DrawModel(s: DrawState, mode: ComputeMode, sceneId: Int32, d: DrawnModel, orientation: Int32,
                     x: Int32, y: Int32, z: Int32, hash: Int64, c: ClientView, u: Upload): DrawState
  {
    if mode == NONE then DirectDraw(s, u)
    else if d.offsetModel.sceneId == sceneId then
      SceneBufferDraw(s, d, SceneFlags(d.hillskew, hash, d.model.radius, orientation), x, y, z, c)
    else TemporaryDraw(s, d, TemporaryFlags(d.model.radius, orientation), x, y, z, c, u)
  }

  /** `draw(Renderable, ...)`: nothing happens to a renderable without a model or to an invisible model. */
  function DrawRenderable(s: DrawState, mode: ComputeMode, sceneId: Int32, r: Renderable, orientation: Int32,
                          cam: GpuFrustum.Camera, x: Int32, y: Int32, z: Int32, hash: Int64,
                          c: ClientView, u: Upload): DrawState
  {
    match ModelOf(r)
    case None => s
    case Some(d) =>
      if !GpuFrustum.IsVisible(d.model.bounds, cam, c.viewport, x, y, z) then s
      else DrawModel(s, mode, sceneId, d, orientation, x, y, z, hash, c, u)
  }

  /** Drawing with no compute shaders keeps the draw state valid. */
  lemma DirectDrawKeepsValid(s: DrawState, u: Upload)
    requires ValidState(s)
    ensures ValidState(DirectDraw(s, u))
  {
    AdvanceKeepsValid(Stage(s, u), u.count);
  }

  /** Drawing a model already in the scene buffer keeps the draw state valid. */
  lemma SceneBufferDrawKeepsValid(s: DrawState, d: DrawnModel, flags: Int32, x: Int32, y: Int32, z: Int32, c: ClientView)
    requires ValidState(s)
    ensures ValidState(SceneBufferDraw(s, d, flags, x, y, z, c))
  {
    var tc := TriangleCount(d.offsetModel.faceCount);
    var record := SceneBufferRecord(d, flags, x, y, z, c, s.targetBufferOffset);
    EnqueueKeepsValid(s, ForTriangles(tc), record);
    AdvanceKeepsValid(Enqueue(s, ForTriangles(tc), record), Mul(tc, 3));
  }

  /** Drawing a model through the temporary buffers keeps the draw state valid. */
  lemma TemporaryDrawKeepsValid(s: DrawState, d: DrawnModel, flags: Int32, x: Int32, y: Int32, z: Int32,
                                c: ClientView, u: Upload)
    requires ValidState(s)
    ensures ValidState(TemporaryDraw(s, d, flags, x, y, z, c, u))
  {
    var len := u.count;
    var record := TemporaryRecord(d, flags, x, y, z, c, s.tempOffset, s.tempUvOffset, len, s.targetBufferOffset);
    EnqueueKeepsValid(Stage(s, u), ForTriangles(Div(len, 3)), record);
    var staged := Enqueue(Stage(s, u), ForTriangles(Div(len, 3)), record);
    AdvanceKeepsValid(AdvanceTemp(staged, len, d.model.hasFaceTextures), len);
  }

  /** Each of the three ways of drawing a visible model keeps the draw state valid. */
  lemma DrawModelKeepsValid(s: DrawState, mode: ComputeMode, sceneId: Int32, d: DrawnModel, orientation: Int32,
                            x: Int32, y: Int32, z: Int32, hash: Int64, c: ClientView, u: Upload)
    requires ValidState(s)
    ensures ValidState(DrawModel(s, mode, sceneId, d, orientation, x, y, z, hash, c, u))
  {
    if mode == NONE {
      DirectDrawKeepsValid(s, u);
    } else if d.offsetModel.sceneId == sceneId {
      SceneBufferDrawKeepsValid(s, d, SceneFlags(d.hillskew, hash, d.model.radius, orientation), x, y, z, c);
    } else {
      TemporaryDrawKeepsValid(s, d, TemporaryFlags(d.model.radius, orientation), x, y, z, c, u);
    }
  }

  /** `draw` keeps the draw state valid, whether or not it draws anything. */
  lemma DrawRenderableKeepsValid(s: DrawState, mode: ComputeMode, sceneId: Int32, r: Renderable, orientation: Int32,
                                 cam: GpuFrustum.Camera, x: Int32, y: Int32, z: Int32, hash: Int64,
                                 c: ClientView, u: Upload)
    requires ValidState(s)
    ensures ValidState(DrawRenderable(s, mode, sceneId, r, orientation, cam, x, y, z, hash, c, u))
  {
    match ModelOf(r)
    case None =>
    case Some(d) =>
      DrawModelKeepsValid(s, mode, sceneId, d, orientation, x, y, z, hash, c, u);
  }

  /**
   * A scene-buffer model goes to the small queue when it has at most 512
   * triangles and to the large queue otherwise, as one descriptor whose
   * word 2 is its triangle count (at most 6144) and word 3 the start of its
   * output range, which is three vertices per triangle long.
   */
  lemma SceneBufferDescriptor(s: DrawState, d: DrawnModel, flags: Int32, x: Int32, y: Int32, z: Int32, c: ClientView)
    requires ValidState(s) && d.offsetModel.faceCount >= 0
    ensures var t := SceneBufferDraw(s, d, flags, x, y, z, c);
            var q := if d.offsetModel.faceCount <= SMALL_TRIANGLE_COUNT then Small else Large;
            var n := |QueueOf(s, q)|;
            |QueueOf(t, q)| == n + 8 && QueueOf(t, q)[..n] == QueueOf(s, q) &&
            0 <= QueueOf(t, q)[n + 2] <= MAX_TRIANGLE &&
            QueueOf(t, q)[n + 3] == Wrap(Start(t.drawn, |s.drawn|)) &&
            t.drawn == s.drawn + [3 * QueueOf(t, q)[n + 2]]
  {
    var tc := TriangleCount(d.offsetModel.faceCount);
    var record := SceneBufferRecord(d, flags, x, y, z, c, s.targetBufferOffset);
    EnqueueKeepsValid(s, ForTriangles(tc), record);
    assert (s.drawn + [Mul(tc, 3)])[..|s.drawn|] == s.drawn;
  }

  /**
   * A temporary model appends one descriptor whose word 0 is the staging
   * offset before the call and word 1 the UV staging offset, or -1 when the
   * model has no textures; the UV offset advances only for textured models.
   * Word 3 starts the output range, which is three vertices per triangle
   * long when the length is a multiple of three.
   */
  lemma TemporaryDescriptor(s: DrawState, d: DrawnModel, flags: Int32, x: Int32, y: Int32, z: Int32,
                            c: ClientView, u: Upload)
    requires ValidState(s) && u.count >= 0
    ensures var t := TemporaryDraw(s, d, flags, x, y, z, c, u);
            var hasUv := d.model.hasFaceTextures;
            var q := if u.count / 3 <= SMALL_TRIANGLE_COUNT then Small else Large;
            var n := |QueueOf(s, q)|;
            |QueueOf(t, q)| == n + 8 && QueueOf(t, q)[..n] == QueueOf(s, q) &&
            QueueOf(t, q)[n] == s.tempOffset &&
            QueueOf(t, q)[n + 1] == (if hasUv then s.tempUvOffset else -1) &&
            QueueOf(t, q)[n + 3] == Wrap(Start(t.drawn, |s.drawn|)) &&
            t.tempOffset == Add(s.tempOffset, u.count) &&
            t.tempUvOffset == (if hasUv then Add(s.tempUvOffset, u.count) else s.tempUvOffset) &&
            t.vertexBuffer == s.vertexBuffer + u.vertices &&
            (u.count % 3 == 0 ==> t.drawn == s.drawn + [3 * QueueOf(t, q)[n + 2]])
  {
    var len := u.count;
    ThirdOf(len);
    var q := ForTriangles(Div(len, 3));
    var record := TemporaryRecord(d, flags, x, y, z, c, s.tempOffset, s.tempUvOffset, len, s.targetBufferOffset);
    var st := Stage(s, u);
    assert QueueOf(st, q) == QueueOf(s, q);
    EnqueueKeepsValid(st, q, record);
    var e := Enqueue(st, q, record);
    var t := Advance(AdvanceTemp(e, len, d.model.hasFaceTextures), len);
    assert QueueOf(t, q) == QueueOf(s, q) + record;
    assert t.drawn == s.drawn + [len];
    assert t.drawn[..|s.drawn|] == s.drawn;
  }

  /** The end of `draw(int)`: staging and descriptor queues emptied, counters and staging offsets zeroed. */
  function EndFrame(s: DrawState): DrawState
  {
    s.(vertexBuffer := [], uvBuffer := [], modelBuffer := [], modelBufferSmall := [], modelBufferUnordered := [],
       smallModels := 0, largeModels := 0, unorderedModels := 0, tempOffset := 0, tempUvOffset := 0)
  }

  /** The start of a scene draw, and the login screen: the output buffer is handed out from 0 again. */
  function ResetTarget(s: DrawState): DrawState
  {
    s.(targetBufferOffset := 0, drawn := [])
  }

  // ---------------------------------------------------------------------
  // The plugin

  /** A scene as uploaded for the scene buffers: vertices, UVs and the uploader's scene id. */
  datatype SceneUpload = SceneUpload(vertices: seq<int>, uvs: seq<int>, sceneId: Int32)

  class GpuPlugin {
    var computeMode: ComputeMode
    var targetBufferOffset: Int32
    var unorderedModels: Int32
    var smallModels: Int32
    var largeModels: Int32
    var tempOffset: Int32
    var tempUvOffset: Int32
    var vertexBuffer: seq<int>
    var uvBuffer: seq<int>
    var modelBufferUnordered: seq<Int32>
    var modelBufferSmall: seq<Int32>
    var modelBuffer: seq<Int32>
    ghost var drawn: seq<int>

    var sceneId: Int32
    var nextSceneId: Int32
    var nextSceneVertexBuffer: Option<seq<int>>
    var nextSceneTexBuffer: Option<seq<int>>
    /** The packed tile heights last uploaded as the hillskew texture. */
    var tileHeightTexture: seq<int>
    const sceneVertexBuffer: GLBuffer
    const sceneUvBuffer: GLBuffer

    ghost function State(): DrawState
      reads this
    {
      DrawState(targetBufferOffset, unorderedModels, smallModels, largeModels, tempOffset, tempUvOffset,
                vertexBuffer, uvBuffer, modelBufferUnordered, modelBufferSmall, modelBuffer, drawn)
    }

    ghost predicate Valid()
      reads this
    {
      ValidState(State()) && sceneVertexBuffer != sceneUvBuffer
    }

    /** The plugin after start-up in `mode`: empty buffers, zero counters, no scene. */
    constructor(mode: ComputeMode)
      ensures Valid() && computeMode == mode
      ensures State() == DrawState(0, 0, 0, 0, 0, 0, [], [], [], [], [], [])
      ensures sceneId == 0 && nextSceneId == 0 && nextSceneVertexBuffer == None && nextSceneTexBuffer == None
      ensures fresh(sceneVertexBuffer) && fresh(sceneUvBuffer)
    {
      computeMode := mode;
      targetBufferOffset := 0;
      unorderedModels, smallModels, largeModels := 0, 0, 0;
      tempOffset, tempUvOffset := 0, 0;
      vertexBuffer, uvBuffer := [], [];
      modelBufferUnordered, modelBufferSmall, modelBuffer := [], [], [];
      drawn := [];
      sceneId, nextSceneId := 0, 0;
      nextSceneVertexBuffer, nextSceneTexBuffer := None, None;
      tileHeightTexture := [];
      sceneVertexBuffer := new GLBuffer();
      sceneUvBuffer := new GLBuffer();
    }

    /** `recreateCLBuffer`: with OpenCL, the buffer gets `clHandle`, or -1 if it has size 0. */
    method RecreateClBuffer(glBuffer: GLBuffer, clHandle: int)
      modifies glBuffer
      ensures glBuffer.size == old(glBuffer.size) && glBuffer.contents == old(glBuffer.contents)
      ensures computeMode == OPENCL ==> glBuffer.clBuffer == (if glBuffer.size == 0 then -1 else clHandle)
      ensures computeMode != OPENCL ==> glBuffer.clBuffer == old(glBuffer.clBuffer)
    {
      if computeMode == OPENCL {
        if glBuffer.size == 0 {
          glBuffer.clBuffer := -1;
        } else {
          glBuffer.clBuffer := clHandle;
        }
      }
    }

    /** `updateBuffer(glBuffer, target, size, ...)`: reallocates only when the request exceeds the size. */
    method UpdateBuffer(glBuffer: GLBuffer, size: bv32, clHandle: int)
      modifies glBuffer
      ensures glBuffer.size == ResizedTo(old(glBuffer.size), size)
      ensures glBuffer.contents == old(glBuffer.contents)
      ensures SignedLt(old(glBuffer.size), size) && computeMode == OPENCL ==> glBuffer.clBuffer == clHandle
      ensures !(SignedLt(old(glBuffer.size), size) && computeMode == OPENCL) ==> glBuffer.clBuffer == old(glBuffer.clBuffer)
    {
      if SignedLt(glBuffer.size, size) {
        var newSize := SignedMax(1024, NextPowerOfTwo(size));
        glBuffer.size := newSize;
        RecreateClBuffer(glBuffer, clHandle);
      }
    }

    /** `updateBuffer(glBuffer, target, data, ...)`: sizes the buffer for `data`, then uploads it at offset 0. */
    method UpdateBufferData(glBuffer: GLBuffer, data: seq<int>, clHandle: int)
      modifies glBuffer
      ensures glBuffer.size == ResizedTo(old(glBuffer.size), UploadSize(|data|))
      ensures glBuffer.contents == data
    {
      var size := UploadSize(|data|);
      UpdateBuffer(glBuffer, size, clHandle);
      glBuffer.contents := data;
    }

    /** `bufferForTriangles`: picks the queue and counts the model in it. */
    method BufferForTriangles(triangles: Int32) returns (q: Queue)
      modifies this
      ensures q == ForTriangles(triangles)
      ensures q == Small ==> State() == old(State()).(smallModels := Add(old(smallModels), 1))
      ensures q == Large ==> State() == old(State()).(largeModels := Add(old(largeModels), 1))
      ensures computeMode == old(computeMode) && sceneId == old(sceneId)
    {
      if triangles <= SMALL_TRIANGLE_COUNT {
        smallModels := Add(smallModels, 1);
        q := Small;
      } else {
        largeModels := Add(largeModels, 1);
        q := Large;
      }
    }

    /** Writes one descriptor to queue `q`. */
    method Put(q: Queue, record: seq<Int32>)
      modifies this
      ensures q == Unordered ==> State() == old(State()).(modelBufferUnordered := old(modelBufferUnordered) + record)
      ensures q == Small ==> State() == old(State()).(modelBufferSmall := old(modelBufferSmall) + record)
      ensures q == Large ==> State() == old(State()).(modelBuffer := old(modelBuffer) + record)
      ensures computeMode == old(computeMode) && sceneId == old(sceneId)
    {
      match q
      case Unordered => modelBufferUnordered := modelBufferUnordered + record;
      case Small => modelBufferSmall := modelBufferSmall + record;
      case Large => modelBuffer := modelBuffer + record;
    }

    /** Takes `len` words of the output buffer. */
    method AdvanceTarget(len: Int32)
      modifies this
      ensures State() == Advance(old(State()), len)
      ensures computeMode == old(computeMode) && sceneId == old(sceneId)
    {
      targetBufferOffset := Add(targetBufferOffset, len);
      drawn := drawn + [len];
    }

    /** Appends what the uploader wrote to the staging buffers. */
    method StageUpload(u: Upload)
      modifies this
      ensures State() == Stage(old(State()), u)
      ensures computeMode == old(computeMode) && sceneId == old(sceneId)
    {
      vertexBuffer := vertexBuffer + u.vertices;
      uvBuffer := uvBuffer + u.uvs;
    }

    /** `drawScenePaint`. */
    method DrawScenePaint(paint: TileGeometry, tileX: Int32, tileY: Int32, u: Upload)
      requires Valid()
      modifies this
      ensures Valid()
      ensures State() == ScenePaint(old(State()), computeMode, paint, tileX, tileY, u)
      ensures computeMode == old(computeMode) && sceneId == old(sceneId)
    {
      ScenePaintKeepsValid(State(), computeMode, paint, tileX, tileY, u);
      if computeMode == NONE {
        DrawDirect(u);
      } else if paint.bufferLen > 0 {
        unorderedModels := Add(unorderedModels, 1);
        Put(Unordered, TileRecord(paint, 2, targetBufferOffset, tileX, tileY));
        AdvanceTarget(2 * 3);
      }
    }

    /** `drawSceneModel`. */
    method DrawSceneModel(model: TileGeometry, tileX: Int32, tileY: Int32, u: Upload)
      requires Valid()
      modifies this
      ensures Valid()
      ensures State() == TileModel(old(State()), computeMode, model, tileX, tileY, u)
      ensures computeMode == old(computeMode) && sceneId == old(sceneId)
    {
      TileModelKeepsValid(State(), computeMode, model, tileX, tileY, u);
      if computeMode == NONE {
        DrawDirect(u);
      } else if model.bufferLen > 0 {
        unorderedModels := Add(unorderedModels, 1);
        Put(Unordered, TileRecord(model, Div(model.bufferLen, 3), targetBufferOffset, tileX, tileY));
        AdvanceTarget(model.bufferLen);
      }
    }

    /** Hands the uploader's geometry to the output buffer directly (no compute shaders). */
    method DrawDirect(u: Upload)
      requires Valid()
      modifies this
      ensures Valid()
      ensures State() == DirectDraw(old(State()), u)
      ensures computeMode == old(computeMode) && sceneId == old(sceneId)
    {
      DirectDrawKeepsValid(State(), u);
      StageUpload(u);
      AdvanceTarget(u.count);
    }

    /** The scene-buffer branch of `draw(Renderable, ...)`. */
    method DrawSceneBufferModel(d: DrawnModel, flags: Int32, x: Int32, y: Int32, z: Int32, c: ClientView)
      requires Valid()
      modifies this
      ensures Valid()
      ensures State() == SceneBufferDraw(old(State()), d, flags, x, y, z, c)
      ensures computeMode == old(computeMode) && sceneId == old(sceneId)
    {
      SceneBufferDrawKeepsValid(State(), d, flags, x, y, z, c);
      var tc := TriangleCount(d.offsetModel.faceCount);
      var record := SceneBufferRecord(d, flags, x, y, z, c, targetBufferOffset);
      var b := BufferForTriangles(tc);
      Put(b, record);
      AdvanceTarget(Mul(tc, 3));
    }

    /** The temporary-model branch of `draw(Renderable, ...)`; `u` is what `pushModel` returns and writes. */
    method DrawTemporaryModel(d: DrawnModel, flags: Int32, x: Int32, y: Int32, z: Int32, c: ClientView, u: Upload)
      requires Valid()
      modifies this
      ensures Valid()
      ensures State() == TemporaryDraw(old(State()), d, flags, x, y, z, c, u)
      ensures computeMode == old(computeMode) && sceneId == old(sceneId)
    {
      TemporaryDrawKeepsValid(State(), d, flags, x, y, z, c, u);
      var len := u.count;
      var record := TemporaryRecord(d, flags, x, y, z, c, tempOffset, tempUvOffset, len, targetBufferOffset);
      StageUpload(u);
      var b := BufferForTriangles(Div(len, 3));
      Put(b, record);
      AdvanceTempOffsets(len, d.model.hasFaceTextures);
      AdvanceTarget(len);
    }

    /** Moves the staging offsets past a temporary model of `len` vertices. */
    method AdvanceTempOffsets(len: Int32, hasUv: bool)
      modifies this
      ensures State() == AdvanceTemp(old(State()), len, hasUv)
      ensures computeMode == old(computeMode) && sceneId == old(sceneId)
    {
      tempOffset := Add(tempOffset, len);
      if hasUv {
        tempUvOffset := Add(tempUvOffset, len);
      }
    }

    /** `draw(Renderable, ...)`; `u` is what `pushSortedModel` or `pushModel` return and write. */
    method Draw(r: Renderable, orientation: Int32, cam: GpuFrustum.Camera, x: Int32, y: Int32, z: Int32, hash: Int64,
                c: ClientView, u: Upload)
      requires Valid()
      modifies this
      ensures Valid()
      ensures State() == DrawRenderable(old(State()), computeMode, sceneId, r, orientation, cam, x, y, z, hash, c, u)
      ensures computeMode == old(computeMode) && sceneId == old(sceneId)
    {
      var found := ModelOf(r);
      if found.None? {
        return;
      }
      var d := found.value;
      if !GpuFrustum.IsVisible(d.model.bounds, cam, c.viewport, x, y, z) {
        return;
      }
      if computeMode == NONE {
        DrawDirect(u);
      } else if d.offsetModel.sceneId == sceneId {
        DrawSceneBufferModel(d, SceneFlags(d.hillskew, hash, d.model.radius, orientation), x, y, z, c);
      } else {
        DrawTemporaryModel(d, TemporaryFlags(d.model.radius, orientation), x, y, z, c, u);
      }
    }

    /** The end-of-frame reset in `draw(int)`; the target offset is kept. */
    method EndOfFrame()
      requires Valid()
      modifies this
      ensures Valid()
      ensures State() == EndFrame(old(State()))
      ensures computeMode == old(computeMode) && sceneId == old(sceneId)
    {
      ClearStaging();
      ClearQueues();
    }

    /** The staging buffers emptied, the staging offsets zeroed. */
    method ClearStaging()
      modifies this`vertexBuffer, this`uvBuffer, this`tempOffset, this`tempUvOffset
      ensures vertexBuffer == [] && uvBuffer == [] && tempOffset == 0 && tempUvOffset == 0
    {
      vertexBuffer := [];
      uvBuffer := [];
      tempOffset := 0;
      tempUvOffset := 0;
    }

    /** The descriptor queues emptied, their counters zeroed. */
    method ClearQueues()
      modifies this`modelBuffer, this`modelBufferSmall, this`modelBufferUnordered
      modifies this`smallModels, this`largeModels, this`unorderedModels
      ensures modelBuffer == [] && modelBufferSmall == [] && modelBufferUnordered == []
      ensures smallModels == 0 && largeModels == 0 && unorderedModels == 0
    {
      modelBuffer := [];
      modelBufferSmall := [];
      modelBufferUnordered := [];
      smallModels, largeModels, unorderedModels := 0, 0, 0;
    }

    /**
     * `drawScene`: the draw distance it sets on the scene, and the reset of
     * the target offset; the camera uniforms written through the vertex
     * staging buffer leave it empty.
     */
    method DrawScene(configuredDrawDistance: Int32) returns (drawDistance: Int32)
      requires Valid()
      modifies this
      ensures Valid()
      ensures drawDistance == GetDrawDistance(computeMode, configuredDrawDistance)
      ensures State() == ResetTarget(old(State())).(vertexBuffer := [])
      ensures computeMode == old(computeMode) && sceneId == old(sceneId)
    {
      drawDistance := GetDrawDistance(computeMode, configuredDrawDistance);
      targetBufferOffset := 0;
      drawn := [];
      vertexBuffer := [];
    }

    /** `onGameStateChanged`: the login screen resets the target offset. */
    method OnGameStateChanged(gameState: GameState)
      requires Valid()
      modifies this
      ensures Valid()
      ensures gameState == LOGIN_SCREEN ==> State() == ResetTarget(old(State()))
      ensures gameState != LOGIN_SCREEN ==> State() == old(State())
      ensures computeMode == old(computeMode) && sceneId == old(sceneId)
    {
      if gameState == LOGIN_SCREEN {
        targetBufferOffset := 0;
        drawn := [];
      }
    }

    /** `loadScene`: with compute shaders, the uploaded scene becomes the pending one. */
    method LoadScene(scene: SceneUpload)
      requires Valid()
      modifies this
      ensures Valid() && State() == old(State())
      ensures computeMode == old(computeMode) && sceneId == old(sceneId)
      ensures computeMode == NONE ==> nextSceneVertexBuffer == old(nextSceneVertexBuffer) &&
                                      nextSceneTexBuffer == old(nextSceneTexBuffer) && nextSceneId == old(nextSceneId)
      ensures computeMode != NONE ==> nextSceneVertexBuffer == Some(scene.vertices) &&
                                      nextSceneTexBuffer == Some(scene.uvs) && nextSceneId == scene.sceneId
    {
      if computeMode == NONE {
        return;
      }
      nextSceneVertexBuffer := Some(scene.vertices);
      nextSceneTexBuffer := Some(scene.uvs);
      nextSceneId := scene.sceneId;
    }

    /** `uploadTileHeights` (OpenGL): the scene's tile heights, packed, become the hillskew texture. */
    method UploadTileHeights(tileHeights: seq<seq<seq<Int32>>>)
      requires GpuTileHeights.CoversScene(tileHeights)
      modifies this
      ensures GpuTileHeights.HoldsPacked(tileHeightTexture, tileHeights)
      ensures State() == old(State()) && computeMode == old(computeMode) && sceneId == old(sceneId)
      ensures nextSceneId == old(nextSceneId) && nextSceneVertexBuffer == old(nextSceneVertexBuffer) &&
              nextSceneTexBuffer == old(nextSceneTexBuffer)
    {
      tileHeightTexture := GpuTileHeights.PackTileHeights(tileHeights);
    }

    /** The two `updateBuffer` calls of `swapScene`: the scene's vertices and UVs go to the scene buffers. */
    method UploadSceneBuffers(vertices: seq<int>, uvs: seq<int>, clVertexHandle: int, clUvHandle: int)
      requires sceneVertexBuffer != sceneUvBuffer
      modifies sceneVertexBuffer, sceneUvBuffer
      ensures sceneVertexBuffer.contents == vertices && sceneUvBuffer.contents == uvs
      ensures sceneVertexBuffer.size == ResizedTo(old(sceneVertexBuffer.size), UploadSize(|vertices|))
      ensures sceneUvBuffer.size == ResizedTo(old(sceneUvBuffer.size), UploadSize(|uvs|))
    {
      UpdateBufferData(sceneVertexBuffer, vertices, clVertexHandle);
      UpdateBufferData(sceneUvBuffer, uvs, clUvHandle);
    }

    /** The rest of `swapScene`: the pending scene becomes the current one, and nothing is pending. */
    method InstallPendingScene(clVertexHandle: int, clUvHandle: int)
      requires Valid() && nextSceneVertexBuffer.Some? && nextSceneTexBuffer.Some?
      modifies this, sceneVertexBuffer, sceneUvBuffer
      ensures Valid() && State() == old(State()) && computeMode == old(computeMode)
      ensures tileHeightTexture == old(tileHeightTexture)
      ensures sceneId == old(nextSceneId) && nextSceneId == -1
      ensures nextSceneVertexBuffer == None && nextSceneTexBuffer == None
      ensures sceneVertexBuffer.contents == old(nextSceneVertexBuffer).value
      ensures sceneUvBuffer.contents == old(nextSceneTexBuffer).value
      ensures sceneVertexBuffer.size == ResizedTo(old(sceneVertexBuffer.size), UploadSize(|sceneVertexBuffer.contents|))
      ensures sceneUvBuffer.size == ResizedTo(old(sceneUvBuffer.size), UploadSize(|sceneUvBuffer.contents|))
    {
      var vertices := nextSceneVertexBuffer.value;
      var uvs := nextSceneTexBuffer.value;
      TakePendingScene();
      UploadSceneBuffers(vertices, uvs, clVertexHandle, clUvHandle);
    }

    /** `sceneId = nextSceneId`, then the pending buffers and id are cleared. */
    method TakePendingScene()
      modifies this`sceneId, this`nextSceneId, this`nextSceneVertexBuffer, this`nextSceneTexBuffer
      ensures sceneId == old(nextSceneId) && nextSceneId == -1
      ensures nextSceneVertexBuffer == None && nextSceneTexBuffer == None
    {
      sceneId := nextSceneId;
      nextSceneVertexBuffer := None;
      nextSceneTexBuffer := None;
      nextSceneId := -1;
    }

    /**
     * `swapScene`: with compute shaders, the pending scene becomes the
     * current one (its geometry uploaded to the scene buffers, its id the
     * current id) and nothing is pending any more.  With OpenGL the tile
     * heights are packed into the hillskew texture first.  `missingScene` is
     * the NullPointerException thrown when a pending buffer is null (no
     * `loadScene` since the last swap): by then the tile heights are
     * uploaded, the current id is the pending id, and the vertices were
     * uploaded if they were pending; nothing else has changed.
     */
    method SwapScene(tileHeights: seq<seq<seq<Int32>>>, clVertexHandle: int, clUvHandle: int)
      returns (missingScene: bool)
      requires Valid()
      requires computeMode == OPENGL ==> GpuTileHeights.CoversScene(tileHeights)
      modifies this, sceneVertexBuffer, sceneUvBuffer
      ensures Valid() && State() == old(State()) && computeMode == old(computeMode)
      ensures missingScene <==>
                computeMode != NONE && (old(nextSceneVertexBuffer).None? || old(nextSceneTexBuffer).None?)
      ensures computeMode == NONE ==> sceneId == old(sceneId) && unchanged(sceneVertexBuffer, sceneUvBuffer)
      ensures computeMode == NONE || missingScene ==>
                nextSceneId == old(nextSceneId) &&
                nextSceneVertexBuffer == old(nextSceneVertexBuffer) &&
                nextSceneTexBuffer == old(nextSceneTexBuffer)
      ensures missingScene ==> sceneId == old(nextSceneId) && unchanged(sceneUvBuffer)
      ensures missingScene && old(nextSceneVertexBuffer).None? ==> unchanged(sceneVertexBuffer)
      ensures missingScene && old(nextSceneVertexBuffer).Some? ==>
                sceneVertexBuffer.contents == old(nextSceneVertexBuffer).value &&
                sceneVertexBuffer.size == ResizedTo(old(sceneVertexBuffer.size), UploadSize(|sceneVertexBuffer.contents|))
      ensures computeMode != NONE && !missingScene ==>
                sceneId == old(nextSceneId) && nextSceneId == -1 &&
                nextSceneVertexBuffer == None && nextSceneTexBuffer == None &&
                sceneVertexBuffer.contents == old(nextSceneVertexBuffer).value &&
                sceneUvBuffer.contents == old(nextSceneTexBuffer).value &&
                sceneVertexBuffer.size == ResizedTo(old(sceneVertexBuffer.size), UploadSize(|sceneVertexBuffer.contents|)) &&
                sceneUvBuffer.size == ResizedTo(old(sceneUvBuffer.size), UploadSize(|sceneUvBuffer.contents|))
      ensures computeMode == OPENGL ==> GpuTileHeights.HoldsPacked(tileHeightTexture, tileHeights)
      ensures computeMode != OPENGL ==> tileHeightTexture == old(tileHeightTexture)
    {
      missingScene := false;
      if computeMode == NONE {
        return;
      }
      if computeMode == OPENGL {
        UploadTileHeights(tileHeights);
      }
      if nextSceneVertexBuffer.None? || nextSceneTexBuffer.None? {
        missingScene := true;
        sceneId := nextSceneId;
        if nextSceneVertexBuffer.Some? {
          UpdateBufferData(sceneVertexBuffer, nextSceneVertexBuffer.value, clVertexHandle);
        }
        return;
      }
      InstallPendingScene(clVertexHandle, clUvHandle);
    }
  }
}
