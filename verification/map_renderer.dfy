/** The terrain draw-call planner of MapRenderer. The GPU is represented by
    the sequence of indexed draw calls it would receive; binding buffers and
    toggling alpha test, blending, depth and colour writes are left out,
    except that each call records whether face culling is on for it.

    A chunk part keeps its triangles in one index buffer, with a contiguous
    index range per face direction. Every four vertices form one quad drawn
    by six indices, so a 16-bit vertex index reaches 65536 vertices, that is
    65536 / 4 * 6 = 98304 indices; parts with more indices ("big parts")
    need their top and bottom ranges drawn in two pieces, the second
    re-based at vertex 65536. */
module MapRenderer {
  import opened Common

  const MaxVertex := 65536
  const MaxIndices := MaxVertex / 4 * 6

  /** Block ids of the two water blocks (the Block enumeration is not part
      of this model; these are the ids of the classic block set). */
  const Water := 8
  const StillWater := 9

  // ---------------------------------------------------------------------
  // Chunk and part records

  /** Per-part index ranges (ChunkPartInfo is not part of this model; its
      fields are the ones MapRenderer reads). Sprites occupy the first
      `spriteCount` indices of the buffer. */
  datatype ChunkPartInfo = ChunkPartInfo(
    vbId: int,
    indicesCount: nat,
    spriteCount: nat,
    leftIndex: nat, leftCount: nat,
    rightIndex: nat, rightCount: nat,
    frontIndex: nat, frontCount: nat,
    backIndex: nat, backCount: nat,
    bottomIndex: nat, bottomCount: nat,
    topIndex: nat, topCount: nat)

  datatype Face = Left | Right | Front | Back | Bottom | Top

  function FaceIndex(part: ChunkPartInfo, f: Face): nat
  {
    match f
    case Left => part.leftIndex
    case Right => part.rightIndex
    case Front => part.frontIndex
    case Back => part.backIndex
    case Bottom => part.bottomIndex
    case Top => part.topIndex
  }

  function FaceCount(part: ChunkPartInfo, f: Face): nat
  {
    match f
    case Left => part.leftCount
    case Right => part.rightCount
    case Front => part.frontCount
    case Back => part.backCount
    case Bottom => part.bottomCount
    case Top => part.topCount
  }

  /** Per-chunk state. Centres are 16-bit unsigned values. */
  datatype ChunkInfo = ChunkInfo(
    centreX: u16, centreY: u16, centreZ: u16,
    visible: bool, empty: bool,
    drawLeft: bool, drawRight: bool, drawFront: bool,
    drawBack: bool, drawBottom: bool, drawTop: bool,
    normalParts: Option<seq<ChunkPartInfo>>,
    translucentParts: Option<seq<ChunkPartInfo>>)

  function DrawFlag(info: ChunkInfo, f: Face): bool
  {
    match f
    case Left => info.drawLeft
    case Right => info.drawRight
    case Front => info.drawFront
    case Back => info.drawBack
    case Bottom => info.drawBottom
    case Top => info.drawTop
  }

  /** The `(ushort)` cast: the value modulo 2^16. */
  function ToUShort(x: int): u16
  {
    x % 0x1_0000
  }

  /** The ChunkInfo constructor for the chunk whose minimum corner is
      (x, y, z): visible, not empty, no face enabled, no parts yet, and the
      centre 8 blocks in along each axis. */
  function NewChunkInfo(x: int, y: int, z: int): (info: ChunkInfo)
    ensures info.visible && !info.empty
    ensures forall f :: !DrawFlag(info, f)
    ensures info.normalParts == None && info.translucentParts == None
    ensures 0 <= x + 8 < 0x1_0000 ==> info.centreX == x + 8
    ensures 0 <= y + 8 < 0x1_0000 ==> info.centreY == y + 8
    ensures 0 <= z + 8 < 0x1_0000 ==> info.centreZ == z + 8
    ensures (info.centreX - (x + 8)) % 0x1_0000 == 0
    ensures (info.centreY - (y + 8)) % 0x1_0000 == 0
    ensures (info.centreZ - (z + 8)) % 0x1_0000 == 0
  {
    ChunkInfo(ToUShort(x + 8), ToUShort(y + 8), ToUShort(z + 8),
              true, false, false, false, false, false, false, false, None, None)
  }

  // ---------------------------------------------------------------------
  // Draw calls and the index ranges they cover

  /** One DrawIndexedVb_TrisT2fC4b call: `count` indices from `startIndex`,
      with vertex indices offset by `baseVertex`, culling on or off. */
  datatype DrawCall = DrawCall(count: int, startIndex: int, baseVertex: int, culling: bool)

  /** Position in the part's index buffer that a call starts at: each quad
      has 4 vertices and 6 indices, so a base vertex of v skips v / 4 * 6
      indices. */
  function BufferStart(c: DrawCall): int
  {
    c.startIndex + c.baseVertex / 4 * 6
  }

  /** Some call in `calls` draws buffer index g. */
  predicate Draws(calls: seq<DrawCall>, g: int)
  {
    exists k :: 0 <= k < |calls| && BufferStart(calls[k]) <= g < BufferStart(calls[k]) + calls[k].count
  }

  lemma DrawsAppend(a: seq<DrawCall>, b: seq<DrawCall>, g: int)
    ensures Draws(a + b, g) <==> Draws(a, g) || Draws(b, g)
  {
    if Draws(a, g) {
      var k :| 0 <= k < |a| && BufferStart(a[k]) <= g < BufferStart(a[k]) + a[k].count;
      assert (a + b)[k] == a[k];
    }
    if Draws(b, g) {
      var k :| 0 <= k < |b| && BufferStart(b[k]) <= g < BufferStart(b[k]) + b[k].count;
      assert (a + b)[|a| + k] == b[k];
    }
    if Draws(a + b, g) {
      var k :| 0 <= k < |a + b| && BufferStart((a + b)[k]) <= g < BufferStart((a + b)[k]) + (a + b)[k].count;
      if k < |a| {
        assert (a + b)[k] == a[k];
      } else {
        assert (a + b)[k] == b[k - |a|];
      }
    }
  }

  /** A face is drawn when it is enabled for the chunk (or all faces are
      forced) and its range is not empty. */
  predicate Contributes(info: ChunkInfo, part: ChunkPartInfo, f: Face, drawAllFaces: bool)
  {
    (drawAllFaces || DrawFlag(info, f)) && FaceCount(part, f) > 0
  }

  predicate InFace(part: ChunkPartInfo, f: Face, g: int)
  {
    FaceIndex(part, f) <= g < FaceIndex(part, f) + FaceCount(part, f)
  }

  /** Buffer index g belongs to a face that contributes. */
  predicate FaceDrawn(info: ChunkInfo, part: ChunkPartInfo, drawAllFaces: bool, g: int)
  {
    || (Contributes(info, part, Left, drawAllFaces) && InFace(part, Left, g))
    || (Contributes(info, part, Right, drawAllFaces) && InFace(part, Right, g))
    || (Contributes(info, part, Front, drawAllFaces) && InFace(part, Front, g))
    || (Contributes(info, part, Back, drawAllFaces) && InFace(part, Back, g))
    || (Contributes(info, part, Bottom, drawAllFaces) && InFace(part, Bottom, g))
    || (Contributes(info, part, Top, drawAllFaces) && InFace(part, Top, g))
  }

  /** Each opposite pair of faces is stored back to back, as the mesh
      builder lays them out. */
  predicate PairsAdjacent(part: ChunkPartInfo)
  {
    && part.rightIndex == part.leftIndex + part.leftCount
    && part.backIndex == part.frontIndex + part.frontCount
    && part.topIndex == part.bottomIndex + part.bottomCount
  }

  // ---------------------------------------------------------------------
  // DrawPart, DrawTranslucentPart, DrawBigPart

  /** The calls for one opposite pair of faces a, b (a stored first): one
      merged call when both contribute, culled when `cullMerged`; otherwise a
      call for the face that contributes, never culled. */
  function AxisPair(info: ChunkInfo, part: ChunkPartInfo, a: Face, b: Face,
                    drawAllFaces: bool, cullMerged: bool): (calls: seq<DrawCall>)
    ensures |calls| <= 1
    ensures |calls| == 1 <==> Contributes(info, part, a, drawAllFaces) || Contributes(info, part, b, drawAllFaces)
    ensures |calls| == 1 ==> calls[0].baseVertex == 0 && calls[0].count > 0
    ensures |calls| == 1 && calls[0].culling ==> cullMerged
  {
    var drawA := Contributes(info, part, a, drawAllFaces);
    var drawB := Contributes(info, part, b, drawAllFaces);
    if drawA && drawB then
      [DrawCall(FaceCount(part, a) + FaceCount(part, b), FaceIndex(part, a), 0, cullMerged)]
    else if drawA then [DrawCall(FaceCount(part, a), FaceIndex(part, a), 0, false)]
    else if drawB then [DrawCall(FaceCount(part, b), FaceIndex(part, b), 0, false)]
    else []
  }

  /** The merged pair call draws exactly the indices of the faces that
      contribute, and is culled exactly when both contribute. */
  lemma AxisPairCoverage(info: ChunkInfo, part: ChunkPartInfo, a: Face, b: Face,
                         drawAllFaces: bool, cullMerged: bool, g: int)
    requires FaceIndex(part, b) == FaceIndex(part, a) + FaceCount(part, a)
    ensures Draws(AxisPair(info, part, a, b, drawAllFaces, cullMerged), g) <==>
              (Contributes(info, part, a, drawAllFaces) && InFace(part, a, g)) ||
              (Contributes(info, part, b, drawAllFaces) && InFace(part, b, g))
    ensures var calls := AxisPair(info, part, a, b, drawAllFaces, cullMerged);
            |calls| == 1 ==> (calls[0].culling <==>
              cullMerged && Contributes(info, part, a, drawAllFaces) && Contributes(info, part, b, drawAllFaces))
  {
    var calls := AxisPair(info, part, a, b, drawAllFaces, cullMerged);
    if |calls| == 1 {
      assert Draws(calls, g) <==> BufferStart(calls[0]) <= g < BufferStart(calls[0]) + calls[0].count;
    }
  }

  /** DrawPart: the normal (opaque) part of a chunk. */
  function DrawPart(info: ChunkInfo, part: ChunkPartInfo): seq<DrawCall>
  {
    AxisPair(info, part, Left, Right, false, true)
      + AxisPair(info, part, Front, Back, false, true)
      + AxisPair(info, part, Bottom, Top, false, true)
  }

  /** DrawTranslucentPart: as DrawPart, but every flag is replaced by
      `drawAllFaces` when that is set, and culling is never enabled. */
  function DrawTranslucentPart(info: ChunkInfo, part: ChunkPartInfo, drawAllFaces: bool): seq<DrawCall>
  {
    AxisPair(info, part, Left, Right, drawAllFaces, false)
      + AxisPair(info, part, Front, Back, drawAllFaces, false)
      + AxisPair(info, part, Bottom, Top, drawAllFaces, false)
  }

  /** A pair of faces draws buffer index g iff g lies in one of the
      contributing faces of that pair; the three pairs together draw
      exactly the contributing faces. */
  lemma ThreePairsCoverage(info: ChunkInfo, part: ChunkPartInfo, drawAllFaces: bool, cull: bool, g: int)
    requires PairsAdjacent(part)
    ensures Draws(AxisPair(info, part, Left, Right, drawAllFaces, cull)
                + AxisPair(info, part, Front, Back, drawAllFaces, cull)
                + AxisPair(info, part, Bottom, Top, drawAllFaces, cull), g)
            <==> FaceDrawn(info, part, drawAllFaces, g)
  {
    var lr := AxisPair(info, part, Left, Right, drawAllFaces, cull);
    var fb := AxisPair(info, part, Front, Back, drawAllFaces, cull);
    var bt := AxisPair(info, part, Bottom, Top, drawAllFaces, cull);
    DrawsAppend(lr + fb, bt, g);
    DrawsAppend(lr, fb, g);
    AxisPairCoverage(info, part, Left, Right, drawAllFaces, cull, g);
    AxisPairCoverage(info, part, Front, Back, drawAllFaces, cull, g);
    AxisPairCoverage(info, part, Bottom, Top, drawAllFaces, cull, g);
  }

  /** DrawPart draws every index of every contributing face and nothing
      else; each call is culled exactly when it merges both faces of a pair. */
  lemma DrawPartCoverage(info: ChunkInfo, part: ChunkPartInfo, g: int)
    requires PairsAdjacent(part)
    ensures Draws(DrawPart(info, part), g) <==> FaceDrawn(info, part, false, g)
    ensures |DrawPart(info, part)| <= 3
  {
    ThreePairsCoverage(info, part, false, true, g);
  }

  /** DrawTranslucentPart draws exactly the contributing faces and never
      enables culling. */
  lemma DrawTranslucentPartCoverage(info: ChunkInfo, part: ChunkPartInfo, drawAllFaces: bool, g: int)
    requires PairsAdjacent(part)
    ensures Draws(DrawTranslucentPart(info, part, drawAllFaces), g) <==> FaceDrawn(info, part, drawAllFaces, g)
    ensures forall k :: 0 <= k < |DrawTranslucentPart(info, part, drawAllFaces)| ==>
              !DrawTranslucentPart(info, part, drawAllFaces)[k].culling
  {
    ThreePairsCoverage(info, part, drawAllFaces, false, g);
  }

  /** The chunk with every face flag set. */
  function AllFacesEnabled(info: ChunkInfo): (all: ChunkInfo)
    ensures forall f :: DrawFlag(all, f)
  {
    info.(drawLeft := true, drawRight := true, drawFront := true,
          drawBack := true, drawBottom := true, drawTop := true)
  }

  /** Forcing all faces ignores the chunk's own flags: the result is that of
      a chunk with every flag set, whatever the flags were. */
  lemma DrawAllFacesOverridesFlags(info: ChunkInfo, other: ChunkInfo, part: ChunkPartInfo)
    ensures DrawTranslucentPart(info, part, true) == DrawTranslucentPart(other, part, true)
    ensures DrawTranslucentPart(info, part, true) == DrawTranslucentPart(AllFacesEnabled(info), part, false)
  {
  }

  /** The bottom/top calls of DrawBigPart as the renderer writes them. In
      the top-only branch the first count, 98304 - topIndex, is negative
      when the top face starts above index 98304, and the second call then
      also redraws the indices between 98304 and topIndex. */
  function BigBottomTopAsWritten(info: ChunkInfo, part: ChunkPartInfo): seq<DrawCall>
  {
    var drawBottom := Contributes(info, part, Bottom, false);
    var drawTop := Contributes(info, part, Top, false);
    if drawBottom && drawTop then
      if part.indicesCount > MaxIndices then
        var part1Count := MaxIndices - part.bottomIndex;
        [DrawCall(part1Count, part.bottomIndex, 0, true),
         DrawCall(part.bottomCount + part.topCount - part1Count, 0, MaxVertex, true)]
      else
        [DrawCall(part.bottomCount + part.topCount, part.bottomIndex, 0, true)]
    else if drawBottom then
      var part1Count := MaxIndices - part.bottomIndex;
      if part.indicesCount > MaxIndices && part1Count < part.bottomCount then
        [DrawCall(part1Count, part.bottomIndex, 0, false),
         DrawCall(part.bottomCount - part1Count, 0, MaxVertex, false)]
      else
        [DrawCall(part.bottomCount, part.bottomIndex, 0, false)]
    else if drawTop then
      var part1Count := MaxIndices - part.topIndex;
      if part.indicesCount > MaxIndices && part1Count < part.topCount then
        [DrawCall(part1Count, part.topIndex, 0, false),
         DrawCall(part.topCount - part1Count, 0, MaxVertex, false)]
      else
        [DrawCall(part.topCount, part.topIndex, 0, false)]
    else []
  }

  /** The top face alone, starting above the 16-bit boundary, of a big part:
      the case the renderer's split gets wrong. */
  predicate TopOnlyAboveBoundary(info: ChunkInfo, part: ChunkPartInfo)
  {
    && !Contributes(info, part, Bottom, false) && Contributes(info, part, Top, false)
    && part.indicesCount > MaxIndices && part.topIndex > MaxIndices
  }

  /** The bottom/top calls of DrawBigPart, with the top-only case corrected:
      a top face lying wholly above index 98304 is drawn by one call from
      vertex 65536, at its index relative to that vertex. */
  function BigBottomTop(info: ChunkInfo, part: ChunkPartInfo): seq<DrawCall>
  {
    if TopOnlyAboveBoundary(info, part) then
      [DrawCall(part.topCount, part.topIndex - MaxIndices, MaxVertex, false)]
    else BigBottomTopAsWritten(info, part)
  }

  /** The correction changes the renderer's calls in the top-only case
      above the boundary and nowhere else. */
  lemma BigBottomTopCorrectionIsLocal(info: ChunkInfo, part: ChunkPartInfo)
    ensures BigBottomTop(info, part) != BigBottomTopAsWritten(info, part) <==> TopOnlyAboveBoundary(info, part)
  {
  }

  /** DrawBigPart: side faces as in DrawPart; bottom and top split at the
      16-bit boundary. */
  function DrawBigPart(info: ChunkInfo, part: ChunkPartInfo): seq<DrawCall>
  {
    AxisPair(info, part, Left, Right, false, true)
      + AxisPair(info, part, Front, Back, false, true)
      + BigBottomTop(info, part)
  }

  /** DrawBigPart exactly as the renderer writes it. */
  function DrawBigPartAsWritten(info: ChunkInfo, part: ChunkPartInfo): seq<DrawCall>
  {
    AxisPair(info, part, Left, Right, false, true)
      + AxisPair(info, part, Front, Back, false, true)
      + BigBottomTopAsWritten(info, part)
  }

  /** A big part with four side faces of 24576 indices each, then bottom and
      top faces of 24576 indices each, so that the top face starts at index
      122880. */
  const OverdrawPart := ChunkPartInfo(0, 147456, 0, 0, 24576, 24576, 24576, 49152, 24576,
                                      73728, 24576, 98304, 24576, 122880, 24576)

  /** With only its top face enabled, the renderer draws index 98304 of
      that part, which lies in the bottom face and which DrawPart (and the
      corrected DrawBigPart) does not draw. */
  lemma AsWrittenTopOnlyOverdraws(info: ChunkInfo)
    requires !info.drawLeft && !info.drawRight && !info.drawFront && !info.drawBack
    requires !info.drawBottom && info.drawTop
    ensures Draws(DrawBigPartAsWritten(info, OverdrawPart), 98304)
    ensures !Draws(DrawPart(info, OverdrawPart), 98304)
    ensures !Draws(DrawBigPart(info, OverdrawPart), 98304)
  {
    var part := OverdrawPart;
    var calls := DrawBigPartAsWritten(info, part);
    assert calls == [DrawCall(-24576, 122880, 0, false), DrawCall(49152, 0, 65536, false)];
    assert BufferStart(calls[1]) <= 98304 < BufferStart(calls[1]) + calls[1].count;
    DrawPartCoverage(info, part, 98304);
    BigPartCoverage(info, part, 98304);
  }

  /** The merged bottom+top split of a big part: the first call ends exactly
      at index 98304, the second starts at index 0 of vertex 65536, both are
      culled, and the two counts add up to the merged count. */
  lemma BigPartMergedSplit(info: ChunkInfo, part: ChunkPartInfo)
    requires part.indicesCount > MaxIndices
    requires Contributes(info, part, Bottom, false) && Contributes(info, part, Top, false)
    ensures var calls := BigBottomTopAsWritten(info, part);
            && |calls| == 2
            && calls[0].startIndex == part.bottomIndex
            && calls[0].startIndex + calls[0].count == 98304
            && calls[1].startIndex == 0 && calls[1].baseVertex == 65536
            && calls[0].count + calls[1].count == part.bottomCount + part.topCount
            && calls[0].culling && calls[1].culling
  {
  }

  /** A single bottom or top face of a big part is split exactly when it
      crosses the 16-bit boundary, i.e. when fewer than its count indices
      remain below 98304. */
  lemma BigPartSingleFaceSplit(info: ChunkInfo, part: ChunkPartInfo)
    requires part.indicesCount > MaxIndices
    ensures Contributes(info, part, Bottom, false) && !Contributes(info, part, Top, false) ==>
              (|BigBottomTopAsWritten(info, part)| == 2 <==> MaxIndices - part.bottomIndex < part.bottomCount)
    ensures !Contributes(info, part, Bottom, false) && Contributes(info, part, Top, false) ==>
              (|BigBottomTopAsWritten(info, part)| == 2 <==> MaxIndices - part.topIndex < part.topCount)
  {
  }

  /** Splitting changes no drawn index: when the 16-bit boundary lies
      within or before the end of the bottom/top block, DrawBigPart draws
      exactly the indices DrawPart would. */
  lemma BigPartCoverage(info: ChunkInfo, part: ChunkPartInfo, g: int)
    requires PairsAdjacent(part)
    requires part.indicesCount > MaxIndices
    requires part.bottomIndex <= MaxIndices <= part.topIndex + part.topCount
    ensures Draws(DrawBigPart(info, part), g) <==> Draws(DrawPart(info, part), g)
  {
    var lr := AxisPair(info, part, Left, Right, false, true);
    var fb := AxisPair(info, part, Front, Back, false, true);
    var bt := AxisPair(info, part, Bottom, Top, false, true);
    var big := BigBottomTop(info, part);
    DrawsAppend(lr + fb, bt, g);
    DrawsAppend(lr + fb, big, g);
    BigBottomTopCoverage(info, part, g);
  }

  /** The corrected bottom/top calls draw exactly the indices of the
      bottom and top faces that contribute. */
  lemma BigBottomTopCoverage(info: ChunkInfo, part: ChunkPartInfo, g: int)
    requires PairsAdjacent(part)
    requires part.indicesCount > MaxIndices
    requires part.bottomIndex <= MaxIndices <= part.topIndex + part.topCount
    ensures Draws(BigBottomTop(info, part), g) <==> Draws(AxisPair(info, part, Bottom, Top, false, true), g)
  {
    var big := BigBottomTop(info, part);
    AxisPairCoverage(info, part, Bottom, Top, false, true, g);
    assert MaxVertex / 4 * 6 == MaxIndices;
    if |big| == 2 {
      assert Draws(big, g) <==>
        (BufferStart(big[0]) <= g < BufferStart(big[0]) + big[0].count) ||
        (BufferStart(big[1]) <= g < BufferStart(big[1]) + big[1].count);
    } else if |big| == 1 {
      assert Draws(big, g) <==> BufferStart(big[0]) <= g < BufferStart(big[0]) + big[0].count;
    }
  }

  // ---------------------------------------------------------------------
  // Per-chunk and per-batch rendering

  /** The sprite call that follows a normal part's faces, with culling. */
  function SpriteCalls(part: ChunkPartInfo): seq<DrawCall>
  {
    if part.spriteCount > 0 then [DrawCall(part.spriteCount, 0, 0, true)] else []
  }

  /** Parts arrays, where present, have an entry for batch `batch`. */
  predicate HasBatch(chunks: seq<ChunkInfo>, batch: nat)
  {
    forall i :: 0 <= i < |chunks| ==>
      (chunks[i].normalParts.Some? ==> batch < |chunks[i].normalParts.value|) &&
      (chunks[i].translucentParts.Some? ==> batch < |chunks[i].translucentParts.value|)
  }

  /** The normal part of batch `batch` that RenderNormalBatch draws, if any. */
  function NormalPartToDraw(info: ChunkInfo, batch: nat): (part: Option<ChunkPartInfo>)
    requires info.normalParts.Some? ==> batch < |info.normalParts.value|
    ensures part.Some? <==> info.normalParts.Some? && info.visible
                            && info.normalParts.value[batch].indicesCount != 0
    ensures part.Some? ==> part.value == info.normalParts.value[batch]
  {
    if info.normalParts.None? || !info.visible then None
    else if info.normalParts.value[batch].indicesCount == 0 then None
    else Some(info.normalParts.value[batch])
  }

  /** The translucent part of batch `batch` the translucent passes draw. */
  function TranslucentPartToDraw(info: ChunkInfo, batch: nat): (part: Option<ChunkPartInfo>)
    requires info.translucentParts.Some? ==> batch < |info.translucentParts.value|
    ensures part.Some? <==> info.translucentParts.Some? && info.visible
                            && info.translucentParts.value[batch].indicesCount != 0
    ensures part.Some? ==> part.value == info.translucentParts.value[batch]
  {
    if info.translucentParts.None? || !info.visible then None
    else if info.translucentParts.value[batch].indicesCount == 0 then None
    else Some(info.translucentParts.value[batch])
  }

  /** The calls RenderNormalBatch issues for one chunk: big parts (over
      98304 indices) go through DrawBigPart, others through DrawPart, then
      the sprites. */
  function NormalChunkCalls(info: ChunkInfo, batch: nat): (calls: seq<DrawCall>)
    requires info.normalParts.Some? ==> batch < |info.normalParts.value|
    ensures NormalPartToDraw(info, batch).None? ==> calls == []
  {
    match NormalPartToDraw(info, batch)
    case None => []
    case Some(part) =>
      (if part.indicesCount > MaxIndices then DrawBigPart(info, part) else DrawPart(info, part))
        + SpriteCalls(part)
  }

  /** For a part within the 16-bit limit, the chunk draws exactly its
      sprites and its contributing faces. */
  lemma NormalChunkCoverage(info: ChunkInfo, batch: nat, g: int)
    requires info.normalParts.Some? && batch < |info.normalParts.value|
    requires info.visible
    requires var part := info.normalParts.value[batch];
             0 < part.indicesCount <= MaxIndices && PairsAdjacent(part)
    ensures var part := info.normalParts.value[batch];
            Draws(NormalChunkCalls(info, batch), g) <==>
              FaceDrawn(info, part, false, g) || 0 <= g < part.spriteCount
  {
    var part := info.normalParts.value[batch];
    DrawsAppend(DrawPart(info, part), SpriteCalls(part), g);
    DrawPartCoverage(info, part, g);
    var sprites := SpriteCalls(part);
    if part.spriteCount > 0 {
      assert BufferStart(sprites[0]) == 0;
      if 0 <= g < part.spriteCount {
        assert BufferStart(sprites[0]) <= g < BufferStart(sprites[0]) + sprites[0].count;
      }
    }
  }

  /** The calls both translucent passes issue for one chunk. */
  function TranslucentChunkCalls(info: ChunkInfo, batch: nat, drawAllFaces: bool): (calls: seq<DrawCall>)
    requires info.translucentParts.Some? ==> batch < |info.translucentParts.value|
    ensures TranslucentPartToDraw(info, batch).None? ==> calls == []
    ensures forall k :: 0 <= k < |calls| ==> !calls[k].culling
  {
    match TranslucentPartToDraw(info, batch)
    case None => []
    case Some(part) => DrawTranslucentPart(info, part, drawAllFaces)
  }

  /** What rendering one batch over all chunks produces: the calls, whether
      some chunk had a non-empty part (which marks the batch used), and the
      number of indices added to the frame's vertex counter. */
  datatype BatchResult = BatchResult(calls: seq<DrawCall>, touched: bool, vertices: int)

  /** RenderNormalBatch over the chunks in order. */
  function RenderNormalBatch(chunks: seq<ChunkInfo>, batch: nat): (r: BatchResult)
    requires HasBatch(chunks, batch)
    ensures r.touched <==> exists i :: 0 <= i < |chunks| && NormalPartToDraw(chunks[i], batch).Some?
    ensures r.vertices >= 0
    ensures !r.touched ==> r.calls == [] && r.vertices == 0
  {
    if |chunks| == 0 then BatchResult([], false, 0)
    else
      var n := |chunks| - 1;
      var before := RenderNormalBatch(chunks[..n], batch);
      var info := chunks[n];
      match NormalPartToDraw(info, batch)
      case None =>
        before
      case Some(part) =>
        BatchResult(before.calls + NormalChunkCalls(info, batch), true, before.vertices + part.indicesCount)
  }

  /** RenderTranslucentBatch and RenderTranslucentBatchDepthPass issue the
      same calls for the same chunks; only the depth pass marks the batch
      used and only the colour pass counts vertices. */
  function RenderTranslucentBatch(chunks: seq<ChunkInfo>, batch: nat, drawAllFaces: bool): (r: BatchResult)
    requires HasBatch(chunks, batch)
    ensures r.touched <==> exists i :: 0 <= i < |chunks| && TranslucentPartToDraw(chunks[i], batch).Some?
    ensures r.vertices >= 0
    ensures forall k :: 0 <= k < |r.calls| ==> !r.calls[k].culling
  {
    if |chunks| == 0 then BatchResult([], false, 0)
    else
      var n := |chunks| - 1;
      var before := RenderTranslucentBatch(chunks[..n], batch, drawAllFaces);
      var info := chunks[n];
      match TranslucentPartToDraw(info, batch)
      case None =>
        before
      case Some(part) =>
        BatchResult(before.calls + TranslucentChunkCalls(info, batch, drawAllFaces), true,
                    before.vertices + part.indicesCount)
  }

  // ---------------------------------------------------------------------
  // Batch selection in RenderNormal and RenderTranslucent

  /** The per-batch bookkeeping MapRenderer keeps across frames. */
  datatype RendererState = RendererState(
    used1D: nat,                   // _1DUsed: number of atlas batches
    totalUsed: seq<int>,
    usedNormal: seq<bool>,
    pendingNormal: seq<bool>,
    usedTranslucent: seq<bool>,
    pendingTranslucent: seq<bool>)

  predicate ValidState(s: RendererState)
  {
    && |s.totalUsed| >= s.used1D
    && |s.usedNormal| >= s.used1D && |s.pendingNormal| >= s.used1D
    && |s.usedTranslucent| >= s.used1D && |s.pendingTranslucent| >= s.used1D
  }

  /** The draws of one batch: the texture bound for it (none in the depth
      pass) and its calls. */
  datatype BatchDraw = BatchDraw(batch: nat, texture: Option<int>, calls: seq<DrawCall>)

  /** A pass over the normal or the depth-only translucent parts draws a
      batch when some chunk uses it and it is pending or already used. */
  predicate PassSelects(totalUsed: seq<int>, pending: seq<bool>, used: seq<bool>, b: nat)
    requires b < |totalUsed| && b < |pending| && b < |used|
  {
    totalUsed[b] > 0 && (pending[b] || used[b])
  }

  /** Batch b has a draw in `draws`. */
  predicate Listed(draws: seq<BatchDraw>, b: nat)
  {
    exists k :: 0 <= k < |draws| && draws[k].batch == b
  }

  lemma ListedAppend(draws: seq<BatchDraw>, d: BatchDraw)
    ensures forall b: nat :: Listed(draws + [d], b) <==> Listed(draws, b) || d.batch == b
  {
    forall b: nat
      ensures Listed(draws + [d], b) <==> Listed(draws, b) || d.batch == b
    {
      if Listed(draws, b) {
        var k :| 0 <= k < |draws| && draws[k].batch == b;
        assert (draws + [d])[k] == draws[k];
      }
      if d.batch == b {
        assert (draws + [d])[|draws|] == d;
      }
      if Listed(draws + [d], b) {
        var k :| 0 <= k < |draws + [d]| && (draws + [d])[k].batch == b;
        if k < |draws| {
          assert (draws + [d])[k] == draws[k];
        }
      }
    }
  }

  predicate AscendingBatches(draws: seq<BatchDraw>)
  {
    forall k, l :: 0 <= k < l < |draws| ==> draws[k].batch < draws[l].batch
  }

  /** RenderNormal. */
  method RenderNormal(s: RendererState, texIds: seq<int>, chunks: seq<ChunkInfo>)
    returns (s': RendererState, draws: seq<BatchDraw>, vertices: int)
    requires ValidState(s)
    requires |texIds| >= s.used1D
    requires forall b :: 0 <= b < s.used1D ==> HasBatch(chunks, b)
    ensures ValidState(s')
    ensures s' == s.(usedNormal := s'.usedNormal, pendingNormal := s'.pendingNormal)
    ensures |s'.usedNormal| == |s.usedNormal| && |s'.pendingNormal| == |s.pendingNormal|
    ensures AscendingBatches(draws)
    ensures forall k :: 0 <= k < |draws| ==>
              var b := draws[k].batch;
              && b < s.used1D
              && PassSelects(s.totalUsed, s.pendingNormal, s.usedNormal, b)
              && draws[k].texture == Some(texIds[b])
              && draws[k].calls == RenderNormalBatch(chunks, b).calls
    ensures forall b :: 0 <= b < s.used1D && PassSelects(s.totalUsed, s.pendingNormal, s.usedNormal, b) ==>
              Listed(draws, b)
    ensures forall b :: 0 <= b < |s.pendingNormal| ==>
              s'.pendingNormal[b] == (s.pendingNormal[b] &&
                !(b < s.used1D && PassSelects(s.totalUsed, s.pendingNormal, s.usedNormal, b)))
    ensures forall b :: 0 <= b < |s.usedNormal| ==>
              s'.usedNormal[b] == (s.usedNormal[b] ||
                (b < s.used1D && PassSelects(s.totalUsed, s.pendingNormal, s.usedNormal, b)
                 && RenderNormalBatch(chunks, b).touched))
    ensures vertices >= 0
  {
    var used := s.usedNormal;
    var pending := s.pendingNormal;
    draws := [];
    vertices := 0;
    var batch := 0;
    while batch < s.used1D
      invariant 0 <= batch <= s.used1D
      invariant |used| == |s.usedNormal| && |pending| == |s.pendingNormal|
      invariant AscendingBatches(draws)
      invariant forall k :: 0 <= k < |draws| ==>
                  var b := draws[k].batch;
                  && b < batch
                  && PassSelects(s.totalUsed, s.pendingNormal, s.usedNormal, b)
                  && draws[k].texture == Some(texIds[b])
                  && draws[k].calls == RenderNormalBatch(chunks, b).calls
      invariant forall b :: 0 <= b < batch && PassSelects(s.totalUsed, s.pendingNormal, s.usedNormal, b) ==>
                  Listed(draws, b)
      invariant forall b :: 0 <= b < |pending| ==>
                  pending[b] == (s.pendingNormal[b] &&
                    !(b < batch && PassSelects(s.totalUsed, s.pendingNormal, s.usedNormal, b)))
      invariant forall b :: 0 <= b < |used| ==>
                  used[b] == (s.usedNormal[b] ||
                    (b < batch && PassSelects(s.totalUsed, s.pendingNormal, s.usedNormal, b)
                     && RenderNormalBatch(chunks, b).touched))
      invariant vertices >= 0
    {
      if s.totalUsed[batch] > 0 && (pending[batch] || used[batch]) {
        var r := RenderNormalBatch(chunks, batch);
        ListedAppend(draws, BatchDraw(batch, Some(texIds[batch]), r.calls));
        draws := draws + [BatchDraw(batch, Some(texIds[batch]), r.calls)];
        used := used[batch := used[batch] || r.touched];
        pending := pending[batch := false];
        vertices := vertices + r.vertices;
      }
      batch := batch + 1;
    }
    s' := s.(usedNormal := used, pendingNormal := pending);
  }

  /** When the camera's head is inside water, translucent faces are drawn
      regardless of their flags. */
  function DrawAllFaces(blockAtHead: int): (all: bool)
    ensures all <==> blockAtHead == Water || blockAtHead == StillWater
  {
    blockAtHead == Water || blockAtHead == StillWater
  }

  /** With the camera's head in water, a translucent part is drawn as if
      every face flag of its chunk were set; otherwise exactly its enabled,
      non-empty faces are drawn. */
  lemma HeadInWaterDrawsEveryFace(blockAtHead: int, info: ChunkInfo, part: ChunkPartInfo, g: int)
    requires PairsAdjacent(part)
    ensures (blockAtHead == Water || blockAtHead == StillWater) ==>
              (Draws(DrawTranslucentPart(info, part, DrawAllFaces(blockAtHead)), g) <==>
                 FaceDrawn(AllFacesEnabled(info), part, false, g))
    ensures !(blockAtHead == Water || blockAtHead == StillWater) ==>
              (Draws(DrawTranslucentPart(info, part, DrawAllFaces(blockAtHead)), g) <==>
                 FaceDrawn(info, part, false, g))
  {
    DrawTranslucentPartCoverage(info, part, DrawAllFaces(blockAtHead), g);
  }

  /** RenderTranslucent: a depth-only pass over pending or used batches,
      which records which batches are used, then a colour pass over the
      batches now marked used. */
  method RenderTranslucent(s: RendererState, texIds: seq<int>, chunks: seq<ChunkInfo>, blockAtHead: int)
    returns (s': RendererState, depthDraws: seq<BatchDraw>, colourDraws: seq<BatchDraw>, vertices: int)
    requires ValidState(s)
    requires |texIds| >= s.used1D
    requires forall b :: 0 <= b < s.used1D ==> HasBatch(chunks, b)
    ensures ValidState(s')
    ensures s' == s.(usedTranslucent := s'.usedTranslucent, pendingTranslucent := s'.pendingTranslucent)
    ensures |s'.usedTranslucent| == |s.usedTranslucent|
    ensures |s'.pendingTranslucent| == |s.pendingTranslucent|
    ensures AscendingBatches(depthDraws) && AscendingBatches(colourDraws)
    ensures forall k :: 0 <= k < |depthDraws| ==>
              var b := depthDraws[k].batch;
              && b < s.used1D
              && PassSelects(s.totalUsed, s.pendingTranslucent, s.usedTranslucent, b)
              && depthDraws[k].texture == None
              && depthDraws[k].calls == RenderTranslucentBatch(chunks, b, DrawAllFaces(blockAtHead)).calls
    ensures forall b :: 0 <= b < s.used1D && PassSelects(s.totalUsed, s.pendingTranslucent, s.usedTranslucent, b) ==>
              Listed(depthDraws, b)
    ensures forall b :: 0 <= b < |s.pendingTranslucent| ==>
              s'.pendingTranslucent[b] == (s.pendingTranslucent[b] &&
                !(b < s.used1D && PassSelects(s.totalUsed, s.pendingTranslucent, s.usedTranslucent, b)))
    ensures forall b :: 0 <= b < |s.usedTranslucent| ==>
              s'.usedTranslucent[b] == (s.usedTranslucent[b] ||
                (b < s.used1D && PassSelects(s.totalUsed, s.pendingTranslucent, s.usedTranslucent, b)
                 && RenderTranslucentBatch(chunks, b, DrawAllFaces(blockAtHead)).touched))
    ensures forall k :: 0 <= k < |colourDraws| ==>
              var b := colourDraws[k].batch;
              && b < s.used1D && s.totalUsed[b] > 0 && s'.usedTranslucent[b]
              && colourDraws[k].texture == Some(texIds[b])
              && colourDraws[k].calls == RenderTranslucentBatch(chunks, b, DrawAllFaces(blockAtHead)).calls
    ensures forall b :: 0 <= b < s.used1D && s.totalUsed[b] > 0 && s'.usedTranslucent[b] ==>
              Listed(colourDraws, b)
    ensures vertices >= 0
  {
    var drawAll := DrawAllFaces(blockAtHead);
    var used, pending;
    used, pending, depthDraws := TranslucentDepthPass(s, chunks, drawAll);
    colourDraws, vertices := TranslucentColourPass(s, texIds, chunks, drawAll, used);
    s' := s.(usedTranslucent := used, pendingTranslucent := pending);
  }

  /** The depth-only loop of RenderTranslucent: no texture is bound; each
      batch drawn leaves the pending flags and joins the used ones if it
      touched any face. */
  method TranslucentDepthPass(s: RendererState, chunks: seq<ChunkInfo>, drawAll: bool)
    returns (used: seq<bool>, pending: seq<bool>, depthDraws: seq<BatchDraw>)
    requires ValidState(s)
    requires forall b :: 0 <= b < s.used1D ==> HasBatch(chunks, b)
    ensures |used| == |s.usedTranslucent| && |pending| == |s.pendingTranslucent|
    ensures AscendingBatches(depthDraws)
    ensures forall k :: 0 <= k < |depthDraws| ==>
              var b := depthDraws[k].batch;
              && b < s.used1D
              && PassSelects(s.totalUsed, s.pendingTranslucent, s.usedTranslucent, b)
              && depthDraws[k].texture == None
              && depthDraws[k].calls == RenderTranslucentBatch(chunks, b, drawAll).calls
    ensures forall b :: 0 <= b < s.used1D && PassSelects(s.totalUsed, s.pendingTranslucent, s.usedTranslucent, b) ==>
              Listed(depthDraws, b)
    ensures forall b :: 0 <= b < |pending| ==>
              pending[b] == (s.pendingTranslucent[b] &&
                !(b < s.used1D && PassSelects(s.totalUsed, s.pendingTranslucent, s.usedTranslucent, b)))
    ensures forall b :: 0 <= b < |used| ==>
              used[b] == (s.usedTranslucent[b] ||
                (b < s.used1D && PassSelects(s.totalUsed, s.pendingTranslucent, s.usedTranslucent, b)
                 && RenderTranslucentBatch(chunks, b, drawAll).touched))
  {
    used := s.usedTranslucent;
    pending := s.pendingTranslucent;
    depthDraws := [];
    var batch := 0;
    while batch < s.used1D
      invariant 0 <= batch <= s.used1D
      invariant |used| == |s.usedTranslucent| && |pending| == |s.pendingTranslucent|
      invariant AscendingBatches(depthDraws)
      invariant forall k :: 0 <= k < |depthDraws| ==>
                  var b := depthDraws[k].batch;
                  && b < batch
                  && PassSelects(s.totalUsed, s.pendingTranslucent, s.usedTranslucent, b)
                  && depthDraws[k].texture == None
                  && depthDraws[k].calls == RenderTranslucentBatch(chunks, b, drawAll).calls
      invariant forall b :: 0 <= b < batch && PassSelects(s.totalUsed, s.pendingTranslucent, s.usedTranslucent, b) ==>
                  Listed(depthDraws, b)
      invariant forall b :: 0 <= b < |pending| ==>
                  pending[b] == (s.pendingTranslucent[b] &&
                    !(b < batch && PassSelects(s.totalUsed, s.pendingTranslucent, s.usedTranslucent, b)))
      invariant forall b :: 0 <= b < |used| ==>
                  used[b] == (s.usedTranslucent[b] ||
                    (b < batch && PassSelects(s.totalUsed, s.pendingTranslucent, s.usedTranslucent, b)
                     && RenderTranslucentBatch(chunks, b, drawAll).touched))
    {
      if s.totalUsed[batch] > 0 && (pending[batch] || used[batch]) {
        var r := RenderTranslucentBatch(chunks, batch, drawAll);
        ListedAppend(depthDraws, BatchDraw(batch, None, r.calls));
        depthDraws := depthDraws + [BatchDraw(batch, None, r.calls)];
        used := used[batch := used[batch] || r.touched];
        pending := pending[batch := false];
      }
      batch := batch + 1;
    }
  }

  /** The colour loop of RenderTranslucent: each batch some chunk uses and
      the depth pass marked used is drawn with its texture bound. */
  method TranslucentColourPass(s: RendererState, texIds: seq<int>, chunks: seq<ChunkInfo>, drawAll: bool, used: seq<bool>)
    returns (colourDraws: seq<BatchDraw>, vertices: int)
    requires ValidState(s) && |used| >= s.used1D
    requires |texIds| >= s.used1D
    requires forall b :: 0 <= b < s.used1D ==> HasBatch(chunks, b)
    ensures AscendingBatches(colourDraws)
    ensures forall k :: 0 <= k < |colourDraws| ==>
              var b := colourDraws[k].batch;
              && b < s.used1D && s.totalUsed[b] > 0 && used[b]
              && colourDraws[k].texture == Some(texIds[b])
              && colourDraws[k].calls == RenderTranslucentBatch(chunks, b, drawAll).calls
    ensures forall b :: 0 <= b < s.used1D && s.totalUsed[b] > 0 && used[b] ==>
              Listed(colourDraws, b)
    ensures vertices >= 0
  {
    colourDraws := [];
    vertices := 0;
    var batch := 0;
    while batch < s.used1D
      invariant 0 <= batch <= s.used1D
      invariant AscendingBatches(colourDraws)
      invariant forall k :: 0 <= k < |colourDraws| ==>
                  var b := colourDraws[k].batch;
                  && b < batch && s.totalUsed[b] > 0 && used[b]
                  && colourDraws[k].texture == Some(texIds[b])
                  && colourDraws[k].calls == RenderTranslucentBatch(chunks, b, drawAll).calls
      invariant forall b :: 0 <= b < batch && s.totalUsed[b] > 0 && used[b] ==>
                  Listed(colourDraws, b)
      invariant vertices >= 0
    {
      if s.totalUsed[batch] > 0 && used[batch] {
        var r := RenderTranslucentBatch(chunks, batch, drawAll);
        ListedAppend(colourDraws, BatchDraw(batch, Some(texIds[batch]), r.calls));
        colourDraws := colourDraws + [BatchDraw(batch, Some(texIds[batch]), r.calls)];
        vertices := vertices + r.vertices;
      }
      batch := batch + 1;
    }
  }
}
