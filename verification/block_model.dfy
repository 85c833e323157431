/** The held-block model: which quads a block emits, in which order, and how
    they are grouped into uploads, one per run of quads sharing a texture.
    Vertex positions, texture coordinates, colours and the yaw transform are
    floating-point geometry and are left out; each quad records only what
    selects its texture. */
module BlockModel {
  import opened Common
  import opened TerrainAtlas1D

  /** TileSide. */
  datatype Side = Left | Right | Front | Back | Bottom | Top

  function SideIndex(s: Side): (i: nat)
    ensures i < 6
  {
    match s
    case Left => 0
    case Right => 1
    case Front => 2
    case Back => 3
    case Bottom => 4
    case Top => 5
  }

  /** The quad-emitting helpers of BlockModel. */
  datatype QuadKind = YQuad | XQuad | ZQuad | SpriteXQuad(firstPart: bool) | SpriteZQuad(firstPart: bool)

  /** A quad: its kind, the side whose texture it shows, and that texture's
      id in the terrain atlas. */
  datatype Quad = Quad(kind: QuadKind, side: Side, texLoc: int)

  /** Every quad appends four vertices. */
  const VerticesPerQuad := 4

  /** The per-block data BlockModel reads from BlockInfo. */
  datatype Vec3 = Vec3(x: real, y: real, z: real)

  datatype BlockData = BlockData(
    isAir: bool, isSprite: bool, fullBright: bool,
    minBB: Vec3, maxBB: Vec3,
    textureLoc: seq<int>)   // GetTextureLoc(block, side), indexed by SideIndex

  predicate WellFormed(info: BlockData)
  {
    |info.textureLoc| == 6
  }

  // ---------------------------------------------------------------------
  // CalcState

  datatype ModelState = ModelState(bright: bool, minBB: Vec3, maxBB: Vec3, height: real)

  function CalcState(info: BlockData): (st: ModelState)
    ensures info.isAir ==> st == ModelState(false, Vec3(0.0, 0.0, 0.0), Vec3(1.0, 1.0, 1.0), 1.0)
    ensures !info.isAir ==> st.bright == info.fullBright && st.minBB == info.minBB && st.maxBB == info.maxBB
    ensures !info.isAir && info.isSprite ==> st.height == 1.0
    ensures !info.isAir && !info.isSprite ==> st.height + st.minBB.y == st.maxBB.y
  {
    if info.isAir then ModelState(false, Vec3(0.0, 0.0, 0.0), Vec3(1.0, 1.0, 1.0), 1.0)
    else
      var height := info.maxBB.y - info.minBB.y;
      ModelState(info.fullBright, info.minBB, info.maxBB, if info.isSprite then 1.0 else height)
  }

  // ---------------------------------------------------------------------
  // Quad order of DrawModel

  /** The quads DrawModel emits for a block, in order. */
  function QuadsOf(info: BlockData): (qs: seq<Quad>)
    requires WellFormed(info)
    ensures info.isAir ==> qs == []
    ensures !info.isAir && info.isSprite ==> |qs| == 4
    ensures !info.isAir && !info.isSprite ==> |qs| == 6
    ensures forall i :: 0 <= i < |qs| ==> qs[i].texLoc == info.textureLoc[SideIndex(qs[i].side)]
  {
    var Q := (k: QuadKind, s: Side) => Quad(k, s, info.textureLoc[SideIndex(s)]);
    if info.isAir then []
    else if info.isSprite then
      [Q(SpriteXQuad(false), Right), Q(SpriteZQuad(false), Back),
       Q(SpriteZQuad(true), Back), Q(SpriteXQuad(true), Right)]
    else
      [Q(YQuad, Bottom), Q(XQuad, Right), Q(ZQuad, Front),
       Q(ZQuad, Back), Q(YQuad, Top), Q(XQuad, Left)]
  }

  function Sides(qs: seq<Quad>): (sides: seq<Side>)
    ensures |sides| == |qs|
    ensures forall i :: 0 <= i < |qs| ==> sides[i] == qs[i].side
  {
    seq(|qs|, i requires 0 <= i < |qs| => qs[i].side)
  }

  /** Sprites show Right, Back, Back, Right; cuboids show Bottom, Right,
      Front, Back, Top, Left, each side once. */
  lemma QuadOrder(info: BlockData)
    requires WellFormed(info) && !info.isAir
    ensures info.isSprite ==> Sides(QuadsOf(info)) == [Right, Back, Back, Right]
    ensures !info.isSprite ==> Sides(QuadsOf(info)) == [Bottom, Right, Front, Back, Top, Left]
    ensures !info.isSprite ==> forall s: Side :: s in Sides(QuadsOf(info))
  {
    if !info.isSprite {
      var sides := Sides(QuadsOf(info));
      assert sides == [Bottom, Right, Front, Back, Top, Left];
      forall s: Side
        ensures s in sides
      {
        match s
        case Bottom => assert sides[0] == s;
        case Right => assert sides[1] == s;
        case Front => assert sides[2] == s;
        case Back => assert sides[3] == s;
        case Top => assert sides[4] == s;
        case Left => assert sides[5] == s;
      }
    }
  }

  // ---------------------------------------------------------------------
  // FlushIfNotSame batching

  /** One UpdateDynamicIndexedVb call: the bound texture, the quads whose
      vertices were pending, and the vertex and index counts passed. */
  datatype Upload = Upload(texture: int, quads: seq<Quad>, vertexCount: nat, indexCount: nat)

  /** The batching state: the last bound texture (-1 when none), the pending
      quads with the `index` vertex counter, and the uploads so far. */
  datatype Batcher = Batcher(lastTexId: int, pending: seq<Quad>, index: nat, uploads: seq<Upload>)

  /** The texture a quad is drawn with: TexIds of its 1D atlas. */
  function TextureOf(q: Quad, e: int, texIds: seq<nat>): int
    requires e > 0
    requires 0 <= GetTexRec(q.texLoc, e).index < |texIds|
  {
    texIds[GetTexRec(q.texLoc, e).index]
  }

  predicate Addressable(qs: seq<Quad>, e: int, texIds: seq<nat>)
  {
    e > 0 && forall i :: 0 <= i < |qs| ==> 0 <= GetTexRec(qs[i].texLoc, e).index < |texIds|
  }

  function MakeUpload(texture: int, quads: seq<Quad>, index: nat): Upload
  {
    Upload(texture, quads, index, index * 6 / 4)
  }

  /** FlushIfNotSame for quad q, then the quad's four vertices. */
  function Emit(b: Batcher, q: Quad, e: int, texIds: seq<nat>): Batcher
    requires e > 0 && 0 <= GetTexRec(q.texLoc, e).index < |texIds|
  {
    var texId := TextureOf(q, e, texIds);
    if texId == b.lastTexId then
      b.(pending := b.pending + [q], index := b.index + VerticesPerQuad)
    else
      var uploads := if b.lastTexId != -1 then b.uploads + [MakeUpload(b.lastTexId, b.pending, b.index)] else b.uploads;
      Batcher(texId, [q], VerticesPerQuad, uploads)
  }

  /** An upload happens exactly when the texture changes and one was bound
      before; after a change only the new quad's vertices are pending. */
  lemma EmitFlushesOnChange(b: Batcher, q: Quad, e: int, texIds: seq<nat>)
    requires e > 0 && 0 <= GetTexRec(q.texLoc, e).index < |texIds|
    ensures var b' := Emit(b, q, e, texIds);
            && b'.lastTexId == texIds[Get1DIndex(q.texLoc, e)]
            && (|b'.uploads| == |b.uploads| + 1 <==> b'.lastTexId != b.lastTexId && b.lastTexId != -1)
            && (|b'.uploads| != |b.uploads| + 1 ==> b'.uploads == b.uploads)
            && (|b'.uploads| == |b.uploads| + 1 ==>
                  b'.uploads[|b.uploads|] == Upload(b.lastTexId, b.pending, b.index, b.index * 6 / 4))
            && (b'.lastTexId != b.lastTexId ==> b'.pending == [q] && b'.index == VerticesPerQuad)
            && (b'.lastTexId == b.lastTexId ==> b'.pending == b.pending + [q] && b'.index == b.index + VerticesPerQuad)
  {
  }

  function EmitAll(b: Batcher, qs: seq<Quad>, e: int, texIds: seq<nat>): Batcher
    requires Addressable(qs, e, texIds)
    decreases |qs|
  {
    if |qs| == 0 then b else EmitAll(Emit(b, qs[0], e, texIds), qs[1..], e, texIds)
  }

  /** The final upload of DrawModel, made iff vertices are pending. */
  function Finish(b: Batcher): seq<Upload>
  {
    if b.index == 0 then b.uploads else b.uploads + [MakeUpload(b.lastTexId, b.pending, b.index)]
  }

  /** DrawModel: the uploads for one held block. An air block returns before
      anything is emitted. */
  function DrawModel(info: BlockData, e: int, texIds: seq<nat>): (uploads: seq<Upload>)
    requires WellFormed(info)
    requires Addressable(QuadsOf(info), e, texIds)
    ensures info.isAir ==> uploads == []
  {
    if info.isAir then []
    else Finish(EmitAll(Batcher(-1, [], 0, []), QuadsOf(info), e, texIds))
  }

  // ---------------------------------------------------------------------
  // Batching invariant

  function Flatten(uploads: seq<Upload>): seq<Quad>
  {
    if |uploads| == 0 then [] else Flatten(uploads[..|uploads| - 1]) + uploads[|uploads| - 1].quads
  }

  lemma FlattenAppend(uploads: seq<Upload>, u: Upload)
    ensures Flatten(uploads + [u]) == Flatten(uploads) + u.quads
  {
    assert (uploads + [u])[..|uploads|] == uploads;
  }

  /** Every upload is a non-empty run of quads of one texture, with its
      counts matching four vertices and six indices per quad. */
  predicate GoodUpload(u: Upload, e: int, texIds: seq<nat>)
  {
    && |u.quads| > 0
    && u.vertexCount == VerticesPerQuad * |u.quads|
    && u.indexCount == 6 * |u.quads|
    && Addressable(u.quads, e, texIds)
    && forall i :: 0 <= i < |u.quads| ==> TextureOf(u.quads[i], e, texIds) == u.texture
  }

  /** Consecutive uploads bind different textures. */
  predicate DistinctNeighbours(uploads: seq<Upload>)
  {
    forall i :: 0 < i < |uploads| ==> uploads[i - 1].texture != uploads[i].texture
  }

  /** The state after emitting `emitted`: uploads and pending quads together
      are the emitted quads in order; pending quads share lastTexId, which
      differs from the last upload's texture. */
  predicate BatcherInvariant(b: Batcher, emitted: seq<Quad>, e: int, texIds: seq<nat>)
  {
    && Flatten(b.uploads) + b.pending == emitted
    && (forall i :: 0 <= i < |b.uploads| ==> GoodUpload(b.uploads[i], e, texIds))
    && DistinctNeighbours(b.uploads)
    && (|b.pending| == 0 <==> b.lastTexId == -1)
    && (|b.pending| == 0 ==> |b.uploads| == 0)
    && b.index == VerticesPerQuad * |b.pending|
    && (|b.pending| > 0 ==> GoodUpload(MakeUpload(b.lastTexId, b.pending, b.index), e, texIds))
    && (|b.uploads| > 0 ==> b.uploads[|b.uploads| - 1].texture != b.lastTexId)
  }

  lemma EmitKeepsInvariant(b: Batcher, emitted: seq<Quad>, q: Quad, e: int, texIds: seq<nat>)
    requires e > 0 && 0 <= GetTexRec(q.texLoc, e).index < |texIds|
    requires BatcherInvariant(b, emitted, e, texIds)
    ensures BatcherInvariant(Emit(b, q, e, texIds), emitted + [q], e, texIds)
  {
    var texId := TextureOf(q, e, texIds);
    var b' := Emit(b, q, e, texIds);
    if texId == b.lastTexId {
      assert b'.pending == b.pending + [q];
      var u := MakeUpload(b'.lastTexId, b'.pending, b'.index);
      assert forall i :: 0 <= i < |b.pending| ==> u.quads[i] == b.pending[i];
    } else if b.lastTexId != -1 {
      var u := MakeUpload(b.lastTexId, b.pending, b.index);
      FlattenAppend(b.uploads, u);
      assert b'.uploads == b.uploads + [u];
    } else {
      assert b.uploads == [] && b.pending == [];
    }
  }

  lemma {:induction false} EmitAllKeepsInvariant(b: Batcher, emitted: seq<Quad>, qs: seq<Quad>, e: int, texIds: seq<nat>)
    requires Addressable(qs, e, texIds)
    requires BatcherInvariant(b, emitted, e, texIds)
    ensures BatcherInvariant(EmitAll(b, qs, e, texIds), emitted + qs, e, texIds)
    decreases |qs|
  {
    if |qs| > 0 {
      EmitKeepsInvariant(b, emitted, qs[0], e, texIds);
      assert Addressable(qs[1..], e, texIds) by {
        assert forall i :: 0 <= i < |qs[1..]| ==> qs[1..][i] == qs[i + 1];
      }
      EmitAllKeepsInvariant(Emit(b, qs[0], e, texIds), emitted + [qs[0]], qs[1..], e, texIds);
      assert emitted + [qs[0]] + qs[1..] == emitted + qs;
    } else {
      assert emitted + qs == emitted;
    }
  }

  /** The uploads of DrawModel are the block's quads in emission order, split
      into maximal runs of one texture: each upload binds the texture of all
      its quads, neighbouring uploads differ, and each passes four vertices
      and six indices per quad. */
  lemma DrawModelBatches(info: BlockData, e: int, texIds: seq<nat>)
    requires WellFormed(info)
    requires Addressable(QuadsOf(info), e, texIds)
    ensures var uploads := DrawModel(info, e, texIds);
            && Flatten(uploads) == QuadsOf(info)
            && DistinctNeighbours(uploads)
            && (forall i :: 0 <= i < |uploads| ==> GoodUpload(uploads[i], e, texIds))
            && (!info.isAir ==> |uploads| >= 1)
  {
    if !info.isAir {
      var b0 := Batcher(-1, [], 0, []);
      var qs := QuadsOf(info);
      EmitAllKeepsInvariant(b0, [], qs, e, texIds);
      assert [] + qs == qs;
      FinishUploadsAll(EmitAll(b0, qs, e, texIds), qs, e, texIds);
    }
  }

  /** The final upload completes the runs: nothing is left pending. */
  lemma FinishUploadsAll(b: Batcher, emitted: seq<Quad>, e: int, texIds: seq<nat>)
    requires BatcherInvariant(b, emitted, e, texIds)
    ensures Flatten(Finish(b)) == emitted
    ensures DistinctNeighbours(Finish(b))
    ensures forall i :: 0 <= i < |Finish(b)| ==> GoodUpload(Finish(b)[i], e, texIds)
    ensures |emitted| > 0 ==> |Finish(b)| >= 1
  {
    if b.index != 0 {
      var u := MakeUpload(b.lastTexId, b.pending, b.index);
      FlattenAppend(b.uploads, u);
      assert Finish(b) == b.uploads + [u];
    } else {
      assert b.pending == [];
    }
  }

  /** When all six sides of a cuboid use textures in the same 1D atlas, the
      whole block is a single upload of 24 vertices and 36 indices. */
  lemma SingleTextureSingleUpload(info: BlockData, e: int, texIds: seq<nat>)
    requires WellFormed(info) && !info.isAir && !info.isSprite
    requires Addressable(QuadsOf(info), e, texIds)
    requires forall i :: 0 <= i < 6 ==> GetTexRec(info.textureLoc[i], e).index == GetTexRec(info.textureLoc[0], e).index
    ensures |DrawModel(info, e, texIds)| == 1
    ensures DrawModel(info, e, texIds)[0].vertexCount == 24
    ensures DrawModel(info, e, texIds)[0].indexCount == 36
  {
    DrawModelBatches(info, e, texIds);
    var uploads := DrawModel(info, e, texIds);
    var qs := QuadsOf(info);
    SingleTextureSingleRun(uploads, e, texIds, qs);
  }

  /** Quads that all share one texture form at most one run. */
  lemma SingleTextureSingleRun(uploads: seq<Upload>, e: int, texIds: seq<nat>, qs: seq<Quad>)
    requires Flatten(uploads) == qs
    requires DistinctNeighbours(uploads)
    requires forall i :: 0 <= i < |uploads| ==> GoodUpload(uploads[i], e, texIds)
    requires |qs| > 0 && Addressable(qs, e, texIds)
    requires forall i :: 0 <= i < |qs| ==> TextureOf(qs[i], e, texIds) == TextureOf(qs[0], e, texIds)
    ensures |uploads| <= 1
  {
  }
}
