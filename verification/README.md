# ClassicalSharp client core — a Dafny model

This project models the deterministic decision logic of the ClassicalSharp
Minecraft Classic client and its launcher, and proves properties of it:

- **MapRenderer** — the terrain draw-call planner. It covers chunk centres,
  which indexed draw calls a chunk part issues for its six faces, how
  opposite faces merge into one call and when culling is on, and the split
  of parts above the 16-bit vertex ceiling at 98304 indices with base vertex
  65536. It also models the batch selection of the normal, translucent-depth
  and translucent-colour passes. The GPU is an emitted sequence of draw
  calls.
- **TerrainAtlas1D** — the layer/row arithmetic of the 1D terrain atlases,
  their sizing, the copy walk that fills them from the 2D atlas, and the
  count of used atlas rows.
- **BlockModel** — the quad order of a held block and the "flush when the
  texture changes" upload batching.
- **MapLvl** — decoding of an (already decompressed) MCSharp `.lvl` map:
  - the versioned header;
  - the physics-block conversion table;
  - the optional custom-block section, which overlays 16×16×16 chunks onto
    cells that hold block 163.
- **TextureCache** — the bitwise CRC-32 (ITU-T V.42, reflected polynomial
  0xEDB88320) and the cache path named by it.
- **FpsScreen** — glyph formatting of integers and of the "(x,y,z)" position
  text, the width cursor, the per-second FPS counters, and the play-time
  clock message.
- **EntityList** — the player table, the closest-target choice, name and
  shadow pass selection, and the classic-mode overrides.
- **ModelCache** — the memoised model lookup with its humanoid fallback.
- **Network** — the texture-pack handshake. It covers display addresses, the
  "CL_" identifier, prompting versus direct download, the warning screen's
  guard, and the handling of a downloaded terrain or texture pack, including
  HTTP 304.
- **LauncherScreen** — mouse hover selection, clicks, Tab focus cycling and
  widget slot reuse.
- **Slot** — the inventory slot value and its text form.

Shared modules:

- **Common** — `Option`, `Result` and the byte types.
- **Utils** — C#'s truncating `/` and `%`, `CeilDiv`, `NextPowerOf2` and
  `Clamp`.
- **Decimal** — decimal digits, `int` to text and back.

Every operation is a pure function or a method over immutable values.
Effects the client performs on the GPU, the window, the chat or the
downloader are returned as data: draw calls, uploads, events and requests.

## Model

| member | source | states |
|---|---|---|
| MapRenderer.NewChunkInfo | ClassicalSharp/Rendering/MapRenderer.cs:23-27 | a new chunk is visible, not empty, has no parts and no face flags; each centre is the origin + 8, truncated to an unsigned 16-bit value (congruent to it modulo 65536 on every axis) |
| MapRenderer.AxisPair | ClassicalSharp/Rendering/MapRenderer.cs:188-226 | an opposite-face pair issues at most one call; it issues one iff either face contributes (flag set and count > 0); culling is on only when merging is allowed |
| MapRenderer.AxisPairCoverage | ClassicalSharp/Rendering/MapRenderer.cs:197-225 | the pair's call draws index g iff g lies in a contributing face; culling is on iff both faces contribute |
| MapRenderer.ThreePairsCoverage | ClassicalSharp/Rendering/MapRenderer.cs:188-226 | the three axis pairs together draw exactly the indices of contributing faces |
| MapRenderer.DrawPartCoverage | ClassicalSharp/Rendering/MapRenderer.cs:188-226 | DrawPart draws exactly the indices of the faces whose flag is set and whose count is positive, in at most three calls |
| MapRenderer.DrawTranslucentPartCoverage | ClassicalSharp/Rendering/MapRenderer.cs:229-261 | a translucent part draws exactly the contributing faces' indices, with drawAllFaces standing for every flag, and no call enables culling |
| MapRenderer.AllFacesEnabled | ClassicalSharp/Rendering/MapRenderer.cs:229-261 | the chunk with every face flag set |
| MapRenderer.DrawAllFacesOverridesFlags | ClassicalSharp/Rendering/MapRenderer.cs:229-261 | with drawAllFaces the chunk's own flags are irrelevant: the calls equal those of a chunk with all flags set |
| MapRenderer.HeadInWaterDrawsEveryFace | ClassicalSharp/Rendering/MapRenderer.cs:93-94 | with the head in Water or StillWater a translucent part draws every non-empty face whatever its chunk's flags; otherwise exactly its enabled non-empty faces |
| MapRenderer.BigPartMergedSplit | ClassicalSharp/Rendering/MapRenderer.cs:293-302 | a merged bottom+top range in a big part splits into a call ending exactly at 98304 and a call from index 0 with base vertex 65536; the two counts sum to bottomCount + topCount and both cull |
| MapRenderer.BigPartSingleFaceSplit | ClassicalSharp/Rendering/MapRenderer.cs:303-320 | a lone bottom or top face is split iff maxIndices − its index < its count |
| MapRenderer.BigBottomTopCorrectionIsLocal | ClassicalSharp/Rendering/MapRenderer.cs:310-320 | the corrected split differs from the as-written one exactly when only the top face is drawn and it starts above index 98304 |
| MapRenderer.AsWrittenTopOnlyOverdraws | ClassicalSharp/Rendering/MapRenderer.cs:310-320 | with only the top face enabled and the top face starting at 122880, the renderer draws index 98304, which lies in the disabled bottom face; DrawPart and the corrected DrawBigPart do not |
| MapRenderer.BigPartCoverage | ClassicalSharp/Rendering/MapRenderer.cs:263-322 | the corrected DrawBigPart draws the same set of indices as DrawPart, for every combination of face flags |
| MapRenderer.BigBottomTopCoverage | ClassicalSharp/Rendering/MapRenderer.cs:293-321 | the corrected split bottom/top calls draw the same indices as the unsplit bottom/top calls of DrawPart, for every combination of the two flags |
| MapRenderer.NormalPartToDraw | ClassicalSharp/Rendering/MapRenderer.cs:130-154 | a chunk contributes to a normal batch iff it has parts, is visible, and the batch's part has indices; the part drawn is that batch's entry |
| MapRenderer.TranslucentPartToDraw | ClassicalSharp/Rendering/MapRenderer.cs:156-170 | the same selection rule for translucent batches; the part drawn is that batch's entry |
| MapRenderer.NormalChunkCalls | ClassicalSharp/Rendering/MapRenderer.cs:130-154 | a chunk that does not contribute emits no calls |
| MapRenderer.NormalChunkCoverage | ClassicalSharp/Rendering/MapRenderer.cs:130-154 | a contributing chunk draws exactly its contributing face indices plus its sprite indices |
| MapRenderer.TranslucentChunkCalls | ClassicalSharp/Rendering/MapRenderer.cs:156-170 | a non-contributing chunk emits nothing, and no translucent call culls |
| MapRenderer.RenderNormalBatch | ClassicalSharp/Rendering/MapRenderer.cs:130-154 | a batch is touched iff some chunk contributes to it; an untouched batch issues no calls and no vertices |
| MapRenderer.RenderTranslucentBatch | ClassicalSharp/Rendering/MapRenderer.cs:156-170 | the same for translucent batches, and none of its calls culls |
| MapRenderer.RenderNormal | ClassicalSharp/Rendering/MapRenderer.cs:70-89 | only batches with totalUsed > 0 that are pending or used are drawn, in ascending order with their own texture; pending is cleared exactly for those; used is set for those actually touched; nothing else in the renderer state changes |
| MapRenderer.TranslucentDepthPass | ClassicalSharp/Rendering/MapRenderer.cs:101-107 | the depth pass draws exactly the selected batches without a texture and updates pending and used as above |
| MapRenderer.TranslucentColourPass | ClassicalSharp/Rendering/MapRenderer.cs:115-120 | the colour pass draws, with texture, exactly the batches with totalUsed > 0 that are marked used |
| MapRenderer.RenderTranslucent | ClassicalSharp/Rendering/MapRenderer.cs:92-125 | the depth pass followed by the colour pass, with drawAllFaces from the head block; only the translucent used/pending flags change |
| TerrainAtlas1D.LayerRowRoundTrip | ClassicalSharp/TexturePack/TerrainAtlas1D.cs:30-37 | layer * elementsPerAtlas1D + row recovers the texture id; for texId ≥ 0 the row is in range and the layer is texId / e |
| TerrainAtlas1D.GetTexRec | ClassicalSharp/TexturePack/TerrainAtlas1D.cs:21-26 | the index out-parameter is Get1DIndex and the row is Get1DRowId of the same id |
| TerrainAtlas1D.UpdateState | ClassicalSharp/TexturePack/TerrainAtlas1D.cs:39-51 | throws DivideByZero iff the element size is 0 or no element fits in min(4096, max) pixels; otherwise elementsPerAtlas1D = min(perFull, total), atlasesCount = ceil(total / perFull), the height is the next power of two of the atlas's pixel height, so the atlases hold every element, one atlas is no taller than 4096 pixels, and a bitmap holds at least elementsPerAtlas1D elements |
| TerrainAtlas1D.FullAtlasFits | ClassicalSharp/TexturePack/TerrainAtlas1D.cs:40-41 | a full atlas of min(4096, max) / elementSize elements fits in 4096 pixels |
| TerrainAtlas1D.AtlasesHoldAll | ClassicalSharp/TexturePack/TerrainAtlas1D.cs:44-45 | ceil(total / perFull) atlases of min(perFull, total) elements hold all elements |
| TerrainAtlas1D.BitmapHoldsAtlas | ClassicalSharp/TexturePack/TerrainAtlas1D.cs:46-49 | elementsPerBitmap ≥ elementsPerAtlas1D |
| TerrainAtlas1D.Convert2DTo1D | ClassicalSharp/TexturePack/TerrainAtlas1D.cs:53-76 | atlas i, row k receives the 2D cell (index & 0x0F, index >> 4) of linear index i * e + k; looking up any texture id by layer and row finds its own cell |
| TerrainAtlas1D.CellOfInjective | ClassicalSharp/TexturePack/TerrainAtlas1D.cs:69-72 | distinct linear indices read distinct 2D cells |
| TerrainAtlas1D.LookupFindsCell | ClassicalSharp/TexturePack/TerrainAtlas1D.cs:30-37 | after the copy walk, the (Get1DIndex, Get1DRowId) lookup of each id finds that id's cell |
| TerrainAtlas1D.GetMaxUsedRow | ClassicalSharp/TexturePack/TerrainAtlas1D.cs:87-92 | the result is ≥ 1, exceeds every texture's row, and is 1 or one more than some texture's row |
| TerrainAtlas1D.CalcMaxUsedRow | ClassicalSharp/TexturePack/TerrainAtlas1D.cs:78-85 | throws DivideByZero in the same cases as UpdateState; otherwise the result is ≥ 1 and the least number of full atlases that holds every used row |
| BlockModel.QuadsOf | ClassicalSharp/Model/BlockModel.cs:61-92 | air emits no quad, a sprite 4 and a cube 6; each quad uses the texture of its own side |
| BlockModel.QuadOrder | ClassicalSharp/Model/BlockModel.cs:79-92 | sprites emit Right, Back, Back, Right; cubes emit Bottom, Right, Front, Back, Top, Left, so every side once |
| BlockModel.EmitFlushesOnChange | ClassicalSharp/Model/BlockModel.cs:197-209 | pending quads are uploaded iff the texture changes and a texture was bound, with index count vertices * 6 / 4; a flush restarts the pending run with the new quad |
| BlockModel.DrawModel | ClassicalSharp/Model/BlockModel.cs:61-99 | an air block uploads nothing |
| BlockModel.EmitKeepsInvariant | ClassicalSharp/Model/BlockModel.cs:197-209 | one emission preserves the batching invariant |
| BlockModel.EmitAllKeepsInvariant | ClassicalSharp/Model/BlockModel.cs:79-92 | emitting any sequence of quads preserves the batching invariant |
| BlockModel.FinishUploadsAll | ClassicalSharp/Model/BlockModel.cs:95-98 | the final flush makes the uploads concatenate to the emitted quads, with differing neighbouring textures, each upload well formed |
| BlockModel.DrawModelBatches | ClassicalSharp/Model/BlockModel.cs:61-99 | the uploads concatenate to the block's quads in order; neighbouring uploads use different textures; each upload binds TexIds[layer of its texture]; a non-air block uploads at least once |
| BlockModel.SingleTextureSingleUpload | ClassicalSharp/Model/BlockModel.cs:61-99 | a cube whose six faces share one atlas layer is drawn in one upload of 24 vertices and 36 indices |
| BlockModel.SingleTextureSingleRun | ClassicalSharp/Model/BlockModel.cs:197-209 | well-formed uploads of quads that all share a texture number at most one |
| MapLvl.ReadByte | ClassicalSharp/Map/Formats/MapLvl.Importer.cs:18-32 | reading succeeds iff a byte remains and returns that byte |
| MapLvl.ReadU16 | ClassicalSharp/Map/Formats/MapLvl.Importer.cs:18-32 | a little-endian u16 succeeds iff two bytes remain and advances by two |
| MapLvl.ParseFields | ClassicalSharp/Map/Formats/MapLvl.Importer.cs:21-32 | length, height, spawn x, z, y, yaw and pitch are read iff 12 bytes remain; otherwise end of stream |
| MapLvl.ParseHeader | ClassicalSharp/Map/Formats/MapLvl.Importer.cs:14-32 | the header parses iff the data holds the 14-byte or (after 1874) 18-byte header; otherwise end of stream |
| MapLvl.FieldsRoundTrip | ClassicalSharp/Map/Formats/MapLvl.Importer.cs:21-30 | the encoded fields read back unchanged at any offset |
| MapLvl.HeaderRoundTrip | ClassicalSharp/Map/Formats/MapLvl.Importer.cs:14-32 | an encoded header, versioned or not, parses back to itself whatever follows; an unversioned width may not be 1874 |
| MapLvl.ConvertPhysicsBlocks | ClassicalSharp/Map/Formats/MapLvl.Importer.cs:64-85 | length is kept; ids below 66 are unchanged, others map through the conversion table |
| MapLvl.ConvertedIds | ClassicalSharp/Map/Formats/MapLvl.Importer.cs:64-85 | every converted id is a standard block or 163, and 163 stays 163 |
| MapLvl.StepsFromMembers | ClassicalSharp/Map/Formats/MapLvl.Importer.cs:46-48 | a loop from k in steps of 16 visits exactly the values ≥ k below n congruent to k mod 16 |
| MapLvl.ChunkOriginsAreAllChunks | ClassicalSharp/Map/Formats/MapLvl.Importer.cs:46-48 | the chunk loops visit exactly the 16-aligned origins inside the map |
| MapLvl.ChunkOriginsInLoopOrder | ClassicalSharp/Map/Formats/MapLvl.Importer.cs:46-48 | the origins are visited in y, then z, then x order |
| MapLvl.CellBijection | ClassicalSharp/Map/Formats/MapLvl.Importer.cs:55 | i ↦ (i & 0xF, (i >> 8) & 0xF, (i >> 4) & 0xF) is a bijection from 0..4095 onto the 16³ cells |
| MapLvl.TargetIsWorldCell | ClassicalSharp/Map/Formats/MapLvl.Importer.cs:53-56 | the overlay target index is the world index of origin + cell |
| MapLvl.WorldIndexInRange | ClassicalSharp/Map/Formats/MapLvl.Importer.cs:53-56 | a cell inside the map has an index inside the block array |
| MapLvl.TargetsDistinct | ClassicalSharp/Map/Formats/MapLvl.Importer.cs:53-56 | distinct cells of one chunk target distinct blocks |
| MapLvl.OverlayOnlyReplacesCustom | ClassicalSharp/Map/Formats/MapLvl.Importer.cs:58-59 | overlaying a chunk never changes a block that is not 163 |
| MapLvl.OverlaySucceeds | ClassicalSharp/Map/Formats/MapLvl.Importer.cs:53-59 | a chunk inside the map never writes outside the block array |
| MapLvl.OverlayEffect | ClassicalSharp/Map/Formats/MapLvl.Importer.cs:53-59 | each targeted block becomes the chunk's byte iff it held 163; untargeted blocks are unchanged |
| MapLvl.ReadChunk | ClassicalSharp/Map/Formats/MapLvl.Importer.cs:50-60 | a chunk whose flag byte is not 1 (or is missing) is skipped, consuming only the flag |
| MapLvl.FillChunk | ClassicalSharp/Map/Formats/MapLvl.Importer.cs:52 | the chunk buffer receives the next bytes; a short read happens only at end of data and keeps the previous buffer's tail |
| MapLvl.ReadChunkOnlyReplacesCustom | ClassicalSharp/Map/Formats/MapLvl.Importer.cs:50-60 | reading one chunk changes only blocks that held 163 |
| MapLvl.ReadChunksOnlyReplaceCustom | ClassicalSharp/Map/Formats/MapLvl.Importer.cs:46-61 | reading any sequence of chunks changes only blocks that held 163 |
| MapLvl.ReadCustomBlocksEffect | ClassicalSharp/Map/Formats/MapLvl.Importer.cs:43-62 | for 16-aligned dimensions the custom section always succeeds and only replaces blocks that held 163 |
| MapLvl.ReadBlockArray | ClassicalSharp/Map/Formats/MapLvl.Importer.cs:33-35 | the block array has width * height * length bytes, the data's own bytes when enough remain |
| MapLvl.CustomSection | ClassicalSharp/Map/Formats/MapLvl.Importer.cs:37-39 | without the 0xBD marker the blocks are returned unchanged |
| MapLvl.Load | ClassicalSharp/Map/Formats/MapLvl.Importer.cs:15-41 | a loaded map has exactly width * height * length blocks; a truncated header is end of stream |
| MapLvl.LoadWithoutCustomSection | ClassicalSharp/Map/Formats/MapLvl.Importer.cs:15-41 | an encoded header, raw blocks and no marker load as that header with the converted blocks |
| MapLvl.LoadSucceeds | ClassicalSharp/Map/Formats/MapLvl.Importer.cs:15-41 | once the header parses, a 16-aligned map always loads |
| MapLvl.LoadKeepsConvertedBlocks | ClassicalSharp/Map/Formats/MapLvl.Importer.cs:15-41 | the loaded map keeps the parsed header, and every converted block that is not 163 |
| TextureCache.MultiplyIsConditionalXor | ClassicalSharp/TexturePack/TextureCache.cs:105 | (crc & 1) * 0xEDB88320 is "xor the polynomial iff the low bit is set" |
| TextureCache.EightRounds | ClassicalSharp/TexturePack/TextureCache.cs:103-105 | the eight inner rounds after xoring in a byte are one table-free byte step of CRC-32 |
| TextureCache.CRC32 | ClassicalSharp/TexturePack/TextureCache.cs:100-108 | the loop computes the standard CRC-32 (init and final xor 0xFFFFFFFF); empty input gives 0 |
| TextureCache.ShiftInByte | ClassicalSharp/TexturePack/TextureCache.cs:103-105 | the inner loop is the byte step of the standard definition |
| TextureCache.CheckValue | ClassicalSharp/TexturePack/TextureCache.cs:100-108 | the ASCII bytes of "123456789" give the CRC-32 check value 0xCBF43926 |
| TextureCache.Utf8 | ClassicalSharp/TexturePack/TextureCache.cs:94 | UTF-8 uses one to four bytes per character, and ASCII text encodes to itself |
| TextureCache.CacheFileIsNamedByCrc | ClassicalSharp/TexturePack/TextureCache.cs:91-98 | the cache file's name is the decimal text of the CRC, read back as that number |
| TextureCache.DifferentCrcDifferentFile | ClassicalSharp/TexturePack/TextureCache.cs:93-98 | urls whose CRCs differ get different cache paths |
| FpsScreen.Reverse | ClassicalSharp/2D/Screens/FpsScreen.cs:229-242 | count is the number of decimal digits (1 for 0) and the result is the number written with the digits reversed |
| FpsScreen.AddInt | ClassicalSharp/2D/Screens/FpsScreen.cs:215-227 | the glyphs are a minus iff negative, the digits of the magnitude most significant first, and a comma iff more |
| FpsScreen.AddDigits | ClassicalSharp/2D/Screens/FpsScreen.cs:220-226 | reversing then peeling low digits emits exactly the decimal digits of the magnitude, zeros included |
| FpsScreen.IntGlyphsText | ClassicalSharp/2D/Screens/FpsScreen.cs:215-227 | over the alphabet "0123456789-, ()" the glyphs spell the integer's decimal text, with a comma iff more |
| FpsScreen.AddCharsAdvance | ClassicalSharp/2D/Screens/FpsScreen.cs:205-213 | a run of glyphs advances the cursor by the sum of their widths and four vertices each |
| FpsScreen.DrawPosition | ClassicalSharp/2D/Screens/FpsScreen.cs:128-145 | the position glyphs, a cursor past all their widths, and one quad more than glyphs |
| FpsScreen.PositionText | ClassicalSharp/2D/Screens/FpsScreen.cs:136-140 | the position glyphs spell "(x,y,z)" |
| FpsScreen.AsWrittenDropsWholeUnit | ClassicalSharp/2D/Screens/FpsScreen.cs:76-84 | the clock as written reports 60 minutes as "0 mins" and 1440 minutes as 0 hours, 0 mins |
| FpsScreen.ClockMessageFor | ClassicalSharp/2D/Screens/FpsScreen.cs:73-85 | the corrected message's days, hours and minutes add back to the minutes played, each unit in range and the leading unit nonzero |
| FpsScreen.AsWrittenDiffersOnlyAtWholeUnits | ClassicalSharp/2D/Screens/FpsScreen.cs:76-84 | the written and corrected clocks differ exactly at 60 and 1440 minutes |
| FpsScreen.CheckClock | ClassicalSharp/2D/Screens/FpsScreen.cs:68-87 | a message appears iff the clock is shown and the minute changed; then the minute is recorded; otherwise nothing changes; the message is the corrected one (see Findings) |
| FpsScreen.ClockAnnouncesOnce | ClassicalSharp/2D/Screens/FpsScreen.cs:68-72 | a second check within the same minute announces nothing |
| FpsScreen.UpdateFPS | ClassicalSharp/2D/Screens/FpsScreen.cs:38-66 | no report while the accumulator stays below 1 second; a report counts this frame, adds one second and resets the counters |
| FpsScreen.FramesAccounted | ClassicalSharp/2D/Screens/FpsScreen.cs:38-66 | over any run of frames, seconds grow by the number of reports and every frame is reported or still pending |
| EntityList.Get | ClassicalSharp/Entities/EntityList.cs:145-147 | slot lookup succeeds iff 0 ≤ id < 256 and returns that slot |
| EntityList.Set | ClassicalSharp/Entities/EntityList.cs:148-151 | storing a player sets its id to the slot; other slots are unchanged; ids outside 0..255 fail |
| EntityList.SetThenGet | ClassicalSharp/Entities/EntityList.cs:145-152 | reading back a stored slot gives the player with the slot's id; other slots read as before |
| EntityList.GetClosestPlayer | ClassicalSharp/Entities/EntityList.cs:125-142 | 255 iff no slot below 255 is hit; otherwise a hit slot with the strictly smallest distance, earliest on ties |
| EntityList.RenderNames | ClassicalSharp/Entities/EntityList.cs:58-82 | NoNames draws nothing and keeps the closest id; All clears it; HoveredOnly or no permission draws nothing in this pass; only existing players are drawn |
| EntityList.RenderHoveredNames | ClassicalSharp/Entities/EntityList.cs:84-98 | the hovered pass draws the remembered closest player, and no one else, exactly when names are HoveredOnly or AllAndHovered, that slot is not the local player's and it holds a player |
| EntityList.NoNamesDrawsNothing | ClassicalSharp/Entities/EntityList.cs:58-98 | with NoNames neither pass draws |
| EntityList.AllDrawsEveryName | ClassicalSharp/Entities/EntityList.cs:58-98 | with All every existing player is drawn in the normal pass and none in the hovered pass |
| EntityList.AllAndHoveredDrawsEachOnce | ClassicalSharp/Entities/EntityList.cs:77-92 | with AllAndHovered each existing other player is drawn in exactly one of the two passes |
| EntityList.DrawShadows | ClassicalSharp/Entities/EntityList.cs:154-176 | no shadows in None; otherwise the local player first (a null local player fails) and the others only under CircleAll |
| EntityList.OtherShadows | ClassicalSharp/Entities/EntityList.cs:171-176 | the other players' shadows are exactly the existing slots below 255 under CircleAll, ascending |
| EntityList.ShadowsDrawnOnce | ClassicalSharp/Entities/EntityList.cs:154-176 | no shadow is drawn twice |
| EntityList.ClassicModeHidesOthers | ClassicalSharp/Entities/EntityList.cs:25-33 | classic mode forces HoveredOnly names and no shadows: the normal name pass and the shadow pass draw nothing, and the hovered pass draws the looked-at player whenever there is one |
| ModelCache.InitModel | ClassicalSharp/Model/ModelCache.cs:50-62 | "block" builds a block model; humanoid names are not built here |
| ModelCache.InitCache | ClassicalSharp/Model/ModelCache.cs:19-26 | "human" and "humanoid" alias one new humanoid model |
| ModelCache.GetModel | ClassicalSharp/Model/ModelCache.cs:34-48 | the resolved key is cached with the returned model; a cached key returns its model unchanged; the lookup fails iff humanoid is missing and needed; every entry already cached keeps its model |
| ModelCache.InitCacheConsistent | ClassicalSharp/Model/ModelCache.cs:19-26 | InitCache establishes the cache invariant |
| ModelCache.GetModelConsistent | ClassicalSharp/Model/ModelCache.cs:34-48 | on a consistent cache every lookup succeeds and keeps the cache consistent |
| ModelCache.GetModelResolves | ClassicalSharp/Model/ModelCache.cs:34-62 | "block" gives humanoid; a byte-valued name gives a block model; a known name its model; an unknown name the humanoid fallback, cached under that name |
| ModelCache.GetModelIdempotent | ClassicalSharp/Model/ModelCache.cs:41-47 | a repeated lookup returns the same model and leaves the cache unchanged |
| ModelCache.GetModelCreatesOnlyWhenAbsent | ClassicalSharp/Model/ModelCache.cs:41-46 | a model is built at most once per lookup, and exactly when the key is absent and known |
| Network.Address | ClassicalSharp/Network/INetworkProcessor.cs:70-72 | the display address is the url minus a leading "https://" or "http://" |
| Network.SchemesExclusive | ClassicalSharp/Network/INetworkProcessor.cs:71-72 | no url starts with both schemes |
| Network.AddressDropsScheme | ClassicalSharp/Network/INetworkProcessor.cs:81-83 | the address is 8, 7 or 0 characters shorter than the url |
| Network.IdentifierRoundTrip | ClassicalSharp/Network/INetworkProcessor.cs:80-96 | Substring(3) of "CL_" + url is url |
| Network.DownloadTexturePack | ClassicalSharp/Network/INetworkProcessor.cs:99-107 | denied urls request nothing; others request "texturePack" data iff the url contains ".zip", else the "terrain" image |
| Network.RetrieveTexturePack | ClassicalSharp/Network/INetworkProcessor.cs:78-93 | a url in neither list requests its content length and shows a warning; a listed url is downloaded directly |
| Network.PromptDownloadsPromptedUrl | ClassicalSharp/Network/INetworkProcessor.cs:78-97 | accepting the warning downloads exactly the prompted url |
| Network.AnsweredUrlNotPrompted | ClassicalSharp/Network/INetworkProcessor.cs:90-92 | an accepted or denied url is never prompted |
| Network.WarningScreenTick | ClassicalSharp/Network/INetworkProcessor.cs:60-76 | nothing is shown for a missing item, null data or a length ≤ 0; shown text carries that positive length |
| Network.WarningShowsPromptedAddress | ClassicalSharp/Network/INetworkProcessor.cs:60-76 | for a known positive length the warning shows the prompted url's address |
| Network.ApplyItem | ClassicalSharp/Network/INetworkProcessor.cs:124-149 | fresh data is applied and cached; a 304 without a cache entry or any other failure extracts the default pack; a 304 with one re-applies only for a new url; the texture url is set iff the default is not extracted |
| Network.NotModifiedCurrentIsNoOp | ClassicalSharp/Network/INetworkProcessor.cs:140-145 | a 304 for the current url does nothing |
| Network.CheckAsyncResources | ClassicalSharp/Network/INetworkProcessor.cs:122-174 | with no finished terrain or texture-pack download nothing changes; it fails iff a finished item holds a content length instead of an asset; a fresh texture pack wins the texture url and is cached last; a failed pack leaves the default pack and no url |
| Network.CheckTerrainOnly | ClassicalSharp/Network/INetworkProcessor.cs:124-149 | a lone terrain download is handled by the terrain rule |
| LauncherScreen.FirstHitFrom | Launcher2/Gui/Screens/LauncherScreen.cs:47-60 | the first widget in array order whose half-open rectangle holds the point |
| LauncherScreen.MouseMove | Launcher2/Gui/Screens/LauncherScreen.cs:41-65 | a suppressed move is swallowed and clears suppression; otherwise only mouseMoved and the selection change |
| LauncherScreen.MouseMoveSelects | Launcher2/Gui/Screens/LauncherScreen.cs:47-65 | the first hit becomes selected, no hit clears the selection; events occur iff the selection changes, unselect first and select last |
| LauncherScreen.MouseMoveIdempotent | Launcher2/Gui/Screens/LauncherScreen.cs:41-65 | repeating a move at the same point changes nothing |
| LauncherScreen.MouseButtonDown | Launcher2/Gui/Screens/LauncherScreen.cs:123-131 | other buttons do nothing; a left click unclicks a different previous widget, clicks a clickable selection, and records the selection as last clicked |
| LauncherScreen.ClickTwiceNoUnclick | Launcher2/Gui/Screens/LauncherScreen.cs:126-130 | a second click on the same selection unclicks nothing |
| LauncherScreen.IndexOf | Launcher2/Gui/Screens/LauncherScreen.cs:142-143 | the first slot holding the widget, or −1 |
| LauncherScreen.ScanSlot | Launcher2/Gui/Screens/LauncherScreen.cs:150-151 | the truncated remainder corrected by + n is a slot in range |
| LauncherScreen.ScanSlotIsMod | Launcher2/Gui/Screens/LauncherScreen.cs:150-151 | that correction equals the mathematical modulus |
| LauncherScreen.ScanArrives | Launcher2/Gui/Screens/LauncherScreen.cs:149-151 | every slot is reached by the scan after its cyclic distance |
| LauncherScreen.ScanDistance | Launcher2/Gui/Screens/LauncherScreen.cs:149-151 | step j of the scan is at cyclic distance j |
| LauncherScreen.TabScan | Launcher2/Gui/Screens/LauncherScreen.cs:149-175 | nothing is found iff no widget is an input or button; otherwise the focusable widget nearest in scan direction |
| LauncherScreen.HandleTab | Launcher2/Gui/Screens/LauncherScreen.cs:139-176 | no-op while tab is held; otherwise it sets tabDown and focuses the first focusable widget from the clamped start in the shift direction, if any |
| LauncherScreen.Focus | Launcher2/Gui/Screens/LauncherScreen.cs:154-172 | focusing keeps the widgets; the focused widget becomes last clicked, an input widget also being clicked |
| LauncherScreen.TabFocusesWidget | Launcher2/Gui/Screens/LauncherScreen.cs:155-170 | moving to the widget's centre selects it when it is the first hit there, and the following click keeps it last clicked |
| LauncherScreen.MakeAt | Launcher2/Gui/Screens/LauncherScreen.cs:183-227 | a Make*At call succeeds iff the slot is free or holds the same kind, advances widgetIndex by one, reuses an existing widget, and changes no other slot |
| LauncherScreen.RelayoutKeepsWidget | Launcher2/Gui/Screens/LauncherScreen.cs:186-193 | laying out again keeps each existing widget findable at or before its slot |
| Slot.CreateEmpty | Window/Slot.cs:22-24 | the created slot is empty |
| Slot.ToString | Window/Slot.cs:26-29 | the text is "(empty slot)" iff the slot is empty, and is always parenthesised |
| Slot.ParseToString | Window/Slot.cs:28 | the text of a non-empty slot parses back to that slot |
| Slot.ToStringInjective | Window/Slot.cs:28 | distinct non-empty slots print differently |
| Utils.CsRem | Launcher2/Gui/Screens/LauncherScreen.cs:150 | C#'s remainder takes the dividend's sign, is smaller than the divisor in magnitude, and completes truncating division |
| Utils.CeilDiv | ClassicalSharp/TexturePack/TerrainAtlas1D.cs:44 | the least multiplier covering the dividend |
| Utils.NextPowerOf2 | ClassicalSharp/TexturePack/TerrainAtlas1D.cs:46 | the least power of two at or above the value |
| Utils.Clamp | Launcher2/Gui/Screens/LauncherScreen.cs:147 | the value clamped into [lo, hi], unchanged when already inside |
| Decimal.ParseShow | ClassicalSharp/TexturePack/TextureCache.cs:97 | an integer's decimal text parses back to that integer |
| Decimal.ShowInjective | ClassicalSharp/TexturePack/TextureCache.cs:97 | distinct integers have distinct decimal text |

## Left out

- Floating point: UV rectangles, `invElementSize`, vertex positions, FPS
  division, `1f / maxDelta` and the yaw/pitch conversion are not modelled.
  `CalcState` keeps its bounds as reals, and the FPS accumulator is a real.
- GPU, window and chat effects are returned as data. This covers texture
  binding, vertex buffers, render states and cursor warping. Fonts, bitmaps
  and widget redraw are left out.
- The `#if OCCLUSION` code in MapRenderer.cs is not modelled. Neither are
  `ChunkSorter` and `ChunkUpdater`, which are not part of this model.
- GZip decompression and stream plumbing: the map is decoded from an
  already decompressed byte sequence.
- The 32-bit overflow of width * height * length is not modelled.
- MapLvl.LoadSucceeds: the guarantee is stated only for dimensions that
  are multiples of 16, as real maps are. Other dimensions can make a
  partial chunk index past the array, which the model reports as
  IndexOutOfRange.
- MapLvl.ReadByte / MapLvl.ReadU16: a short read of the C# stream is an
  end-of-stream error. A truncated block array leaves its missing bytes 0,
  as the single `Read` call into a fresh array does.
- File I/O of the texture cache is left out: reading, writing, timestamps
  and `File.Exists`. The `lastModified` argument of the download requests is
  dropped.
- TextureCache.Utf8: text is a sequence of Unicode scalar values, so the
  handling of lone UTF-16 surrogates is not modelled. `Path.Combine` is
  modelled as joining with one separator unless the first part already ends
  with it.
- ModelCache.GetModel: `Byte.TryParse` is modelled as a non-empty run of
  decimal digits with a value up to 255. Signs, whitespace and culture
  details are left out. Model construction and `CreateParts` are abstract.
- FpsScreen.Reverse / FpsScreen.AddInt: values of ten digits or more are
  excluded by precondition. `Reverse` overflows 32 bits for them, and
  `Math.Abs(int.MinValue)` throws.
- FpsScreen.UpdateFPS: the text of the FPS line is not modelled, only the
  counters and the clock. The clock is the corrected one (see Findings).
- EntityList.GetClosestPlayer: the ray/box intersection is an input (an
  optional distance per slot).
- LauncherScreen: the one-time `supressMove` flag is a parameter and a
  result rather than a static field.
- LauncherScreen.MakeAt: the three `Make*At` methods are modelled through
  this one member. Their text, font, anchors and `SetDrawData` layout are
  not modelled, only slot reuse and the widget's rectangle.
- MapRenderer.BigPartCoverage / MapRenderer.BigBottomTopCoverage: stated
  for parts whose bottom range starts at or below 98304 and whose top range
  ends at or above it, the layout the chunk builder produces. They are about
  the corrected split (see Findings); NormalChunkCalls uses it too.
- FpsScreen.CheckClock: emits the corrected clock message (see Findings);
  the message as written is ClockMessageAsWritten.
- TerrainAtlas1D.UpdateState / TerrainAtlas1D.CalcMaxUsedRow: the maximum
  texture dimension and the element size are taken as non-negative, as a
  driver limit and a bitmap width / 16 are; for negative values the C#
  division and `Utils.CeilDiv` would give results the model does not give.
- Code not shown is represented by stated constants and parameters:
  - `Utils.cs`: CeilDiv, NextPowerOf2 and Clamp use their standard
    definitions.
  - `BlockInfo`: 66 CPE blocks, Water = 8, StillWater = 9.
  - `ChunkPartInfo`: the six face ranges, assumed adjacent in pairs.
  - `TerrainAtlas2D`: 16 elements per row, row count a parameter.
  - `AsyncDownloader` and `TexturePackExtractor`: downloaded items are
    inputs and extraction is an effect.
  - `IGraphicsApi`.

## Findings

| source | as written | input that shows it | evidently intended | confidence | as-written member | corrected member |
|---|---|---|---|---|---|---|
| ClassicalSharp/2D/Screens/FpsScreen.cs:76-84 | the day and hour formats are chosen by strict `TotalDays > 1` and `TotalHours > 1` | 60 minutes played prints "0 mins"; 1440 minutes prints "0 hours, 0 mins" | `>= 1`, so a whole hour or day is shown as "1 hour, 0 mins" or "1 day, 0 hours, 0 mins" | not executed | FpsScreen.AsWrittenDropsWholeUnit | FpsScreen.ClockMessageFor |
| ClassicalSharp/Rendering/MapRenderer.cs:310-320 | with only the top face drawn, the first count is `maxIndices - part.topIndex` and the second call draws `part.topCount - part1Count` indices from vertex 65536 | a big part whose top face starts at 122880 (bottom face at 98304, 24576 indices each) in a chunk with only the top flag set: the first count is −24576 and the second call draws 49152 indices from 98304, redrawing the whole bottom face | a top face wholly above 98304 is drawn by one call of topCount indices from topIndex − 98304 at base vertex 65536 | not executed | MapRenderer.AsWrittenTopOnlyOverdraws | MapRenderer.BigBottomTop |
