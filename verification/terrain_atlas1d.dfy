/** The terrain atlas as an array of 1D atlases: the 2D atlas of 16-wide rows
    of square textures is cut into vertical strips ("1D atlases") of
    `elementsPerAtlas1D` textures each, so that texture id t lives in strip
    t / elementsPerAtlas1D at row t % elementsPerAtlas1D. Only the integer
    layout is modelled; UV rectangles are floating point and left out. */
module TerrainAtlas1D {
  import opened Common
  import opened Utils

  /** Textures per row of the 2D atlas. The copy loop reads the column as
      `index & 0x0F` and the row as `index >> 4`, which fixes this at 16. */
  const ElementsPerRow := 16

  /** The 1D atlases are never taller than this many pixels. */
  const MaxAtlasHeight := 4096

  /** Row of the 1D atlas layer holding texture `texId` (C# `/`). */
  function Get1DIndex(texId: int, elementsPerAtlas1D: int): int
    requires elementsPerAtlas1D > 0
  {
    CsDiv(texId, elementsPerAtlas1D)
  }

  /** Position of texture `texId` inside its 1D atlas (C# `%`). */
  function Get1DRowId(texId: int, elementsPerAtlas1D: int): int
    requires elementsPerAtlas1D > 0
  {
    CsRem(texId, elementsPerAtlas1D)
  }

  /** Layer and row split is a division with remainder: the pair determines
      the texture id, and for the non-negative ids every block texture has,
      the row is a valid position inside a layer. */
  lemma LayerRowRoundTrip(texId: int, e: int)
    requires e > 0
    ensures Get1DIndex(texId, e) * e + Get1DRowId(texId, e) == texId
    ensures texId >= 0 ==> 0 <= Get1DRowId(texId, e) < e
    ensures texId >= 0 ==> Get1DIndex(texId, e) == texId / e
  {
  }

  /** The integer part of GetTexRec: its `index` out-parameter and the row
      `y` from which the V coordinate is computed. */
  datatype TexLocation = TexLocation(index: int, y: int)

  function GetTexRec(texId: int, elementsPerAtlas1D: int): (loc: TexLocation)
    requires elementsPerAtlas1D > 0
    ensures loc.index == Get1DIndex(texId, elementsPerAtlas1D)
    ensures loc.y == Get1DRowId(texId, elementsPerAtlas1D)
    ensures loc.index * elementsPerAtlas1D + loc.y == texId
  {
    TexLocation(CsDiv(texId, elementsPerAtlas1D), CsRem(texId, elementsPerAtlas1D))
  }

  /** The integer state UpdateState computes. */
  datatype Layout = Layout(
    elementsPerAtlas1D: nat,  // textures per 1D atlas
    atlasesCount: nat,        // number of 1D atlases
    atlas1DHeight: nat,       // pixel height of each 1D atlas bitmap
    elementsPerBitmap: nat)   // texture slots per bitmap (its height / element size)

  /** How many textures fit in one 1D atlas of the largest allowed height. */
  function ElementsPerFullAtlas(maxTextureDimensions: nat, elementSize: nat): nat
    requires elementSize > 0
  {
    Min(MaxAtlasHeight, maxTextureDimensions) / elementSize
  }

  /** The divisions UpdateState and CalcMaxUsedRow perform, by the element
      size and then by the textures per full atlas, throw when either is 0:
      textures wider than the largest atlas, or an atlas narrower than 16
      pixels. */
  predicate DividesByZero(maxTextureDimensions: nat, elementSize: nat)
  {
    elementSize == 0 || ElementsPerFullAtlas(maxTextureDimensions, elementSize) == 0
  }

  /** Sizing of the 1D atlases for a 2D atlas of `rowsCount` rows of
      `elementSize`-pixel textures on hardware whose largest texture is
      `maxTextureDimensions` pixels. */
  function UpdateState(maxTextureDimensions: nat, elementSize: nat, rowsCount: nat): (r: Result<Layout>)
    ensures r.Err? <==> DividesByZero(maxTextureDimensions, elementSize)
    ensures r.Err? ==> r.error == DivideByZero
    ensures r.Ok? ==>
              var perFull := ElementsPerFullAtlas(maxTextureDimensions, elementSize);
              var total := rowsCount * ElementsPerRow;
              && r.value.elementsPerAtlas1D == Min(perFull, total)
              && r.value.atlasesCount == CeilDiv(total, perFull)
              && r.value.atlas1DHeight == NextPowerOf2(r.value.elementsPerAtlas1D * elementSize)
              && r.value.elementsPerBitmap == r.value.atlas1DHeight / elementSize
    ensures r.Ok? ==>
              var l := r.value;
              && l.atlasesCount * l.elementsPerAtlas1D >= rowsCount * ElementsPerRow
              && l.elementsPerAtlas1D <= rowsCount * ElementsPerRow
              && l.elementsPerAtlas1D <= ElementsPerFullAtlas(maxTextureDimensions, elementSize)
              && l.elementsPerAtlas1D * elementSize <= MaxAtlasHeight
              && (l.elementsPerAtlas1D > 0 <==> rowsCount > 0)
              && IsPowerOf2(l.atlas1DHeight)
              && l.atlas1DHeight >= l.elementsPerAtlas1D * elementSize
              && l.elementsPerBitmap >= l.elementsPerAtlas1D
  {
    if DividesByZero(maxTextureDimensions, elementSize) then Err(DivideByZero)
    else
      var perFull := ElementsPerFullAtlas(maxTextureDimensions, elementSize);
      var total := rowsCount * ElementsPerRow;
      var atlasesCount := CeilDiv(total, perFull);
      var e := Min(perFull, total);
      var height := NextPowerOf2(e * elementSize);
      AtlasesHoldAll(total, perFull, atlasesCount, e);
      FullAtlasFits(maxTextureDimensions, elementSize, e);
      BitmapHoldsAtlas(e, elementSize, height);
      Ok(Layout(e, atlasesCount, height, height / elementSize))
  }

  lemma FullAtlasFits(maxTextureDimensions: nat, elementSize: nat, e: nat)
    requires elementSize > 0
    requires e <= ElementsPerFullAtlas(maxTextureDimensions, elementSize)
    ensures e * elementSize <= MaxAtlasHeight
  {
    var m := Min(MaxAtlasHeight, maxTextureDimensions);
    var perFull := m / elementSize;
    assert perFull * elementSize <= m;
    assert e * elementSize <= perFull * elementSize;
  }

  lemma AtlasesHoldAll(total: nat, perFull: nat, atlasesCount: nat, e: nat)
    requires perFull > 0
    requires atlasesCount == CeilDiv(total, perFull)
    requires e == Min(perFull, total)
    ensures atlasesCount * e >= total
  {
    if perFull < total {
      assert e == perFull;
    } else if total > 0 {
      assert atlasesCount == 1;
    }
  }

  lemma BitmapHoldsAtlas(e: nat, elementSize: int, height: int)
    requires elementSize > 0
    requires height >= e * elementSize
    ensures height / elementSize >= e
  {
    var q := height / elementSize;
    assert height == q * elementSize + height % elementSize;
    MulStrictCancel(e, q + 1, elementSize);
  }

  /** A cell of the 2D atlas: column and row, each in units of textures. */
  datatype Cell = Cell(column: int, row: int)

  /** The cell the copy loop reads for linear index `index`: column
      `index & 0x0F` and row `index >> 4`. On two's-complement ints these are
      the floor remainder and quotient by 16, which Dafny's `%` and `/` are. */
  function CellOf(index: int): Cell
  {
    Cell(index % ElementsPerRow, index / ElementsPerRow)
  }

  /** The textures of a row-major 16-wide atlas have distinct cells. */
  lemma CellOfInjective(a: int, b: int)
    requires CellOf(a) == CellOf(b)
    ensures a == b
  {
    assert a == (a / 16) * 16 + a % 16;
    assert b == (b / 16) * 16 + b % 16;
  }

  /** Convert2DTo1D with the Make1DTexture copy loop: one shared running
      `index` walks the 2D atlas while atlas i is filled row by row. Result
      [i][k] is the 2D cell copied into row k of 1D atlas i. */
  method Convert2DTo1D(atlasesCount: nat, elementsPerAtlas1D: nat) returns (atlases: seq<seq<Cell>>)
    ensures |atlases| == atlasesCount
    ensures forall i :: 0 <= i < atlasesCount ==> |atlases[i]| == elementsPerAtlas1D
    ensures forall i, k :: 0 <= i < atlasesCount && 0 <= k < elementsPerAtlas1D ==>
              atlases[i][k] == CellOf(i * elementsPerAtlas1D + k)
    ensures elementsPerAtlas1D > 0 ==>
              forall t :: 0 <= t < atlasesCount * elementsPerAtlas1D ==>
                var layer := Get1DIndex(t, elementsPerAtlas1D);
                0 <= layer < atlasesCount &&
                atlases[layer][Get1DRowId(t, elementsPerAtlas1D)] == CellOf(t)
  {
    var e := elementsPerAtlas1D;
    atlases := [];
    var index := 0;
    var i := 0;
    while i < atlasesCount
      invariant 0 <= i <= atlasesCount
      invariant |atlases| == i
      invariant index == i * e
      invariant forall a :: 0 <= a < i ==> |atlases[a]| == e
      invariant forall a, k :: 0 <= a < i && 0 <= k < e ==> atlases[a][k] == CellOf(a * e + k)
    {
      var dst: seq<Cell> := [];
      var index1D := 0;
      while index1D < e
        invariant 0 <= index1D <= e
        invariant |dst| == index1D
        invariant index == i * e + index1D
        invariant forall k :: 0 <= k < index1D ==> dst[k] == CellOf(i * e + k)
      {
        dst := dst + [CellOf(index)];
        index := index + 1;
        index1D := index1D + 1;
      }
      atlases := atlases + [dst];
      i := i + 1;
    }
    if e > 0 {
      LookupFindsCell(atlases, atlasesCount, e);
    }
  }

  /** Reading texture t at (Get1DIndex, Get1DRowId) finds the cell the copy
      loop stored for linear index t. */
  lemma LookupFindsCell(atlases: seq<seq<Cell>>, atlasesCount: nat, e: nat)
    requires e > 0
    requires |atlases| == atlasesCount
    requires forall i :: 0 <= i < atlasesCount ==> |atlases[i]| == e
    requires forall i, k :: 0 <= i < atlasesCount && 0 <= k < e ==> atlases[i][k] == CellOf(i * e + k)
    ensures forall t :: 0 <= t < atlasesCount * e ==>
              var layer := Get1DIndex(t, e);
              0 <= layer < atlasesCount && atlases[layer][Get1DRowId(t, e)] == CellOf(t)
  {
    forall t | 0 <= t < atlasesCount * e
      ensures 0 <= Get1DIndex(t, e) < atlasesCount
      ensures atlases[Get1DIndex(t, e)][Get1DRowId(t, e)] == CellOf(t)
    {
      LayerRowRoundTrip(t, e);
      var layer := t / e;
      LayerBelowCount(t, e, atlasesCount);
      assert t == layer * e + t % e;
    }
  }

  lemma LayerBelowCount(t: nat, e: nat, count: nat)
    requires e > 0
    requires t < count * e
    ensures t / e < count
  {
    var q := t / e;
    assert q * e <= t;
    MulStrictCancel(q, count, e);
  }

  /** GetMaxUsedRow: one more than the highest atlas row holding a texture
      that some block uses (the running maximum starts at 0). */
  method GetMaxUsedRow(textures: seq<int>) returns (rows: int)
    ensures rows >= 1
    ensures forall i :: 0 <= i < |textures| ==> textures[i] / ElementsPerRow < rows
    ensures rows == 1 || exists i :: 0 <= i < |textures| && textures[i] / ElementsPerRow == rows - 1
  {
    var maxElem := 0;
    var i := 0;
    while i < |textures|
      invariant 0 <= i <= |textures|
      invariant maxElem >= 0
      invariant forall j :: 0 <= j < i ==> textures[j] <= maxElem
      invariant maxElem == 0 || exists j :: 0 <= j < i && textures[j] == maxElem
    {
      maxElem := Max(maxElem, textures[i]);
      i := i + 1;
    }
    rows := maxElem / ElementsPerRow + 1;
    forall j | 0 <= j < |textures|
      ensures textures[j] / ElementsPerRow < rows
    {
      DivMonotone(textures[j], maxElem);
    }
  }

  lemma DivMonotone(a: int, b: int)
    requires a <= b
    ensures a / ElementsPerRow <= b / ElementsPerRow
  {
  }

  /** CalcMaxUsedRow: how many full-height 1D atlases the used rows need. */
  method CalcMaxUsedRow(maxTextureDimensions: nat, elementSize: nat, textures: seq<int>)
    returns (r: Result<int>)
    ensures r.Err? <==> DividesByZero(maxTextureDimensions, elementSize)
    ensures r.Err? ==> r.error == DivideByZero
    ensures r.Ok? ==> r.value >= 1
    ensures r.Ok? ==> forall i :: 0 <= i < |textures| ==>
              (textures[i] / ElementsPerRow + 1) * ElementsPerRow
                <= r.value * ElementsPerFullAtlas(maxTextureDimensions, elementSize)
    ensures r.Ok? ==>
              (r.value - 1) * ElementsPerFullAtlas(maxTextureDimensions, elementSize) < ElementsPerRow
              || exists i :: 0 <= i < |textures| &&
                   (r.value - 1) * ElementsPerFullAtlas(maxTextureDimensions, elementSize)
                     < (textures[i] / ElementsPerRow + 1) * ElementsPerRow
  {
    if DividesByZero(maxTextureDimensions, elementSize) {
      return Err(DivideByZero);
    }
    var verElements := ElementsPerFullAtlas(maxTextureDimensions, elementSize);
    var usedRows := GetMaxUsedRow(textures);
    var totalElements := usedRows * ElementsPerRow;
    var atlases := CeilDiv(totalElements, verElements);
    forall i | 0 <= i < |textures|
      ensures (textures[i] / ElementsPerRow + 1) * ElementsPerRow <= atlases * verElements
    {
      assert textures[i] / ElementsPerRow + 1 <= usedRows;
    }
    r := Ok(atlases);
  }
}
