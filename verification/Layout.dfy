/** Linear mipmapped texture storage and the tiled depth layout. */
module Layout {
  import opened Wrappers
  import opened Arith

  const U32_LIMIT := 0x1_0000_0000

  // The least multiple of a power of two at or above v.
  function Align4(v: nat): (r: nat) ensures v <= r < v + 4 && r % 4 == 0 { (v + 3) / 4 * 4 }
  function Align16(v: nat): (r: nat) ensures v <= r < v + 16 && r % 16 == 0 { (v + 15) / 16 * 16 }
  function Align64(v: nat): (r: nat) ensures v <= r < v + 64 && r % 64 == 0 { (v + 63) / 64 * 64 }
  function Align256(v: nat): (r: nat) ensures v <= r < v + 256 && r % 256 == 0 { (v + 255) / 256 * 256 }
  function Align4096(v: nat): (r: nat) ensures v <= r < v + 4096 && r % 4096 == 0 { (v + 4095) / 4096 * 4096 }

  function Shr(x: nat, n: nat): nat { if n == 0 then x else Shr(x, n - 1) / 2 }

  /** The number of significant bits. */
  function BitLength(x: nat): nat { if x == 0 then 0 else 1 + BitLength(x / 2) }

  function AtLeastOne(x: nat): nat { if x == 0 then 1 else x }

  datatype Texture = Texture(
    width: nat, height: nat, mipLevels: nat, arrayLayers: nat, rowPitch: nat, layerStride: nat, totalSize: nat)

  datatype Subresource = Subresource(offset: nat, width: nat, height: nat, rowPitch: nat, size: nat)

  // ---- one level ------------------------------------------------------------------------------------------------

  function Pitch(rowPitch: nat, level: nat): nat { Align64(AtLeastOne(Shr(rowPitch, level))) }

  function Height(height: nat, level: nat): nat { AtLeastOne(Shr(height, level)) }

  /** Bytes of the addressable rows of a level. */
  function LevelSize(rowPitch: nat, height: nat, level: nat): nat { Rows(Pitch(rowPitch, level), Height(height, level)) }

  /** Where a level starts in its layer. */
  function LevelOffset(rowPitch: nat, height: nat, level: nat): nat {
    if level == 0 then 0 else LevelOffset(rowPitch, height, level - 1) + LevelSize(rowPitch, height, level - 1)
  }

  /** The whole chain: only the last level is padded, to a multiple of four rows. */
  function ChainSize(rowPitch: nat, height: nat, levels: nat): nat
    requires levels > 0
  {
    LevelOffset(rowPitch, height, levels - 1) + Rows(Pitch(rowPitch, levels - 1), Align4(Height(height, levels - 1)))
  }

  predicate ShapeAccepted(width: nat, height: nat, mipLevels: nat, arrayLayers: nat) {
    && 0 < width <= 0x7fff && 0 < height <= 0x7fff && 0 < mipLevels <= BitLength(Max(width, height))
    && 0 < arrayLayers <= 2048
  }

  // ---- construction ----------------------------------------------------------------------------------------------

  /** Accepts exactly the shapes in range whose layer fits 32 bits. */
  method New(width: nat, height: nat, mipLevels: nat, arrayLayers: nat) returns (r: Option<Texture>)
    ensures r == TextureFor(width, height, mipLevels, arrayLayers)
  {
    if !ShapeAccepted(width, height, mipLevels, arrayLayers) {
      return None;
    }
    var rowPitch := Align64(4 * width);
    var chainSize := 0;
    for level := 0 to mipLevels
      invariant chainSize ==
                if level < mipLevels then LevelOffset(rowPitch, height, level) else ChainSize(rowPitch, height, mipLevels)
    {
      var pitch := Pitch(rowPitch, level);
      var rows := Height(height, level);
      if level == mipLevels - 1 {
        rows := Align4(rows);
      }
      RowsIsProduct(pitch, rows);
      chainSize := chainSize + rows * pitch;
    }
    RowsIsProduct(Align4096(chainSize), arrayLayers);
    var layerStride := Align4096(chainSize);
    if layerStride >= U32_LIMIT {
      return None;
    }
    r := Some(Texture(width, height, mipLevels, arrayLayers, rowPitch, layerStride, arrayLayers * layerStride));
  }

  function TextureFor(width: nat, height: nat, mipLevels: nat, arrayLayers: nat): Option<Texture> {
    if !ShapeAccepted(width, height, mipLevels, arrayLayers) then None
    else
      var rowPitch := Align64(4 * width);
      var layerStride := Align4096(ChainSize(rowPitch, height, mipLevels));
      if layerStride >= U32_LIMIT then None
      else Some(Texture(width, height, mipLevels, arrayLayers, rowPitch, layerStride, Rows(layerStride, arrayLayers)))
  }

  /** The byte range of one level of one layer. */
  method SubresourceAt(t: Texture, level: nat, layer: nat) returns (r: Option<Subresource>)
    ensures r == SubresourceOf(t, level, layer)
  {
    if level >= t.mipLevels || layer >= t.arrayLayers {
      return None;
    }
    RowsIsProduct(t.layerStride, layer);
    var offset := layer * t.layerStride;
    for l := 0 to level
      invariant offset == Rows(t.layerStride, layer) + LevelOffset(t.rowPitch, t.height, l)
    {
      RowsIsProduct(Pitch(t.rowPitch, l), Height(t.height, l));
      offset := offset + Height(t.height, l) * Pitch(t.rowPitch, l);
    }
    var rowPitch := Pitch(t.rowPitch, level);
    var height := Height(t.height, level);
    RowsIsProduct(rowPitch, height);
    r := Some(Subresource(offset, AtLeastOne(Shr(t.width, level)), height, rowPitch, height * rowPitch));
  }

  function SubresourceOf(t: Texture, level: nat, layer: nat): Option<Subresource> {
    if level >= t.mipLevels || layer >= t.arrayLayers then None
    else
      Some(Subresource(Rows(t.layerStride, layer) + LevelOffset(t.rowPitch, t.height, level), AtLeastOne(Shr(t.width, level)),
                       Height(t.height, level), Pitch(t.rowPitch, level), LevelSize(t.rowPitch, t.height, level)))
  }

  // ---- every level has its own bytes -------------------------------------------------------------------------------

  lemma {:induction false} OffsetsGrow(rowPitch: nat, height: nat, a: nat, b: nat)
    requires a < b
    ensures LevelOffset(rowPitch, height, a) + LevelSize(rowPitch, height, a) <= LevelOffset(rowPitch, height, b)
  {
    if a < b - 1 {
      OffsetsGrow(rowPitch, height, a, b - 1);
    }
  }

  lemma RowsMono(x: nat, y: nat, z: nat)
    requires y <= z
    ensures Rows(x, y) <= Rows(x, z)
  {
    RowsAdd(x, y, z - y);
  }

  lemma PaddedRows(pitch: nat, rows: nat)
    ensures Rows(pitch, rows) <= Rows(pitch, Align4(rows))
  {
    RowsMono(pitch, rows, Align4(rows));
  }

  lemma LastInChain(rowPitch: nat, height: nat, levels: nat)
    requires levels > 0
    ensures LevelOffset(rowPitch, height, levels - 1) + LevelSize(rowPitch, height, levels - 1)
         <= ChainSize(rowPitch, height, levels)
  {
    PaddedRows(Pitch(rowPitch, levels - 1), Height(height, levels - 1));
  }

  lemma LevelInChain(rowPitch: nat, height: nat, levels: nat, level: nat, start: nat, size: nat, chain: nat)
    requires level < levels && start == LevelOffset(rowPitch, height, level) && size == LevelSize(rowPitch, height, level)
    requires chain == ChainSize(rowPitch, height, levels)
    ensures start + size <= chain
  {
    var last := levels - 1;
    if level == last {
      LastInChain(rowPitch, height, levels);
    } else {
      Grown(rowPitch, height, level, last, start, size, LevelOffset(rowPitch, height, last));
      LastBelowChain(rowPitch, height, levels, LevelOffset(rowPitch, height, last));
    }
  }

  lemma Grown(rowPitch: nat, height: nat, a: nat, b: nat, start: nat, size: nat, last: nat)
    requires a < b && start == LevelOffset(rowPitch, height, a) && size == LevelSize(rowPitch, height, a)
    requires last == LevelOffset(rowPitch, height, b)
    ensures start + size <= last
  {
    OffsetsGrow(rowPitch, height, a, b);
  }

  lemma LastBelowChain(rowPitch: nat, height: nat, levels: nat, last: nat)
    requires levels > 0 && last == LevelOffset(rowPitch, height, levels - 1)
    ensures last <= ChainSize(rowPitch, height, levels)
  {
  }

  /** The range lies in its own layer, which is page-aligned and inside the allocation. */
  lemma SubresourceInLayer(t: Texture, level: nat, layer: nat)
    requires TextureFor(t.width, t.height, t.mipLevels, t.arrayLayers) == Some(t) && SubresourceOf(t, level, layer).Some?
    ensures var s := SubresourceOf(t, level, layer).value;
            && Rows(t.layerStride, layer) <= s.offset && s.offset + s.size <= Rows(t.layerStride, layer + 1) <= t.totalSize
            && t.layerStride % 4096 == 0 && t.totalSize < 0x1_0000_0000_0000_0000
  {
    LevelInChain(t.rowPitch, t.height, t.mipLevels, level, LevelOffset(t.rowPitch, t.height, level),
                 LevelSize(t.rowPitch, t.height, level), ChainSize(t.rowPitch, t.height, t.mipLevels));
    RowsMono(t.layerStride, layer + 1, t.arrayLayers);
    RowsMono(t.layerStride, t.arrayLayers, 2048);
    RowsIsProduct(t.layerStride, 2048);
  }

  /** Different subresources never share a byte. */
  lemma SubresourcesDisjoint(t: Texture, level: nat, layer: nat, otherLevel: nat, otherLayer: nat)
    requires TextureFor(t.width, t.height, t.mipLevels, t.arrayLayers) == Some(t)
    requires SubresourceOf(t, level, layer).Some? && SubresourceOf(t, otherLevel, otherLayer).Some?
    requires level != otherLevel || layer != otherLayer
    ensures Apart(SubresourceOf(t, level, layer).value, SubresourceOf(t, otherLevel, otherLayer).value)
  {
    if layer < otherLayer {
      LayersApart(t, level, layer, otherLevel, otherLayer);
    } else if otherLayer < layer {
      LayersApart(t, otherLevel, otherLayer, level, layer);
    } else if level < otherLevel {
      OffsetsGrow(t.rowPitch, t.height, level, otherLevel);
    } else {
      OffsetsGrow(t.rowPitch, t.height, otherLevel, level);
    }
  }

  predicate Apart(a: Subresource, b: Subresource) {
    a.offset + a.size <= b.offset || b.offset + b.size <= a.offset
  }

  lemma LayersApart(t: Texture, level: nat, layer: nat, otherLevel: nat, otherLayer: nat)
    requires TextureFor(t.width, t.height, t.mipLevels, t.arrayLayers) == Some(t)
    requires SubresourceOf(t, level, layer).Some? && SubresourceOf(t, otherLevel, otherLayer).Some? && layer < otherLayer
    ensures Apart(SubresourceOf(t, level, layer).value, SubresourceOf(t, otherLevel, otherLayer).value)
  {
    SubresourceInLayer(t, level, layer);
    SubresourceInLayer(t, otherLevel, otherLayer);
    RowsMono(t.layerStride, layer + 1, otherLayer);
  }

  // ---- every row fits its pitch --------------------------------------------------------------------------------------

  lemma {:induction false} ShrMono(x: nat, y: nat, n: nat)
    requires x <= y
    ensures Shr(x, n) <= Shr(y, n)
  {
    if n > 0 {
      ShrMono(x, y, n - 1);
    }
  }

  lemma {:induction false} ShrOfFour(x: nat, n: nat)
    ensures 4 * Shr(x, n) <= Shr(4 * x, n)
  {
    if n > 0 {
      ShrOfFour(x, n - 1);
    }
  }

  lemma {:induction false} ShrShrinks(x: nat, n: nat)
    ensures Shr(x, n) <= x
  {
    if n > 0 {
      ShrShrinks(x, n - 1);
    }
  }

  lemma AlignedStays(v: nat, limit: nat)
    requires v <= limit && limit % 64 == 0
    ensures Align64(v) <= limit
  {
  }

  /** A level's pitch is a multiple of 64 that holds a full row and never exceeds the base pitch. */
  lemma RowFitsPitch(t: Texture, level: nat, layer: nat)
    requires TextureFor(t.width, t.height, t.mipLevels, t.arrayLayers) == Some(t) && SubresourceOf(t, level, layer).Some?
    ensures var s := SubresourceOf(t, level, layer).value;
            && s.rowPitch % 64 == 0 && 4 * s.width <= s.rowPitch <= t.rowPitch && s.height > 0
            && s.size == Rows(s.rowPitch, s.height)
  {
    ShrOfFour(t.width, level);
    ShrMono(4 * t.width, t.rowPitch, level);
    ShrShrinks(t.rowPitch, level);
    AlignedStays(AtLeastOne(Shr(t.rowPitch, level)), t.rowPitch);
  }

  /** Shifting right is dividing by a power of two. */
  lemma {:induction false} ShrDivides(x: nat, n: nat)
    ensures Shr(x, n) * Pow2(n) <= x < (Shr(x, n) + 1) * Pow2(n)
  {
    if n > 0 {
      ShrDivides(x, n - 1);
      HalfDivides(x, Shr(x, n - 1), Pow2(n - 1));
    }
  }

  lemma HalfDivides(x: nat, q: nat, p: nat)
    requires q * p <= x < (q + 1) * p
    ensures q / 2 * (2 * p) <= x < (q / 2 + 1) * (2 * p)
  {
    assert q / 2 * 2 * p <= q * p;
    assert (q + 1) * p <= (q / 2 + 1) * 2 * p;
  }

  lemma {:induction false} BitLengthIs(x: nat)
    requires x > 0
    ensures BitLength(x) > 0 && Pow2(BitLength(x) - 1) <= x < Pow2(BitLength(x))
  {
    if x > 1 {
      BitLengthIs(x / 2);
    }
  }

  /** `part` is the extent halved `level` times, rounded down, but never nothing. */
  predicate HalvedTo(extent: nat, level: nat, part: nat) {
    part > 0 && extent < (part + 1) * Pow2(level) && (part * Pow2(level) <= extent || part == 1)
  }

  lemma HalvingIs(extent: nat, level: nat)
    ensures HalvedTo(extent, level, AtLeastOne(Shr(extent, level)))
  {
    ShrDivides(extent, level);
    if Shr(extent, level) == 0 {
      assert (0 + 1) * Pow2(level) <= (1 + 1) * Pow2(level);
    }
  }

  /** Each level halves the extents and the pitch of the base, the pitch rounded up to 64 bytes. */
  lemma LevelExtents(t: Texture, level: nat, layer: nat)
    requires SubresourceOf(t, level, layer).Some?
    ensures var s := SubresourceOf(t, level, layer).value;
            && HalvedTo(t.width, level, s.width) && HalvedTo(t.height, level, s.height) && s.rowPitch % 64 == 0
            && exists pitch: nat :: HalvedTo(t.rowPitch, level, pitch) && pitch <= s.rowPitch < pitch + 64
  {
    HalvingIs(t.width, level);
    HalvingIs(t.height, level);
    HalvingIs(t.rowPitch, level);
    assert HalvedTo(t.rowPitch, level, AtLeastOne(Shr(t.rowPitch, level)));
  }

  /** A layer ends on the page behind its last level, whose rows are rounded up to a multiple of four. */
  lemma LayerSizeIs(t: Texture)
    requires TextureFor(t.width, t.height, t.mipLevels, t.arrayLayers) == Some(t)
    ensures t.layerStride % 4096 == 0 && t.totalSize == t.arrayLayers * t.layerStride
    ensures exists rows ::
              && rows % 4 == 0
              && var last := SubresourceOf(t, t.mipLevels - 1, 0).value;
                 last.height <= rows < last.height + 4
                 && last.offset + rows * last.rowPitch <= t.layerStride < last.offset + rows * last.rowPitch + 4096
  {
    var last := SubresourceOf(t, t.mipLevels - 1, 0).value;
    var rows := Align4(last.height);
    RowsIsProduct(last.rowPitch, rows);
    RowsIsProduct(t.layerStride, t.arrayLayers);
    assert last.height <= rows < last.height + 4;
  }

  /** A single row of 1024 pixels takes four rows of 4096 bytes. */
  lemma OneRowTakesFour()
    ensures TextureFor(1024, 1, 1, 1) == Some(Texture(1024, 1, 1, 1, 4096, 16384, 16384))
  {
    assert BitLength(1024) >= 1;
    assert Shr(4096, 0) == 4096 && Shr(1, 0) == 1;
    RowsIsProduct(4096, 4);
    RowsIsProduct(16384, 1);
  }

  // ---- tiled depth ----------------------------------------------------------------------------------------------------

  datatype Tiled = Tiled(rowPitch: nat, paddedHeight: nat, layerSize: nat)

  /** 256-byte pitch, 16-row tiles, page-aligned layer. */
  function TiledFor(width: nat, height: nat): Option<Tiled> {
    if width == 0 || height == 0 || 4 * width + 255 >= U32_LIMIT || height + 15 >= U32_LIMIT then None
    else
      var rowPitch, paddedHeight := Align256(4 * width), Align16(height);
      var layerSize := Align4096(Rows(rowPitch, paddedHeight));
      Some(Tiled(rowPitch, paddedHeight, layerSize))
  }

  /** A tiled layer holds every row of the image at its pitch. */
  lemma TiledHoldsRows(width: nat, height: nat)
    requires TiledFor(width, height).Some?
    ensures var t := TiledFor(width, height).value;
            && 4 * width <= t.rowPitch && Rows(t.rowPitch, height) <= t.layerSize && t.layerSize % 4096 == 0
  {
    var t := TiledFor(width, height).value;
    RowsMono(t.rowPitch, height, t.paddedHeight);
  }

  /** Pitch, rows and size are the least multiples of 256, 16 and 4096 that do. */
  lemma TiledIsLeast(width: nat, height: nat)
    requires TiledFor(width, height).Some?
    ensures var t := TiledFor(width, height).value;
            && t.rowPitch % 256 == 0 && 4 * width <= t.rowPitch < 4 * width + 256
            && t.paddedHeight % 16 == 0 && height <= t.paddedHeight < height + 16
            && t.layerSize % 4096 == 0 && t.paddedHeight * t.rowPitch <= t.layerSize < t.paddedHeight * t.rowPitch + 4096
  {
    var t := TiledFor(width, height).value;
    RowsIsProduct(t.rowPitch, t.paddedHeight);
  }
}
