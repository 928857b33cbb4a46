/** Resource metadata, its validation, and the surfaces draws and transfers use. */
module Images {
  import opened Wrappers
  import opened Arith
  import opened WireFormat
  import opened Layout
  import opened Draws

  /** BatchState is the emitter's own refusal of a batch operation, reported to callers as InvalidState;
      Panic is the abort on indexing a plane that is not there. */
  datatype CompileError =
    | InvalidIdentity | InvalidResource | OutOfBounds | Overflow | InvalidState | UnsupportedFeature
    | CommandBudgetExceeded | InvalidPm4 | BatchState | Panic

  datatype Format = Bgra8 | Rgba8 | R8 | Depth32 | Nv12Format

  function BytesPerPixel(f: Format): Option<nat> {
    match f case Nv12Format => None case R8 => Some(1) case _ => Some(4)
  }

  datatype Usage = CopySrc | CopyDst | Sampled | RenderAttachment | VertexUse | IndexUse
  datatype Modifier = Linear | TiledDepth | TiledColor
  datatype Plane = Plane(offset: u64, stride: u32, size: u64)

  /** Extents are never zero. */
  type Extent = x: int | 0 < x < 0x1_0000_0000 witness 1

  datatype Conversion = Conversion(id: nat, midpointX: bool, midpointY: bool)

  datatype ImageMeta = ImageMeta(
    conversion: Option<Conversion>, texture: Option<Texture>, format: Format, storage: Format, width: Extent, height: Extent,
    usage: set<Usage>, modifier: Modifier, planes: seq<Plane>)

  datatype Kind = Buffer(usage: set<Usage>) | Image(image: ImageMeta)

  datatype Resource = Resource(id: nat, size: u64, kind: Kind)

  // ---- layout validation ---------------------------------------------------------------------------------------

  predicate Nv12PlaneOk(p: Plane, width: nat, rows: nat, allocation: nat, maxPitch: nat) {
    && width <= p.stride <= maxPitch && p.stride % 64 == 0 && p.size == Rows(p.stride, rows)
    && p.offset + p.size <= allocation
  }

  predicate Nv12Ok(allocation: u64, image: ImageMeta, maxPitch: nat) {
    && image.storage == Nv12Format && |image.planes| == 2 && image.modifier == Linear && image.texture.None?
    && image.conversion.Some? && image.usage == {Sampled} && image.width % 2 == 0 && image.height % 2 == 0
    && Nv12PlaneOk(image.planes[0], image.width, image.height, allocation, maxPitch)
    && Nv12PlaneOk(image.planes[1], image.width, image.height / 2, allocation, maxPitch)
    && image.planes[0].offset == 0 && image.planes[1].offset >= image.planes[0].size
    && image.planes[1].offset % 4096 == 0 && image.planes[1].stride == image.planes[0].stride
  }

  predicate TextureOk(allocation: u64, image: ImageMeta, t: Texture, plane: Plane) {
    && TextureFor(image.width, image.height, t.mipLevels, t.arrayLayers) == Some(t) && image.modifier == Linear
    && plane.offset == 0 && plane.stride == t.rowPitch && plane.size == t.totalSize && allocation >= t.totalSize
  }

  /** Bytes the plane must hold, or why it cannot be laid out. */
  function RequiredSize(image: ImageMeta, plane: Plane, rowBytes: nat, maxPitch: nat): Result<nat, CompileError> {
    match image.modifier
    case Linear =>
      if image.storage == Depth32 then Err(UnsupportedFeature)
      else if plane.stride < rowBytes || plane.stride > maxPitch || plane.stride % 64 != 0 then Err(InvalidResource)
      else Ok(Rows(plane.stride, image.height - 1) + rowBytes)
    case _ =>
      if image.storage != (if image.modifier == TiledDepth then Depth32 else Bgra8) || plane.offset % 4096 != 0
      then Err(InvalidResource)
      else
        var tiled := TiledFor(image.width, image.height);
        if tiled.None? then Err(Overflow)
        else if plane.stride != tiled.value.rowPitch || plane.size != tiled.value.layerSize then Err(InvalidResource)
        else Ok(tiled.value.layerSize)
  }

  function LayoutError(allocation: u64, image: ImageMeta, maxPitch: nat): Option<CompileError> {
    if image.format == Nv12Format then (if Nv12Ok(allocation, image, maxPitch) then None else Some(InvalidResource))
    else if |image.planes| != 1 then Some(UnsupportedFeature)
    else
      var plane := image.planes[0];
      if image.texture.Some? && !TextureOk(allocation, image, image.texture.value, plane) then Some(InvalidResource)
      else if BytesPerPixel(image.storage).None? then Some(UnsupportedFeature)
      else
        var rowBytes := image.width * BytesPerPixel(image.storage).value;
        if rowBytes >= 0x1_0000_0000 then Some(Overflow)
        else
          var required := RequiredSize(image, plane, rowBytes, maxPitch);
          if required.Err? then Some(required.error)
          else if plane.offset + plane.size >= 0x1_0000_0000_0000_0000 then Some(Overflow)
          else if plane.size < required.value || plane.offset + plane.size > allocation then Some(OutOfBounds)
          else None
  }

  // ---- surfaces ---------------------------------------------------------------------------------------------------

  predicate Samplable(image: ImageMeta, required: Usage) {
    && required in image.usage
    && (image.storage == Bgra8 || (image.storage == Nv12Format && required == Sampled))
    && image.modifier != TiledDepth
    && (image.modifier == TiledColor ==> image.format == Bgra8 && image.width >= 64)
  }

  /** The second plane is read whenever a conversion is given, whatever the format. */
  function Nv12Of(image: ImageMeta): Result<Option<Nv12>, CompileError> {
    if image.conversion.None? then Ok(None)
    else if |image.planes| < 2 then Err(Panic)
    else
      var c := image.conversion.value;
      Ok(Some(Nv12(c.id, c.midpointX, c.midpointY, image.planes[1].offset, image.planes[1].size)))
  }

  function ImageSurface(r: Resource, required: Usage, maxPitch: nat): Result<Surface, CompileError> {
    if !r.kind.Image? || !Samplable(r.kind.image, required) then Err(InvalidResource)
    else
      var image := r.kind.image;
      var error := LayoutError(r.size, image, maxPitch);
      if error.Some? then Err(error.value)
      else
        var nv12 := Nv12Of(image);
        if nv12.Err? then Err(nv12.error)
        else
          var plane := image.planes[0];
          Ok(Surface(nv12.value, if image.texture.Some? then image.texture.value.mipLevels else 1,
                     if image.texture.Some? then image.texture.value.layerStride else plane.size,
                     r.id, plane.offset, plane.size, image.width, image.height, plane.stride,
                     if image.modifier == TiledColor then 3 else 0, image.format == R8))
  }

  function TargetSurface(r: Resource, required: Usage, maxPitch: nat): Result<Surface, CompileError> {
    if !r.kind.Image? || r.kind.image.format != Bgra8 then Err(InvalidResource) else ImageSurface(r, required, maxPitch)
  }

  function DepthSurface(r: Resource, width: nat, height: nat, maxPitch: nat): Result<Surface, CompileError> {
    if !r.kind.Image? then Err(InvalidResource)
    else
      var image := r.kind.image;
      if image.format != Depth32 || image.modifier != TiledDepth || RenderAttachment !in image.usage
         || image.width != width || image.height != height
      then Err(InvalidResource)
      else
        var error := LayoutError(r.size, image, maxPitch);
        if error.Some? then Err(error.value)
        else
          var plane := image.planes[0];
          Ok(Surface(None, 1, plane.size, r.id, plane.offset, plane.size, width, height, plane.stride, 3, false))
  }

  // ---- what an accepted surface guarantees --------------------------------------------------------------------------

  /** The bytes a surface reads or writes are in its object, and not none. */
  predicate SurfaceInside(s: Surface, size: nat) {
    && s.planeSize > 0 && s.planeOffset + s.planeSize <= size
    && (s.nv12.Some? ==> s.nv12.value.uvSize > 0 && s.nv12.value.uvOffset + s.nv12.value.uvSize <= size)
  }

  lemma SomeRows(stride: nat, n: nat)
    requires stride > 0 && n > 0
    ensures Rows(stride, n) > 0
  {
  }

  lemma LayoutInside(r: Resource, maxPitch: nat)
    requires r.kind.Image? && LayoutError(r.size, r.kind.image, maxPitch).None?
    ensures r.kind.image.planes != [] && r.kind.image.planes[0].size > 0
    ensures r.kind.image.planes[0].offset + r.kind.image.planes[0].size <= r.size
    ensures r.kind.image.format == Nv12Format ==>
              && |r.kind.image.planes| == 2 && r.kind.image.planes[1].size > 0
              && r.kind.image.planes[1].offset + r.kind.image.planes[1].size <= r.size
  {
    var image := r.kind.image;
    if image.format == Nv12Format {
      SomeRows(image.planes[0].stride, image.height);
      SomeRows(image.planes[1].stride, image.height / 2);
    } else if image.modifier != Linear {
      TiledHoldsRows(image.width, image.height);
      SomeRows(TiledFor(image.width, image.height).value.rowPitch, image.height);
    }
  }

  /** Every surface a resource yields lies inside the resource. */
  lemma ImageSurfaceInside(r: Resource, required: Usage, maxPitch: nat)
    requires ImageSurface(r, required, maxPitch).Ok?
    ensures SurfaceInside(ImageSurface(r, required, maxPitch).value, r.size)
    ensures ImageSurface(r, required, maxPitch).value.target == r.id
  {
    LayoutInside(r, maxPitch);
  }

  lemma DepthSurfaceInside(r: Resource, width: nat, height: nat, maxPitch: nat)
    requires DepthSurface(r, width, height, maxPitch).Ok?
    ensures SurfaceInside(DepthSurface(r, width, height, maxPitch).value, r.size)
    ensures DepthSurface(r, width, height, maxPitch).value.target == r.id
  {
    LayoutInside(r, maxPitch);
  }

  /** Every row of a surface that can be written lies in its plane. */
  lemma RowsInside(r: Resource, required: Usage, maxPitch: nat, x: nat, y: nat, width: nat)
    requires ImageSurface(r, required, maxPitch).Ok? && r.kind.image.storage == Bgra8
    requires var s := ImageSurface(r, required, maxPitch).value; x + width <= s.width && y < s.height
    ensures var s := ImageSurface(r, required, maxPitch).value; Rows(s.stride, y) + 4 * (x + width) <= s.planeSize
  {
    var image := r.kind.image;
    var stride := image.planes[0].stride;
    if image.modifier == Linear {
      RowsAdd(stride, y, image.height - 1 - y);
    } else {
      TiledHoldsRows(image.width, image.height);
      RowsAdd(stride, y + 1, image.height - y - 1);
    }
  }

  /** A writable surface's pitch holds a full row. */
  lemma PitchHoldsRow(r: Resource, required: Usage, maxPitch: nat)
    requires ImageSurface(r, required, maxPitch).Ok? && r.kind.image.storage == Bgra8
    ensures 4 * r.kind.image.width <= ImageSurface(r, required, maxPitch).value.stride
  {
    if r.kind.image.modifier != Linear {
      TiledHoldsRows(r.kind.image.width, r.kind.image.height);
    }
  }

  /** A surface lookup aborts exactly when an otherwise acceptable single-plane image carries a colour
      conversion; for images whose only conversions are on biplanar formats it never does. */
  lemma SurfacePanicsIff(r: Resource, required: Usage, maxPitch: nat)
    ensures ImageSurface(r, required, maxPitch) == Err(Panic) <==>
            && r.kind.Image? && Samplable(r.kind.image, required)
            && LayoutError(r.size, r.kind.image, maxPitch).None?
            && r.kind.image.conversion.Some? && r.kind.image.format != Nv12Format
  {
    LayoutNeverPanics(r, maxPitch);
  }

  lemma LayoutNeverPanics(r: Resource, maxPitch: nat)
    ensures r.kind.Image? ==> LayoutError(r.size, r.kind.image, maxPitch) != Some(Panic)
  {
  }

  /** A concrete image that aborts the lookup. */
  lemma ConversionCanPanic()
    ensures var image := ImageMeta(Some(Conversion(0, false, false)), None, Bgra8, Bgra8, 1, 1, {Sampled}, Linear, [Plane(0, 64, 64)]);
            ImageSurface(Resource(0, 64, Image(image)), Sampled, 64) == Err(Panic)
  {
    assert Rows(64, 0) == 0;
  }

  // ---- views of one level -------------------------------------------------------------------------------------------

  /** The image that a checked level and layer of a layered texture is presented as. */
  function LevelView(image: ImageMeta, s: Subresource): ImageMeta
    requires 0 < s.width < 0x1_0000_0000 && 0 < s.height < 0x1_0000_0000 && s.rowPitch < 0x1_0000_0000
    requires s.size < 0x1_0000_0000_0000_0000
  {
    image.(texture := None, width := s.width, height := s.height, planes := [Plane(0, s.rowPitch, s.size)])
  }

  /** Every level and layer of an accepted four-byte texture is itself an accepted image of exactly its bytes. */
  lemma LevelViewAccepted(r: Resource, maxPitch: nat, level: nat, layer: nat)
    requires r.kind.Image? && LayoutError(r.size, r.kind.image, maxPitch).None? && r.kind.image.texture.Some?
    requires r.kind.image.storage == Bgra8
    requires SubresourceOf(r.kind.image.texture.value, level, layer).Some?
    ensures var image, s := r.kind.image, SubresourceOf(r.kind.image.texture.value, level, layer).value;
            && s.width <= 0x7fff && 0 < s.height <= 0x7fff && s.rowPitch < 0x1_0000_0000 && s.offset + s.size <= r.size
            && LayoutError(s.size, LevelView(image, s), maxPitch).None?
  {
    var image, t := r.kind.image, r.kind.image.texture.value;
    var s := SubresourceOf(t, level, layer).value;
    SubresourceInLayer(t, level, layer);
    RowFitsPitch(t, level, layer);
    ShrShrinks(t.width, level);
    ShrShrinks(t.height, level);
    ViewFits(LevelView(image, s), maxPitch);
  }

  lemma ViewFits(view: ImageMeta, maxPitch: nat)
    requires view.format != Nv12Format && view.storage == Bgra8 && view.modifier == Linear && view.texture.None?
    requires |view.planes| == 1 && view.planes[0].offset == 0 && view.width <= 0x7fff
    requires var p := view.planes[0];
             4 * view.width <= p.stride <= maxPitch && p.stride % 64 == 0 && p.size == Rows(p.stride, view.height)
    ensures LayoutError(view.planes[0].size, view, maxPitch).None?
  {
    var p := view.planes[0];
    assert Rows(p.stride, view.height) == Rows(p.stride, view.height - 1) + p.stride;
  }
}
