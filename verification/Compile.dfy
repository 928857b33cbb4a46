/** Validation and lowering of whole operation streams. */
module Compile {
  import opened Wrappers
  import opened Arith
  import opened WireFormat
  import opened Operations
  import opened Accesses
  import opened Commands
  import opened Draws
  import opened Images
  import opened Bounds
  import opened Transfers
  import opened Uploads
  import opened Painting
  import opened Lowering

  type Words32 = s: seq<u32> | |s| == 32 witness seq(32, _ => 0)
  type Four = s: seq<u32> | |s| == 4 witness seq(4, _ => 0)

  /** A normalized pipeline: the selected shader variants and the fixed state they need. */
  datatype Pipeline = Pipeline(
    stride: u32, variant: Option<nat>, nv12Variant: Option<nat>, attributes: seq<(nat, nat)>, sampled: Option<Format -> bool>,
    sourceOver: bool, cull: u32, depth: Option<(nat, bool)>)

  /** Opaque encodings of graphics values. */
  datatype Encodings = Encodings(
    tables: Tables, uniforms: (Uniforms, Option<Surface>) -> Words32, sampler: (Option<Sampler>, Option<Surface>) -> Four,
    samplerOk: Sampler -> bool, viewportFits: (Viewport, nat, nat) -> bool, fullViewport: (nat, nat) -> Viewport,
    color: Color -> Short, depth: Depth -> Short, depthOk: Depth -> bool)

  datatype Input = Input(
    resources: seq<Resource>, pipelines: seq<(nat, Pipeline)>, maxWords: u32, maxPitch: nat, enc: Encodings)

  // ---- tables ---------------------------------------------------------------------------------------------------------

  function Find(rs: seq<Resource>, id: nat): (r: Result<Resource, CompileError>)
    ensures r.Ok? ==> r.value.id == id && r.value in rs
    ensures r.Err? ==> r.error == InvalidIdentity
  {
    if rs == [] then Err(InvalidIdentity) else if rs[0].id == id then Ok(rs[0]) else Find(rs[1..], id)
  }

  function FindPipeline(ps: seq<(nat, Pipeline)>, id: nat): (r: Result<Pipeline, CompileError>)
    ensures r.Err? ==> r.error == InvalidIdentity
  {
    if ps == [] then Err(InvalidIdentity) else if ps[0].0 == id then Ok(ps[0].1) else FindPipeline(ps[1..], id)
  }

  /** The size of every external object. */
  function Sizes(rs: seq<Resource>): map<nat, nat> {
    if rs == [] then map[] else Sizes(rs[1..])[rs[0].id := rs[0].size]
  }

  lemma {:induction false} FoundSize(rs: seq<Resource>, id: nat)
    requires Find(rs, id).Ok?
    ensures id in Sizes(rs) && Sizes(rs)[id] == Find(rs, id).value.size
  {
    if rs[0].id != id {
      FoundSize(rs[1..], id);
    }
  }

  function WorldOf(i: Input): World { World(Sizes(i.resources), i.enc.tables.sizes) }

  // ---- small validators --------------------------------------------------------------------------------------------------

  predicate RectInside(r: Rect, width: nat, height: nat) {
    && r.width > 0 && r.height > 0 && r.x + r.width <= width && r.y + r.height <= height
    && r.x + r.width - 1 <= 0x7fff && r.y + r.height - 1 <= 0x7fff
  }

  predicate RectWithin(r: Rect, area: Rect) {
    area.x <= r.x && area.y <= r.y && r.x + r.width <= area.x + area.width && r.y + r.height <= area.y + area.height
  }

  predicate RangeInside(size: nat, offset: nat, length: nat) { length > 0 && offset + length <= size }

  predicate IsBuffer(r: Resource, usage: Usage) { r.kind.Buffer? && usage in r.kind.usage }

  function SurfaceFor(i: Input, id: nat, usage: Usage): Result<Surface, CompileError> {
    var r := Find(i.resources, id);
    if r.Err? then Err(r.error) else ImageSurface(r.value, usage, i.maxPitch)
  }

  function TargetFor(i: Input, id: nat, usage: Usage): Result<Surface, CompileError> {
    var r := Find(i.resources, id);
    if r.Err? then Err(r.error) else TargetSurface(r.value, usage, i.maxPitch)
  }

  function DepthFor(i: Input, id: nat, target: Surface): Result<Surface, CompileError> {
    var r := Find(i.resources, id);
    if r.Err? then Err(r.error) else DepthSurface(r.value, target.width, target.height, i.maxPitch)
  }

  lemma SurfacesKnown(i: Input, l: Lowered, id: nat, usage: Usage, target: Surface)
    ensures SurfaceFor(i, id, usage).Ok? ==> SurfaceKnown(ObjectsOf(WorldOf(i), l), SurfaceFor(i, id, usage).value)
    ensures TargetFor(i, id, usage).Ok? ==> SurfaceKnown(ObjectsOf(WorldOf(i), l), TargetFor(i, id, usage).value)
    ensures DepthFor(i, id, target).Ok? ==> SurfaceKnown(ObjectsOf(WorldOf(i), l), DepthFor(i, id, target).value)
  {
    var r := Find(i.resources, id);
    if r.Ok? {
      FoundSize(i.resources, id);
      if ImageSurface(r.value, usage, i.maxPitch).Ok? {
        ImageSurfaceInside(r.value, usage, i.maxPitch);
      }
      if DepthSurface(r.value, target.width, target.height, i.maxPitch).Ok? {
        DepthSurfaceInside(r.value, target.width, target.height, i.maxPitch);
      }
    }
  }

  // ---- transfers ------------------------------------------------------------------------------------------------------------

  function LowerWriteBuffer(i: Input, l: Lowered, destination: nat, offset: nat, data: seq<byte>): Result<Lowered, CompileError> {
    var r := Find(i.resources, destination);
    if r.Err? then Err(r.error)
    else if !IsBuffer(r.value, CopyDst) then Err(InvalidResource)
    else if !RangeInside(r.value.size, offset, |data|) then Err(OutOfBounds)
    else if |data| % 4 != 0 || offset % 4 != 0 then Err(UnsupportedFeature)
    else if Full(l) then Err(Overflow)
    else
      Ok(Append(AddObject(l, GeneratedObject(64, data, READ, Upload)), CopyRow(|l.generated|, 0, destination, offset, |data| / 4)))
  }

  lemma {:induction false} CopyRowInside(o: Objects, id: nat, from: nat, target: nat, to: nat, dwords: nat)
    requires CopyFits(from, to, dwords) && id < |o.generated| && from + 4 * dwords <= o.generated[id]
    requires target in o.external && to + 4 * dwords <= o.external[target]
    ensures AllInside(o, CopyRow(id, from, target, to, dwords))
    decreases dwords
  {
    if dwords > 0 {
      var n := Min(dwords, MAX_COPY_DWORDS);
      CopyRowInside(o, id, from + 4 * n, target, to + 4 * n, dwords - n);
      assert Inside(o, MemCopy(id, from, target, to, n));
      InsideConcat(o, [Run(WAIT_MEM_WRITES, [])], CopyRow(id, from + 4 * n, target, to + 4 * n, dwords - n));
      InsideConcat(o, [MemCopy(id, from, target, to, n)],
                   [Run(WAIT_MEM_WRITES, [])] + CopyRow(id, from + 4 * n, target, to + 4 * n, dwords - n));
    }
  }

  lemma WriteBufferKeeps(i: Input, l: Lowered, destination: nat, offset: nat, data: seq<byte>)
    requires Good(WorldOf(i), l)
    ensures LowerWriteBuffer(i, l, destination, offset, data).Ok? ==>
              && Good(WorldOf(i), LowerWriteBuffer(i, l, destination, offset, data).value)
              && LowerWriteBuffer(i, l, destination, offset, data).value.active == l.active
  {
    if LowerWriteBuffer(i, l, destination, offset, data).Ok? {
      FoundSize(i.resources, destination);
      var m := AddObject(l, GeneratedObject(64, data, READ, Upload));
      CopyRowInside(ObjectsOf(WorldOf(i), m), |l.generated|, 0, destination, offset, |data| / 4);
      UploadKeeps(WorldOf(i), l, data, CopyRow(|l.generated|, 0, destination, offset, |data| / 4));
    }
  }

  function CanvasOf(s: Surface, format: Format): Canvas { Canvas(s.target, s.planeOffset, s.stride, format) }

  /** Why a texture write cannot be lowered, or None. */
  function WriteTextureError(i: Input, destination: nat, area: Rect, stride: nat, data: seq<byte>): Option<CompileError> {
    var s := SurfaceFor(i, destination, CopyDst);
    if s.Err? then Some(s.error)
    else if !RectInside(area, s.value.width, s.value.height) then Some(OutOfBounds)
    else
      var image := Find(i.resources, destination).value.kind.image;
      if !Uploadable(image.format) then Some(UnsupportedFeature)
      else if stride < RowSize(image.format, area.width) then Some(OutOfBounds)
      else if Rows(stride, area.height - 1) + RowSize(image.format, area.width) > |data| then Some(OutOfBounds)
      else if image.storage != Bgra8 then Some(UnsupportedFeature)
      else None
  }

  lemma AreaInside(r: Resource, maxPitch: nat, area: Rect, format: Format)
    requires ImageSurface(r, CopyDst, maxPitch).Ok? && r.kind.image.storage == Bgra8
    requires RectInside(area, ImageSurface(r, CopyDst, maxPitch).value.width, ImageSurface(r, CopyDst, maxPitch).value.height)
    ensures StripFits(CanvasOf(ImageSurface(r, CopyDst, maxPitch).value, format), area, r.size)
  {
    var s := ImageSurface(r, CopyDst, maxPitch).value;
    RowsInside(r, CopyDst, maxPitch, area.x, area.y + area.height - 1, area.width);
    ImageSurfaceInside(r, CopyDst, maxPitch);
    PitchHoldsRow(r, CopyDst, maxPitch);
    RowsMonoIn(4 * area.width, 4 * 0x8000, area.height);
    RowsIsProduct(4 * 0x8000, area.height);
  }

  lemma {:induction false} RowsMonoIn(a: nat, b: nat, n: nat)
    requires a <= b
    ensures Rows(a, n) <= Rows(b, n)
  {
    if n > 0 {
      RowsMonoIn(a, b, n - 1);
    }
  }

  function LowerWriteTexture(i: Input, l: Lowered, destination: nat, area: Rect, stride: nat, data: seq<byte>)
    : Result<Lowered, CompileError>
  {
    var error := WriteTextureError(i, destination, area, stride, data);
    if error.Some? then Err(error.value)
    else if Full(l) then Err(Overflow)
    else
      var r := Find(i.resources, destination).value;
      var surface := ImageSurface(r, CopyDst, i.maxPitch).value;
      AreaInside(r, i.maxPitch, area, r.kind.image.format);
      var pixels := Pixels(Source(r.kind.image.format, area.width, area.height, stride, data), area.height);
      Ok(Append(AddObject(l, GeneratedObject(64, pixels, READ, Upload)),
                CopyRows(|l.generated|, CanvasOf(surface, r.kind.image.format), area, r.size, area.height)))
  }

  lemma {:induction false} CopyRowsInside(o: Objects, id: nat, c: Canvas, area: Rect, size: nat, n: nat)
    requires StripFits(c, area, size) && n <= area.height && c.target in o.external && o.external[c.target] == size
    requires id < |o.generated| && o.generated[id] == Rows(4 * area.width, area.height)
    ensures AllInside(o, CopyRows(id, c, area, size, n))
  {
    if n > 0 {
      CopyRowsInside(o, id, c, area, size, n - 1);
      StripRowFits(c, area, size, n - 1);
      RowsAdd(4 * area.width, n, area.height - n);
      CopyRowInside(o, id, Rows(4 * area.width, n - 1), c.target, PixelAt(c, area.x, area.y + (n - 1)), area.width);
      InsideConcat(o, CopyRows(id, c, area, size, n - 1), RowCopies(id, c, area, size, n - 1));
    }
  }

  lemma WriteTextureKeeps(i: Input, l: Lowered, destination: nat, area: Rect, stride: nat, data: seq<byte>)
    requires Good(WorldOf(i), l)
    ensures LowerWriteTexture(i, l, destination, area, stride, data).Ok? ==>
              && Good(WorldOf(i), LowerWriteTexture(i, l, destination, area, stride, data).value)
              && LowerWriteTexture(i, l, destination, area, stride, data).value.active == l.active
  {
    if LowerWriteTexture(i, l, destination, area, stride, data).Ok? {
      FoundSize(i.resources, destination);
      var r := Find(i.resources, destination).value;
      var c := CanvasOf(ImageSurface(r, CopyDst, i.maxPitch).value, r.kind.image.format);
      AreaInside(r, i.maxPitch, area, r.kind.image.format);
      ImageSurfaceInside(r, CopyDst, i.maxPitch);
      var pixels := Pixels(Source(r.kind.image.format, area.width, area.height, stride, data), area.height);
      var m := AddObject(l, GeneratedObject(64, pixels, READ, Upload));
      var cs := CopyRows(|l.generated|, c, area, r.size, area.height);
      CopyRowsInside(ObjectsOf(WorldOf(i), m), |l.generated|, c, area, r.size, area.height);
      UploadKeeps(WorldOf(i), l, pixels, cs);
    }
  }

  // ---- copies and clears -----------------------------------------------------------------------------------------------------

  function Wait(): seq<Command> { [Run(WAIT_FOR_IDLE, [])] }

  function LowerBlit(l: Lowered, source: Surface, sourceRect: Rect, destination: Surface, destinationRect: Rect, linear: bool,
                     rotation: nat)
    : Result<Lowered, CompileError>
  {
    if source.tileMode != 0 then Err(UnsupportedFeature)
    else Transfer(l, Wait() + BlitBody(source, sourceRect, destination, destinationRect, linear, rotation))
  }

  lemma BlitKeeps(w: World, l: Lowered, source: Surface, sourceRect: Rect, destination: Surface, destinationRect: Rect,
                  linear: bool, rotation: nat)
    requires Good(w, l) && !l.active
    requires SurfaceKnown(ObjectsOf(w, WithSequence(l)), source) && SurfaceKnown(ObjectsOf(w, WithSequence(l)), destination)
    ensures var r := LowerBlit(l, source, sourceRect, destination, destinationRect, linear, rotation);
            r != Err(BatchState) && (r.Ok? ==> Good(w, r.value) && !r.value.active)
  {
    var o, body := ObjectsOf(w, WithSequence(l)), BlitBody(source, sourceRect, destination, destinationRect, linear, rotation);
    BlitInside(o, source, sourceRect, destination, destinationRect, linear, rotation);
    assert AllInside(o, Wait());
    InsideConcat(o, Wait(), body);
    TransferKeeps(w, l, Wait() + body);
  }

  function LowerCopy(i: Input, l: Lowered, source: nat, sourceRect: Rect, destination: nat, destinationRect: Rect)
    : Result<Lowered, CompileError>
  {
    if sourceRect.width != destinationRect.width || sourceRect.height != destinationRect.height || source == destination
    then Err(InvalidResource)
    else
      var s, d := TargetFor(i, source, CopySrc), TargetFor(i, destination, CopyDst);
      if s.Err? then Err(s.error)
      else if d.Err? then Err(d.error)
      else if !RectInside(sourceRect, s.value.width, s.value.height) || !RectInside(destinationRect, d.value.width, d.value.height)
      then Err(OutOfBounds)
      else LowerBlit(l, s.value, sourceRect, d.value, destinationRect, false, 0)
  }

  function LowerScaledBlit(i: Input, l: Lowered, source: nat, sourceRect: Rect, destination: nat, destinationRect: Rect,
                           linear: bool, rotation: nat)
    : Result<Lowered, CompileError>
  {
    if source == destination then Err(InvalidResource)
    else
      var s, d := SurfaceFor(i, source, CopySrc), SurfaceFor(i, destination, CopyDst);
      if s.Err? then Err(s.error)
      else if d.Err? then Err(d.error)
      else if Find(i.resources, source).value.kind.image.format != Find(i.resources, destination).value.kind.image.format
      then Err(InvalidResource)
      else if !RectInside(sourceRect, s.value.width, s.value.height) || !RectInside(destinationRect, d.value.width, d.value.height)
      then Err(OutOfBounds)
      else LowerBlit(l, s.value, sourceRect, d.value, destinationRect, linear, rotation)
  }

  /** The fills of a pass's clears, depth first. */
  function Fills(i: Input, pass: RenderPass, target: Surface, depth: Option<Surface>): seq<Command> {
    var color := if pass.load.Clear? then ColorFill(target, pass.area, i.enc.color(pass.load.color)) else [];
    if depth.Some? && pass.depth.Some? && pass.depth.value.load.DepthClear? then
      var fill := DepthFill(depth.value, pass.area, i.enc.depth(pass.depth.value.load.depth));
      if pass.load.Clear? then fill + color else Wait() + fill
    else if pass.load.Clear? then Wait() + color
    else []
  }

  predicate Clears(pass: RenderPass) { pass.load.Clear? || (pass.depth.Some? && pass.depth.value.load.DepthClear?) }

  function LowerBegin(i: Input, l: Lowered, pass: RenderPass): Result<Lowered, CompileError> {
    var target := TargetFor(i, pass.target, RenderAttachment);
    if target.Err? then Err(target.error)
    else if !RectInside(pass.area, target.value.width, target.value.height) then Err(OutOfBounds)
    else
      var depth := if pass.depth.Some? then DepthFor(i, pass.depth.value.target, target.value) else Ok(target.value);
      if depth.Err? then Err(depth.error)
      else if pass.depth.Some? && pass.depth.value.load.DepthClear? && !i.enc.depthOk(pass.depth.value.load.depth)
      then Err(InvalidResource)
      else if !Clears(pass) then Ok(l)
      else Transfer(l, Fills(i, pass, target.value, if pass.depth.Some? then Some(depth.value) else None))
  }

  lemma FillsInside(i: Input, o: Objects, pass: RenderPass, target: Surface, depth: Option<Surface>)
    requires SurfaceKnown(o, target) && (depth.Some? ==> SurfaceKnown(o, depth.value))
    ensures AllInside(o, Fills(i, pass, target, depth))
  {
    assert AllInside(o, Wait());
    if pass.load.Clear? {
      FillInside(o, target, pass.area, i.enc.color(pass.load.color), 0x30, 0, 0x400);
      InsideConcat(o, Wait(), ColorFill(target, pass.area, i.enc.color(pass.load.color)));
    }
    if depth.Some? && pass.depth.Some? && pass.depth.value.load.DepthClear? {
      var fill := DepthFill(depth.value, pass.area, i.enc.depth(pass.depth.value.load.depth));
      FillInside(o, depth.value, pass.area, i.enc.depth(pass.depth.value.load.depth), 0x4a, 4, 0);
      InsideConcat(o, Wait(), fill);
      if pass.load.Clear? {
        InsideConcat(o, fill, ColorFill(target, pass.area, i.enc.color(pass.load.color)));
      }
    }
  }

  lemma BeginKeeps(i: Input, l: Lowered, pass: RenderPass)
    requires Good(WorldOf(i), l) && !l.active
    ensures LowerBegin(i, l, pass) != Err(BatchState)
    ensures LowerBegin(i, l, pass).Ok? ==> Good(WorldOf(i), LowerBegin(i, l, pass).value) && !LowerBegin(i, l, pass).value.active
  {
    NoBatchErrors(i, pass.target, RenderAttachment);
    var target := TargetFor(i, pass.target, RenderAttachment);
    if target.Ok? {
      SurfacesKnown(i, WithSequence(l), pass.target, RenderAttachment, target.value);
      if pass.depth.Some? {
        NoDepthBatchErrors(i, pass.depth.value.target, target.value);
        SurfacesKnown(i, WithSequence(l), pass.depth.value.target, RenderAttachment, target.value);
      }
      var depth := if pass.depth.Some? then DepthFor(i, pass.depth.value.target, target.value) else Ok(target.value);
      if depth.Ok? {
        var fills := Fills(i, pass, target.value, if pass.depth.Some? then Some(depth.value) else None);
        FillsInside(i, ObjectsOf(WorldOf(i), WithSequence(l)), pass, target.value, if pass.depth.Some? then Some(depth.value) else None);
        TransferKeeps(WorldOf(i), l, fills);
      }
    }
  }

  /** Looking resources up never reports a batch error. */
  lemma NoBatchErrors(i: Input, id: nat, usage: Usage)
    ensures SurfaceFor(i, id, usage) != Err(BatchState) && TargetFor(i, id, usage) != Err(BatchState)
  {
  }

  lemma NoDepthBatchErrors(i: Input, id: nat, target: Surface)
    ensures DepthFor(i, id, target) != Err(BatchState)
  {
  }

  lemma CopyKeeps(i: Input, l: Lowered, source: nat, sourceRect: Rect, destination: nat, destinationRect: Rect)
    requires Good(WorldOf(i), l) && !l.active
    ensures var r := LowerCopy(i, l, source, sourceRect, destination, destinationRect);
            r != Err(BatchState) && (r.Ok? ==> Good(WorldOf(i), r.value) && !r.value.active)
  {
    NoBatchErrors(i, source, CopySrc);
    NoBatchErrors(i, destination, CopyDst);
    var s, d := TargetFor(i, source, CopySrc), TargetFor(i, destination, CopyDst);
    if s.Ok? && d.Ok? {
      SurfacesKnown(i, WithSequence(l), source, CopySrc, s.value);
      SurfacesKnown(i, WithSequence(l), destination, CopyDst, d.value);
      BlitKeeps(WorldOf(i), l, s.value, sourceRect, d.value, destinationRect, false, 0);
    }
  }

  lemma ScaledBlitKeeps(i: Input, l: Lowered, source: nat, sourceRect: Rect, destination: nat, destinationRect: Rect, linear: bool,
                        rotation: nat)
    requires Good(WorldOf(i), l) && !l.active
    ensures var r := LowerScaledBlit(i, l, source, sourceRect, destination, destinationRect, linear, rotation);
            r != Err(BatchState) && (r.Ok? ==> Good(WorldOf(i), r.value) && !r.value.active)
  {
    NoBatchErrors(i, source, CopySrc);
    NoBatchErrors(i, destination, CopyDst);
    var s, d := SurfaceFor(i, source, CopySrc), SurfaceFor(i, destination, CopyDst);
    if s.Ok? && d.Ok? {
      FoundBlitKeeps(i, l, source, s.value, sourceRect, destination, d.value, destinationRect, linear, rotation);
    }
  }

  lemma FoundBlitKeeps(i: Input, l: Lowered, source: nat, s: Surface, sourceRect: Rect, destination: nat, d: Surface,
                       destinationRect: Rect, linear: bool, rotation: nat)
    requires Good(WorldOf(i), l) && !l.active
    requires SurfaceFor(i, source, CopySrc) == Ok(s) && SurfaceFor(i, destination, CopyDst) == Ok(d)
    ensures var r := LowerBlit(l, s, sourceRect, d, destinationRect, linear, rotation);
            r != Err(BatchState) && (r.Ok? ==> Good(WorldOf(i), r.value) && !r.value.active)
  {
    SurfacesKnown(i, WithSequence(l), source, CopySrc, s);
    SurfacesKnown(i, WithSequence(l), destination, CopyDst, d);
    BlitKeeps(WorldOf(i), l, s, sourceRect, d, destinationRect, linear, rotation);
  }

  // ---- draws --------------------------------------------------------------------------------------------------------------------

  function IndexSize(format: IndexFormat): (n: nat)
    ensures n > 0
  {
    if format == 0 then 2 else 4
  }

  /** The call and the vertex bytes it may touch. */
  function CallOf(i: Input, b: Bindings, p: Pipeline, op: Operation): Result<(DrawCall, nat), CompileError>
    requires Operations.IsDraw(op) && b.vertex.Some?
  {
    if op.Draw? then
      if op.firstVertex + op.vertexCount >= 0x1_0000_0000 then Err(Overflow)
      else Ok((NonIndexed(op.firstVertex, op.vertexCount), (op.firstVertex + op.vertexCount) * p.stride))
    else if b.index.None? then Err(InvalidState)
    else if op.baseVertex < 0 then Err(UnsupportedFeature)
    else
      var (buffer, offset, format) := b.index.value;
      var r := Find(i.resources, buffer);
      if r.Err? then Err(r.error)
      else if !IsBuffer(r.value, IndexUse) then Err(InvalidResource)
      else if offset > r.value.size then Err(OutOfBounds)
      else
        var max := Div(r.value.size - offset, IndexSize(format));
        if max >= 0x1_0000_0000 then Err(OutOfBounds)
        else if op.firstIndex + op.indexCount >= 0x1_0000_0000 then Err(Overflow)
        else if op.indexCount == 0 || op.firstIndex + op.indexCount > max then Err(OutOfBounds)
        else
          var v := Find(i.resources, b.vertex.value.0);
          if v.Err? then Err(v.error)
          else if !IsBuffer(v.value, VertexUse) then Err(InvalidResource)
          else if b.vertex.value.1 > v.value.size || op.baseVertex >= 0x8000_0000 then Err(OutOfBounds)
          else if (op.baseVertex + 1) * p.stride > v.value.size - b.vertex.value.1 then Err(OutOfBounds)
          else
            Ok((Indexed(buffer, offset, max * IndexSize(format), format != 0, op.indexCount, op.firstIndex, op.baseVertex, max),
                v.value.size - b.vertex.value.1))
  }

  predicate CallCountOk(op: Operation)
    requires Operations.IsDraw(op)
  {
    var n := if op.Draw? then op.vertexCount else op.indexCount;
    n > 0 && n % 3 == 0
  }

  /** The sampled texture, when the pipeline samples one. */
  function TextureFor(i: Input, b: Bindings, p: Pipeline): Result<Option<Surface>, CompileError> {
    if p.sampled.None? then Ok(None)
    else if b.texture.None? || b.sampler.None? then Err(InvalidState)
    else if !i.enc.samplerOk(b.sampler.value) then Err(UnsupportedFeature)
    else
      var r := Find(i.resources, b.texture.value);
      if r.Err? then Err(r.error)
      else if !r.value.kind.Image? || !p.sampled.value(r.value.kind.image.format) then Err(InvalidResource)
      else
        var s := ImageSurface(r.value, Sampled, i.maxPitch);
        if s.Err? then Err(s.error) else Ok(Some(s.value))
  }

  function DepthStateFor(i: Input, pass: RenderPass, p: Pipeline, target: Surface): Result<Option<DepthState>, CompileError> {
    if p.depth.None? then Ok(None)
    else if pass.depth.None? then Err(InvalidState)
    else
      var s := DepthFor(i, pass.depth.value.target, target);
      if s.Err? then Err(s.error) else Ok(Some(DepthState(s.value, p.depth.value.0, p.depth.value.1)))
  }

  function VariantFor(p: Pipeline, texture: Option<Surface>): Option<nat> {
    if texture.Some? && texture.value.nv12.Some? then p.nv12Variant else p.variant
  }

  /** The complete draw state, or why there is none. */
  function DrawStateFor(i: Input, pass: RenderPass, b: Bindings, op: Operation): Result<DrawState, CompileError>
    requires Operations.IsDraw(op)
  {
    if b.pipeline.None? || b.vertex.None? || b.uniforms.None? then Err(InvalidState)
    else
      var p := FindPipeline(i.pipelines, b.pipeline.value);
      if p.Err? then Err(p.error)
      else
        var call := CallOf(i, b, p.value, op);
        if call.Err? then Err(call.error)
        else if !CallCountOk(op) then Err(UnsupportedFeature)
        else DrawStateWith(i, pass, b, p.value, call.value.0, call.value.1)
  }

  function DrawStateWith(i: Input, pass: RenderPass, b: Bindings, p: Pipeline, call: DrawCall, vertexSize: nat)
    : Result<DrawState, CompileError>
    requires b.vertex.Some? && b.uniforms.Some?
  {
    var target := TargetFor(i, pass.target, RenderAttachment);
    if target.Err? then Err(target.error)
    else
      var texture, v := TextureFor(i, b, p), Find(i.resources, b.vertex.value.0);
      if texture.Err? then Err(texture.error)
      else if v.Err? then Err(v.error)
      else if !IsBuffer(v.value, VertexUse) then Err(InvalidResource)
      else if !RangeInside(v.value.size, b.vertex.value.1, vertexSize) || vertexSize >= 0x1_0000_0000 then Err(OutOfBounds)
      else if b.scissor.Some? && !RectWithin(b.scissor.value, pass.area) then Err(OutOfBounds)
      else
        var depth := DepthStateFor(i, pass, p, target.value);
        if depth.Err? then Err(depth.error)
        else if VariantFor(p, texture.value).None? || |p.attributes| > 4 then Err(UnsupportedFeature)
        else
          Ok(DrawState(
               Fixed(VariantFor(p, texture.value).value, target.value, pass.area,
                     if b.viewport.Some? then b.viewport.value else i.enc.fullViewport(target.value.width, target.value.height),
                     p.stride, p.attributes, p.sourceOver, p.cull, depth.value),
               if b.scissor.Some? then b.scissor.value else pass.area,
               b.vertex.value.0, b.vertex.value.1, vertexSize, i.enc.uniforms(b.uniforms.value, texture.value), texture.value,
               i.enc.sampler(b.sampler, texture.value), call))
  }

  lemma CallIsInside(i: Input, l: Lowered, b: Bindings, p: Pipeline, op: Operation)
    requires Operations.IsDraw(op) && b.vertex.Some?
    ensures CallOf(i, b, p, op) != Err(BatchState)
    ensures CallOf(i, b, p, op).Ok? ==> CallInside(ObjectsOf(WorldOf(i), l), CallOf(i, b, p, op).value.0)
  {
    if CallOf(i, b, p, op).Ok? && op.DrawIndexed? {
      var (buffer, offset, format) := b.index.value;
      FoundSize(i.resources, buffer);
      var max := Div(Find(i.resources, buffer).value.size - offset, IndexSize(format));
      assert max >= 1;
      assert max * IndexSize(format) >= 1;
    }
  }

  lemma PartsKnown(i: Input, l: Lowered, pass: RenderPass, b: Bindings, p: Pipeline, target: Surface)
    ensures TextureFor(i, b, p) != Err(BatchState) && DepthStateFor(i, pass, p, target) != Err(BatchState)
    ensures TextureFor(i, b, p).Ok? && TextureFor(i, b, p).value.Some? ==>
              SurfaceKnown(ObjectsOf(WorldOf(i), l), TextureFor(i, b, p).value.value)
    ensures DepthStateFor(i, pass, p, target).Ok? && DepthStateFor(i, pass, p, target).value.Some? ==>
              SurfaceKnown(ObjectsOf(WorldOf(i), l), DepthStateFor(i, pass, p, target).value.value.target)
  {
    if b.texture.Some? {
      SurfacesKnown(i, l, b.texture.value, Sampled, target);
      NoBatchErrors(i, b.texture.value, Sampled);
    }
    if pass.depth.Some? {
      SurfacesKnown(i, l, pass.depth.value.target, Sampled, target);
      NoDepthBatchErrors(i, pass.depth.value.target, target);
    }
  }

  lemma DrawStateInside(i: Input, l: Lowered, pass: RenderPass, b: Bindings, p: Pipeline, call: DrawCall, vertexSize: nat)
    requires b.vertex.Some? && b.uniforms.Some? && CallInside(ObjectsOf(WorldOf(i), l), call)
    ensures DrawStateWith(i, pass, b, p, call, vertexSize) != Err(BatchState)
    ensures DrawStateWith(i, pass, b, p, call, vertexSize).Ok? ==>
              && ValidDraw(DrawStateWith(i, pass, b, p, call, vertexSize).value)
              && DrawInside(ObjectsOf(WorldOf(i), l), DrawStateWith(i, pass, b, p, call, vertexSize).value)
  {
    NoBatchErrors(i, pass.target, RenderAttachment);
    var target := TargetFor(i, pass.target, RenderAttachment);
    if target.Ok? {
      SurfacesKnown(i, l, pass.target, RenderAttachment, target.value);
      PartsKnown(i, l, pass, b, p, target.value);
      if Find(i.resources, b.vertex.value.0).Ok? {
        FoundSize(i.resources, b.vertex.value.0);
      }
    }
  }

  // ---- one operation ----------------------------------------------------------------------------------------------------------

  /** The pass machine of the compiler, and whether a batch of draws is open. */
  datatype State = State(machine: Machine, started: bool)

  predicate IsBinding(op: Operation) {
    op.SetPipeline? || op.SetVertexBuffer? || op.SetIndexBuffer? || op.SetTexture? || op.SetSampler? || op.SetUniforms?
    || op.SetScissor? || op.SetViewport?
  }

  /** Why a binding is refused, or None. */
  function BindError(i: Input, pass: RenderPass, op: Operation): Option<CompileError>
    requires IsBinding(op)
  {
    match op
    case SetPipeline(id) => if FindPipeline(i.pipelines, id).Err? then Some(InvalidIdentity) else None
    case SetVertexBuffer(id, offset) =>
      var r := Find(i.resources, id);
      if r.Err? then Some(r.error)
      else if !IsBuffer(r.value, VertexUse) then Some(InvalidResource)
      else if offset >= r.value.size then Some(OutOfBounds) else None
    case SetIndexBuffer(id, offset, format) =>
      var r := Find(i.resources, id);
      if r.Err? then Some(r.error)
      else if !IsBuffer(r.value, IndexUse) then Some(InvalidResource)
      else if offset >= r.value.size || offset % IndexSize(format) != 0 then Some(OutOfBounds) else None
    case SetTexture(id) =>
      var s := SurfaceFor(i, id, Sampled);
      if s.Err? then Some(s.error) else None
    case SetViewport(v) =>
      var target := TargetFor(i, pass.target, RenderAttachment);
      if target.Err? then Some(target.error)
      else if !i.enc.viewportFits(v, target.value.width, target.value.height) then Some(OutOfBounds) else None
    case SetScissor(r) => if r.Some? && !RectWithin(r.value, pass.area) then Some(OutOfBounds) else None
    case _ => None
  }

  function LowerTransfer(i: Input, l: Lowered, op: Operation): Result<Lowered, CompileError>
    requires IsTransfer(op)
  {
    match op
    case WriteBuffer(destination, offset, data) => LowerWriteBuffer(i, l, destination, offset, data)
    case WriteTexture(destination, area, stride, data) => LowerWriteTexture(i, l, destination, area, stride, data)
    case CopyTexture(source, sourceRect, destination, destinationRect) =>
      LowerCopy(i, l, source, sourceRect, destination, destinationRect)
    case BlitTexture(source, sourceRect, destination, destinationRect, filter, flipX, flipY) =>
      LowerScaledBlit(i, l, source, sourceRect, destination, destinationRect, filter != 0, Rotation(flipX, flipY))
  }

  /** Opens a batch at the first draw of a pass. */
  function OpenBatch(s: State, l: Lowered): Result<Lowered, CompileError> {
    if !s.started then BeginBatch(l) else if l.active then Ok(l) else Err(BatchState)
  }

  function LowerDraw(i: Input, s: State, l: Lowered, op: Operation): Result<Lowered, CompileError>
    requires Operations.IsDraw(op) && s.machine.pass.Some?
  {
    var batch := OpenBatch(s, l);
    if batch.Err? then Err(batch.error)
    else
      var d := DrawStateFor(i, s.machine.pass.value, s.machine.bound, op);
      if d.Err? then Err(d.error)
      else if !ValidDraw(d.value) then Err(UnsupportedFeature)
      else DrawOn(i.enc.tables, batch.value, d.value)
  }

  /** One operation of the compile loop. */
  function LowerOne(i: Input, s: State, l: Lowered, op: Operation): Result<(State, Lowered), CompileError>
    requires l.active ==> l.sequence.Some?
  {
    if IsTransfer(op) then
      if s.machine.pass.Some? then Err(InvalidState)
      else
        var m := LowerTransfer(i, l, op);
        if m.Err? then Err(m.error) else Ok((s, m.value))
    else if op.BeginRenderPass? then
      if s.machine.pass.Some? then Err(InvalidState)
      else
        var m := LowerBegin(i, l, op.pass);
        if m.Err? then Err(m.error) else Ok((State(Machine(Some(op.pass), UNBOUND), false), m.value))
    else if s.machine.pass.None? then Err(InvalidState)
    else if op.EndRenderPass? then
      if !s.started then Ok((State(IDLE, false), l))
      else
        var m := EndBatch(l);
        if m.Err? then Err(m.error) else Ok((State(IDLE, false), m.value))
    else if Operations.IsDraw(op) then
      var m := LowerDraw(i, s, l, op);
      if m.Err? then Err(m.error) else Ok((State(s.machine, true), m.value))
    else
      assert IsBinding(op);
      var error := BindError(i, s.machine.pass.value, op);
      if error.Some? then Err(error.value)
      else Ok((State(s.machine.(bound := Bind(s.machine.bound, op)), s.started), l))
  }

  /** A batch is open in the emitter exactly when the compiler thinks so, and only inside a pass. */
  predicate InTouch(s: State, l: Lowered) { s.started == l.active && (s.started ==> s.machine.pass.Some?) }

  lemma TransferOpKeeps(i: Input, l: Lowered, op: Operation)
    requires Good(WorldOf(i), l) && !l.active && IsTransfer(op)
    ensures LowerTransfer(i, l, op) != Err(BatchState)
    ensures LowerTransfer(i, l, op).Ok? ==> Good(WorldOf(i), LowerTransfer(i, l, op).value) && !LowerTransfer(i, l, op).value.active
  {
    match op
    case WriteBuffer(destination, offset, data) => WriteBufferKeeps(i, l, destination, offset, data);
    case WriteTexture(destination, area, stride, data) =>
      NoBatchErrors(i, destination, CopyDst);
      WriteTextureKeeps(i, l, destination, area, stride, data);
    case CopyTexture(source, sourceRect, destination, destinationRect) =>
      CopyKeeps(i, l, source, sourceRect, destination, destinationRect);
    case BlitTexture(source, sourceRect, destination, destinationRect, filter, flipX, flipY) =>
      ScaledBlitKeeps(i, l, source, sourceRect, destination, destinationRect, filter != 0, Rotation(flipX, flipY));
  }

  lemma DrawStateForInside(i: Input, l: Lowered, pass: RenderPass, b: Bindings, op: Operation)
    requires Operations.IsDraw(op)
    ensures DrawStateFor(i, pass, b, op) != Err(BatchState)
    ensures DrawStateFor(i, pass, b, op).Ok? ==>
              && ValidDraw(DrawStateFor(i, pass, b, op).value)
              && DrawInside(ObjectsOf(WorldOf(i), l), DrawStateFor(i, pass, b, op).value)
  {
    if b.pipeline.Some? && b.vertex.Some? && b.uniforms.Some? && FindPipeline(i.pipelines, b.pipeline.value).Ok? {
      var p := FindPipeline(i.pipelines, b.pipeline.value).value;
      CallIsInside(i, l, b, p, op);
      var call := CallOf(i, b, p, op);
      if call.Ok? {
        DrawStateInside(i, l, pass, b, p, call.value.0, call.value.1);
      }
    }
  }

  lemma OpenBatchKeeps(w: World, s: State, l: Lowered)
    requires Good(w, l) && InTouch(s, l)
    ensures OpenBatch(s, l) != Err(BatchState)
    ensures OpenBatch(s, l).Ok? ==> Good(w, OpenBatch(s, l).value) && OpenBatch(s, l).value.active
  {
    BeginBatchKeeps(w, l);
  }

  lemma DrawOpKeeps(i: Input, s: State, l: Lowered, op: Operation)
    requires Good(WorldOf(i), l) && InTouch(s, l) && Operations.IsDraw(op) && s.machine.pass.Some?
    ensures LowerDraw(i, s, l, op) != Err(BatchState)
    ensures LowerDraw(i, s, l, op).Ok? ==> Good(WorldOf(i), LowerDraw(i, s, l, op).value) && LowerDraw(i, s, l, op).value.active
  {
    OpenBatchKeeps(WorldOf(i), s, l);
    var batch := OpenBatch(s, l);
    if batch.Ok? {
      DrawStateForInside(i, batch.value, s.machine.pass.value, s.machine.bound, op);
      var d := DrawStateFor(i, s.machine.pass.value, s.machine.bound, op);
      if d.Ok? {
        DrawKeeps(WorldOf(i), i.enc.tables, batch.value, d.value);
      }
    }
  }

  lemma BindNeverRefusesBatch(i: Input, pass: RenderPass, op: Operation)
    requires IsBinding(op)
    ensures BindError(i, pass, op) != Some(BatchState)
  {
    if op.SetTexture? {
      NoBatchErrors(i, op.texture, Sampled);
    }
    NoBatchErrors(i, pass.target, RenderAttachment);
  }

  /** Every accepted operation keeps all addresses inside their objects and the compiler in touch with the
      emitter, whose own batch checks therefore never refuse. */
  lemma LowerOneKeeps(i: Input, s: State, l: Lowered, op: Operation)
    requires Good(WorldOf(i), l) && InTouch(s, l)
    ensures LowerOne(i, s, l, op) != Err(BatchState)
    ensures LowerOne(i, s, l, op).Ok? ==>
              Good(WorldOf(i), LowerOne(i, s, l, op).value.1) && InTouch(LowerOne(i, s, l, op).value.0, LowerOne(i, s, l, op).value.1)
  {
    if IsTransfer(op) {
      if s.machine.pass.None? {
        TransferOpKeeps(i, l, op);
      }
    } else if op.BeginRenderPass? {
      if s.machine.pass.None? {
        BeginKeeps(i, l, op.pass);
      }
    } else if s.machine.pass.Some? {
      if op.EndRenderPass? {
        EndBatchKeeps(WorldOf(i), l);
      } else if Operations.IsDraw(op) {
        DrawOpKeeps(i, s, l, op);
      } else {
        BindNeverRefusesBatch(i, s.machine.pass.value, op);
      }
    }
  }

  // ---- the reference semantics ----------------------------------------------------------------------------------------------

  /** The bytes per pixel of every image that can be uploaded to. */
  function FormatsOf(rs: seq<Resource>): Formats {
    if rs == [] then map[]
    else
      var rest := FormatsOf(rs[1..]);
      if rs[0].kind.Image? && Uploadable(rs[0].kind.image.format)
      then rest[rs[0].id := if rs[0].kind.image.format == R8 then 1 else 4] else rest
  }

  lemma {:induction false} FoundFormat(rs: seq<Resource>, id: nat)
    requires Find(rs, id).Ok? && Find(rs, id).value.kind.Image? && Uploadable(Find(rs, id).value.kind.image.format)
    ensures id in FormatsOf(rs) && FormatsOf(rs)[id] == if Find(rs, id).value.kind.image.format == R8 then 1 else 4
  {
    if rs[0].id != id {
      FoundFormat(rs[1..], id);
    }
  }

  /** Whatever the compiler accepts, the reference machine runs, to the same machine state. */
  lemma AcceptedRuns(i: Input, s: State, l: Lowered, op: Operation)
    requires (l.active ==> l.sequence.Some?) && LowerOne(i, s, l, op).Ok?
    ensures Step(FormatsOf(i.resources), s.machine, op).Ran?
    ensures Step(FormatsOf(i.resources), s.machine, op).state == LowerOne(i, s, l, op).value.0.machine
  {
    if op.WriteTexture? {
      FoundFormat(i.resources, op.destination);
      RowSizeProduct(Find(i.resources, op.destination).value.kind.image.format, op.area.width);
    }
  }

  lemma RowSizeProduct(f: Format, width: nat)
    ensures RowSize(f, width) == width * if f == R8 then 1 else 4
  {
  }
}
