/** What the engines are asked to do, read off the operands of their packets and the registers these see, and compared
    with the draw, clear, copy or blit the stream means.  Nothing here refers to how the commands are made. */
module EngineReads {
  import opened Wrappers
  import Arith
  import opened WireFormat
  import opened Accesses
  import opened Stream
  import opened Commands
  import opened Draws
  import opened Images
  import opened Transfers
  import opened Lowering
  import opened Compile
  import opened CompileStream
  import opened CompiledActs
  import opened Acts
  import D = Descriptors
  import R = RegisterReads
  import O = Operations
  import W = SubmitWire

  // ---- registers ----------------------------------------------------------------------------------------------------------

  /** The act sees this value, and no other. */
  ghost predicate Has(a: Act, k: Key, v: Value) {
    forall w :: (k, w) in a.state <==> w == v
  }

  ghost predicate Reads(a: Act, n: int, word: int) {
    0 <= word < 0x1_0000_0000 && Has(a, Register(n), Slot(Word(word)))
  }

  ghost predicate PointsAt(a: Act, n: int, ref: Address) {
    Has(a, Register(n), Slot(Low(ref))) && Has(a, Register(n + 1), Slot(High(ref)))
  }

  /** Two coordinates in the halves of a register. */
  ghost predicate ReadsPair(a: Act, n: int, x: int, y: int) {
    0 <= x < 0x1_0000 && 0 <= y < 0x1_0000 && Reads(a, n, y * 0x1_0000 + x)
  }

  /** The first and the last pixel of a rectangle. */
  ghost predicate ReadsRect(a: Act, n: int, r: O.Rect) {
    && ReadsPair(a, n, r.x, r.y)
    && (r.width > 0 && r.height > 0 ==> ReadsPair(a, n + 1, r.x + r.width - 1, r.y + r.height - 1))
    && (r.width == 0 || r.height == 0 ==> Reads(a, n + 1, 0))
  }

  /** The first plane of an image of the table. */
  function ImageOf(i: Input, id: nat): Option<ImageMeta> {
    var r := Find(i.resources, id);
    if r.Ok? && r.value.kind.Image? && r.value.kind.image.planes != [] then Some(r.value.kind.image) else None
  }

  ghost predicate ReadsImage(i: Input, a: Act, n: int, id: nat, access: Access) {
    && ImageOf(i, id).Some?
    && var plane := ImageOf(i, id).value.planes[0];
       PointsAt(a, n, Address(External(id), plane.offset, plane.size, access, W.GpuVa64))
  }

  ghost predicate ReadsPitch(i: Input, a: Act, n: int, id: nat) {
    ImageOf(i, id).Some? && Reads(a, n, ImageOf(i, id).value.planes[0].stride / 64)
  }

  /** How an image is tiled, in the field of a format register. */
  function TilingOf(i: Input, id: nat): nat { if ImageOf(i, id).Some? && ImageOf(i, id).value.modifier == Linear then 0 else 3 }

  ghost predicate ReadsFormat(i: Input, a: Act, n: int, id: nat, format: nat) {
    exists w :: Reads(a, n, w) && w % 0x100 == format && w / 0x100 % 4 == TilingOf(i, id)
  }

  // ---- fills and blits ------------------------------------------------------------------------------------------------------

  /** The two-dimensional engine runs: filling or not, turned or not. */
  ghost predicate Runs2D(a: Act, solid: bool, rotation: nat) {
    && a.opcode == 0x2c && a.fields == [Val(3)]
    && exists w :: Reads(a, 0x8c00, w) && Reads(a, 0x8400, w) && (w / 0x80 % 2 == 1 <==> solid) && w % 8 == rotation
  }

  /** The area of the image is filled with the words, in the format. */
  ghost predicate AsksFill(i: Input, a: Act, target: nat, area: O.Rect, words: Short, format: nat) {
    && Runs2D(a, true, 0) && ReadsRect(a, 0x8405, area) && ReadsImage(i, a, 0x8c18, target, WRITE) && ReadsPitch(i, a, 0x8c1a, target)
    && (forall j | 0 <= j < |words| :: Reads(a, 0x8c2c + j, words[j]))
    && ReadsFormat(i, a, 0x8c17, target, format)
  }

  /** One rectangle of an image is copied, perhaps scaled and turned, into one of another. */
  ghost predicate AsksBlit(i: Input, a: Act, source: nat, from: O.Rect, destination: nat, to: O.Rect, linear: bool, rotation: nat) {
    && Runs2D(a, false, rotation)
    && Reads(a, 0x8401, 0x100 * from.x) && Reads(a, 0x8402, 0x100 * (from.x + from.width - 1))
    && Reads(a, 0x8403, 0x100 * from.y) && Reads(a, 0x8404, 0x100 * (from.y + from.height - 1))
    && ReadsImage(i, a, 0xb4c2, source, READ)
    && ReadsRect(a, 0x8405, to) && ReadsImage(i, a, 0x8c18, destination, WRITE) && ReadsPitch(i, a, 0x8c1a, destination)
    && exists w :: Reads(a, 0xb4c0, w) && (w / 0x1_0000 % 2 == 1 <==> linear)
  }

  /** Mirroring both ways is a half turn; the engine has codes of its own for one way. */
  function Turn(flipX: bool, flipY: bool): nat {
    match (flipX, flipY) case (false, false) => 0 case (true, true) => 2 case (true, false) => 4 case (false, true) => 5
  }

  ghost predicate AsksTransfer(i: Input, a: Act, op: O.Operation) {
    match op
    case CopyTexture(source, from, destination, to) => AsksBlit(i, a, source, from, destination, to, false, 0)
    case BlitTexture(source, from, destination, to, filter, flipX, flipY) =>
      AsksBlit(i, a, source, from, destination, to, filter != 0, Turn(flipX, flipY))
    case _ => false
  }

  // ---- from what commands set to what an act sees ------------------------------------------------------------------------------

  lemma Sees(a: Act, own: seq<Command>, call: Command, k: Key, v: Value)
    requires Shows(a, own, call) && Final(own, k) == Some(v)
    ensures Has(a, k, v)
  {
  }

  lemma SeesAddress(a: Act, own: seq<Command>, call: Command, n: int, ref: Address)
    requires Shows(a, own, call) && R.AddressAt(own, n, ref)
    ensures PointsAt(a, n, ref)
  {
    Sees(a, own, call, Register(n), Slot(Low(ref)));
    Sees(a, own, call, Register(n + 1), Slot(High(ref)));
  }

  /** Rectangles of accepted operations are small. */
  predicate Small(r: O.Rect) { r.x + r.width <= 0x8000 && r.y + r.height <= 0x8000 }

  lemma PairIs(x: nat, y: nat)
    requires x <= 0x8000 && y <= 0x8000
    ensures PackXY(x, y) == y * 0x1_0000 + x
  {
  }

  lemma SeesRect(a: Act, own: seq<Command>, call: Command, n: int, area: O.Rect)
    requires Shows(a, own, call) && R.RectAt(own, n, area) && Small(area)
    ensures ReadsRect(a, n, area)
  {
    PairIs(area.x, area.y);
    Sees(a, own, call, Register(n), R.Word32(PackXY(area.x, area.y)));
    Sees(a, own, call, Register(n + 1), R.Word32(Corner(area)));
    if area.width > 0 && area.height > 0 {
      PairIs(area.x + area.width - 1, area.y + area.height - 1);
    }
  }

  /** A surface is its image's first plane. */
  predicate SurfaceIs(i: Input, id: nat, s: Surface) {
    && s.target == id && ImageOf(i, id).Some?
    && var image := ImageOf(i, id).value;
       s.planeOffset == image.planes[0].offset && s.planeSize == image.planes[0].size && s.stride == image.planes[0].stride
       && s.width == image.width && s.height == image.height && s.tileMode == TilingOf(i, id)
  }

  lemma SurfacesAre(i: Input, id: nat, usage: Usage, target: Surface)
    ensures SurfaceFor(i, id, usage).Ok? ==> SurfaceIs(i, id, SurfaceFor(i, id, usage).value)
    ensures TargetFor(i, id, usage).Ok? ==> SurfaceIs(i, id, TargetFor(i, id, usage).value)
    ensures DepthFor(i, id, target).Ok? ==> SurfaceIs(i, id, DepthFor(i, id, target).value)
    ensures DepthImage(i, id).Ok? ==> SurfaceIs(i, id, DepthImage(i, id).value)
  {
  }

  lemma FillAsks(i: Input, a: Act, own: seq<Command>, id: nat, s: Surface, area: O.Rect, words: Short, format: nat, input: nat, swap: nat)
    requires Shows(a, own, BlitCall()) && R.FillTold(own, s, area, words, format, input, swap) && SurfaceIs(i, id, s) && Small(area)
    requires format < 0x100 && input < 8 && (swap == 0 || swap == 0x400)
    ensures AsksFill(i, a, id, area, words, format)
  {
    SeesRect(a, own, BlitCall(), 0x8405, area);
    SeesAddress(a, own, BlitCall(), 0x8c18, Address(External(s.target), s.planeOffset, s.planeSize, WRITE, W.GpuVa64));
    Sees(a, own, BlitCall(), Register(0x8c1a), R.Word32(s.stride / 64));
    forall j | 0 <= j < |words|
      ensures Reads(a, 0x8c2c + j, words[j])
    {
      Sees(a, own, BlitCall(), Register(0x8c2c + j), R.Word32(words[j]));
    }
    FillControl(format, input);
    SeesControl(a, own, R.Control2D(format, input, true), true, 0);
    SeesFormat(i, a, own, id, s, format, swap);
  }

  lemma FillControl(format: nat, input: nat)
    requires format < 0x100 && input < 8
    ensures var w := R.Control2D(format, input, true); w / 0x80 % 2 == 1 && w % 8 == 0
  {
  }

  lemma SeesControl(a: Act, own: seq<Command>, w: u32, solid: bool, rotation: nat)
    requires Shows(a, own, BlitCall()) && (w / 0x80 % 2 == 1 <==> solid) && w % 8 == rotation
    requires Final(own, Register(0x8c00)) == Some(R.Word32(w)) && Final(own, Register(0x8400)) == Some(R.Word32(w))
    ensures Runs2D(a, solid, rotation)
  {
    Sees(a, own, BlitCall(), Register(0x8c00), R.Word32(w));
    Sees(a, own, BlitCall(), Register(0x8400), R.Word32(w));
    assert Reads(a, 0x8c00, w) && Reads(a, 0x8400, w);
  }

  lemma SeesFormat(i: Input, a: Act, own: seq<Command>, id: nat, s: Surface, format: nat, swap: nat)
    requires Shows(a, own, BlitCall()) && SurfaceIs(i, id, s) && format < 0x100 && (swap == 0 || swap == 0x400)
    requires Final(own, Register(0x8c17)) == Some(R.Word32(U32(format + s.tileMode * 0x100 + if s.tileMode == 0 then swap else 0)))
    ensures ReadsFormat(i, a, 0x8c17, id, format)
  {
    var kind := U32(format + s.tileMode * 0x100 + if s.tileMode == 0 then swap else 0);
    Sees(a, own, BlitCall(), Register(0x8c17), R.Word32(kind));
    assert Reads(a, 0x8c17, kind) && kind % 0x100 == format && kind / 0x100 % 4 == s.tileMode;
  }

  lemma BlitAsks(i: Input, a: Act, own: seq<Command>, source: nat, s: Surface, from: O.Rect, destination: nat, d: Surface, to: O.Rect,
                 linear: bool, rotation: nat)
    requires Shows(a, own, BlitCall()) && R.BlitTold(own, s, from, d, to, linear, rotation)
    requires SurfaceIs(i, source, s) && SurfaceIs(i, destination, d) && Small(from) && Small(to) && rotation < 8
    requires from.width > 0 && from.height > 0
    ensures AsksBlit(i, a, source, from, destination, to, linear, rotation)
  {
    SeesRect(a, own, BlitCall(), 0x8405, to);
    SeesAddress(a, own, BlitCall(), 0xb4c2, Address(External(s.target), s.planeOffset, s.planeSize, READ, W.GpuVa64));
    SeesAddress(a, own, BlitCall(), 0x8c18, Address(External(d.target), d.planeOffset, d.planeSize, WRITE, W.GpuVa64));
    Sees(a, own, BlitCall(), Register(0x8c1a), R.Word32(d.stride / 64));
    SeesSource(a, own, BlitCall(), from);
    BlitControl(rotation);
    SeesControl(a, own, U32(0xf1_3000 + rotation), false, rotation);
    SeesFilter(a, own, linear);
  }

  lemma BlitControl(rotation: nat)
    requires rotation < 8
    ensures var w := U32(0xf1_3000 + rotation); w / 0x80 % 2 == 0 && w % 8 == rotation
  {
  }

  lemma SeesFilter(a: Act, own: seq<Command>, linear: bool)
    requires Shows(a, own, BlitCall()) && Final(own, Register(0xb4c0)) == Some(R.Word32(U32(0x50_0430 + if linear then 0x1_0000 else 0)))
    ensures exists w :: Reads(a, 0xb4c0, w) && (w / 0x1_0000 % 2 == 1 <==> linear)
  {
    var kind := U32(0x50_0430 + if linear then 0x1_0000 else 0);
    Sees(a, own, BlitCall(), Register(0xb4c0), R.Word32(kind));
    assert Reads(a, 0xb4c0, kind);
  }

  lemma SeesSource(a: Act, own: seq<Command>, call: Command, from: O.Rect)
    requires Shows(a, own, call) && Small(from) && from.width > 0 && from.height > 0
    requires Final(own, Register(0x8401)) == Some(R.Word32(U32(from.x * 0x100)))
    requires Final(own, Register(0x8402)) == Some(R.Word32(U32(LastOf(from.x, from.width) * 0x100)))
    requires Final(own, Register(0x8403)) == Some(R.Word32(U32(from.y * 0x100)))
    requires Final(own, Register(0x8404)) == Some(R.Word32(U32(LastOf(from.y, from.height) * 0x100)))
    ensures Reads(a, 0x8401, 0x100 * from.x) && Reads(a, 0x8402, 0x100 * (from.x + from.width - 1))
    ensures Reads(a, 0x8403, 0x100 * from.y) && Reads(a, 0x8404, 0x100 * (from.y + from.height - 1))
  {
    Sees(a, own, call, Register(0x8401), R.Word32(U32(from.x * 0x100)));
    Sees(a, own, call, Register(0x8402), R.Word32(U32(LastOf(from.x, from.width) * 0x100)));
    Sees(a, own, call, Register(0x8403), R.Word32(U32(from.y * 0x100)));
    Sees(a, own, call, Register(0x8404), R.Word32(U32(LastOf(from.y, from.height) * 0x100)));
  }

  // ---- draws ------------------------------------------------------------------------------------------------------------------

  /** The first operand of a draw: triangles, with indices made up or fetched, of two or four bytes. */
  predicate Initiates(f: Field, fetched: bool, wide: bool) {
    && f.Val? && f.value % 64 == 4 && f.value / 64 % 4 == (if fetched then 0 else 2)
    && (fetched ==> f.value / 1024 % 4 == if wide then 2 else 1)
  }

  predicate IsWord(f: Field, value: int) { f.Val? && f.value == value }

  /** The operands ask for the event's own indices or vertices, once. */
  predicate AsksCall(i: Input, fields: seq<Field>, e: O.Event)
    requires e.Drawn?
  {
    match e.call
    case Draw(count, _) => |fields| == 3 && Initiates(fields[0], false, false) && IsWord(fields[1], 1) && IsWord(fields[2], count)
    case DrawIndexed(count, first, _) =>
      && |fields| == 6 && e.bound.index.Some? && Find(i.resources, e.bound.index.value.0).Ok?
      && var (buffer, offset, format) := e.bound.index.value;
         var bytes := if format == 0 then 2 else 4;
         && Initiates(fields[0], true, format != 0) && IsWord(fields[1], 1) && IsWord(fields[2], count) && IsWord(fields[3], first)
         && fields[5].Val? && offset < 0x1_0000_0000_0000_0000 && fields[5].value * bytes < 0x1_0000_0000_0000_0000
         && fields[4] == Ref(Address(External(buffer), offset, fields[5].value * bytes, READ, W.GpuVa64))
         && var left := Find(i.resources, buffer).value.size - offset;
            fields[5].value * bytes <= left < (fields[5].value + 1) * bytes
    case _ => false
  }

  function PipelineOf(i: Input, e: O.Event): Option<Pipeline>
    requires e.Drawn?
  {
    if e.bound.pipeline.None? then None
    else
      var p := FindPipeline(i.pipelines, e.bound.pipeline.value);
      if p.Ok? then Some(p.value) else None
  }

  /** Vertices come from the bound buffer at its offset, counted from the first or the base vertex of the call, and as
      many bytes as the call can touch. */
  ghost predicate AsksVertices(i: Input, a: Act, e: O.Event)
    requires e.Drawn?
  {
    && e.bound.vertex.Some? && PipelineOf(i, e).Some? && Find(i.resources, e.bound.vertex.value.0).Ok?
    && var stride, (buffer, offset) := PipelineOf(i, e).value.stride, e.bound.vertex.value;
       Reads(a, 0xa013, stride) &&
       match e.call
       case Draw(count, first) => Reads(a, 0xa00e, first) && AsksBytes(a, buffer, offset, (first + count) * stride)
       case DrawIndexed(_, _, base) =>
         Reads(a, 0xa00e, base) && AsksBytes(a, buffer, offset, Find(i.resources, buffer).value.size - offset)
       case _ => false
  }

  ghost predicate AsksBytes(a: Act, buffer: nat, offset: int, size: int) {
    && 0 <= offset < 0x1_0000_0000_0000_0000 && 0 <= size && Reads(a, 0xa012, size)
    && PointsAt(a, 0xa010, Address(External(buffer), offset, size, READ, W.GpuVa64))
  }

  /** The draw goes to the event's colour image, within its area, through its scissor and viewport. */
  ghost predicate AsksTarget(i: Input, a: Act, e: O.Event)
    requires e.Drawn?
  {
    && ReadsImage(i, a, 0x8825, e.target, WRITE) && ReadsPitch(i, a, 0x8823, e.target) && ReadsFormat(i, a, 0x8822, e.target, 0x30)
    && ReadsRect(a, 0x80b0, e.area) && ReadsRect(a, 0x80f0, if e.bound.scissor.Some? then e.bound.scissor.value else e.area)
    && var viewport := if e.bound.viewport.Some? then e.bound.viewport.value
                       else i.enc.fullViewport(ImageOf(i, e.target).value.width, ImageOf(i, e.target).value.height);
       forall j | 0 <= j < 6 :: Reads(a, 0x8010 + j, i.enc.tables.transform(viewport)[j])
  }

  /** Depth is tested in the event's depth image as the pipeline says, or not at all. */
  ghost predicate AsksDepth(i: Input, a: Act, e: O.Event)
    requires e.Drawn?
  {
    && PipelineOf(i, e).Some?
    && match PipelineOf(i, e).value.depth
       case None => Reads(a, 0x8871, 0)
       case Some((compare, writes)) =>
         && e.depthTarget.Some? && ReadsImage(i, a, 0x8875, e.depthTarget.value, 3) && ReadsPitch(i, a, 0x8873, e.depthTarget.value)
         && exists w :: Reads(a, 0x8871, w) && w % 2 == 1 && (w / 2 % 2 == 1 <==> writes) && (compare < 8 ==> w / 4 % 8 == compare)
  }

  /** Colours are blended and faces culled as the pipeline says. */
  ghost predicate AsksBlend(i: Input, a: Act, e: O.Event)
    requires e.Drawn?
  {
    && PipelineOf(i, e).Some?
    && var p := PipelineOf(i, e).value;
       && (exists w :: Reads(a, 0x8820, w) && (w % 2 == 1 <==> p.sourceOver))
       && (exists w :: Reads(a, 0x8865, w) && (w % 2 == 1 <==> p.sourceOver))
       && (p.cull < 4 ==> exists w :: Reads(a, 0x8090, w) && w % 4 == p.cull)
  }

  /** A draw that samples does so through a cached state of the bound texture and sampler; one that does not, has none. */
  ghost predicate AsksTexture(i: Input, states: seq<TextureState>, a: Act, e: O.Event, texture: Option<Surface>)
    requires e.Drawn?
  {
    && PipelineOf(i, e).Some? && (PipelineOf(i, e).value.sampled.Some? <==> texture.Some?)
    && (texture.Some? ==>
          && e.bound.texture.Some? && SurfaceIs(i, e.bound.texture.value, texture.value)
          && exists k | 0 <= k < |states| ::
               && states[k].texture == texture.value && states[k].sampler == i.enc.sampler(e.bound.sampler, texture)
               && PointsAt(a, 0xa9e0, Address(Generated(states[k].id), 64, 16, READ, W.GpuVa64))
               && PointsAt(a, 0xa9e4, Address(Generated(states[k].id), 0, 64, READ, W.GpuVa64)))
  }

  /** Both stages find the event's uniforms. */
  ghost predicate AsksUniforms(i: Input, a: Act, e: O.Event, texture: Option<Surface>)
    requires e.Drawn?
  {
    && e.bound.uniforms.Some?
    && var words := i.enc.uniforms(e.bound.uniforms.value, texture);
       && (forall j | 0 <= j < 20 :: Has(a, Loaded(CP_LOAD_STATE6_GEOM, 8, 1, j), Slot(Word(words[j]))))
       && (forall j | 0 <= j < 20 :: Has(a, Loaded(CP_LOAD_STATE6_FRAG, 12, 1, j), Slot(Word(words[j]))))
  }

  ghost predicate AsksDraw(i: Input, states: seq<TextureState>, a: Act, e: O.Event) {
    && e.Drawn? && a.opcode == 0x38 && AsksCall(i, a.fields, e) && AsksVertices(i, a, e) && AsksTarget(i, a, e) && AsksDepth(i, a, e)
    && AsksBlend(i, a, e)
    && exists texture :: AsksTexture(i, states, a, e, texture) && AsksUniforms(i, a, e, texture)
  }

  // ---- the draw state of an event -------------------------------------------------------------------------------------------

  /** What the bindings and attachments of a draw event make of it. */
  ghost predicate StateIs(i: Input, e: O.Event, p: Pipeline, d: DrawState)
    requires e.Drawn? && O.IsDraw(e.call)
  {
    && PipelineOf(i, e) == Some(p) && e.bound.vertex.Some? && e.bound.uniforms.Some?
    && SurfaceIs(i, e.target, d.fixed.target) && d.fixed.area == e.area && d.fixed.stride == p.stride
    && d.fixed.sourceOver == p.sourceOver && d.fixed.cull == p.cull
    && d.fixed.viewport == (if e.bound.viewport.Some? then e.bound.viewport.value
                            else i.enc.fullViewport(ImageOf(i, e.target).value.width, ImageOf(i, e.target).value.height))
    && d.scissor == (if e.bound.scissor.Some? then e.bound.scissor.value else e.area) && RectWithin(d.scissor, e.area)
    && d.vertex == e.bound.vertex.value.0 && d.vertexOffset == e.bound.vertex.value.1
    && CallOf(i, e.bound, p, e.call) == Ok((d.call, d.vertexSize)) && Find(i.resources, d.vertex).Ok?
    && TextureFor(i, e.bound, p) == Ok(d.texture) && d.uniforms == i.enc.uniforms(e.bound.uniforms.value, d.texture)
    && d.sampler == i.enc.sampler(e.bound.sampler, d.texture)
    && DepthStateFor(i, PassOf(e), p, d.fixed.target) == Ok(d.fixed.depth)
  }

  lemma EventStateIs(i: Input, e: O.Event, d: DrawState) returns (p: Pipeline)
    requires e.Drawn? && O.IsDraw(e.call) && EventDraw(i, e) == Some(d)
    ensures StateIs(i, e, p, d)
  {
    p := FindPipeline(i.pipelines, e.bound.pipeline.value).value;
    SurfacesAre(i, e.target, RenderAttachment, d.fixed.target);
  }

  // ---- a draw asks for its event --------------------------------------------------------------------------------------------

  lemma CallAsks(i: Input, e: O.Event, p: Pipeline, call: DrawCall, size: nat)
    requires e.Drawn? && O.IsDraw(e.call) && e.bound.vertex.Some? && CallOf(i, e.bound, p, e.call) == Ok((call, size))
    ensures AsksCall(i, CallFields(call), e)
  {
    if e.call.DrawIndexed? {
      IndexedAsks(i, e, p, call, size);
    }
  }

  lemma IndexedAsks(i: Input, e: O.Event, p: Pipeline, call: DrawCall, size: nat)
    requires e.Drawn? && e.call.DrawIndexed? && e.bound.vertex.Some? && CallOf(i, e.bound, p, e.call) == Ok((call, size))
    ensures AsksCall(i, CallFields(call), e)
  {
    var (buffer, offset, format) := e.bound.index.value;
    var left, max := Find(i.resources, buffer).value.size - offset, call.maxIndices;
    WholeIndices(left, IndexSize(format), max);
    assert CallFields(call)[4] == Ref(Address(External(buffer), offset, max * IndexSize(format), READ, W.GpuVa64));
  }

  lemma WholeIndices(left: nat, bytes: nat, max: nat)
    requires bytes > 0 && max == Arith.Div(left, bytes)
    ensures max * bytes <= left < (max + 1) * bytes
  {
    assert (max + 1) * bytes == max * bytes + bytes;
  }

  lemma SizeInRegister(i: Input, e: O.Event, p: Pipeline, d: DrawState)
    requires e.Drawn? && O.IsDraw(e.call) && StateIs(i, e, p, d)
    ensures e.call.Draw? ==> d.vertexSize == (e.call.firstVertex + e.call.vertexCount) * p.stride && FirstVertex(d.call) == e.call.firstVertex
    ensures e.call.DrawIndexed? ==>
              d.vertexSize == Find(i.resources, d.vertex).value.size - d.vertexOffset && FirstVertex(d.call) == e.call.baseVertex
  {
  }

  lemma VerticesAsk(i: Input, a: Act, own: seq<Command>, call: Command, e: O.Event, p: Pipeline, d: DrawState)
    requires e.Drawn? && O.IsDraw(e.call) && StateIs(i, e, p, d) && Shows(a, own, call) && R.OwnTold(own, d)
    ensures AsksVertices(i, a, e)
  {
    SizeInRegister(i, e, p, d);
    Sees(a, own, call, Register(0xa00e), R.Word32(FirstVertex(d.call)));
    Sees(a, own, call, Register(0xa012), R.Word32(d.vertexSize));
    Sees(a, own, call, Register(0xa013), R.Word32(d.fixed.stride));
    SeesAddress(a, own, call, 0xa010, Address(External(d.vertex), d.vertexOffset, d.vertexSize, READ, W.GpuVa64));
    assert AsksBytes(a, d.vertex, d.vertexOffset, d.vertexSize);
  }

  lemma TargetAsks(i: Input, a: Act, own: seq<Command>, call: Command, e: O.Event, f: Fixed, scissor: O.Rect)
    requires e.Drawn? && SurfaceIs(i, e.target, f.target) && f.area == e.area && Small(e.area) && RectWithin(scissor, e.area)
    requires f.viewport == (if e.bound.viewport.Some? then e.bound.viewport.value
                            else i.enc.fullViewport(ImageOf(i, e.target).value.width, ImageOf(i, e.target).value.height))
    requires scissor == (if e.bound.scissor.Some? then e.bound.scissor.value else e.area)
    requires Shows(a, own, call) && R.RectAt(own, 0x80f0, scissor) && R.PassTold(i.enc.tables, own, f)
    ensures AsksTarget(i, a, e)
  {
    SeesTargetImage(i, a, own, call, e.target, f.target);
    SeesTargetFormat(i, a, own, call, e.target, f.target);
    SeesRect(a, own, call, 0x80b0, e.area);
    SeesRect(a, own, call, 0x80f0, scissor);
    SeesViewport(a, own, call, i.enc.tables.transform(f.viewport));
  }

  lemma SeesTargetImage(i: Input, a: Act, own: seq<Command>, call: Command, id: nat, s: Surface)
    requires Shows(a, own, call) && SurfaceIs(i, id, s) && Final(own, Register(0x8823)) == Some(R.Word32(U32(s.stride / 64)))
    requires R.AddressAt(own, 0x8825, Address(External(s.target), s.planeOffset, s.planeSize, WRITE, W.GpuVa64))
    ensures ReadsImage(i, a, 0x8825, id, WRITE) && ReadsPitch(i, a, 0x8823, id)
  {
    SeesAddress(a, own, call, 0x8825, Address(External(s.target), s.planeOffset, s.planeSize, WRITE, W.GpuVa64));
    Sees(a, own, call, Register(0x8823), R.Word32(U32(s.stride / 64)));
  }

  lemma SeesViewport(a: Act, own: seq<Command>, call: Command, words: Six)
    requires Shows(a, own, call) && forall j | 0 <= j < 6 :: Final(own, Register(0x8010 + j)) == Some(R.Word32(words[j]))
    ensures forall j | 0 <= j < 6 :: Reads(a, 0x8010 + j, words[j])
  {
    forall j | 0 <= j < 6
      ensures Reads(a, 0x8010 + j, words[j])
    {
      Sees(a, own, call, Register(0x8010 + j), R.Word32(words[j]));
    }
  }

  lemma SeesTargetFormat(i: Input, a: Act, own: seq<Command>, call: Command, id: nat, s: Surface)
    requires Shows(a, own, call) && SurfaceIs(i, id, s)
    requires Final(own, Register(0x8822)) == Some(R.Word32(U32(0x30 + s.tileMode * 0x100 + if s.tileMode == 0 then 0x2000 else 0)))
    ensures ReadsFormat(i, a, 0x8822, id, 0x30)
  {
    var kind := U32(0x30 + s.tileMode * 0x100 + if s.tileMode == 0 then 0x2000 else 0);
    Sees(a, own, call, Register(0x8822), R.Word32(kind));
    assert Reads(a, 0x8822, kind) && kind % 0x100 == 0x30 && kind / 0x100 % 4 == s.tileMode;
  }

  lemma DepthAsks(i: Input, a: Act, own: seq<Command>, call: Command, e: O.Event, p: Pipeline, target: Surface,
                  depth: Option<DepthState>)
    requires e.Drawn? && PipelineOf(i, e) == Some(p) && DepthStateFor(i, PassOf(e), p, target) == Ok(depth)
    requires Shows(a, own, call) && R.DepthTold(own, depth)
    ensures AsksDepth(i, a, e)
  {
    match depth
    case None => Sees(a, own, call, Register(0x8871), R.Word32(0));
    case Some(state) =>
      SurfacesAre(i, e.depthTarget.value, Sampled, target);
      SeesDepthImage(i, a, own, call, e.depthTarget.value, state);
      Sees(a, own, call, Register(0x8871), R.Word32(DepthControl(state)));
      ControlBits(state);
      assert Reads(a, 0x8871, DepthControl(state));
  }

  lemma SeesDepthImage(i: Input, a: Act, own: seq<Command>, call: Command, id: nat, d: DepthState)
    requires Shows(a, own, call) && SurfaceIs(i, id, d.target) && R.DepthTold(own, Some(d))
    ensures ReadsImage(i, a, 0x8875, id, 3) && ReadsPitch(i, a, 0x8873, id)
  {
    SeesAddress(a, own, call, 0x8875, Address(External(d.target.target), d.target.planeOffset, d.target.planeSize, 3, W.GpuVa64));
    Sees(a, own, call, Register(0x8873), R.Word32(U32(d.target.stride / 64)));
  }

  lemma BlendAsks(i: Input, a: Act, own: seq<Command>, call: Command, e: O.Event, p: Pipeline, f: Fixed)
    requires e.Drawn? && PipelineOf(i, e) == Some(p) && f.sourceOver == p.sourceOver && f.cull == p.cull
    requires Shows(a, own, call) && R.BlendTold(own, f)
    ensures AsksBlend(i, a, e)
  {
    var blend, mask := if f.sourceOver then 0x7e3 else 0x7e0, if f.sourceOver then 0xffff_0001 else 0xffff_0000;
    Sees(a, own, call, Register(0x8820), R.Word32(blend));
    Sees(a, own, call, Register(0x8865), R.Word32(mask));
    Sees(a, own, call, Register(0x8090), R.Word32(U32(0x2010 + f.cull)));
    assert Reads(a, 0x8820, blend);
    assert Reads(a, 0x8865, mask);
    assert Reads(a, 0x8090, U32(0x2010 + f.cull));
  }

  lemma ControlBits(d: DepthState)
    ensures var w := DepthControl(d);
            w % 2 == 1 && (w / 2 % 2 == 1 <==> d.writeEnabled) && (d.compare < 8 ==> w / 4 % 8 == d.compare)
  {
    var test := if d.compare != 0 && d.compare != 7 then 1 else 0;
    var low := 1 + if d.writeEnabled then 2 else 0;
    LowBits(low, d.compare + 16 * test, DepthControl(d));
    if d.compare < 8 {
      assert DepthControl(d) / 4 == d.compare + 16 * test;
    }
  }

  lemma LowBits(low: nat, rest: nat, w: u32)
    requires low < 4 && w == U32(low + 4 * rest)
    ensures w % 4 == low
  {
    var q := (low + 4 * rest) / 0x1_0000_0000;
    assert w == low + 4 * (rest - 0x4000_0000 * q);
  }

  lemma TextureAsks(i: Input, states: seq<TextureState>, a: Act, own: seq<Command>, call: Command, e: O.Event, p: Pipeline, d: DrawState)
    requires e.Drawn? && O.IsDraw(e.call) && StateIs(i, e, p, d) && Shows(a, own, call)
    requires d.texture.Some? ==> Lookup(states, d.texture.value, d.sampler).Some?
    requires d.texture.Some? ==>
               var id := Lookup(states, d.texture.value, d.sampler).value;
               R.AddressAt(own, 0xa9e0, SamplerAt(id)) && R.AddressAt(own, 0xa9e4, DescriptorAt(id))
    ensures AsksTexture(i, states, a, e, d.texture)
  {
    if d.texture.Some? {
      var k := D.LookupFinds(states, d.texture.value, d.sampler);
      SurfacesAre(i, e.bound.texture.value, Sampled, d.fixed.target);
      SeesAddress(a, own, call, 0xa9e0, SamplerAt(states[k].id));
      SeesAddress(a, own, call, 0xa9e4, DescriptorAt(states[k].id));
    }
  }

  lemma UniformsAsk(i: Input, a: Act, own: seq<Command>, call: Command, e: O.Event, p: Pipeline, d: DrawState, units: nat, sampled: Option<nat>)
    requires e.Drawn? && O.IsDraw(e.call) && StateIs(i, e, p, d) && Shows(a, own, call) && R.InputsTold(own, d.uniforms, units, sampled) && 5 <= units
    ensures AsksUniforms(i, a, e, d.texture)
  {
    forall j | 0 <= j < 20
      ensures Has(a, Loaded(CP_LOAD_STATE6_GEOM, 8, 1, j), Slot(Word(d.uniforms[j])))
      ensures Has(a, Loaded(CP_LOAD_STATE6_FRAG, 12, 1, j), Slot(Word(d.uniforms[j])))
    {
      Sees(a, own, call, Loaded(CP_LOAD_STATE6_GEOM, 8, 1, j), R.Word32(d.uniforms[j]));
      Sees(a, own, call, Loaded(CP_LOAD_STATE6_FRAG, 12, 1, j), R.Word32(d.uniforms[j]));
    }
  }

  lemma DrawAsks(i: Input, states: seq<TextureState>, a: Act, own: seq<Command>, e: O.Event, d: DrawState)
    requires e.Drawn? && O.IsDraw(e.call) && EventDraw(i, e) == Some(d) && Small(e.area)
    requires d.texture.Some? ==> Lookup(states, d.texture.value, d.sampler).Some?
    requires own == FullState(i.enc.tables, states, 0, d) && Shows(a, own, Call(d))
    ensures AsksDraw(i, states, a, e)
  {
    var p := EventStateIs(i, e, d);
    CallAsks(i, e, p, d.call, d.vertexSize);
    R.OwnReads(i.enc.tables, states, 0, d);
    VerticesAsk(i, a, own, Call(d), e, p, d);
    R.PassReads(i.enc.tables, states, 0, d);
    TargetAsks(i, a, own, Call(d), e, d.fixed, d.scissor);
    DepthAsks(i, a, own, Call(d), e, p, d.fixed.target, d.fixed.depth);
    BlendAsks(i, a, own, Call(d), e, p, d.fixed);
    R.InputsRead(i.enc.tables, states, 0, d);
    TextureAsks(i, states, a, own, Call(d), e, p, d);
    UniformsAsk(i, a, own, Call(d), e, p, d, ConstantUnits(d), if d.texture.Some? then Some(StateId(states, 0, d)) else None);
  }

  // ---- every event of an accepted stream ------------------------------------------------------------------------------------

  /** The packet asks for what the event is. */
  ghost predicate Asks(i: Input, states: seq<TextureState>, a: Act, e: O.Event) {
    match e
    case Drawn(_, _, _, _, _) => AsksDraw(i, states, a, e)
    case ColorCleared(target, area, color) => AsksFill(i, a, target, area, i.enc.color(color), 0x30)
    case DepthCleared(target, area, depth) => AsksFill(i, a, target, area, i.enc.depth(depth), 0x4a)
    case Transferred(op) => AsksTransfer(i, a, op)
    case _ => false
  }

  /** Rectangles are small, and what is copied is not nothing. */
  predicate Sane(e: O.Event) {
    match e
    case Drawn(_, area, _, _, call) => O.IsDraw(call) && Small(area)
    case ColorCleared(_, area, _) => Small(area)
    case DepthCleared(_, area, _) => Small(area)
    case Transferred(CopyTexture(_, from, _, to)) => Small(from) && Small(to) && from.width > 0 && from.height > 0
    case Transferred(BlitTexture(_, from, _, to, _, _, _)) => Small(from) && Small(to) && from.width > 0 && from.height > 0
    case _ => true
  }

  lemma ColorAsks(i: Input, states: seq<TextureState>, a: Act, e: O.Event)
    requires e.ColorCleared? && Performs(i, states, a, e) && Sane(e)
    ensures Asks(i, states, a, e)
  {
    var s := TargetFor(i, e.target, RenderAttachment).value;
    SurfacesAre(i, e.target, RenderAttachment, s);
    R.FillReads(s, e.area, i.enc.color(e.color), 0x30, 0, 0x400);
    FillAsks(i, a, ColorFill(s, e.area, i.enc.color(e.color)), e.target, s, e.area, i.enc.color(e.color), 0x30, 0, 0x400);
  }

  lemma DepthFillAsks(i: Input, states: seq<TextureState>, a: Act, e: O.Event)
    requires e.DepthCleared? && Performs(i, states, a, e) && Sane(e)
    ensures Asks(i, states, a, e)
  {
    var s := DepthImage(i, e.target).value;
    SurfacesAre(i, e.target, RenderAttachment, s);
    R.FillReads(s, e.area, i.enc.depth(e.depth), 0x4a, 4, 0);
    FillAsks(i, a, DepthFill(s, e.area, i.enc.depth(e.depth)), e.target, s, e.area, i.enc.depth(e.depth), 0x4a, 4, 0);
  }

  lemma CopyAsks(i: Input, states: seq<TextureState>, a: Act, op: O.Operation)
    requires op.CopyTexture? && Performs(i, states, a, O.Transferred(op)) && Sane(O.Transferred(op))
    ensures AsksTransfer(i, a, op)
  {
    var s, d := TargetFor(i, op.source, CopySrc).value, TargetFor(i, op.destination, CopyDst).value;
    SurfacesAre(i, op.source, CopySrc, s);
    SurfacesAre(i, op.destination, CopyDst, d);
    R.BlitReads(s, op.sourceRect, d, op.destinationRect, false, 0);
    BlitAsks(i, a, BlitBody(s, op.sourceRect, d, op.destinationRect, false, 0), op.source, s, op.sourceRect, op.destination, d,
             op.destinationRect, false, 0);
  }

  lemma ScaledBlitAsks(i: Input, states: seq<TextureState>, a: Act, op: O.Operation)
    requires op.BlitTexture? && Performs(i, states, a, O.Transferred(op)) && Sane(O.Transferred(op))
    ensures AsksTransfer(i, a, op)
  {
    var s, d := SurfaceFor(i, op.source, CopySrc).value, SurfaceFor(i, op.destination, CopyDst).value;
    var turn := Rotation(op.flipX, op.flipY);
    SurfacesAre(i, op.source, CopySrc, s);
    SurfacesAre(i, op.destination, CopyDst, d);
    R.BlitReads(s, op.sourceRect, d, op.destinationRect, op.filter != 0, turn);
    BlitAsks(i, a, BlitBody(s, op.sourceRect, d, op.destinationRect, op.filter != 0, turn), op.source, s, op.sourceRect, op.destination,
             d, op.destinationRect, op.filter != 0, turn);
  }

  lemma PerformsAsks(i: Input, states: seq<TextureState>, a: Act, e: O.Event)
    requires Performs(i, states, a, e) && Sane(e)
    ensures Asks(i, states, a, e)
  {
    match e
    case Drawn(_, _, _, _, _) =>
      var d := EventDraw(i, e).value;
      DrawAsks(i, states, a, FullState(i.enc.tables, states, 0, d), e, d);
    case ColorCleared(_, _, _) => ColorAsks(i, states, a, e);
    case DepthCleared(_, _, _) => DepthFillAsks(i, states, a, e);
    case Transferred(op) =>
      if op.CopyTexture? {
        CopyAsks(i, states, a, op);
      } else {
        ScaledBlitAsks(i, states, a, op);
      }
    case _ =>
  }

  // ---- accepted events are sane ---------------------------------------------------------------------------------------------

  lemma InsideIsSmall(r: O.Rect, width: nat, height: nat)
    requires RectInside(r, width, height)
    ensures Small(r) && r.width > 0 && r.height > 0
  {
  }

  predicate SmallPass(m: O.Machine) { m.pass.Some? ==> Small(m.pass.value.area) }

  lemma BeginSane(i: Input, l: Lowered, pass: O.RenderPass)
    requires LowerBegin(i, l, pass).Ok?
    ensures Small(pass.area) && forall e | e in O.BeginEvents(pass) :: Sane(e)
  {
    var target := TargetFor(i, pass.target, RenderAttachment).value;
    InsideIsSmall(pass.area, target.width, target.height);
  }

  lemma TransferSane(i: Input, l: Lowered, op: O.Operation, s: O.Machine, e: O.Event)
    requires O.IsTransfer(op) && LowerTransfer(i, l, op).Ok? && O.TransferStep(FormatsOf(i.resources), s, op).Ran?
    requires e in O.TransferStep(FormatsOf(i.resources), s, op).events
    ensures Sane(e)
  {
  }

  lemma StepSane(i: Input, s: State, l: Lowered, op: O.Operation)
    requires (l.active ==> l.sequence.Some?) && LowerOne(i, s, l, op).Ok? && SmallPass(s.machine)
    requires O.Step(FormatsOf(i.resources), s.machine, op).Ran?
    ensures SmallPass(LowerOne(i, s, l, op).value.0.machine)
    ensures forall e | e in O.Step(FormatsOf(i.resources), s.machine, op).events :: Sane(e)
  {
    if O.IsTransfer(op) {
      forall e | e in O.Step(FormatsOf(i.resources), s.machine, op).events
        ensures Sane(e)
      {
        TransferSane(i, l, op, s.machine, e);
      }
    } else if op.BeginRenderPass? {
      BeginSane(i, l, op.pass);
    }
  }

  lemma {:induction false} RunSane(i: Input, ops: seq<O.Operation>)
    requires LowerRun(i, ops).Ok?
    ensures SmallPass(LowerRun(i, ops).value.0.machine)
    ensures forall e | e in O.Run(FormatsOf(i.resources), ops).events :: Sane(e)
  {
    if ops != [] {
      var front, op := ops[..|ops| - 1], ops[|ops| - 1];
      RunSane(i, front);
      var s, l := LowerRun(i, front).value.0, LowerRun(i, front).value.1;
      AcceptedRuns(i, s, l, op);
      StepSane(i, s, l, op);
    }
  }

  lemma {:induction false} WorkIsEvents(events: seq<O.Event>, k: nat)
    requires k < |WorkOf(events)|
    ensures WorkOf(events)[k] in events
  {
    if k < |WorkOf(events[..|events| - 1])| {
      WorkIsEvents(events[..|events| - 1], k);
    }
  }

  /** The compiler asks the engines for the right thing: packet k of a compiled stream asks for exactly the k-th draw,
      clear, copy or blit that the stream means, and there are no others. */
  lemma CompiledAsks(i: Input, ops: seq<O.Operation>, k: nat)
    requires LowerStream(i, ops).Ok?
    ensures O.Meaning(FormatsOf(i.resources), ops).Some?
    ensures var l, work := LowerStream(i, ops).value, WorkOf(O.Meaning(FormatsOf(i.resources), ops).value);
            var acts := ActsFrom([], AllCommands(l));
            |acts| == |work| && (k < |work| ==> Asks(i, l.states, acts[k], work[k]))
  {
    CompiledWork(i, ops);
    RunSane(i, ops);
    var l, events := LowerStream(i, ops).value, O.Meaning(FormatsOf(i.resources), ops).value;
    var acts, work := ActsFrom([], AllCommands(l)), WorkOf(events);
    if k < |work| {
      WorkIsEvents(events, k);
      assert Performance(i, l.states)(acts[k], work[k]);
      PerformsAsks(i, l.states, acts[k], work[k]);
    }
  }

  // ---- texture states ----------------------------------------------------------------------------------------------------------

  predicate IsExtent(f: Field, width: nat, height: nat) {
    width < 0x8000 && height < 0x8000 ==> f.Val? && f.value % 0x8000 == width && f.value / 0x8000 == height
  }

  predicate IsPitch(f: Field, stride: nat) { stride < 0x40_0000 ==> f.Val? && f.value / 0x80 % 0x40_0000 == stride }

  /** A descriptor and its sampler, read by their fields: tiling and levels, extent, pitch, the plane, the second plane of a
      biplanar image, and the sampler's words at the end. */
  ghost predicate Described(fs: seq<Field>, t: Surface, sampler: seq<u32>) {
    && |fs| >= 9 && |sampler| == 4 && IsExtent(fs[1], t.width, t.height) && IsPitch(fs[2], t.stride)
    && fs[4] == Ref(Address(External(t.target), t.planeOffset, t.planeSize, READ, W.GpuVa49TexDescriptor))
    && (t.nv12.None? && t.tileMode < 4 && 0 < t.mipLevels <= 16 ==>
          fs[0].Val? && fs[0].value % 4 == t.tileMode && fs[0].value / 0x1_0000 % 16 == t.mipLevels - 1)
    && (t.nv12.Some? ==>
          fs[6] == Ref(Address(External(t.target), t.nv12.value.uvOffset, t.nv12.value.uvSize, READ, W.GpuVa64)))
    && forall j | 0 <= j < 4 :: fs[|fs| - 4 + j] == Val(sampler[j])
  }

  lemma ExtentIs(width: nat, height: nat)
    ensures IsExtent(Val(U32(width + height * 0x8000)), width, height)
  {
  }

  lemma PitchIs(stride: u32, extra: nat)
    requires extra <= 2
    ensures IsPitch(Val(U32(stride * 0x80 + 0x2000_0000 + extra)), stride)
  {
  }

  lemma KindIs(t: Surface)
    requires t.nv12.None? && t.tileMode < 4 && 0 < t.mipLevels <= 16
    ensures D.Prefix(t)[0] % 4 == t.tileMode && D.Prefix(t)[0] / 0x1_0000 % 16 == t.mipLevels - 1
  {
    KindBits(if t.tileMode == 0 then 0x4c0 else 0xc0, if t.alphaMask then 0x1db4 else 0x1a20, t.tileMode, t.mipLevels - 1, D.Prefix(t)[0]);
  }

  lemma KindBits(format: nat, swizzle: nat, tiling: nat, levels: nat, w: nat)
    requires swizzle < 0x2000 && tiling < 4 && levels < 16 && w == (format * 16 + levels) * 0x1_0000 + (swizzle * 4 + tiling)
    ensures w % 4 == tiling && w / 0x1_0000 % 16 == levels
  {
    assert w / 0x1_0000 == format * 16 + levels;
  }

  lemma ContentsDescribe(t: Surface, sampler: seq<u32>)
    requires |sampler| == 4
    ensures Described(D.Contents(t, sampler), t, sampler)
  {
    ExtentIs(t.width, t.height);
    PitchIs(t.stride, if t.nv12.Some? || t.tileMode == 0 then 0 else 2);
    if t.nv12.None? && t.tileMode < 4 && 0 < t.mipLevels <= 16 {
      KindIs(t);
    }
  }

  /** Every state object of a compiled stream is filled with the description of its own texture and sampler. */
  lemma CompiledTextures(i: Input, ops: seq<O.Operation>, k: nat)
    requires LowerStream(i, ops).Ok? && k < |LowerStream(i, ops).value.states|
    ensures var states := LowerStream(i, ops).value.states;
            var stored := D.Stored(D.Prologue(states), states[k].id);
            stored.Some? && (|states[k].sampler| == 4 ==> Described(stored.value, states[k].texture, states[k].sampler))
  {
    var l := LowerStream(i, ops).value;
    D.PrologueStores(l.states, |l.generated|, k);
    if |l.states[k].sampler| == 4 {
      ContentsDescribe(l.states[k].texture, l.states[k].sampler);
    }
  }
}
