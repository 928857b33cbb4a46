/** The commands around draws and for transfers, and that all of them stay inside their objects. */
module Transfers {
  import opened Wrappers
  import opened WireFormat
  import opened Operations
  import opened Accesses
  import opened Commands
  import opened Draws
  import opened Descriptors
  import opened Images
  import opened Bounds

  const SET_MARKER := 0x65
  const BLIT := 0x2c

  // ---- cache events ------------------------------------------------------------------------------------------------

  /** Event numbers wrap, but are never zero. */
  function NextEvent(n: u32): u32 { if n + 1 == 0x1_0000_0000 then 1 else n + 1 }

  /** A timestamped cache clean that writes the shared sequence word. */
  function CacheEvent(sequence: nat, event: u32, number: u32): Command {
    Run(EVENT_WRITE, [Val(U32(event + 0x4000_0000)), At(Generated(sequence), 0, 4, WRITE), Val(number)])
  }

  function Event(event: u32): Command { Run(EVENT_WRITE, [Val(event)]) }

  function Invalidate(sequence: nat, n: u32): seq<Command> {
    [CacheEvent(sequence, 0x1d, NextEvent(n)), Event(0x19), Event(0x31)]
  }

  function SubmissionEnd(sequence: nat, n: u32): seq<Command> {
    [CacheEvent(sequence, 0x1d, NextEvent(n)), CacheEvent(sequence, 0x1c, NextEvent(NextEvent(n))), Event(0x19),
     Event(0x18), Run(WAIT_FOR_IDLE, [])]
  }

  function Begin2D(sequence: nat, n: u32): seq<Command> {
    Invalidate(sequence, n) +
    [Run(WAIT_FOR_IDLE, []), Set1(0x8e07, 0x0800_0000), Set1(0x8e04, 0x0410_0000), Run(SET_MARKER, [Val(12)])]
  }

  function BaselineA(): seq<Command> {
    [Set1(0xbb08, 0xff), Run(WAIT_FOR_IDLE, []), Set1(0x8e04, 0x0410_0000), Set1(0x80a0, 2), Set1(0x8100, 0), Set1(0x8898, 0),
     Set1(0xa007, 0), Set1(0xa009, 3), Set1(0x9804, 0x1f), Set1(0x9b07, 0)]
  }

  function BaselineB(): seq<Command> {
    [Set1(0xab00, 5), Set1(0xb309, 0xa2), Set1(0x8811, 0x10), Set1(0x80a1, 0x00c0_0000), Set1(0x8800, 0x00c0_0000),
     Set1(0x88d3, 0), Set1(0x8890, 0), Set1(0x88d4, 0), Set1(0xb4d1, 0), Set1(0xb307, 0)]
  }

  function BaselineC(): seq<Command> {
    [Set1(0x80af, 0), Set1(0x9306, 0), Run(SET_MARKER, [Val(1)]), Run(0x1d, [Val(0)]), Run(0x23, [Val(1)]), Run(0x64, [Val(1)]),
     Set1(0x8e07, 0x0800_0000)]
  }

  /** What opens a batch of draws. */
  function BatchBegin(sequence: nat, n: u32): seq<Command> {
    Invalidate(sequence, n) + BaselineA() + BaselineB() + BaselineC()
  }

  // ---- two-dimensional operations -------------------------------------------------------------------------------------

  function Coordinates(area: Rect): seq<Command> {
    [Write(0x8405, [Val(PackXY(area.x, area.y)), Val(Corner(area))]), Write(0x840a, [Val(PackXY(area.x, area.y)), Val(Corner(area))])]
  }

  function A2D(format: nat, input: nat, solid: bool): seq<Command> {
    var control := U32(format * 0x100 + 0xf0_0000 + (if solid then 0x80 else 0) + 0x1_0000 + input * 0x100_0000);
    [Set1(0x8c00, control), Set1(0x8400, control), Set1(0xacc0, U32(format * 8 + 0xf000)), Set1(0x8c01, 0)]
  }

  function Destination(s: Surface, format: nat, swap: nat): seq<Command> {
    [Set1(0x8c17, U32(format + s.tileMode * 0x100 + if s.tileMode == 0 then swap else 0)),
     Write(0x8c18, [At(External(s.target), s.planeOffset, s.planeSize, WRITE)]), Set1(0x8c1a, s.stride / 64)]
  }

  function RunBlit(): seq<Command> { [Run(WAIT_FOR_IDLE, []), Run(BLIT, [Val(3)]), Run(WAIT_FOR_IDLE, [])] }

  function SolidFill(s: Surface, area: Rect, words: Short, format: nat, input: nat, swap: nat): seq<Command> {
    Coordinates(area) + [Write(0x8c2c, Vals(words))] + A2D(format, input, true) + Destination(s, format, swap) + RunBlit()
  }

  function ColorFill(s: Surface, area: Rect, words: Short): seq<Command> { SolidFill(s, area, words, 0x30, 0, 0x400) }
  function DepthFill(s: Surface, area: Rect, words: Short): seq<Command> { SolidFill(s, area, words, 0x4a, 4, 0) }

  /** One or two fills between a begin and an end. */
  function Clear(sequence: nat, n: u32, fills: seq<Command>): seq<Command> {
    Begin2D(sequence, n) + fills + SubmissionEnd(sequence, NextEvent(n))
  }

  function BlitSource(s: Surface, area: Rect, linear: bool): seq<Command> {
    [Set1(0xb4c0, U32(0x30 + 0x400 + 0x50_0000 + if linear then 0x1_0000 else 0)), Set1(0xb4c1, U32(s.width + s.height * 0x8000)),
     Write(0xb4c2, [At(External(s.target), s.planeOffset, s.planeSize, READ)]), Set1(0xb4c4, U32(s.stride / 64 * 0x200))]
  }

  /** The last of a non-empty run of coordinates. */
  function LastOf(start: nat, length: nat): nat { if length == 0 then start else start + length - 1 }

  function SourceRect(area: Rect): seq<Command> {
    [Write(0x8401, [Val(U32(area.x * 0x100)), Val(U32(LastOf(area.x, area.width) * 0x100)), Val(U32(area.y * 0x100)),
                    Val(U32(LastOf(area.y, area.height) * 0x100))])]
  }

  function Rotation(flipX: bool, flipY: bool): nat {
    if flipX && flipY then 2 else if flipX then 4 else if flipY then 5 else 0
  }

  function Rotate(rotation: nat): seq<Command> {
    if rotation == 0 then []
    else var control := U32(0x3000 + 0xf0_0000 + 0x1_0000 + rotation); [Set1(0x8c00, control), Set1(0x8400, control)]
  }

  function BlitBody(source: Surface, sourceRect: Rect, destination: Surface, destinationRect: Rect, linear: bool, rotation: nat)
    : seq<Command>
  {
    SourceRect(sourceRect) + Coordinates(destinationRect) + A2D(0x30, 0, false) + Rotate(rotation)
    + BlitSource(source, sourceRect, linear) + Destination(destination, 0x30, 0x400) + RunBlit()
  }

  // ---- staying inside ----------------------------------------------------------------------------------------------------

  predicate HasSequence(o: Objects, sequence: nat) { sequence < |o.generated| && o.generated[sequence] == 4 }

  predicate SurfaceKnown(o: Objects, s: Surface) { s.target in o.external && SurfaceInside(s, o.external[s.target]) }

  lemma BaselineInside(o: Objects)
    ensures AllInside(o, BaselineA()) && AllInside(o, BaselineB()) && AllInside(o, BaselineC())
  {
  }

  lemma EventsInside(o: Objects, sequence: nat, n: u32)
    requires HasSequence(o, sequence)
    ensures AllInside(o, Invalidate(sequence, n)) && AllInside(o, SubmissionEnd(sequence, n))
  {
  }

  lemma BatchBeginInside(o: Objects, sequence: nat, n: u32)
    requires HasSequence(o, sequence)
    ensures AllInside(o, BatchBegin(sequence, n))
  {
    EventsInside(o, sequence, n);
    BaselineInside(o);
    InsideConcat(o, Invalidate(sequence, n), BaselineA());
    InsideConcat(o, Invalidate(sequence, n) + BaselineA(), BaselineB());
    InsideConcat(o, Invalidate(sequence, n) + BaselineA() + BaselineB(), BaselineC());
  }

  lemma Begin2DInside(o: Objects, sequence: nat, n: u32)
    requires HasSequence(o, sequence)
    ensures AllInside(o, Begin2D(sequence, n))
  {
    EventsInside(o, sequence, n);
  }

  lemma FillInside(o: Objects, s: Surface, area: Rect, words: Short, format: nat, input: nat, swap: nat)
    requires SurfaceKnown(o, s)
    ensures AllInside(o, SolidFill(s, area, words, format, input, swap))
  {
    assert AllInside(o, Coordinates(area));
    assert AllInside(o, [Write(0x8c2c, Vals(words))]);
    assert AllInside(o, A2D(format, input, true));
    assert AllInside(o, Destination(s, format, swap));
    assert AllInside(o, RunBlit());
  }

  lemma ClearInside(o: Objects, sequence: nat, n: u32, fills: seq<Command>)
    requires HasSequence(o, sequence) && AllInside(o, fills)
    ensures AllInside(o, Clear(sequence, n, fills))
  {
    Begin2DInside(o, sequence, n);
    EventsInside(o, sequence, NextEvent(n));
    InsideConcat(o, Begin2D(sequence, n), fills);
    InsideConcat(o, Begin2D(sequence, n) + fills, SubmissionEnd(sequence, NextEvent(n)));
  }

  lemma BlitInside(o: Objects, source: Surface, sourceRect: Rect, destination: Surface, destinationRect: Rect, linear: bool,
                   rotation: nat)
    requires SurfaceKnown(o, source) && SurfaceKnown(o, destination)
    ensures AllInside(o, BlitBody(source, sourceRect, destination, destinationRect, linear, rotation))
  {
    var a, b, c := SourceRect(sourceRect), Coordinates(destinationRect), A2D(0x30, 0, false);
    var d, e := Rotate(rotation), BlitSource(source, sourceRect, linear);
    assert AllInside(o, a) && AllInside(o, b) && AllInside(o, c) && AllInside(o, d);
    SourceInside(o, source, sourceRect, linear);
    DestinationInside(o, destination, 0x30, 0x400);
    InsideSix(o, a, b, c, d, e, Destination(destination, 0x30, 0x400));
    assert AllInside(o, RunBlit());
    InsideConcat(o, a + b + c + d + e + Destination(destination, 0x30, 0x400), RunBlit());
  }

  lemma SourceInside(o: Objects, source: Surface, area: Rect, linear: bool)
    requires SurfaceKnown(o, source)
    ensures AllInside(o, BlitSource(source, area, linear))
  {
  }

  lemma DestinationInside(o: Objects, s: Surface, format: nat, swap: nat)
    requires SurfaceKnown(o, s)
    ensures AllInside(o, Destination(s, format, swap))
  {
  }

  // ---- draws ---------------------------------------------------------------------------------------------------------------

  predicate CallInside(o: Objects, call: DrawCall) {
    call.Indexed? ==>
      call.index in o.external && call.indexSize > 0 && call.indexOffset + call.indexSize <= o.external[call.index]
  }

  /** Everything the draw names is inside its object. */
  predicate DrawInside(o: Objects, d: DrawState) {
    && SurfaceKnown(o, d.fixed.target)
    && (d.fixed.depth.Some? ==> SurfaceKnown(o, d.fixed.depth.value.target))
    && (d.texture.Some? ==> SurfaceKnown(o, d.texture.value))
    && d.vertex in o.external && d.vertexSize > 0 && d.vertexOffset + d.vertexSize <= o.external[d.vertex]
    && CallInside(o, d.call)
  }

  predicate HasState(o: Objects, id: nat) { id < |o.generated| && o.generated[id] == STATE_SIZE }

  lemma InsideSix(o: Objects, a: seq<Command>, b: seq<Command>, c: seq<Command>, d: seq<Command>, e: seq<Command>, f: seq<Command>)
    requires AllInside(o, a) && AllInside(o, b) && AllInside(o, c) && AllInside(o, d) && AllInside(o, e) && AllInside(o, f)
    ensures AllInside(o, a + b + c + d + e + f)
  {
    InsideConcat(o, a, b);
    InsideConcat(o, a + b, c);
    InsideConcat(o, a + b + c, d);
    InsideConcat(o, a + b + c + d, e);
    InsideConcat(o, a + b + c + d + e, f);
  }

  lemma PlainStateInside(o: Objects, t: Tables, f: Fixed)
    ensures AllInside(o, ProgramConfig(t.program(f.variant))) && AllInside(o, Draws.BlendState(f))
    ensures AllInside(o, DepthCommon())
  {
  }

  lemma ScissorStateInside(o: Objects, t: Tables, f: Fixed)
    ensures AllInside(o, SampleAndScissor(t, f)) && AllInside(o, Raster(t, f))
  {
  }

  lemma AttachmentsInside(o: Objects, f: Fixed)
    requires SurfaceKnown(o, f.target) && (f.depth.Some? ==> SurfaceKnown(o, f.depth.value.target))
    ensures AllInside(o, TargetState(f)) && AllInside(o, DepthBuffer(f.depth))
  {
  }

  lemma FixedBeforeInside(o: Objects, t: Tables, f: Fixed)
    requires SurfaceKnown(o, f.target) && (f.depth.Some? ==> SurfaceKnown(o, f.depth.value.target))
    ensures AllInside(o, FixedBefore(t, f))
  {
    PlainStateInside(o, t, f);
    ScissorStateInside(o, t, f);
    AttachmentsInside(o, f);
    InsideSix(o, ProgramConfig(t.program(f.variant)), TargetState(f), Draws.BlendState(f), DepthCommon(), DepthBuffer(f.depth),
              SampleAndScissor(t, f));
  }

  lemma VertexStateInside(o: Objects, p: Program, f: Fixed)
    ensures AllInside(o, VertexProgram(p, f)) && AllInside(o, VertexOutput(p))
  {
    FetchPlain(f.attributes);
  }

  lemma FragmentStateInside(o: Objects, p: Program)
    ensures AllInside(o, FragmentInput(p)) && AllInside(o, FragmentOutput(p)) && AllInside(o, FragmentInterp(p))
  {
  }

  lemma ProgramsInside(o: Objects, t: Tables, p: Program)
    requires o.shaders == t.sizes
    ensures AllInside(o, Programs(t, p))
  {
  }

  lemma FixedAfterInside(o: Objects, t: Tables, f: Fixed)
    requires o.shaders == t.sizes
    ensures AllInside(o, FixedAfter(t, f))
  {
    var p := t.program(f.variant);
    VertexStateInside(o, p, f);
    FragmentStateInside(o, p);
    ProgramsInside(o, t, p);
    InsideSix(o, VertexProgram(p, f), VertexOutput(p), FragmentInput(p), FragmentOutput(p), FragmentInterp(p), Programs(t, p));
  }

  lemma {:induction false} FetchPlain(attributes: seq<(nat, nat)>)
    ensures forall i | 0 <= i < |Fetch(attributes)| :: Fetch(attributes)[i].Val?
  {
    if attributes != [] {
      FetchPlain(attributes[1..]);
    }
  }

  lemma OwnInside(o: Objects, d: DrawState, states: seq<TextureState>, next: nat)
    requires ValidDraw(d) && DrawInside(o, d) && (d.texture.Some? ==> HasState(o, StateId(states, next, d)))
    ensures AllInside(o, Scissor(d)) && AllInside(o, Vertices(d)) && AllInside(o, Constants(d))
    ensures AllInside(o, Sampling(states, next, d)) && AllInside(o, [Call(d)])
  {
  }

  /** Whichever form a draw takes, its addresses stay inside. */
  lemma DrawCommandsInside(o: Objects, t: Tables, last: Option<DrawState>, states: seq<TextureState>, next: nat, d: DrawState)
    requires ValidDraw(d) && DrawInside(o, d) && o.shaders == t.sizes
    requires d.texture.Some? ==> HasState(o, StateId(states, next, d))
    ensures AllInside(o, DrawCommands(t, last, states, next, d))
  {
    OwnInside(o, d, states, next);
    FixedBeforeInside(o, t, d.fixed);
    FixedAfterInside(o, t, d.fixed);
    ScissorStateInside(o, t, d.fixed);
    var x := Sampling(states, next, d);
    InsideSix(o, FixedBefore(t, d.fixed), Scissor(d), Raster(t, d.fixed), Vertices(d), FixedAfter(t, d.fixed), Constants(d));
    InsideConcat(o, FixedBefore(t, d.fixed) + Scissor(d) + Raster(t, d.fixed) + Vertices(d) + FixedAfter(t, d.fixed) + Constants(d), x);
    if Inherits(last, d) {
      DeltaInside(o, last.value, states, next, d);
      InsideConcat(o, DeltaState(last.value, states, next, d), [Call(d)]);
    } else {
      InsideConcat(o, FullState(t, states, next, d), [Call(d)]);
    }
  }

  lemma DeltaInside(o: Objects, previous: DrawState, states: seq<TextureState>, next: nat, d: DrawState)
    requires ValidDraw(d) && AllInside(o, Scissor(d)) && AllInside(o, Vertices(d)) && AllInside(o, Constants(d))
    requires AllInside(o, Sampling(states, next, d))
    ensures AllInside(o, DeltaState(previous, states, next, d))
  {
    InsideConcat(o, Scissor(d), Vertices(d));
    InsideConcat(o, Scissor(d) + Vertices(d), Constants(d));
    InsideConcat(o, Scissor(d) + Vertices(d) + Constants(d), if SameTexture(previous, d) then [] else Sampling(states, next, d));
  }

  lemma InitializeInside(o: Objects, s: TextureState)
    requires SurfaceKnown(o, s.texture) && HasState(o, s.id)
    ensures AllInside(o, Initialize(s))
  {
    var fs := Initialize(s)[0].fields;
    forall i | 0 <= i < |fs| && fs[i].Ref?
      ensures AddressInside(o, fs[i].ref)
    {
    }
    assert Inside(o, Initialize(s)[0]);
  }
}
