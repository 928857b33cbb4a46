/** The commands of one draw: all of them, or only those that change from a compatible draw. */
module Draws {
  import opened Wrappers
  import opened WireFormat
  import opened ShaderPack
  import opened Operations
  import opened Accesses
  import opened Stream
  import opened Commands
  import W = SubmitWire

  // ---- what a draw is made of ------------------------------------------------------------------------------------

  /** Shader metadata arrays are short. */
  type Short = s: seq<u32> | |s| <= 8 witness []
  type Six = s: seq<u32> | |s| == 6 witness seq(6, _ => 0)

  datatype VertexMeta = VertexMeta(
    control: u32, instrSize: u32, constConfig: u32, config: u32, destControl: Short, fetchControl: Six)

  datatype FragmentMeta = FragmentMeta(
    control: u32, instrSize: u32, constConfig: u32, config: u32, waveControl: u32, clInterp: u32, rbInterp: u32,
    rbInput: u32, texLoadControl: u32, texLoadCommands: Short, progId: Short, outputControl: u32, outputReg: Short,
    outputMask: u32, rbOutputControl: u32, rbOutputMask: u32)

  datatype LinkMeta = LinkMeta(
    vs: Variant, fs: Variant, outputReg: Short, destReg: Short, vpcControl: u32, pcControl: u32, outputControl: u32,
    transferDisable: Short, psControl: u32)

  datatype Program = Program(vs: VertexMeta, fs: FragmentMeta, link: LinkMeta)

  /** The program of each pipeline variant, its size, and the encodings of opaque viewports. */
  datatype Tables = Tables(program: nat -> Program, sizes: ShaderSizes, transform: Viewport -> Six, guardband: Viewport -> u32)

  datatype Nv12 = Nv12(conversion: nat, midpointX: bool, midpointY: bool, uvOffset: u64, uvSize: u64)

  datatype Surface = Surface(
    nv12: Option<Nv12>, mipLevels: nat, arrayPitch: nat, target: nat, planeOffset: u64, planeSize: u64,
    width: nat, height: nat, stride: u32, tileMode: nat, alphaMask: bool)

  datatype DepthState = DepthState(target: Surface, compare: nat, writeEnabled: bool)

  datatype DrawCall =
    | NonIndexed(firstVertex: u32, vertexCount: u32)
    | Indexed(index: nat, indexOffset: u64, indexSize: u64, wide: bool, indexCount: u32, firstIndex: u32,
              baseVertex: u32, maxIndices: u32)

  /** The state a compatible draw may inherit. */
  datatype Fixed = Fixed(
    variant: nat, target: Surface, area: Rect, viewport: Viewport, stride: u32, attributes: seq<(nat, nat)>,
    sourceOver: bool, cull: u32, depth: Option<DepthState>)

  datatype DrawState = DrawState(
    fixed: Fixed, scissor: Rect, vertex: nat, vertexOffset: u64, vertexSize: u32, uniforms: seq<u32>,
    texture: Option<Surface>, sampler: seq<u32>, call: DrawCall)

  /** Vertex layouts have at most four attributes, a sampler four dwords, and uniforms thirty-two. */
  predicate ValidDraw(d: DrawState) {
    |d.fixed.attributes| <= 4 && |d.uniforms| == 32 && |d.sampler| == 4
  }

  // ---- registers -------------------------------------------------------------------------------------------------

  const GRAS_SC_WINDOW_SCISSOR_TL: u32 := 0x80f0
  const VFD_INDEX_OFFSET: u32 := 0xa00e
  const VFD_VERTEX_BUFFER_BASE: u32 := 0xa010
  const VFD_VERTEX_BUFFER_SIZE: u32 := 0xa012
  const SP_PS_SAMPLER_BASE: u32 := 0xa9e0
  const SP_PS_TEXMEMOBJ_BASE: u32 := 0xa9e4

  function Set1(register: u32, value: u32): Command { Write(register, [Val(value)]) }

  function PackXY(x: nat, y: nat): u32 { U32(x + y * 0x1_0000) }

  function Corner(r: Rect): u32 {
    if r.width == 0 || r.height == 0 then 0 else PackXY(r.x + r.width - 1, r.y + r.height - 1)
  }

  // ---- the state every compatible draw shares ----------------------------------------------------------------------

  function ProgramConfig(p: Program): seq<Command> {
    [Write(0xb800, [Val(p.vs.constConfig), Val(0), Val(0), Val(0)]), Set1(0xbb10, p.fs.constConfig),
     Set1(0xa823, p.vs.config), Set1(0xa83b, 0), Set1(0xa863, 0), Set1(0xa894, 0), Set1(0xab04, p.fs.config),
     Set1(0xab20, 0), TrackedWrite(0x8801, 0x10)]
  }

  function TargetState(f: Fixed): seq<Command> {
    [Write(0x8820, [Val(if f.sourceOver then 0x7e3 else 0x7e0), Val(if f.sourceOver then 0x0701_0706 else 0x0001_0001)]),
     Set1(0x8822, U32(0x30 + f.target.tileMode * 0x100 + if f.target.tileMode == 0 then 0x2000 else 0)),
     Write(0x8823, [Val(U32(f.target.stride / 64)), Val(U32(f.target.planeSize / 64))]),
     Write(0x8825, [At(External(f.target.target), f.target.planeOffset, f.target.planeSize, WRITE)]),
     Set1(0x8827, 0), Write(0x8903, Zeroes(3)), Set1(0x8102, 0x30), Set1(0x880f, 0)]
  }

  function BlendState(f: Fixed): seq<Command> {
    [Set1(0xa98a, 0), Set1(0x8004, 0), Set1(0x8865, if f.sourceOver then 0xffff_0001 else 0xffff_0000),
     Set1(0xa989, if f.sourceOver then 1 else 0), Set1(0x880e, 0), Set1(0xa98d, 1), Set1(0x880c, 1), Set1(0xa996, 0x30)]
  }

  function DepthCommon(): seq<Command> {
    [Set1(0x8864, 0), Set1(0x8880, 0), Set1(0x8115, 0), Set1(0x8887, 0), Write(0x8888, Zeroes(2)), Set1(0x8870, 0),
     Set1(0x8094, 0), Write(0x8878, [Val(0), Val(0x3f80_0000)]), Set1(0x8881, 0)]
  }

  function DepthControl(d: DepthState): u32 {
    U32(1 + (if d.writeEnabled then 2 else 0) + d.compare * 4 + if d.compare != 0 && d.compare != 7 then 64 else 0)
  }

  function DepthBuffer(depth: Option<DepthState>): seq<Command> {
    match depth
    case None => [Set1(0x8871, 0), Set1(0x8114, 0), Write(0x8872, Zeroes(6)), Set1(0x8098, 0)]
    case Some(d) =>
      [Set1(0x8871, DepthControl(d)), Set1(0x8114, 1), Write(0x8900, Zeroes(3)),
       Write(0x8872, [Val(4), Val(U32(d.target.stride / 64)), Val(U32(d.target.planeSize / 64)),
                      At(External(d.target.target), d.target.planeOffset, d.target.planeSize, 3), Val(0)]),
       Set1(0x8098, 4)]
  }

  function SampleAndScissor(t: Tables, f: Fixed): seq<Command> {
    [Write(0xb300, [Val(0), Val(4)]), Write(0x80a2, [Val(0), Val(4), Val(0)]), Write(0x8802, [Val(0), Val(4), Val(0)]),
     Set1(0xb304, 0), Set1(0x88d5, 0), Write(0x8010, Vals(t.transform(f.viewport))), Set1(0x8006, t.guardband(f.viewport)),
     Write(0x80b0, [Val(PackXY(f.area.x, f.area.y)), Val(Corner(f.area))]),
     Write(0x80d0, [Val(0), Val(Corner(Rect(0, 0, f.target.width, f.target.height)))])]
  }

  function Raster(t: Tables, f: Fixed): seq<Command> {
    [Set1(0x8000, 0x80), Set1(0x8090, U32(0x2010 + f.cull)), Set1(0x8091, 0x0010_0010), Set1(0x8092, 0x10),
     Write(0x8095, Zeroes(3)), Set1(0x9b00, 0), Set1(0x9108, 3), Set1(0x9981, 3),
     Set1(0xa000, U32(|f.attributes| * 0x101)), Write(0xa001, Vals(t.program(f.variant).vs.fetchControl))]
  }

  function Fetch(attributes: seq<(nat, nat)>): (fs: seq<Field>)
    ensures |fs| == 2 * |attributes|
  {
    if attributes == [] then []
    else [Val(U32(0xc000_0000 + attributes[0].0 * 0x10_0000 + attributes[0].1 * 0x20)), Val(1)] + Fetch(attributes[1..])
  }

  function VertexProgram(p: Program, f: Fixed): seq<Command> {
    [Write(0xa090, Fetch(f.attributes)), Write(0xa0d0, Vals(p.vs.destControl)), Set1(0xa800, p.vs.control),
     Set1(0xa802, p.link.outputControl), Write(0xa803, Vals(p.link.outputReg)), Write(0xa813, Vals(p.link.destReg)),
     Set1(0xa824, p.vs.instrSize), Write(0x9212, Vals(p.link.transferDisable)), Set1(0x9301, p.link.vpcControl)]
  }

  function VertexOutput(p: Program): seq<Command> {
    [Set1(0x9101, 0x00ff_ff00), Set1(0x9311, 0x00ff_ff00), Set1(0x8001, 0), Set1(0x9304, p.link.psControl),
     Set1(0x9b01, p.link.pcControl), Set1(0x9104, 0xffff), Set1(0x9314, 0xffff), Set1(0x809b, 0), Set1(0x9806, 0)]
  }

  function FragmentInput(p: Program): seq<Command> {
    [Set1(0xa980, p.fs.control), Write(0xa99e, [Val(p.fs.texLoadControl)] + Vals(p.fs.texLoadCommands))] +
    (if p.fs.texLoadCommands != [] then [Set1(0xa9a3, 0), Set1(0xa9a7, 1)] else [Set1(0xa9a7, 0)])
  }

  function FragmentOutput(p: Program): seq<Command> {
    [Write(0xb983, Vals(p.fs.progId)), Set1(0xa98c, p.fs.outputControl), Write(0xa98e, Vals(p.fs.outputReg)),
     Set1(0xa98b, p.fs.outputMask), Set1(0x880b, p.fs.rbOutputControl), Set1(0x880d, p.fs.rbOutputMask),
     Set1(0xab05, p.fs.instrSize), Set1(0xb980, p.fs.waveControl), Set1(0xb982, 7)]
  }

  function FragmentInterp(p: Program): seq<Command> {
    [Set1(0x8005, p.fs.clInterp), Set1(0x8809, p.fs.rbInterp), Set1(0x880a, p.fs.rbInput), Write(0x9200, Zeroes(8)),
     Write(0x9208, Zeroes(8)), Set1(0x8810, 0), Set1(0x8101, 0), Set1(0x8109, 0)]
  }

  function Shader(sizes: ShaderSizes, variant: Variant): Address {
    Address(CanonicalShader(variant), 0, sizes[variant], READ, W.GpuVa64)
  }

  function Programs(t: Tables, p: Program): seq<Command> {
    var vs, fs := Shader(t.sizes, p.link.vs), Shader(t.sizes, p.link.fs);
    [Write(0xa81b, [Val(0), Ref(vs)] + Zeroes(4)), Set1(0xa825, 0), LoadIndirect(CP_LOAD_STATE6_GEOM, 8, 0, p.vs.instrSize, vs),
     Write(0xa982, [Val(0), Ref(fs)] + Zeroes(4)), Set1(0xa9a9, 0), LoadIndirect(CP_LOAD_STATE6_FRAG, 12, 0, p.fs.instrSize, fs)]
  }

  /** Fixed state that comes before the scissor, between it and the vertex buffer, and after that. */
  function FixedBefore(t: Tables, f: Fixed): seq<Command> {
    ProgramConfig(t.program(f.variant)) + TargetState(f) + BlendState(f) + DepthCommon() + DepthBuffer(f.depth)
    + SampleAndScissor(t, f)
  }

  function FixedAfter(t: Tables, f: Fixed): seq<Command> {
    var p := t.program(f.variant);
    VertexProgram(p, f) + VertexOutput(p) + FragmentInput(p) + FragmentOutput(p) + FragmentInterp(p) + Programs(t, p)
  }

  // ---- the state every draw sets ------------------------------------------------------------------------------------

  function Scissor(d: DrawState): seq<Command> {
    [Write(GRAS_SC_WINDOW_SCISSOR_TL, [Val(PackXY(d.scissor.x, d.scissor.y)), Val(Corner(d.scissor))])]
  }

  function FirstVertex(call: DrawCall): u32 { if call.NonIndexed? then call.firstVertex else call.baseVertex }

  function Vertices(d: DrawState): seq<Command> {
    [Write(VFD_INDEX_OFFSET, [Val(FirstVertex(d.call)), Val(0)]),
     Write(VFD_VERTEX_BUFFER_BASE, [At(External(d.vertex), d.vertexOffset, d.vertexSize, READ)]),
     Write(VFD_VERTEX_BUFFER_SIZE, [Val(d.vertexSize), Val(d.fixed.stride)])]
  }

  /** A biplanar texture needs three more constant units for its conversion. */
  function ConstantUnits(d: DrawState): nat { if d.texture.Some? && d.texture.value.nv12.Some? then 8 else 5 }

  function Constants(d: DrawState): seq<Command>
    requires ValidDraw(d)
  {
    [LoadDirect(CP_LOAD_STATE6_GEOM, 8, 1, 5, d.uniforms[..20]),
     LoadDirect(CP_LOAD_STATE6_FRAG, 12, 1, ConstantUnits(d), d.uniforms[..ConstantUnits(d) * 4])]
  }

  /** The sampler sits behind the texture descriptor in the texture state object. */
  function SamplerAt(id: nat): Address { Address(Generated(id), 64, 16, READ, W.GpuVa64) }
  function DescriptorAt(id: nat): Address { Address(Generated(id), 0, 64, READ, W.GpuVa64) }

  function TextureLoads(id: nat): seq<Command> {
    [Write(SP_PS_SAMPLER_BASE, [Ref(SamplerAt(id))]), Write(SP_PS_TEXMEMOBJ_BASE, [Ref(DescriptorAt(id))]),
     LoadIndirect(CP_LOAD_STATE6_FRAG, 4, 0, 1, SamplerAt(id)), LoadIndirect(CP_LOAD_STATE6_FRAG, 4, 1, 1, DescriptorAt(id))]
  }

  function CallFields(call: DrawCall): seq<Field> {
    match call
    case NonIndexed(_, vertexCount) => [Val(0x84), Val(1), Val(vertexCount)]
    case Indexed(index, offset, size, wide, count, first, _, max) =>
      [Val(if wide then 0x804 else 0x404), Val(1), Val(count), Val(first), At(External(index), offset, size, READ), Val(max)]
  }

  // ---- the texture state cache -----------------------------------------------------------------------------------------

  datatype TextureState = TextureState(texture: Surface, sampler: seq<u32>, id: nat)

  function Lookup(states: seq<TextureState>, texture: Surface, sampler: seq<u32>): Option<nat> {
    if states == [] then None
    else if states[0].texture == texture && states[0].sampler == sampler then Some(states[0].id)
    else Lookup(states[1..], texture, sampler)
  }

  /** The cache and the number of generated objects after a draw asks for its texture state. */
  function CacheAfter(states: seq<TextureState>, next: nat, d: DrawState): (seq<TextureState>, nat) {
    if d.texture.None? || Lookup(states, d.texture.value, d.sampler).Some? then (states, next)
    else (states + [TextureState(d.texture.value, d.sampler, next)], next + 1)
  }

  function StateId(states: seq<TextureState>, next: nat, d: DrawState): nat
    requires d.texture.Some?
  {
    var id := Lookup(states, d.texture.value, d.sampler);
    if id.Some? then id.value else next
  }

  /** Loads of the draw's texture state, if it samples. */
  function Sampling(states: seq<TextureState>, next: nat, d: DrawState): seq<Command> {
    if d.texture.None? then [] else TextureLoads(StateId(states, next, d))
  }

  // ---- the two forms of a draw ------------------------------------------------------------------------------------------

  function FullState(t: Tables, states: seq<TextureState>, next: nat, d: DrawState): seq<Command>
    requires ValidDraw(d)
  {
    FixedBefore(t, d.fixed) + Scissor(d) + Raster(t, d.fixed) + Vertices(d) + FixedAfter(t, d.fixed) + Constants(d)
    + Sampling(states, next, d)
  }

  predicate SameTexture(previous: DrawState, d: DrawState) {
    previous.texture == d.texture && previous.sampler == d.sampler
  }

  function DeltaState(previous: DrawState, states: seq<TextureState>, next: nat, d: DrawState): seq<Command>
    requires ValidDraw(d)
  {
    Scissor(d) + Vertices(d) + Constants(d) + if SameTexture(previous, d) then [] else Sampling(states, next, d)
  }

  predicate Inherits(last: Option<DrawState>, d: DrawState) { last.Some? && last.value.fixed == d.fixed }

  function Call(d: DrawState): Command { Run(CP_DRAW_INDX_OFFSET, CallFields(d.call)) }

  /** What is emitted for a draw. */
  function DrawCommands(t: Tables, last: Option<DrawState>, states: seq<TextureState>, next: nat, d: DrawState): seq<Command>
    requires ValidDraw(d)
  {
    (if Inherits(last, d) then DeltaState(last.value, states, next, d) else FullState(t, states, next, d)) + [Call(d)]
  }
}
