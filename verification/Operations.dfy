/** Normalized operations, and what a stream of them means.

    `Step` is the render-pass and binding state machine that compilation runs over a
    stream: passes do not nest, bindings live inside one pass, transfers stay outside.
    A stream means the sequence of externally visible events it causes.  Loading and
    storing an attachment are invisible; clearing and discarding it are not. */
module Operations {
  import opened Wrappers
  import opened Arith

  // Values of the graphics IR that are only carried and compared.
  type ObjectId = nat
  type PipelineId = nat
  type Color = nat
  type Depth = nat
  type Sampler = nat
  type Uniforms = nat
  type Viewport = nat
  type IndexFormat = nat
  type Filter = nat

  datatype Rect = Rect(x: nat, y: nat, width: nat, height: nat)

  datatype LoadOp = Load | Clear(color: Color)
  datatype DepthLoadOp = DepthLoad | DepthClear(depth: Depth)
  datatype StoreOp = Store | DontCare

  datatype DepthAttachment = DepthAttachment(target: ObjectId, load: DepthLoadOp, store: StoreOp)

  datatype RenderPass = RenderPass(
    target: ObjectId, area: Rect, load: LoadOp, store: StoreOp, depth: Option<DepthAttachment>)

  datatype Operation =
    | WriteBuffer(destination: ObjectId, offset: nat, data: seq<byte>)
    | WriteTexture(destination: ObjectId, area: Rect, bytesPerRow: nat, data: seq<byte>)
    | CopyTexture(source: ObjectId, sourceRect: Rect, destination: ObjectId, destinationRect: Rect)
    | BlitTexture(source: ObjectId, sourceRect: Rect, destination: ObjectId, destinationRect: Rect,
                  filter: Filter, flipX: bool, flipY: bool)
    | BeginRenderPass(pass: RenderPass)
    | EndRenderPass
    | SetPipeline(pipeline: PipelineId)
    | SetVertexBuffer(buffer: ObjectId, vertexOffset: nat)
    | SetIndexBuffer(buffer: ObjectId, indexOffset: nat, format: IndexFormat)
    | SetTexture(texture: ObjectId)
    | SetSampler(sampler: Sampler)
    | SetUniforms(uniforms: Uniforms)
    | SetScissor(scissor: Option<Rect>)
    | SetViewport(viewport: Viewport)
    | Draw(vertexCount: nat, firstVertex: nat)
    | DrawIndexed(indexCount: nat, firstIndex: nat, baseVertex: int)

  predicate IsDraw(op: Operation) { op.Draw? || op.DrawIndexed? }

  predicate IsTransfer(op: Operation) {
    op.WriteBuffer? || op.WriteTexture? || op.CopyTexture? || op.BlitTexture?
  }

  datatype Bindings = Bindings(
    pipeline: Option<PipelineId>,
    vertex: Option<(ObjectId, nat)>,
    index: Option<(ObjectId, nat, IndexFormat)>,
    texture: Option<ObjectId>,
    sampler: Option<Sampler>,
    uniforms: Option<Uniforms>,
    scissor: Option<Rect>,
    viewport: Option<Viewport>)

  const UNBOUND := Bindings(None, None, None, None, None, None, None, None)

  datatype Machine = Machine(pass: Option<RenderPass>, bound: Bindings)

  const IDLE := Machine(None, UNBOUND)

  /** What a stream does to memory, in order.  A draw carries everything it reads. */
  datatype Event =
    | ByteWritten(destination: ObjectId, offset: nat, value: byte)
    | RowWritten(destination: ObjectId, x: nat, y: nat, width: nat, texels: seq<byte>)
    | Transferred(transfer: Operation)
    | ColorCleared(target: ObjectId, area: Rect, color: Color)
    | DepthCleared(target: ObjectId, area: Rect, depth: Depth)
    | Discarded(target: ObjectId, area: Rect)
    | Drawn(target: ObjectId, area: Rect, depthTarget: Option<ObjectId>, bound: Bindings, call: Operation)

  datatype Outcome = Stuck | Ran(state: Machine, events: seq<Event>)

  /** Bytes per pixel of the logical format of each uploadable image. */
  type Formats = map<ObjectId, nat>

  function BeginEvents(p: RenderPass): seq<Event> {
    (if p.depth.Some? && p.depth.value.load.DepthClear?
     then [DepthCleared(p.depth.value.target, p.area, p.depth.value.load.depth)] else []) +
    (if p.load.Clear? then [ColorCleared(p.target, p.area, p.load.color)] else [])
  }

  function EndEvents(p: RenderPass): seq<Event> {
    (if p.depth.Some? && p.depth.value.store.DontCare?
     then [Discarded(p.depth.value.target, p.area)] else []) +
    (if p.store.DontCare? then [Discarded(p.target, p.area)] else [])
  }

  function DepthTarget(p: RenderPass): Option<ObjectId> {
    if p.depth.Some? then Some(p.depth.value.target) else None
  }

  function ByteEvents(destination: ObjectId, offset: nat, data: seq<byte>): seq<Event> {
    seq(|data|, i requires 0 <= i < |data| => ByteWritten(destination, offset + i, data[i]))
  }

  /** An upload row is present when its bytes are; the last row need not be padded. */
  predicate RowsPresent(height: nat, stride: nat, rowSize: nat, data: seq<byte>) {
    height > 0 && rowSize <= stride && Rows(stride, height - 1) + rowSize <= |data|
  }

  lemma RowInside(height: nat, stride: nat, rowSize: nat, data: seq<byte>, r: nat)
    requires RowsPresent(height, stride, rowSize, data) && r < height
    ensures Rows(stride, r) + rowSize <= |data|
  {
    RowsAdd(stride, r, height - 1 - r);
  }

  function RowTexels(stride: nat, rowSize: nat, data: seq<byte>, r: nat): seq<byte>
    requires Rows(stride, r) + rowSize <= |data|
  {
    data[Rows(stride, r)..Rows(stride, r) + rowSize]
  }

  function RowEvents(destination: ObjectId, area: Rect, stride: nat, rowSize: nat, data: seq<byte>): (events: seq<Event>)
    requires RowsPresent(area.height, stride, rowSize, data)
    ensures |events| == area.height
  {
    seq(area.height, r requires 0 <= r < area.height =>
      RowInside(area.height, stride, rowSize, data, r);
      RowWritten(destination, area.x, area.y + r, area.width, RowTexels(stride, rowSize, data, r)))
  }

  lemma RowEventAt(destination: ObjectId, area: Rect, stride: nat, rowSize: nat, data: seq<byte>, r: nat)
    requires RowsPresent(area.height, stride, rowSize, data) && r < area.height
    ensures Rows(stride, r) + rowSize <= |data|
    ensures RowEvents(destination, area, stride, rowSize, data)[r]
         == RowWritten(destination, area.x, area.y + r, area.width, RowTexels(stride, rowSize, data, r))
  {
    RowInside(area.height, stride, rowSize, data, r);
  }

  function TransferStep(f: Formats, s: Machine, op: Operation): Outcome
    requires IsTransfer(op)
  {
    match op
    case WriteBuffer(destination, offset, data) =>
      if data != [] && offset + |data| < U64_LIMIT then Ran(s, ByteEvents(destination, offset, data)) else Stuck
    case WriteTexture(destination, area, stride, data) =>
      if destination in f && RowsPresent(area.height, stride, area.width * f[destination], data)
         && 0 < area.width && 0 < f[destination]
      then Ran(s, RowEvents(destination, area, stride, area.width * f[destination], data))
      else Stuck
    case CopyTexture(_, _, _, _) => Ran(s, [Transferred(op)])
    case BlitTexture(_, _, _, _, _, _, _) => Ran(s, [Transferred(op)])
  }

  function Bind(b: Bindings, op: Operation): Bindings {
    match op
    case SetPipeline(p) => b.(pipeline := Some(p))
    case SetVertexBuffer(o, offset) => b.(vertex := Some((o, offset)))
    case SetIndexBuffer(o, offset, format) => b.(index := Some((o, offset, format)))
    case SetTexture(t) => b.(texture := Some(t))
    case SetSampler(s) => b.(sampler := Some(s))
    case SetUniforms(u) => b.(uniforms := Some(u))
    case SetScissor(r) => b.(scissor := r)
    case SetViewport(v) => b.(viewport := Some(v))
    case _ => b
  }

  /** One operation of the pass machine; Stuck is a rejected stream. */
  function Step(f: Formats, s: Machine, op: Operation): Outcome {
    if IsTransfer(op) then
      if s.pass.None? then TransferStep(f, s, op) else Stuck
    else if op.BeginRenderPass? then
      if s.pass.None? then Ran(Machine(Some(op.pass), UNBOUND), BeginEvents(op.pass)) else Stuck
    else if s.pass.None? then Stuck
    else if op.EndRenderPass? then
      Ran(IDLE, EndEvents(s.pass.value))
    else if IsDraw(op) then
      var p := s.pass.value;
      Ran(s, [Drawn(p.target, p.area, DepthTarget(p), s.bound, op)])
    else
      Ran(s.(bound := Bind(s.bound, op)), [])
  }

  function Continue(f: Formats, o: Outcome, op: Operation): Outcome {
    if o.Stuck? then Stuck
    else
      var next := Step(f, o.state, op);
      if next.Stuck? then Stuck else Ran(next.state, o.events + next.events)
  }

  /** Run a stream from an idle machine, as each submission is compiled on its own. */
  function Run(f: Formats, ops: seq<Operation>): Outcome {
    if ops == [] then Ran(IDLE, [])
    else Continue(f, Run(f, ops[..|ops| - 1]), ops[|ops| - 1])
  }

  /** The meaning of a balanced stream; None for a stream compilation would reject. */
  function Meaning(f: Formats, ops: seq<Operation>): Option<seq<Event>> {
    var o := Run(f, ops);
    if o.Ran? && o.state.pass.None? then Some(o.events) else None
  }

  /** Submissions executed one after another. */
  function ChunksMeaning(f: Formats, chunks: seq<seq<Operation>>): Option<seq<Event>> {
    if chunks == [] then Some([])
    else
      var before := ChunksMeaning(f, chunks[..|chunks| - 1]);
      var last := Meaning(f, chunks[|chunks| - 1]);
      if before.Some? && last.Some? then Some(before.value + last.value) else None
  }

  function DrawCount(ops: seq<Operation>): nat {
    if ops == [] then 0
    else DrawCount(ops[..|ops| - 1]) + (if IsDraw(ops[|ops| - 1]) then 1 else 0)
  }

  function TotalDraws(chunks: seq<seq<Operation>>): nat {
    if chunks == [] then 0
    else TotalDraws(chunks[..|chunks| - 1]) + DrawCount(chunks[|chunks| - 1])
  }

  // ---- composition --------------------------------------------------------------

  lemma RunSnoc(f: Formats, ops: seq<Operation>, op: Operation)
    ensures Run(f, ops + [op]) == Continue(f, Run(f, ops), op)
  {
    assert (ops + [op])[..|ops|] == ops;
  }

  lemma DrawCountSnoc(ops: seq<Operation>, op: Operation)
    ensures DrawCount(ops + [op]) == DrawCount(ops) + (if IsDraw(op) then 1 else 0)
  {
    assert (ops + [op])[..|ops|] == ops;
  }

  lemma ChunksSnoc(f: Formats, chunks: seq<seq<Operation>>, chunk: seq<Operation>)
    ensures TotalDraws(chunks + [chunk]) == TotalDraws(chunks) + DrawCount(chunk)
    ensures ChunksMeaning(f, chunks).Some? && Meaning(f, chunk).Some? ==>
              ChunksMeaning(f, chunks + [chunk]) ==
              Some(ChunksMeaning(f, chunks).value + Meaning(f, chunk).value)
  {
    assert (chunks + [chunk])[..|chunks|] == chunks;
  }

  lemma ChunksOne(f: Formats, chunk: seq<Operation>)
    ensures ChunksMeaning(f, [chunk]) == Meaning(f, chunk)
  {
    assert [chunk][..0] == [];
    if Meaning(f, chunk).Some? {
      assert [] + Meaning(f, chunk).value == Meaning(f, chunk).value;
    }
  }

  /** Executing a then b is executing a + b, also when either is rejected. */
  lemma {:induction false} ChunksConcat(f: Formats, a: seq<seq<Operation>>, b: seq<seq<Operation>>)
    ensures TotalDraws(a + b) == TotalDraws(a) + TotalDraws(b)
    ensures ChunksMeaning(f, a + b) ==
            if ChunksMeaning(f, a).Some? && ChunksMeaning(f, b).Some?
            then Some(ChunksMeaning(f, a).value + ChunksMeaning(f, b).value) else None
  {
    if b == [] {
      assert a + b == a;
      assert ChunksMeaning(f, a).Some? ==> ChunksMeaning(f, a).value + [] == ChunksMeaning(f, a).value;
    } else {
      var front := b[..|b| - 1];
      ChunksConcat(f, a, front);
      assert (a + b)[..|a + b| - 1] == a + front;
      var x, y, z := ChunksMeaning(f, a), ChunksMeaning(f, front), Meaning(f, b[|b| - 1]);
      assert x.Some? && y.Some? && z.Some? ==>
          (x.value + y.value) + z.value == x.value + (y.value + z.value);
    }
  }

  /** Bindings never outlive their pass. */
  lemma {:induction false} IdleIsUnbound(f: Formats, ops: seq<Operation>)
    ensures Run(f, ops).Ran? && Run(f, ops).state.pass.None? ==> Run(f, ops).state == IDLE
  {
    if ops != [] {
      IdleIsUnbound(f, ops[..|ops| - 1]);
    }
  }
}
