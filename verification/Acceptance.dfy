/** Splitting and compiling together: what the compiler lowers whole, it lowers chunk by chunk.

    Whether an operation is lowered depends on where the pass machine stands and not on what was lowered
    before it, as long as there is room for generated objects; and the splitter keeps the machine where it was. */
module Acceptance {
  import opened Wrappers
  import opened Operations
  import opened Splitter
  import opened AsyncSplit
  import opened Retry
  import opened Accesses
  import opened Draws
  import opened Transfers
  import C = Commands
  import D = Descriptors
  import opened Images
  import opened Uploads
  import opened Lowering
  import opened Compile
  import opened CompileStream

  /** The operation is lowered where the machine stands, as the first of its submission. */
  predicate Lowers(i: Input, m: Machine, op: Operation) { LowerOne(i, State(m, false), NOTHING_LOWERED, op).Ok? }

  function Compiler(i: Input): Judge { (m, op) => Lowers(i, m, op) }

  // ---- the compiler accepts the parts of what it accepts -----------------------------------------------------------------

  lemma AttachedDraws(i: Input, a: RenderPass, b: RenderPass, bound: Bindings, op: Operation)
    requires IsDraw(op) && Loaded(Stored(a)) == Loaded(Stored(b))
    ensures DrawStateFor(i, a, bound, op) == DrawStateFor(i, b, bound, op)
  {
    assert a.target == b.target && a.area == b.area && DepthTarget(a) == DepthTarget(b);
  }

  lemma AttachedBinds(i: Input, a: RenderPass, b: RenderPass, op: Operation)
    requires IsBinding(op) && Loaded(Stored(a)) == Loaded(Stored(b))
    ensures BindError(i, a, op) == BindError(i, b, op)
  {
    assert a.target == b.target && a.area == b.area;
  }

  lemma LowersAttached(i: Input, m: Machine, n: Machine, op: Operation)
    requires Lowers(i, m, op) && n.bound == m.bound && SameAttachments(m.pass, n.pass)
    ensures Lowers(i, n, op)
  {
    if m.pass.Some? {
      if IsDraw(op) {
        AttachedDraws(i, m.pass.value, n.pass.value, m.bound, op);
      } else if IsBinding(op) {
        AttachedBinds(i, m.pass.value, n.pass.value, op);
      }
    }
  }

  lemma LowersBegin(i: Input, m: Machine, pass: RenderPass)
    requires Lowers(i, m, BeginRenderPass(pass))
    ensures Lowers(i, m, BeginRenderPass(Stored(pass))) && Lowers(i, m, BeginRenderPass(Loaded(pass)))
  {
  }

  lemma LowersSet(i: Input, m: Machine, n: Machine, op: Operation)
    requires IsSet(op) && Lowers(i, m, op) && n.pass == m.pass
    ensures Lowers(i, n, op)
  {
  }

  lemma LowersEnd(i: Input, m: Machine)
    requires m.pass.Some?
    ensures Lowers(i, m, EndRenderPass)
  {
  }

  lemma CompilerIsTolerant(i: Input)
    ensures Tolerant(Compiler(i))
  {
    var ok := Compiler(i);
    forall m: Machine, n: Machine, op: Operation | ok(m, op) && n.bound == m.bound && SameAttachments(m.pass, n.pass)
      ensures ok(n, op)
    {
      LowersAttached(i, m, n, op);
    }
    forall m: Machine, n: Machine, op: Operation | IsSet(op) && ok(m, op) && n.pass == m.pass
      ensures ok(n, op)
    {
      LowersSet(i, m, n, op);
    }
    forall m: Machine | m.pass.Some?
      ensures ok(m, EndRenderPass)
    {
      LowersEnd(i, m);
    }
    forall m, p | ok(m, BeginRenderPass(p))
      ensures ok(m, BeginRenderPass(Stored(p))) && ok(m, BeginRenderPass(Loaded(p)))
    {
      LowersBegin(i, m, p);
    }
  }

  /** Pieces keep the dword alignment of the whole write. */
  lemma CutAligned(data: seq<byte>, offset: nat, a: nat, b: nat)
    requires IsCut(data, a, b) && |data| % 4 == 0 && offset % 4 == 0
    ensures (b - a) % 4 == 0 && (offset + a) % 4 == 0
  {
  }

  lemma BufferLowers(i: Input, destination: ObjectId, offset: nat, data: seq<byte>)
    ensures var r := Find(i.resources, destination);
            Lowers(i, IDLE, WriteBuffer(destination, offset, data)) ==
            (r.Ok? && IsBuffer(r.value, CopyDst) && RangeInside(r.value.size, offset, |data|) && |data| % 4 == 0 && offset % 4 == 0)
  {
  }

  lemma PieceLowers(i: Input, destination: ObjectId, offset: nat, data: seq<byte>, a: nat, b: nat)
    requires Lowers(i, IDLE, WriteBuffer(destination, offset, data)) && IsCut(data, a, b)
    ensures Lowers(i, IDLE, WriteBuffer(destination, offset + a, data[a..b]))
  {
    CutAligned(data, offset, a, b);
    BufferLowers(i, destination, offset, data);
    BufferLowers(i, destination, offset + a, data[a..b]);
  }

  lemma StripLowers(i: Input, op: Operation, row: nat, rows: nat)
    requires op.WriteTexture? && Lowers(i, IDLE, op) && IsStripOf(op, row, rows)
    ensures Lowers(i, IDLE, StripOf(op, row, rows).value)
  {
    var rowSize := RowSize(Find(i.resources, op.destination).value.kind.image.format, op.area.width);
    StripRowsPresent(op.area.height, op.bytesPerRow, rowSize, op.data, row, rows);
  }

  lemma CompilerTakesParts(i: Input)
    ensures TakesParts(Compiler(i))
  {
    var ok := Compiler(i);
    forall d, offset: nat, data, a: nat, b: nat | ok(IDLE, WriteBuffer(d, offset, data)) && IsCut(data, a, b)
      ensures ok(IDLE, WriteBuffer(d, offset + a, data[a..b]))
    {
      PieceLowers(i, d, offset, data, a, b);
    }
    forall op: Operation, row: nat, rows: nat | op.WriteTexture? && ok(IDLE, op) && IsStripOf(op, row, rows)
      ensures ok(IDLE, StripOf(op, row, rows).value)
    {
      StripLowers(i, op, row, rows);
    }
  }

  // ---- an operation is lowered wherever it is lowered alone ------------------------------------------------------------

  /** The fields of a complete draw and of its descriptor fit. */
  predicate Drawable(d: DrawState) {
    && !TooWide(d.fixed.target) && (d.fixed.depth.Some? ==> !TooWide(d.fixed.depth.value.target))
    && (d.texture.Some? ==> D.Describable(d.texture.value))
  }

  /** What a later draw may leave unchecked was checked before. */
  ghost predicate Checked(l: Lowered) {
    && (l.last.Some? ==> Drawable(l.last.value))
    && (forall k | 0 <= k < |l.states| :: D.Describable(l.states[k].texture))
  }

  predicate Roomy(l: Lowered) { |l.generated| + 1 < 0x1_0000_0000 }

  lemma DrawnWhereDrawable(l: Lowered, d: DrawState)
    requires Checked(l)
    ensures !Unencodable(l, d) ==> Drawable(d)
    ensures Drawable(d) && !Full(l) ==> !Unencodable(l, d)
  {
    if d.texture.Some? && Lookup(l.states, d.texture.value, d.sampler).Some? {
      var k := D.LookupFinds(l.states, d.texture.value, d.sampler);
    }
  }

  /** Alone or behind others, a draw is lowered when it has a state and its fields fit. */
  lemma DrawAlone(i: Input, m: Machine, op: Operation)
    requires IsDraw(op) && m.pass.Some?
    ensures var d := DrawStateFor(i, m.pass.value, m.bound, op);
            Lowers(i, m, op) == (d.Ok? && ValidDraw(d.value) && Drawable(d.value))
  {
    var first := BeginBatch(NOTHING_LOWERED).value;
    var d := DrawStateFor(i, m.pass.value, m.bound, op);
    if d.Ok? {
      DrawnWhereDrawable(first, d.value);
    }
  }

  lemma DrawBehind(i: Input, s: State, l: Lowered, op: Operation)
    requires IsDraw(op) && s.machine.pass.Some? && Checked(l) && InTouch(s, l)
    ensures LowerDraw(i, s, l, op).Ok? ==> Lowers(i, s.machine, op)
    ensures Lowers(i, s.machine, op) && Roomy(l) ==> LowerDraw(i, s, l, op).Ok?
  {
    DrawAlone(i, s.machine, op);
    var batch, d := OpenBatch(s, l), DrawStateFor(i, s.machine.pass.value, s.machine.bound, op);
    if batch.Ok? && d.Ok? {
      DrawnWhereDrawable(batch.value, d.value);
    }
  }

  lemma TransferBehind(i: Input, l: Lowered, op: Operation)
    requires IsTransfer(op) && !l.active
    ensures LowerTransfer(i, l, op).Ok? ==> Lowers(i, IDLE, op)
    ensures Lowers(i, IDLE, op) && Roomy(l) ==> LowerTransfer(i, l, op).Ok?
  {
  }

  /** An operation is lowered behind others exactly when it is alone, as long as there is room. */
  lemma LowersBehind(i: Input, s: State, l: Lowered, op: Operation)
    requires Checked(l) && InTouch(s, l) && (l.active ==> l.sequence.Some?)
    ensures LowerOne(i, s, l, op).Ok? ==> Lowers(i, s.machine, op)
    ensures Lowers(i, s.machine, op) && Roomy(l) ==> LowerOne(i, s, l, op).Ok?
  {
    if IsTransfer(op) {
      if s.machine.pass.None? {
        TransferBehind(i, l, op);
      }
    } else if IsDraw(op) && s.machine.pass.Some? {
      DrawBehind(i, s, l, op);
    }
  }

  // ---- room for generated objects ----------------------------------------------------------------------------------------

  function Generates(op: Operation): nat { if IsDraw(op) || IsTransfer(op) then 1 else 0 }

  /** At most one object of its own for each operation that may generate one. */
  function Generators(ops: seq<Operation>): nat {
    if ops == [] then 0 else Generators(ops[..|ops| - 1]) + Generates(ops[|ops| - 1])
  }

  /** The generated objects but for the shared sequence word. */
  function Own(l: Lowered): int { |l.generated| - if l.sequence.Some? then 1 else 0 }

  /** What was lowered stays checked, with at most so many more objects. */
  ghost predicate Follows(l: Lowered, m: Lowered, more: nat) { (Checked(l) ==> Checked(m)) && Own(m) <= Own(l) + more }

  lemma TransferFollowsOn(l: Lowered, body: seq<C.Command>)
    requires Transfer(l, body).Ok?
    ensures Follows(l, Transfer(l, body).value, 0)
  {
  }

  lemma UploadFollows(l: Lowered, bytes: seq<byte>, cs: seq<C.Command>)
    ensures Follows(l, Append(AddObject(l, GeneratedObject(64, bytes, READ, Upload)), cs), 1)
  {
  }

  lemma WriteBufferFollows(i: Input, l: Lowered, destination: nat, offset: nat, data: seq<byte>)
    requires LowerWriteBuffer(i, l, destination, offset, data).Ok?
    ensures Follows(l, LowerWriteBuffer(i, l, destination, offset, data).value, 1)
  {
    UploadFollows(l, data, CopyRow(|l.generated|, 0, destination, offset, |data| / 4));
  }

  lemma WriteTextureFollows(i: Input, l: Lowered, destination: nat, area: Rect, stride: nat, data: seq<byte>)
    requires LowerWriteTexture(i, l, destination, area, stride, data).Ok?
    ensures Follows(l, LowerWriteTexture(i, l, destination, area, stride, data).value, 1)
  {
  }

  lemma BlitFollows(l: Lowered, source: Surface, sourceRect: Rect, destination: Surface, destinationRect: Rect, linear: bool,
                    rotation: nat)
    requires LowerBlit(l, source, sourceRect, destination, destinationRect, linear, rotation).Ok?
    ensures Follows(l, LowerBlit(l, source, sourceRect, destination, destinationRect, linear, rotation).value, 0)
  {
    TransferFollowsOn(l, Wait() + BlitBody(source, sourceRect, destination, destinationRect, linear, rotation));
  }

  lemma CopyFollows(i: Input, l: Lowered, source: nat, sourceRect: Rect, destination: nat, destinationRect: Rect)
    requires LowerCopy(i, l, source, sourceRect, destination, destinationRect).Ok?
    ensures Follows(l, LowerCopy(i, l, source, sourceRect, destination, destinationRect).value, 0)
  {
    var s, d := TargetFor(i, source, CopySrc), TargetFor(i, destination, CopyDst);
    BlitFollows(l, s.value, sourceRect, d.value, destinationRect, false, 0);
  }

  lemma ScaledBlitFollows(i: Input, l: Lowered, source: nat, sourceRect: Rect, destination: nat, destinationRect: Rect,
                          linear: bool, rotation: nat)
    requires LowerScaledBlit(i, l, source, sourceRect, destination, destinationRect, linear, rotation).Ok?
    ensures Follows(l, LowerScaledBlit(i, l, source, sourceRect, destination, destinationRect, linear, rotation).value, 0)
  {
    var s, d := SurfaceFor(i, source, CopySrc), SurfaceFor(i, destination, CopyDst);
    BlitFollows(l, s.value, sourceRect, d.value, destinationRect, linear, rotation);
  }

  lemma TransferOpFollows(i: Input, l: Lowered, op: Operation)
    requires IsTransfer(op) && LowerTransfer(i, l, op).Ok?
    ensures Follows(l, LowerTransfer(i, l, op).value, 1)
  {
    match op
    case WriteBuffer(destination, offset, data) => WriteBufferFollows(i, l, destination, offset, data);
    case WriteTexture(destination, area, stride, data) => WriteTextureFollows(i, l, destination, area, stride, data);
    case CopyTexture(source, sourceRect, destination, destinationRect) =>
      CopyFollows(i, l, source, sourceRect, destination, destinationRect);
    case BlitTexture(source, sourceRect, destination, destinationRect, filter, flipX, flipY) =>
      ScaledBlitFollows(i, l, source, sourceRect, destination, destinationRect, filter != 0, Rotation(flipX, flipY));
  }

  lemma BeginFollows(i: Input, l: Lowered, pass: RenderPass)
    requires LowerBegin(i, l, pass).Ok?
    ensures Follows(l, LowerBegin(i, l, pass).value, 0)
  {
    if Clears(pass) {
      var target := TargetFor(i, pass.target, RenderAttachment).value;
      var depth := if pass.depth.Some? then Some(DepthFor(i, pass.depth.value.target, target).value) else None;
      TransferFollowsOn(l, Fills(i, pass, target, depth));
    }
  }

  lemma OpenFollows(s: State, l: Lowered)
    requires OpenBatch(s, l).Ok?
    ensures Follows(l, OpenBatch(s, l).value, 0)
  {
  }

  lemma DrawOnFollows(t: Tables, l: Lowered, d: DrawState)
    requires ValidDraw(d) && DrawOn(t, l, d).Ok?
    ensures Follows(l, DrawOn(t, l, d).value, 1)
  {
    if Checked(l) {
      DrawnWhereDrawable(l, d);
    }
  }

  lemma DrawFollows(i: Input, s: State, l: Lowered, op: Operation)
    requires IsDraw(op) && s.machine.pass.Some? && LowerDraw(i, s, l, op).Ok?
    ensures Follows(l, LowerDraw(i, s, l, op).value, 1)
  {
    OpenFollows(s, l);
    DrawOnFollows(i.enc.tables, OpenBatch(s, l).value, DrawStateFor(i, s.machine.pass.value, s.machine.bound, op).value);
  }

  lemma OneFollows(i: Input, s: State, l: Lowered, op: Operation)
    requires (l.active ==> l.sequence.Some?) && LowerOne(i, s, l, op).Ok?
    ensures Follows(l, LowerOne(i, s, l, op).value.1, Generates(op))
  {
    if IsTransfer(op) {
      TransferOpFollows(i, l, op);
    } else if op.BeginRenderPass? {
      BeginFollows(i, l, op.pass);
    } else if IsDraw(op) {
      DrawFollows(i, s, l, op);
    }
  }

  /** Everything a lowered stream promises of the next operation. */
  lemma {:induction false} LoweredRun(i: Input, ops: seq<Operation>)
    requires LowerRun(i, ops).Ok?
    ensures Checked(LowerRun(i, ops).value.1) && Own(LowerRun(i, ops).value.1) <= Generators(ops)
    ensures AllOk(FormatsOf(i.resources), Compiler(i), ops)
  {
    if ops != [] {
      var front, op := ops[..|ops| - 1], ops[|ops| - 1];
      LoweredRun(i, front);
      var (s, l) := LowerRun(i, front).value;
      LowersBehind(i, s, l, op);
      OneFollows(i, s, l, op);
    }
  }

  lemma {:induction false} AcceptedRun(i: Input, ops: seq<Operation>)
    requires AllOk(FormatsOf(i.resources), Compiler(i), ops) && Generators(ops) + 2 < 0x1_0000_0000
    ensures LowerRun(i, ops).Ok?
  {
    if ops != [] {
      var front, op := ops[..|ops| - 1], ops[|ops| - 1];
      AcceptedRun(i, front);
      LoweredRun(i, front);
      var (s, l) := LowerRun(i, front).value;
      LowersBehind(i, s, l, op);
    }
  }

  // ---- chunks ------------------------------------------------------------------------------------------------------------

  lemma {:induction false} RenderingGenerates(ops: seq<Operation>)
    requires Rendering(ops)
    ensures Generators(ops) == DrawCount(ops)
  {
    if ops != [] {
      RenderingGenerates(ops[..|ops| - 1]);
    }
  }

  lemma BoundedGenerates(c: seq<Operation>)
    requires AsyncSplit.Bounded(c)
    ensures Generators(c) <= GRAPHICS_DRAWS
  {
    if |c| == 1 {
      assert Generators(c[..0]) == 0;
    } else {
      RenderingGenerates(c);
      LimitBoundsDraws(c, GRAPHICS_DRAWS);
    }
  }

  ghost predicate AllLower(i: Input, chunks: seq<seq<Operation>>) { forall c | c in chunks :: LowerStream(i, c).Ok? }

  lemma ChunkLowers(i: Input, c: seq<Operation>)
    requires TablesError(i, |i.resources|).None? && AsyncSplit.Bounded(c) && AllOk(FormatsOf(i.resources), Compiler(i), c)
    requires Meaning(FormatsOf(i.resources), c).Some?
    ensures LowerStream(i, c).Ok?
  {
    BoundedGenerates(c);
    AcceptedRun(i, c);
  }

  lemma {:induction false} EveryChunkMeans(f: Formats, chunks: seq<seq<Operation>>)
    requires ChunksMeaning(f, chunks).Some?
    ensures forall c | c in chunks :: Meaning(f, c).Some?
  {
    if chunks != [] {
      EveryChunkMeans(f, chunks[..|chunks| - 1]);
    }
  }

  lemma ChunksLower(i: Input, chunks: seq<seq<Operation>>)
    requires TablesError(i, |i.resources|).None? && AllBounded(chunks)
    requires AllChunksOk(FormatsOf(i.resources), Compiler(i), chunks) && ChunksMeaning(FormatsOf(i.resources), chunks).Some?
    ensures AllLower(i, chunks)
  {
    EveryChunkMeans(FormatsOf(i.resources), chunks);
    forall c | c in chunks
      ensures LowerStream(i, c).Ok?
    {
      ChunkLowers(i, c);
    }
  }

  lemma LoweredIsFair(i: Input, source: seq<Operation>)
    requires LowerStream(i, source).Ok?
    ensures Fair(FormatsOf(i.resources), Compiler(i), source)
  {
    CompilerIsTolerant(i);
    CompilerTakesParts(i);
    LoweredRun(i, source);
  }
}
