/** What follows a compilation: every object it generates can be placed, and a strip always fits the wire. */
module CompiledObjects {
  import opened Wrappers
  import opened WireFormat
  import opened Accesses
  import opened Commands
  import opened Draws
  import opened Images
  import opened Bounds
  import opened Uploads
  import opened Painting
  import opened Lowering
  import opened Compile
  import opened CompileStream
  import opened Placements
  import A = AsyncSplit
  import S = StripLimits
  import T = WireTranslation
  import O = Operations

  // ---- generated objects --------------------------------------------------------------------------------------------------

  /** At most one object more, and that one placeable. */
  ghost predicate GrewPlaceably(l: Lowered, m: Lowered) {
    m.generated == l.generated || exists g :: m.generated == l.generated + [g] && Placeable(g)
  }

  lemma SixtyFour()
    ensures IsPowerOfTwo(64)
  {
    assert IsPowerOfTwo(1) && IsPowerOfTwo(2) && IsPowerOfTwo(4) && IsPowerOfTwo(8) && IsPowerOfTwo(16) && IsPowerOfTwo(32);
  }

  lemma StillPlaceable(l: Lowered, m: Lowered)
    requires AllPlaceable(l.generated) && GrewPlaceably(l, m)
    ensures AllPlaceable(m.generated)
  {
  }

  lemma SequencePlaceable(l: Lowered)
    ensures GrewPlaceably(l, WithSequence(l))
  {
    SixtyFour();
    if l.sequence.None? {
      var g := GeneratedObject(64, [0, 0, 0, 0], WRITE, CcuSequence);
      assert WithSequence(l).generated == l.generated + [g] && Placeable(g);
    }
  }

  lemma StatePlaceable(l: Lowered, d: DrawState)
    ensures GrewPlaceably(l, WithState(l, d))
  {
    SixtyFour();
    if WithState(l, d).generated != l.generated {
      assert WithState(l, d).generated == l.generated + [StateObject()] && Placeable(StateObject());
    }
  }

  lemma UploadPlaceable(l: Lowered, bytes: seq<byte>, cs: seq<Command>)
    requires bytes != []
    ensures GrewPlaceably(l, Append(AddObject(l, GeneratedObject(64, bytes, READ, Upload)), cs))
  {
    SixtyFour();
    assert Placeable(GeneratedObject(64, bytes, READ, Upload));
  }

  lemma TransferOpPlaceable(i: Input, l: Lowered, op: O.Operation, m: Lowered)
    requires O.IsTransfer(op) && LowerTransfer(i, l, op) == Ok(m)
    ensures GrewPlaceably(l, m)
  {
    SequencePlaceable(l);
    match op
    case WriteBuffer(destination, offset, data) =>
      UploadPlaceable(l, data, CopyRow(|l.generated|, 0, destination, offset, |data| / 4));
    case WriteTexture(destination, area, stride, data) => StripPlaceable(i, l, destination, area, stride, data);
    case CopyTexture(_, _, _, _) =>
    case BlitTexture(_, _, _, _, _, _, _) =>
  }

  lemma StripPlaceable(i: Input, l: Lowered, destination: nat, area: O.Rect, stride: nat, data: seq<byte>)
    requires LowerWriteTexture(i, l, destination, area, stride, data).Ok?
    ensures GrewPlaceably(l, LowerWriteTexture(i, l, destination, area, stride, data).value)
  {
    var r := Find(i.resources, destination).value;
    var s := Source(r.kind.image.format, area.width, area.height, stride, data);
    var c := CanvasOf(ImageSurface(r, CopyDst, i.maxPitch).value, r.kind.image.format);
    AreaInside(r, i.maxPitch, area, r.kind.image.format);
    SomeRows(4 * area.width, area.height);
    UploadPlaceable(l, Pixels(s, area.height), CopyRows(|l.generated|, c, area, r.size, area.height));
  }

  lemma DrawPlaceable(i: Input, s: State, l: Lowered, op: O.Operation, m: Lowered)
    requires AllPlaceable(l.generated) && O.IsDraw(op) && s.machine.pass.Some? && LowerDraw(i, s, l, op) == Ok(m)
    ensures AllPlaceable(m.generated)
  {
    var batch, d := OpenBatch(s, l).value, DrawStateFor(i, s.machine.pass.value, s.machine.bound, op).value;
    SequencePlaceable(l);
    StillPlaceable(l, batch);
    StatePlaceable(batch, d);
    StillPlaceable(batch, WithState(batch, d));
  }

  lemma StepPlaceable(i: Input, s: State, l: Lowered, op: O.Operation, m: Lowered)
    requires AllPlaceable(l.generated) && (l.active ==> l.sequence.Some?)
    requires LowerOne(i, s, l, op).Ok? && m == LowerOne(i, s, l, op).value.1
    ensures AllPlaceable(m.generated)
  {
    if O.IsTransfer(op) {
      TransferOpPlaceable(i, l, op, m);
      StillPlaceable(l, m);
    } else if op.BeginRenderPass? {
      SequencePlaceable(l);
      StillPlaceable(l, m);
    } else if O.IsDraw(op) {
      DrawPlaceable(i, s, l, op, m);
    }
  }

  lemma {:induction false} RunPlaceable(i: Input, ops: seq<O.Operation>)
    requires LowerRun(i, ops).Ok?
    ensures AllPlaceable(LowerRun(i, ops).value.1.generated)
  {
    if ops != [] {
      var n := |ops| - 1;
      RunPlaceable(i, ops[..n]);
      StepPlaceable(i, LowerRun(i, ops[..n]).value.0, LowerRun(i, ops[..n]).value.1, ops[n], LowerRun(i, ops).value.1);
    }
  }

  /** Everything a compilation generates can be placed: placement can only run out of arena. */
  lemma CompiledPlaceable(i: Input, ops: seq<O.Operation>)
    requires LowerStream(i, ops).Ok?
    ensures AllPlaceable(LowerStream(i, ops).value.generated)
  {
    RunPlaceable(i, ops);
  }

  // ---- a strip on the wire --------------------------------------------------------------------------------------------------

  /** A single texture write compiles to its row copies. */
  lemma StripCommands(i: Input, op: O.Operation, c: Canvas, size: nat)
    requires op.WriteTexture? && LowerStream(i, [op]).Ok?
    requires WriteTextureError(i, op.destination, op.area, op.bytesPerRow, op.data).None? ==>
               && c == CanvasOf(SurfaceFor(i, op.destination, CopyDst).value, Find(i.resources, op.destination).value.kind.image.format)
               && size == Find(i.resources, op.destination).value.size
    ensures WriteTextureError(i, op.destination, op.area, op.bytesPerRow, op.data).None? && op.area.width <= 0x8000
    ensures StripFits(c, op.area, size) && AllCommands(LowerStream(i, [op]).value) == CopyRows(0, c, op.area, size, op.area.height)
  {
    assert [op][..0] == [];
    assert LowerRun(i, [op][..0]) == Ok((State(O.IDLE, false), NOTHING_LOWERED));
    var l := LowerWriteTexture(i, NOTHING_LOWERED, op.destination, op.area, op.bytesPerRow, op.data).value;
    var r := Find(i.resources, op.destination).value;
    AreaInside(r, i.maxPitch, op.area, r.kind.image.format);
    assert l.states == [] && l.commands == [] + CopyRows(0, c, op.area, size, op.area.height);
  }

  /** The count-only check accepts counts as small as a strip's. */
  lemma SmallPreflight(c: T.Compiled)
    requires 0 < |c.words| <= 8192 && |c.accesses| <= 513 && |c.fixups| <= 2048
    ensures T.Preflight(c).Ok?
  {
  }

  /** Whatever a submission of one bounded texture write compiles to fits the wire's tables and passes the
      count-only check. */
  lemma StripAlwaysFits(i: Input, op: O.Operation, out: T.Compiled)
    requires op.WriteTexture? && A.Bounded([op]) && LowerStream(i, [op]).Ok?
    requires var l := LowerStream(i, [op]).value;
             WellFormed(ObjectsOf(WorldOf(i), l), out, LowerAll(AllCommands(l)), i.maxWords)
    ensures |out.accesses| <= 513 && |out.fixups| <= 2048 && T.Preflight(out).Ok?
  {
    var c, size := StripCanvas(i, op);
    StripCommands(i, op, c, size);
    StripCounts(out, op, c, size, ObjectsOf(WorldOf(i), LowerStream(i, [op]).value), i.maxWords);
    SmallPreflight(out);
  }

  lemma StripCanvas(i: Input, op: O.Operation) returns (c: Canvas, size: nat)
    requires op.WriteTexture?
    ensures WriteTextureError(i, op.destination, op.area, op.bytesPerRow, op.data).None? ==>
               && c == CanvasOf(SurfaceFor(i, op.destination, CopyDst).value, Find(i.resources, op.destination).value.kind.image.format)
               && size == Find(i.resources, op.destination).value.size
  {
    c, size := Canvas(0, 0, 0, Bgra8), 0;
    if WriteTextureError(i, op.destination, op.area, op.bytesPerRow, op.data).None? {
      c := CanvasOf(SurfaceFor(i, op.destination, CopyDst).value, Find(i.resources, op.destination).value.kind.image.format);
      size := Find(i.resources, op.destination).value.size;
    }
  }

  lemma StripCounts(out: T.Compiled, op: O.Operation, c: Canvas, size: nat, o: Objects, budget: u32)
    requires op.WriteTexture? && op.bytesPerRow > 0 && 0 < op.area.height <= A.StripRows(op.bytesPerRow, op.area.width)
    requires op.area.width <= 0x8000 && StripFits(c, op.area, size)
    requires WellFormed(o, out, LowerAll(CopyRows(0, c, op.area, size, op.area.height)), budget)
    ensures 0 < |out.words| <= 8192 && |out.accesses| <= 513 && |out.fixups| <= 2048
  {
    var rows, cs := op.area.height, S.StreamOf(CopyRows(0, c, op.area, size, op.area.height));
    S.StripSizes(op.bytesPerRow, op.area.width, rows);
    S.StripFixups(0, c, op.area, size, rows, cs);
    SomeRows(7 * S.CopyCount(op.area.width), rows);
    S.StripWithinWireTables(out.accesses, 0, c, op, op, size);
  }
}
