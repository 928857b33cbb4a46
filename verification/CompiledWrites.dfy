/** What a compiled stream copies: running its copies leaves in every object exactly the bytes and, row by row at
    the image's pitch, the pixels that the stream writes there, in order. */
module CompiledWrites {
  import opened Wrappers
  import opened Arith
  import opened Sequences
  import opened WireFormat
  import opened Accesses
  import opened Commands
  import opened Draws
  import opened DrawDelta
  import opened Images
  import opened Bounds
  import opened Transfers
  import opened Uploads
  import opened Painting
  import opened Lowering
  import opened Compile
  import opened CompileStream
  import opened Descriptors
  import Emitters
  import O = Operations

  // ---- what a stream writes, row by row ---------------------------------------------------------------------------------------

  /** The effect of an event on the bytes of one object, rows being contiguous. */
  function Written(i: Input, target: nat, e: O.Event, mem: seq<byte>): (r: seq<byte>)
    ensures |r| == |mem|
  {
    match e
    case ByteWritten(destination, offset, value) =>
      if destination == target && offset < |mem| then mem[offset := value] else mem
    case RowWritten(destination, _, _, _, _) =>
      if destination == target && SurfaceFor(i, target, CopyDst).Ok? then Applied(CanvasFor(i, target), e, mem) else mem
    case _ => mem
  }

  function CanvasFor(i: Input, target: nat): Canvas
    requires SurfaceFor(i, target, CopyDst).Ok?
  {
    CanvasOf(SurfaceFor(i, target, CopyDst).value, Find(i.resources, target).value.kind.image.format)
  }

  function AllWritten(i: Input, target: nat, es: seq<O.Event>, mem: seq<byte>): (r: seq<byte>)
    ensures |r| == |mem|
  {
    if es == [] then mem else Written(i, target, es[|es| - 1], AllWritten(i, target, es[..|es| - 1], mem))
  }

  lemma {:induction false} WrittenConcat(i: Input, target: nat, a: seq<O.Event>, b: seq<O.Event>, mem: seq<byte>)
    ensures AllWritten(i, target, a + b, mem) == AllWritten(i, target, b, AllWritten(i, target, a, mem))
  {
    if b == [] {
      assert a + b == a;
    } else {
      assert (a + b)[..|a + b| - 1] == a + b[..|b| - 1];
      WrittenConcat(i, target, a, b[..|b| - 1], mem);
    }
  }

  /** The event writes nothing to the object. */
  predicate Elsewhere(target: nat, e: O.Event) {
    (e.ByteWritten? || e.RowWritten?) ==> e.destination != target
  }

  lemma {:induction false} NothingWritten(i: Input, target: nat, es: seq<O.Event>, mem: seq<byte>)
    requires forall e | e in es :: Elsewhere(target, e)
    ensures AllWritten(i, target, es, mem) == mem
  {
    if es != [] {
      NothingWritten(i, target, es[..|es| - 1], mem);
      assert Elsewhere(target, es[|es| - 1]);
    }
  }

  // ---- what the copies do -------------------------------------------------------------------------------------------------

  function Staging(gs: seq<GeneratedObject>): (s: seq<seq<byte>>)
    ensures |s| == |gs|
  {
    seq(|gs|, k requires 0 <= k < |gs| => gs[k].bytes)
  }

  predicate IsCopy(c: Command) { c.Run? && c.opcode == CP_MEMCPY }

  ghost predicate NoCopies(cs: seq<Command>) {
    forall k | 0 <= k < |cs| :: !IsCopy(cs[k])
  }

  lemma {:induction false} NothingCopied(cs: seq<Command>, staging: seq<seq<byte>>, target: nat, mem: seq<byte>)
    requires NoCopies(cs)
    ensures RunCopies(cs, staging, target, mem) == mem
    decreases |cs|
  {
    if cs != [] {
      NothingCopied(cs[1..], staging, target, mem);
    }
  }

  /** More staged objects do not change copies from those there were. */
  lemma {:induction false} CopiesKeep(o: Objects, cs: seq<Command>, was: seq<seq<byte>>, now: seq<seq<byte>>, target: nat, mem: seq<byte>)
    requires AllInside(o, cs) && |o.generated| == |was| && was <= now
    ensures RunCopies(cs, now, target, mem) == RunCopies(cs, was, target, mem)
    decreases |cs|
  {
    if cs != [] {
      assert Inside(o, cs[0]);
      CopyKeeps(o, cs[0], was, now, target, mem);
      CopiesKeep(o, cs[1..], was, now, target, Copied(cs[0], was, target, mem));
    }
  }

  lemma CopyKeeps(o: Objects, c: Command, was: seq<seq<byte>>, now: seq<seq<byte>>, target: nat, mem: seq<byte>)
    requires Inside(o, c) && |o.generated| == |was| && was <= now
    ensures Copied(c, now, target, mem) == Copied(c, was, target, mem)
  {
    if IsCopy(c) && |c.fields| == 3 && c.fields[1].Ref? {
      assert Payload(c)[1] == c.fields[1];
      assert AddressInside(o, c.fields[1].ref);
    }
  }

  lemma {:induction false} OtherTarget(id: nat, from: nat, destination: nat, to: nat, dwords: nat, staging: seq<seq<byte>>, target: nat,
                                       mem: seq<byte>)
    requires CopyFits(from, to, dwords) && target != destination
    ensures RunCopies(CopyRow(id, from, destination, to, dwords), staging, target, mem) == mem
    decreases dwords
  {
    if dwords > 0 {
      var n := Min(dwords, MAX_COPY_DWORDS);
      var rest := CopyRow(id, from + 4 * n, destination, to + 4 * n, dwords - n);
      OtherTarget(id, from + 4 * n, destination, to + 4 * n, dwords - n, staging, target, mem);
      RunCons(MemCopy(id, from, destination, to, n), [Run(WAIT_MEM_WRITES, [])] + rest, staging, target, mem);
      RunCons(Run(WAIT_MEM_WRITES, []), rest, staging, target, mem);
    }
  }

  lemma {:induction false} OtherTargets(id: nat, c: Canvas, area: O.Rect, size: nat, n: nat, staging: seq<seq<byte>>, target: nat,
                                        mem: seq<byte>)
    requires StripFits(c, area, size) && n <= area.height && target != c.target
    ensures RunCopies(CopyRows(id, c, area, size, n), staging, target, mem) == mem
  {
    if n > 0 {
      OtherTargets(id, c, area, size, n - 1, staging, target, mem);
      StripRowFits(c, area, size, n - 1);
      OtherTarget(id, Rows(4 * area.width, n - 1), c.target, PixelAt(c, area.x, area.y + (n - 1)), area.width, staging, target, mem);
      RunConcat(CopyRows(id, c, area, size, n - 1), RowCopies(id, c, area, size, n - 1), staging, target, mem);
    }
  }

  // ---- one operation: uploads ---------------------------------------------------------------------------------------------

  /** The memory of an object of the input. */
  predicate IsMemory(i: Input, target: nat, mem: seq<byte>) {
    Find(i.resources, target).Ok? && |mem| == Find(i.resources, target).value.size
  }

  lemma {:induction false} BytesPoke(i: Input, target: nat, offset: nat, data: seq<byte>, mem: seq<byte>, n: nat)
    requires n <= |data| && offset + |data| <= |mem|
    ensures AllWritten(i, target, O.ByteEvents(target, offset, data)[..n], mem) == Poke(mem, offset, data[..n])
  {
    var es := O.ByteEvents(target, offset, data);
    if n > 0 {
      BytesPoke(i, target, offset, data, mem, n - 1);
      assert es[..n][..n - 1] == es[..n - 1] && es[..n][n - 1] == O.ByteWritten(target, offset + (n - 1), data[n - 1]);
      PokeOneMore(mem, offset, data, n - 1);
    } else {
      PokeNothing(mem, offset);
    }
  }

  lemma PokeOneMore(mem: seq<byte>, offset: nat, data: seq<byte>, n: nat)
    requires n < |data| && offset + |data| <= |mem|
    ensures Poke(mem, offset, data[..n])[offset + n := data[n]] == Poke(mem, offset, data[..n + 1])
  {
  }

  lemma WriteBufferWrites(i: Input, destination: nat, offset: nat, data: seq<byte>, id: nat, staging: seq<seq<byte>>, target: nat,
                          mem: seq<byte>)
    requires |data| % 4 == 0 && CopyFits(0, offset, |data| / 4) && id < |staging| && staging[id] == data
    requires target == destination ==> offset + |data| <= |mem|
    ensures RunCopies(CopyRow(id, 0, destination, offset, |data| / 4), staging, target, mem)
         == AllWritten(i, target, O.ByteEvents(destination, offset, data), mem)
  {
    if target == destination {
      RowArrives(id, 0, target, offset, |data| / 4, staging, mem);
      BytesPoke(i, target, offset, data, mem, |data|);
      assert O.ByteEvents(target, offset, data)[..|data|] == O.ByteEvents(target, offset, data) && data[..|data|] == data;
      assert staging[id][0..0 + 4 * (|data| / 4)] == data;
    } else {
      OtherTarget(id, 0, destination, offset, |data| / 4, staging, target, mem);
      NothingWritten(i, target, O.ByteEvents(destination, offset, data), mem);
    }
  }

  lemma {:induction false} RowsApply(i: Input, target: nat, es: seq<O.Event>, mem: seq<byte>)
    requires SurfaceFor(i, target, CopyDst).Ok? && forall e | e in es :: e.RowWritten? && e.destination == target
    ensures AllWritten(i, target, es, mem) == ApplyAll(CanvasFor(i, target), es, mem)
  {
    if es != [] {
      RowsApply(i, target, es[..|es| - 1], mem);
      assert es[|es| - 1] in es;
    }
  }

  lemma WriteTextureWrites(i: Input, op: O.Operation, id: nat, staging: seq<seq<byte>>, target: nat, mem: seq<byte>)
    requires op.WriteTexture? && WriteTextureError(i, op.destination, op.area, op.bytesPerRow, op.data).None?
    requires O.TransferStep(FormatsOf(i.resources), O.IDLE, op).Ran? && IsMemory(i, target, mem)
    requires var c := CanvasFor(i, op.destination);
             Present(SourceOf(c, op)) ==> id < |staging| && staging[id] == Pixels(SourceOf(c, op), op.area.height)
    ensures StripFits(CanvasFor(i, op.destination), op.area, Find(i.resources, op.destination).value.size)
    ensures RunCopies(CopyRows(id, CanvasFor(i, op.destination), op.area, Find(i.resources, op.destination).value.size, op.area.height),
                      staging, target, mem)
         == AllWritten(i, target, O.TransferStep(FormatsOf(i.resources), O.IDLE, op).events, mem)
  {
    var f, c, r := FormatsOf(i.resources), CanvasFor(i, op.destination), Find(i.resources, op.destination).value;
    var es := O.TransferStep(f, O.IDLE, op).events;
    AreaInside(r, i.maxPitch, op.area, r.kind.image.format);
    FoundFormat(i.resources, op.destination);
    if target == op.destination {
      EventsArePokes(f, c, op, mem);
      StagedUpload(c, op, id, staging, mem);
      RowsApply(i, target, es, mem);
    } else {
      OtherTargets(id, c, op.area, r.size, op.area.height, staging, target, mem);
      NothingWritten(i, target, es, mem);
    }
  }

  // ---- growing streams ----------------------------------------------------------------------------------------------------

  /** The copies so far do what the events say to every object. */
  ghost predicate Writing(i: Input, l: Lowered, events: seq<O.Event>) {
    forall target, mem | IsMemory(i, target, mem) ::
      RunCopies(l.commands, Staging(l.generated), target, mem) == AllWritten(i, target, events, mem)
  }

  /** What `m` has beyond `l` does what the events say. */
  ghost predicate Wrote(i: Input, l: Lowered, m: Lowered, events: seq<O.Event>) {
    && l.commands <= m.commands && l.generated <= m.generated
    && forall target, mem | IsMemory(i, target, mem) ::
         RunCopies(m.commands[|l.commands|..], Staging(m.generated), target, mem) == AllWritten(i, target, events, mem)
  }

  lemma WroteMore(i: Input, l: Lowered, m: Lowered, before: seq<O.Event>, events: seq<O.Event>)
    requires Good(WorldOf(i), l) && Writing(i, l, before) && Wrote(i, l, m, events)
    ensures Writing(i, m, before + events)
  {
    forall target, mem | IsMemory(i, target, mem)
      ensures RunCopies(m.commands, Staging(m.generated), target, mem) == AllWritten(i, target, before + events, mem)
    {
      ThenWrites(i, l, m, before, events, target, mem);
    }
  }

  lemma ThenWrites(i: Input, l: Lowered, m: Lowered, before: seq<O.Event>, events: seq<O.Event>, target: nat, mem: seq<byte>)
    requires Good(WorldOf(i), l) && Writing(i, l, before) && Wrote(i, l, m, events) && IsMemory(i, target, mem)
    ensures RunCopies(m.commands, Staging(m.generated), target, mem) == AllWritten(i, target, before + events, mem)
  {
    var cs, was, now := m.commands[|l.commands|..], Staging(l.generated), Staging(m.generated);
    var mid := RunCopies(l.commands, was, target, mem);
    calc {
      RunCopies(m.commands, now, target, mem);
      { assert m.commands == l.commands + cs; RunConcat(l.commands, cs, now, target, mem); }
      RunCopies(cs, now, target, RunCopies(l.commands, now, target, mem));
      { CopiesKeep(ObjectsOf(WorldOf(i), l), l.commands, was, now, target, mem); }
      RunCopies(cs, now, target, mid);
      { CopiesKeepSize(l.commands, was, target, mem); assert IsMemory(i, target, mid); }
      AllWritten(i, target, events, mid);
      { WrittenConcat(i, target, before, events, mem); }
      AllWritten(i, target, before + events, mem);
    }
  }

  /** Commands that copy nothing write nothing. */
  lemma WroteNothing(i: Input, l: Lowered, m: Lowered, cs: seq<Command>, events: seq<O.Event>)
    requires m.commands == l.commands + cs && l.generated <= m.generated && NoCopies(cs)
    requires forall e | e in events :: !e.ByteWritten? && !e.RowWritten?
    ensures Wrote(i, l, m, events)
  {
    assert m.commands[|l.commands|..] == cs;
    forall target, mem | IsMemory(i, target, mem)
      ensures RunCopies(cs, Staging(m.generated), target, mem) == AllWritten(i, target, events, mem)
    {
      NothingCopied(cs, Staging(m.generated), target, mem);
      NothingWritten(i, target, events, mem);
    }
  }

  // ---- one operation: the engines -------------------------------------------------------------------------------------------

  lemma EventsCopyNothing(sequence: nat, n: u32)
    ensures NoCopies(Begin2D(sequence, n)) && NoCopies(SubmissionEnd(sequence, n)) && NoCopies(BatchBegin(sequence, n))
  {
    assert NoCopies(Invalidate(sequence, n));
    assert NoCopies(BaselineA()) && NoCopies(BaselineB()) && NoCopies(BaselineC());
  }

  lemma TransferWrites(i: Input, l: Lowered, body: seq<Command>, events: seq<O.Event>)
    requires Transfer(l, body).Ok? && NoCopies(body) && forall e | e in events :: !e.ByteWritten? && !e.RowWritten?
    ensures Wrote(i, l, Transfer(l, body).value, events)
  {
    var m := WithSequence(l);
    EventsCopyNothing(m.sequence.value, m.events);
    EventsCopyNothing(m.sequence.value, NextEvent(m.events));
    WroteNothing(i, l, Transfer(l, body).value,
                 Begin2D(m.sequence.value, m.events) + body + SubmissionEnd(m.sequence.value, NextEvent(m.events)), events);
  }

  lemma FillCopiesNothing(s: Surface, area: O.Rect, words: Short, format: nat, input: nat, swap: nat)
    ensures NoCopies(SolidFill(s, area, words, format, input, swap))
  {
  }

  lemma BodyCopiesNothing(source: Surface, sourceRect: O.Rect, destination: Surface, destinationRect: O.Rect, linear: bool, rotation: nat)
    ensures NoCopies(BlitBody(source, sourceRect, destination, destinationRect, linear, rotation))
  {
  }

  lemma FillsCopyNothing(i: Input, pass: O.RenderPass, target: Surface, depth: Option<Surface>)
    ensures NoCopies(Fills(i, pass, target, depth))
  {
    if pass.load.Clear? {
      FillCopiesNothing(target, pass.area, i.enc.color(pass.load.color), 0x30, 0, 0x400);
    }
    if depth.Some? && pass.depth.Some? && pass.depth.value.load.DepthClear? {
      FillCopiesNothing(depth.value, pass.area, i.enc.depth(pass.depth.value.load.depth), 0x4a, 4, 0);
    }
  }

  lemma BeginPassWrites(i: Input, l: Lowered, pass: O.RenderPass)
    requires LowerBegin(i, l, pass).Ok?
    ensures Wrote(i, l, LowerBegin(i, l, pass).value, O.BeginEvents(pass))
  {
    if Clears(pass) {
      var target := TargetFor(i, pass.target, RenderAttachment).value;
      var depth := if pass.depth.Some? then Some(DepthFor(i, pass.depth.value.target, target).value) else None;
      FillsCopyNothing(i, pass, target, depth);
      TransferWrites(i, l, Fills(i, pass, target, depth), O.BeginEvents(pass));
    } else {
      WroteNothing(i, l, l, [], O.BeginEvents(pass));
    }
  }

  lemma EndWrites(i: Input, l: Lowered, m: Lowered, pass: O.RenderPass)
    requires (l.active ==> l.sequence.Some?) && if l.active then EndBatch(l) == Ok(m) else m == l
    ensures Wrote(i, l, m, O.EndEvents(pass))
  {
    if l.active {
      EventsCopyNothing(l.sequence.value, l.events);
      WroteNothing(i, l, m, SubmissionEnd(l.sequence.value, l.events), O.EndEvents(pass));
    } else {
      WroteNothing(i, l, m, [], O.EndEvents(pass));
    }
  }

  lemma DrawWrites(i: Input, s: State, l: Lowered, op: O.Operation, e: O.Event)
    requires O.IsDraw(op) && s.machine.pass.Some? && LowerDraw(i, s, l, op).Ok? && e.Drawn?
    ensures Wrote(i, l, LowerDraw(i, s, l, op).value, [e])
  {
    var batch := OpenBatch(s, l).value;
    var d := DrawStateFor(i, s.machine.pass.value, s.machine.bound, op).value;
    var opening := BatchGrows(s, l, batch);
    var drawing := DrawGrows(i.enc.tables, batch, d, LowerDraw(i, s, l, op).value);
    Assoc(l.commands, opening, drawing);
    WroteNothing(i, l, LowerDraw(i, s, l, op).value, opening + drawing, [e]);
  }

  lemma BatchGrows(s: State, l: Lowered, batch: Lowered) returns (cs: seq<Command>)
    requires OpenBatch(s, l) == Ok(batch)
    ensures batch.commands == l.commands + cs && l.generated <= batch.generated && NoCopies(cs)
  {
    if s.started {
      cs := [];
    } else {
      cs := BatchBegin(WithSequence(l).sequence.value, WithSequence(l).events);
      EventsCopyNothing(WithSequence(l).sequence.value, WithSequence(l).events);
    }
  }

  lemma DrawGrows(t: Tables, l: Lowered, d: DrawState, m: Lowered) returns (cs: seq<Command>)
    requires ValidDraw(d) && DrawOn(t, l, d) == Ok(m)
    ensures m.commands == l.commands + cs && l.generated <= m.generated && NoCopies(cs)
  {
    cs := DrawCommands(t, l.last, l.states, |l.generated|, d);
    WithStateIsCache(l, d);
    DrawCopiesNothing(t, l.last, l.states, |l.generated|, d);
  }

  lemma DrawCopiesNothing(t: Tables, last: Option<DrawState>, states: seq<TextureState>, next: nat, d: DrawState)
    requires ValidDraw(d)
    ensures NoCopies(DrawCommands(t, last, states, next, d))
  {
    StatesQuiet(t, d, states, next, d);
    if last.Some? {
      StatesQuiet(t, last.value, states, next, d);
    }
  }

  // ---- one operation: transfers ---------------------------------------------------------------------------------------------

  /** New staged bytes, and copies from them. */
  lemma UploadWrites(i: Input, l: Lowered, g: GeneratedObject, cs: seq<Command>, events: seq<O.Event>)
    requires forall target, mem | IsMemory(i, target, mem) ::
               RunCopies(cs, Staging(l.generated + [g]), target, mem) == AllWritten(i, target, events, mem)
    ensures Wrote(i, l, Append(AddObject(l, g), cs), events)
  {
    assert (l.commands + cs)[|l.commands|..] == cs;
  }

  lemma BufferUploadWrites(i: Input, l: Lowered, destination: nat, offset: nat, data: seq<byte>)
    requires LowerWriteBuffer(i, l, destination, offset, data).Ok?
    ensures Wrote(i, l, LowerWriteBuffer(i, l, destination, offset, data).value, O.ByteEvents(destination, offset, data))
  {
    var g, id := GeneratedObject(64, data, READ, Upload), |l.generated|;
    forall target, mem | IsMemory(i, target, mem)
      ensures RunCopies(CopyRow(id, 0, destination, offset, |data| / 4), Staging(l.generated + [g]), target, mem)
           == AllWritten(i, target, O.ByteEvents(destination, offset, data), mem)
    {
      WriteBufferWrites(i, destination, offset, data, id, Staging(l.generated + [g]), target, mem);
    }
    UploadWrites(i, l, g, CopyRow(id, 0, destination, offset, |data| / 4), O.ByteEvents(destination, offset, data));
  }

  lemma TextureUploadWrites(i: Input, l: Lowered, op: O.Operation)
    requires op.WriteTexture? && LowerWriteTexture(i, l, op.destination, op.area, op.bytesPerRow, op.data).Ok?
    requires O.TransferStep(FormatsOf(i.resources), O.IDLE, op).Ran?
    ensures Wrote(i, l, LowerWriteTexture(i, l, op.destination, op.area, op.bytesPerRow, op.data).value,
                  O.TransferStep(FormatsOf(i.resources), O.IDLE, op).events)
  {
    var c, r, id := CanvasFor(i, op.destination), Find(i.resources, op.destination).value, |l.generated|;
    var events := O.TransferStep(FormatsOf(i.resources), O.IDLE, op).events;
    AreaInside(r, i.maxPitch, op.area, r.kind.image.format);
    var g := GeneratedObject(64, Pixels(SourceOf(c, op), op.area.height), READ, Upload);
    var cs := CopyRows(id, c, op.area, r.size, op.area.height);
    forall target, mem | IsMemory(i, target, mem)
      ensures RunCopies(cs, Staging(l.generated + [g]), target, mem) == AllWritten(i, target, events, mem)
    {
      WriteTextureWrites(i, op, id, Staging(l.generated + [g]), target, mem);
    }
    UploadWrites(i, l, g, cs, events);
  }

  lemma BlitWrites(i: Input, l: Lowered, source: Surface, sourceRect: O.Rect, destination: Surface, destinationRect: O.Rect,
                   linear: bool, rotation: nat, op: O.Operation)
    requires LowerBlit(l, source, sourceRect, destination, destinationRect, linear, rotation).Ok?
    ensures Wrote(i, l, LowerBlit(l, source, sourceRect, destination, destinationRect, linear, rotation).value, [O.Transferred(op)])
  {
    BodyCopiesNothing(source, sourceRect, destination, destinationRect, linear, rotation);
    TransferWrites(i, l, Wait() + BlitBody(source, sourceRect, destination, destinationRect, linear, rotation), [O.Transferred(op)]);
  }

  lemma TransferOpWrites(i: Input, l: Lowered, op: O.Operation, m: Lowered, s: O.Machine)
    requires O.IsTransfer(op) && LowerTransfer(i, l, op) == Ok(m) && O.TransferStep(FormatsOf(i.resources), s, op).Ran?
    ensures Wrote(i, l, m, O.TransferStep(FormatsOf(i.resources), s, op).events)
  {
    match op
    case WriteBuffer(destination, offset, data) => BufferUploadWrites(i, l, destination, offset, data);
    case WriteTexture(_, _, _, _) => TextureUploadWrites(i, l, op);
    case CopyTexture(source, sourceRect, destination, destinationRect) =>
      var from, to := TargetFor(i, source, CopySrc).value, TargetFor(i, destination, CopyDst).value;
      BlitWrites(i, l, from, sourceRect, to, destinationRect, false, 0, op);
    case BlitTexture(source, sourceRect, destination, destinationRect, filter, flipX, flipY) =>
      var from, to := SurfaceFor(i, source, CopySrc).value, SurfaceFor(i, destination, CopyDst).value;
      BlitWrites(i, l, from, sourceRect, to, destinationRect, filter != 0, Rotation(flipX, flipY), op);
  }

  // ---- whole streams ----------------------------------------------------------------------------------------------------------

  /** One accepted operation writes what its events say. */
  lemma StepWrites(i: Input, s: State, l: Lowered, op: O.Operation, m: Lowered, events: seq<O.Event>)
    requires (l.active ==> l.sequence.Some?) && InTouch(s, l)
    requires LowerOne(i, s, l, op).Ok? && m == LowerOne(i, s, l, op).value.1
    requires O.Step(FormatsOf(i.resources), s.machine, op).Ran? && events == O.Step(FormatsOf(i.resources), s.machine, op).events
    ensures Wrote(i, l, m, events)
  {
    if O.IsTransfer(op) {
      TransferOpWrites(i, l, op, m, s.machine);
    } else if op.BeginRenderPass? {
      BeginPassWrites(i, l, op.pass);
    } else if op.EndRenderPass? {
      EndWrites(i, l, m, s.machine.pass.value);
    } else if O.IsDraw(op) {
      DrawWrites(i, s, l, op, events[0]);
    } else {
      WroteNothing(i, l, m, [], events);
    }
  }

  lemma {:induction false} RunWrites(i: Input, ops: seq<O.Operation>)
    requires LowerRun(i, ops).Ok?
    ensures Writing(i, LowerRun(i, ops).value.1, O.Run(FormatsOf(i.resources), ops).events)
  {
    if ops != [] {
      var n, f := |ops| - 1, FormatsOf(i.resources);
      var s, l := LowerRun(i, ops[..n]).value.0, LowerRun(i, ops[..n]).value.1;
      var m := LowerRun(i, ops).value.1;
      RunWrites(i, ops[..n]);
      AcceptedRuns(i, s, l, ops[n]);
      var before, events := O.Run(f, ops[..n]).events, O.Step(f, s.machine, ops[n]).events;
      StepWrites(i, s, l, ops[n], m, events);
      WroteMore(i, l, m, before, events);
    }
  }

  /** Both streams are lowered, and the commands of one begin those of the other. */
  predicate GrowsInto(i: Input, front: seq<O.Operation>, ops: seq<O.Operation>) {
    && LowerRun(i, front).Ok? && LowerRun(i, ops).Ok?
    && LowerRun(i, front).value.1.commands <= LowerRun(i, ops).value.1.commands
  }

  lemma GrowsThrough(i: Input, a: seq<O.Operation>, b: seq<O.Operation>, c: seq<O.Operation>)
    requires GrowsInto(i, a, b) && GrowsInto(i, b, c)
    ensures GrowsInto(i, a, c)
  {
  }

  /** The commands of a stream begin with those of each of its prefixes, so work and uploads keep the order of
      the operations they come from. */
  lemma {:induction false} StreamGrows(i: Input, ops: seq<O.Operation>, k: nat)
    requires LowerRun(i, ops).Ok? && k <= |ops|
    ensures GrowsInto(i, ops[..k], ops)
    decreases |ops|
  {
    TakeLess(ops, k);
    if k < |ops| {
      var front := ops[..|ops| - 1];
      LastGrows(i, ops, front);
      StreamGrows(i, front, k);
      GrowsThrough(i, ops[..k], front, ops);
    }
  }

  lemma LastGrows(i: Input, ops: seq<O.Operation>, front: seq<O.Operation>)
    requires ops != [] && LowerRun(i, ops).Ok? && front == ops[..|ops| - 1]
    ensures GrowsInto(i, front, ops)
  {
    var s, l, op := LowerRun(i, front).value.0, LowerRun(i, front).value.1, ops[|ops| - 1];
    AcceptedRuns(i, s, l, op);
    StepWrites(i, s, l, op, LowerRun(i, ops).value.1, O.Step(FormatsOf(i.resources), s.machine, op).events);
  }

  /** Running the copies of a compiled stream on the memory of any object of the input leaves exactly what its
      byte and row events leave, each row contiguous at the image's pitch. */
  lemma CompiledCopies(i: Input, ops: seq<O.Operation>, target: nat, mem: seq<byte>)
    requires LowerStream(i, ops).Ok? && IsMemory(i, target, mem)
    ensures O.Meaning(FormatsOf(i.resources), ops).Some?
    ensures var l := LowerStream(i, ops).value;
            RunCopies(AllCommands(l), Staging(l.generated), target, mem) ==
            AllWritten(i, target, O.Meaning(FormatsOf(i.resources), ops).value, mem)
  {
    var l := LowerStream(i, ops).value;
    RunWrites(i, ops);
    PrologueCopiesNothing(l.states);
    if l.states != [] {
      var p := Prologue(l.states) + Emitters.Barrier();
      NothingCopied(p, Staging(l.generated), target, mem);
      RunConcat(p, l.commands, Staging(l.generated), target, mem);
    }
  }

  lemma {:induction false} PrologueCopiesNothing(states: seq<TextureState>)
    ensures NoCopies(Prologue(states))
  {
    if states != [] {
      PrologueCopiesNothing(states[..|states| - 1]);
    }
  }
}
