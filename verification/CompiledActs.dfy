/** What a compiled stream makes the engines do: for every draw, clear, copy and blit that the stream means,
    in order, one packet that sees exactly the state of that event emitted on its own and in full. */
module CompiledActs {
  import opened Wrappers
  import opened Arith
  import opened Sequences
  import opened WireFormat
  import opened Accesses
  import opened Commands
  import opened Draws
  import opened DrawDelta
  import opened Descriptors
  import opened Images
  import opened Transfers
  import opened Uploads
  import opened Painting
  import opened Lowering
  import opened Compile
  import opened CompileStream
  import opened Acts
  import Emitters
  import O = Operations

  // ---- the work a stream means for the engines ----------------------------------------------------------------------------

  predicate IsWork(e: O.Event) { e.Drawn? || e.ColorCleared? || e.DepthCleared? || e.Transferred? }

  function WorkOf(events: seq<O.Event>): seq<O.Event> {
    if events == [] then []
    else WorkOf(events[..|events| - 1]) + if IsWork(events[|events| - 1]) then [events[|events| - 1]] else []
  }

  lemma {:induction false} WorkConcat(a: seq<O.Event>, b: seq<O.Event>)
    ensures WorkOf(a + b) == WorkOf(a) + WorkOf(b)
  {
    if b == [] {
      assert a + b == a;
    } else {
      var front, last := b[..|b| - 1], b[|b| - 1];
      assert (a + b)[..|a + b| - 1] == a + front;
      WorkConcat(a, front);
      Assoc(WorkOf(a), WorkOf(front), if IsWork(last) then [last] else []);
    }
  }

  lemma {:induction false} NoWork(events: seq<O.Event>)
    requires forall e | e in events :: !IsWork(e)
    ensures WorkOf(events) == []
  {
    if events != [] {
      NoWork(events[..|events| - 1]);
    }
  }

  lemma OneWork(e: O.Event)
    requires IsWork(e)
    ensures WorkOf([e]) == [e]
  {
    assert [e][..0] == [];
  }

  // ---- an event on its own -------------------------------------------------------------------------------------------------

  /** A pass with the attachments a draw event names; how they are loaded and stored does not matter to it. */
  function PassOf(e: O.Event): O.RenderPass
    requires e.Drawn?
  {
    var depth := if e.depthTarget.Some? then Some(O.DepthAttachment(e.depthTarget.value, O.DepthLoad, O.Store)) else None;
    O.RenderPass(e.target, e.area, O.Load, O.Store, depth)
  }

  /** The complete draw state an event asks for. */
  function EventDraw(i: Input, e: O.Event): Option<DrawState>
    requires e.Drawn?
  {
    if !O.IsDraw(e.call) then None
    else
      var d := DrawStateFor(i, PassOf(e), e.bound, e.call);
      if d.Ok? && ValidDraw(d.value) then Some(d.value) else None
  }

  lemma SameAttachments(i: Input, p: O.RenderPass, b: O.Bindings, op: O.Operation)
    requires O.IsDraw(op) && DrawStateFor(i, p, b, op).Ok? && ValidDraw(DrawStateFor(i, p, b, op).value)
    ensures EventDraw(i, O.Drawn(p.target, p.area, O.DepthTarget(p), b, op)) == Some(DrawStateFor(i, p, b, op).value)
  {
  }

  /** The depth image, whatever colour image it is attached with. */
  function DepthImage(i: Input, id: nat): Result<Surface, CompileError> {
    var r := Find(i.resources, id);
    if r.Err? then Err(r.error)
    else if !r.value.kind.Image? then Err(InvalidResource)
    else DepthSurface(r.value, r.value.kind.image.width, r.value.kind.image.height, i.maxPitch)
  }

  /** The state an event needs, emitted in full. */
  function OwnCommands(i: Input, states: seq<TextureState>, e: O.Event): Option<seq<Command>> {
    match e
    case Drawn(_, _, _, _, _) =>
      var d := EventDraw(i, e);
      if d.None? || (d.value.texture.Some? && Lookup(states, d.value.texture.value, d.value.sampler).None?) then None
      else Some(FullState(i.enc.tables, states, 0, d.value))
    case ColorCleared(target, area, color) =>
      var s := TargetFor(i, target, RenderAttachment);
      if s.Err? then None else Some(ColorFill(s.value, area, i.enc.color(color)))
    case DepthCleared(target, area, depth) =>
      var s := DepthImage(i, target);
      if s.Err? then None else Some(DepthFill(s.value, area, i.enc.depth(depth)))
    case Transferred(op) => OwnBlit(i, op)
    case _ => None
  }

  function OwnBlit(i: Input, op: O.Operation): Option<seq<Command>> {
    match op
    case CopyTexture(source, sourceRect, destination, destinationRect) =>
      var s, d := TargetFor(i, source, CopySrc), TargetFor(i, destination, CopyDst);
      if s.Err? || d.Err? then None else Some(BlitBody(s.value, sourceRect, d.value, destinationRect, false, 0))
    case BlitTexture(source, sourceRect, destination, destinationRect, filter, flipX, flipY) =>
      var s, d := SurfaceFor(i, source, CopySrc), SurfaceFor(i, destination, CopyDst);
      if s.Err? || d.Err? then None
      else Some(BlitBody(s.value, sourceRect, d.value, destinationRect, filter != 0, Rotation(flipX, flipY)))
    case _ => None
  }

  function OwnCall(i: Input, e: O.Event): Command {
    if e.Drawn? && EventDraw(i, e).Some? then Call(EventDraw(i, e).value) else BlitCall()
  }

  ghost predicate Performs(i: Input, states: seq<TextureState>, a: Act, e: O.Event) {
    OwnCommands(i, states, e).Some? && Shows(a, OwnCommands(i, states, e).value, OwnCall(i, e))
  }

  ghost function Performance(i: Input, states: seq<TextureState>): (Act, O.Event) -> bool {
    (a, e) => Performs(i, states, a, e)
  }

  /** One packet for each event, in order, seeing that event's own state. */
  ghost predicate AllPerform(i: Input, states: seq<TextureState>, acts: seq<Act>, work: seq<O.Event>) {
    Pairwise(Performance(i, states), acts, work)
  }

  lemma PerformConcat(i: Input, states: seq<TextureState>, a: seq<Act>, x: seq<O.Event>, b: seq<Act>, y: seq<O.Event>)
    requires AllPerform(i, states, a, x) && AllPerform(i, states, b, y)
    ensures AllPerform(i, states, a + b, x + y)
  {
    PairwiseConcat(Performance(i, states), a, x, b, y);
  }

  lemma OnePerforms(i: Input, states: seq<TextureState>, a: Act, e: O.Event)
    requires Performs(i, states, a, e)
    ensures AllPerform(i, states, [a], [e])
  {
  }

  // ---- the texture state cache only grows -------------------------------------------------------------------------------------

  lemma SameLoads(t: Tables, states: seq<TextureState>, more: seq<TextureState>, next: nat, d: DrawState)
    requires ValidDraw(d)
    requires d.texture.Some? ==> StateId(states, next, d) == StateId(more, 0, d)
    ensures FullState(t, states, next, d) == FullState(t, more, 0, d)
  {
  }

  lemma StillPerforms(i: Input, states: seq<TextureState>, next: nat, d: DrawState, a: Act, e: O.Event)
    requires Performs(i, states, a, e)
    ensures Performs(i, CacheAfter(states, next, d).0, a, e)
  {
    StillOwn(i, states, next, d, e);
  }

  lemma StillOwn(i: Input, states: seq<TextureState>, next: nat, d: DrawState, e: O.Event)
    requires OwnCommands(i, states, e).Some?
    ensures OwnCommands(i, CacheAfter(states, next, d).0, e) == OwnCommands(i, states, e)
  {
    if e.Drawn? && d.texture.Some? {
      var own := EventDraw(i, e).value;
      if own.texture.Some? {
        LookupGrows(states, TextureState(d.texture.value, d.sampler, next), own.texture.value, own.sampler);
      }
      SameLoads(i.enc.tables, states, CacheAfter(states, next, d).0, 0, own);
    }
  }

  lemma AllStillPerform(i: Input, states: seq<TextureState>, next: nat, d: DrawState, acts: seq<Act>, work: seq<O.Event>)
    requires AllPerform(i, states, acts, work)
    ensures AllPerform(i, CacheAfter(states, next, d).0, acts, work)
  {
    forall k | 0 <= k < |work|
      ensures Performance(i, CacheAfter(states, next, d).0)(acts[k], work[k])
    {
      assert Performance(i, states)(acts[k], work[k]);
      StillPerforms(i, states, next, d, acts[k], work[k]);
    }
  }

  // ---- one operation: transfers and clears ------------------------------------------------------------------------------------

  /** The commands `m` has beyond `l` do the work, and nothing may be inherited across them. */
  ghost predicate Did(i: Input, l: Lowered, m: Lowered, work: seq<O.Event>) {
    && l.commands <= m.commands && m.states == l.states && m.last.None?
    && AllPerform(i, l.states, ActsFrom(l.commands, m.commands[|l.commands|..]), work)
  }

  lemma DidThese(i: Input, l: Lowered, m: Lowered, cs: seq<Command>, work: seq<O.Event>)
    requires m.commands == l.commands + cs && m.states == l.states && m.last.None?
    requires AllPerform(i, l.states, ActsFrom(l.commands, cs), work)
    ensures Did(i, l, m, work)
  {
    assert m.commands[|l.commands|..] == cs;
  }

  lemma TransferDoes(i: Input, l: Lowered, body: seq<Command>, work: seq<O.Event>)
    requires l.last.None? && Transfer(l, body).Ok?
    requires forall p :: AllPerform(i, l.states, ActsFrom(p, body), work)
    ensures Did(i, l, Transfer(l, body).value, work)
  {
    var m := WithSequence(l);
    var begin, end := Begin2D(m.sequence.value, m.events), SubmissionEnd(m.sequence.value, NextEvent(m.events));
    EventsAreNoActs(m.sequence.value, m.events);
    EventsAreNoActs(m.sequence.value, NextEvent(m.events));
    ActsBetween(l.commands, begin, body, end);
    DidThese(i, l, Transfer(l, body).value, begin + body + end, work);
  }

  lemma EventsAreNoActs(sequence: nat, n: u32)
    ensures NoActs(Begin2D(sequence, n)) && NoActs(SubmissionEnd(sequence, n)) && NoActs(BatchBegin(sequence, n))
  {
    assert NoActs(Invalidate(sequence, n));
    assert NoActs(BaselineA()) && NoActs(BaselineB()) && NoActs(BaselineC());
  }

  lemma BeginDoes(i: Input, l: Lowered)
    requires BeginBatch(l).Ok?
    ensures Did(i, l, BeginBatch(l).value, [])
  {
    var m := WithSequence(l);
    EventsAreNoActs(m.sequence.value, m.events);
    ActsNone(l.commands, BatchBegin(m.sequence.value, m.events));
    DidThese(i, l, BeginBatch(l).value, BatchBegin(m.sequence.value, m.events), []);
  }

  lemma EndDoes(i: Input, l: Lowered)
    requires (l.active ==> l.sequence.Some?) && EndBatch(l).Ok?
    ensures Did(i, l, EndBatch(l).value, [])
  {
    EventsAreNoActs(l.sequence.value, l.events);
    ActsNone(l.commands, SubmissionEnd(l.sequence.value, l.events));
    DidThese(i, l, EndBatch(l).value, SubmissionEnd(l.sequence.value, l.events), []);
  }

  /** A fill or a blit on its own, wherever it stands. */
  ghost predicate Alone(i: Input, states: seq<TextureState>, body: seq<Command>, e: O.Event) {
    forall p :: AllPerform(i, states, ActsFrom(p, body), [e])
  }

  lemma BlitAlone(i: Input, states: seq<TextureState>, s: seq<Command>, e: O.Event)
    requires NoActs(s) && OwnCommands(i, states, e) == Some(s + RunBlit()) && !e.Drawn?
    ensures Alone(i, states, s + RunBlit(), e)
  {
    forall p
      ensures AllPerform(i, states, ActsFrom(p, s + RunBlit()), [e])
    {
      var a := OneBlit(p, s);
      OnePerforms(i, states, a, e);
    }
  }

  lemma FillAlone(i: Input, states: seq<TextureState>, s: Surface, area: O.Rect, words: Short, format: nat, input: nat, swap: nat,
                  e: O.Event)
    requires OwnCommands(i, states, e) == Some(SolidFill(s, area, words, format, input, swap)) && !e.Drawn?
    ensures Alone(i, states, SolidFill(s, area, words, format, input, swap), e)
  {
    var parts := Coordinates(area) + [Write(0x8c2c, Vals(words))] + A2D(format, input, true) + Destination(s, format, swap);
    assert NoActs(parts);
    BlitAlone(i, states, parts, e);
  }

  lemma BodyIsNoAct(source: Surface, sourceRect: O.Rect, destination: Surface, destinationRect: O.Rect, linear: bool, rotation: nat)
    ensures NoActs(SourceRect(sourceRect) + Coordinates(destinationRect) + A2D(0x30, 0, false) + Rotate(rotation)
                   + BlitSource(source, sourceRect, linear) + Destination(destination, 0x30, 0x400))
  {
  }

  lemma BodyAlone(i: Input, states: seq<TextureState>, source: Surface, sourceRect: O.Rect, destination: Surface,
                  destinationRect: O.Rect, linear: bool, rotation: nat, e: O.Event)
    requires OwnCommands(i, states, e) == Some(BlitBody(source, sourceRect, destination, destinationRect, linear, rotation))
    requires !e.Drawn?
    ensures Alone(i, states, BlitBody(source, sourceRect, destination, destinationRect, linear, rotation), e)
  {
    var parts := SourceRect(sourceRect) + Coordinates(destinationRect) + A2D(0x30, 0, false) + Rotate(rotation)
                 + BlitSource(source, sourceRect, linear) + Destination(destination, 0x30, 0x400);
    BodyIsNoAct(source, sourceRect, destination, destinationRect, linear, rotation);
    BlitAlone(i, states, parts, e);
  }

  lemma WaitThen(i: Input, states: seq<TextureState>, body: seq<Command>, e: O.Event)
    requires Alone(i, states, body, e)
    ensures Alone(i, states, Wait() + body, e)
  {
    forall p
      ensures AllPerform(i, states, ActsFrom(p, Wait() + body), [e])
    {
      ActsConcat(p, Wait(), body);
      ActsNone(p, Wait());
    }
  }

  lemma BlitDoes(i: Input, l: Lowered, source: Surface, sourceRect: O.Rect, destination: Surface, destinationRect: O.Rect,
                 linear: bool, rotation: nat, e: O.Event)
    requires l.last.None? && !e.Drawn?
    requires LowerBlit(l, source, sourceRect, destination, destinationRect, linear, rotation).Ok?
    requires OwnCommands(i, l.states, e) == Some(BlitBody(source, sourceRect, destination, destinationRect, linear, rotation))
    ensures Did(i, l, LowerBlit(l, source, sourceRect, destination, destinationRect, linear, rotation).value, [e])
  {
    var body := BlitBody(source, sourceRect, destination, destinationRect, linear, rotation);
    BodyAlone(i, l.states, source, sourceRect, destination, destinationRect, linear, rotation, e);
    WaitThen(i, l.states, body, e);
    TransferDoes(i, l, Wait() + body, [e]);
  }

  lemma ColorAlone(i: Input, states: seq<TextureState>, pass: O.RenderPass, target: Surface)
    requires pass.load.Clear? && TargetFor(i, pass.target, RenderAttachment) == Ok(target)
    ensures Alone(i, states, ColorFill(target, pass.area, i.enc.color(pass.load.color)),
                  O.ColorCleared(pass.target, pass.area, pass.load.color))
  {
    FillAlone(i, states, target, pass.area, i.enc.color(pass.load.color), 0x30, 0, 0x400,
              O.ColorCleared(pass.target, pass.area, pass.load.color));
  }

  lemma DepthAlone(i: Input, states: seq<TextureState>, pass: O.RenderPass, target: Surface, depth: Surface)
    requires pass.depth.Some? && pass.depth.value.load.DepthClear? && DepthFor(i, pass.depth.value.target, target) == Ok(depth)
    ensures Alone(i, states, DepthFill(depth, pass.area, i.enc.depth(pass.depth.value.load.depth)),
                  O.DepthCleared(pass.depth.value.target, pass.area, pass.depth.value.load.depth))
  {
    FillAlone(i, states, depth, pass.area, i.enc.depth(pass.depth.value.load.depth), 0x4a, 4, 0,
              O.DepthCleared(pass.depth.value.target, pass.area, pass.depth.value.load.depth));
  }

  lemma BothFills(i: Input, states: seq<TextureState>, a: seq<Command>, x: O.Event, b: seq<Command>, y: O.Event, p: seq<Command>)
    requires Alone(i, states, a, x) && Alone(i, states, b, y)
    ensures AllPerform(i, states, ActsFrom(p, a + b), [x] + [y])
  {
    ActsConcat(p, a, b);
    PerformConcat(i, states, ActsFrom(p, a), [x], ActsFrom(p + a, b), [y]);
  }

  /** The fills of a pass are its clear events, depth first. */
  lemma FillsDo(i: Input, states: seq<TextureState>, pass: O.RenderPass, target: Surface, depth: Option<Surface>, p: seq<Command>)
    requires TargetFor(i, pass.target, RenderAttachment) == Ok(target) && (pass.depth.Some? <==> depth.Some?)
    requires depth.Some? ==> DepthFor(i, pass.depth.value.target, target) == Ok(depth.value)
    ensures AllPerform(i, states, ActsFrom(p, Fills(i, pass, target, depth)), O.BeginEvents(pass))
  {
    var clearsDepth := pass.depth.Some? && pass.depth.value.load.DepthClear?;
    if pass.load.Clear? {
      var color := O.ColorCleared(pass.target, pass.area, pass.load.color);
      ColorAlone(i, states, pass, target);
      WaitThen(i, states, ColorFill(target, pass.area, i.enc.color(pass.load.color)), color);
      assert !clearsDepth ==> O.BeginEvents(pass) == [color];
    }
    if clearsDepth {
      var fill := DepthFill(depth.value, pass.area, i.enc.depth(pass.depth.value.load.depth));
      var event := O.DepthCleared(pass.depth.value.target, pass.area, pass.depth.value.load.depth);
      DepthAlone(i, states, pass, target, depth.value);
      WaitThen(i, states, fill, event);
      if pass.load.Clear? {
        BothFills(i, states, fill, event, ColorFill(target, pass.area, i.enc.color(pass.load.color)),
                  O.ColorCleared(pass.target, pass.area, pass.load.color), p);
      } else {
        assert O.BeginEvents(pass) == [event];
      }
    }
  }

  lemma BeginPassDoes(i: Input, l: Lowered, pass: O.RenderPass)
    requires l.last.None? && LowerBegin(i, l, pass).Ok?
    ensures Did(i, l, LowerBegin(i, l, pass).value, O.BeginEvents(pass))
  {
    if Clears(pass) {
      var target := TargetFor(i, pass.target, RenderAttachment).value;
      var depth := if pass.depth.Some? then Some(DepthFor(i, pass.depth.value.target, target).value) else None;
      forall p
        ensures AllPerform(i, l.states, ActsFrom(p, Fills(i, pass, target, depth)), O.BeginEvents(pass))
      {
        FillsDo(i, l.states, pass, target, depth, p);
      }
      TransferDoes(i, l, Fills(i, pass, target, depth), O.BeginEvents(pass));
    } else {
      DidNothing(i, l);
    }
  }

  lemma DidNothing(i: Input, l: Lowered)
    requires l.last.None?
    ensures Did(i, l, l, [])
  {
    assert l.commands + [] == l.commands;
    DidThese(i, l, l, [], []);
  }

  // ---- one operation: uploads -------------------------------------------------------------------------------------------------

  lemma {:induction false} CopyRowIsNoAct(id: nat, from: nat, target: nat, to: nat, dwords: nat)
    requires CopyFits(from, to, dwords)
    ensures NoActs(CopyRow(id, from, target, to, dwords))
    decreases dwords
  {
    if dwords > 0 {
      var n := Min(dwords, MAX_COPY_DWORDS);
      CopyRowIsNoAct(id, from + 4 * n, target, to + 4 * n, dwords - n);
    }
  }

  lemma {:induction false} CopyRowsAreNoActs(id: nat, c: Canvas, area: O.Rect, size: nat, n: nat)
    requires StripFits(c, area, size) && n <= area.height
    ensures NoActs(CopyRows(id, c, area, size, n))
  {
    if n > 0 {
      CopyRowsAreNoActs(id, c, area, size, n - 1);
      StripRowFits(c, area, size, n - 1);
      CopyRowIsNoAct(id, Rows(4 * area.width, n - 1), c.target, PixelAt(c, area.x, area.y + (n - 1)), area.width);
    }
  }

  lemma CopiesDo(i: Input, l: Lowered, g: GeneratedObject, cs: seq<Command>)
    requires l.last.None? && NoActs(cs)
    ensures Did(i, l, Append(AddObject(l, g), cs), [])
  {
    ActsNone(l.commands, cs);
    DidThese(i, l, Append(AddObject(l, g), cs), cs, []);
  }

  lemma WriteTextureDoes(i: Input, l: Lowered, destination: nat, area: O.Rect, stride: nat, data: seq<byte>)
    requires l.last.None? && LowerWriteTexture(i, l, destination, area, stride, data).Ok?
    ensures Did(i, l, LowerWriteTexture(i, l, destination, area, stride, data).value, [])
  {
    var r := Find(i.resources, destination).value;
    var c := CanvasOf(ImageSurface(r, CopyDst, i.maxPitch).value, r.kind.image.format);
    AreaInside(r, i.maxPitch, area, r.kind.image.format);
    var pixels := Pixels(Source(r.kind.image.format, area.width, area.height, stride, data), area.height);
    CopyRowsAreNoActs(|l.generated|, c, area, r.size, area.height);
    CopiesDo(i, l, GeneratedObject(64, pixels, READ, Upload), CopyRows(|l.generated|, c, area, r.size, area.height));
  }

  lemma CopyDoes(i: Input, l: Lowered, op: O.Operation, m: Lowered)
    requires l.last.None? && op.CopyTexture? && LowerTransfer(i, l, op) == Ok(m)
    ensures Did(i, l, m, [O.Transferred(op)])
  {
    var s, d := TargetFor(i, op.source, CopySrc).value, TargetFor(i, op.destination, CopyDst).value;
    BlitDoes(i, l, s, op.sourceRect, d, op.destinationRect, false, 0, O.Transferred(op));
  }

  lemma ScaledBlitDoes(i: Input, l: Lowered, op: O.Operation, m: Lowered)
    requires l.last.None? && op.BlitTexture? && LowerTransfer(i, l, op) == Ok(m)
    ensures Did(i, l, m, [O.Transferred(op)])
  {
    var s, d := SurfaceFor(i, op.source, CopySrc).value, SurfaceFor(i, op.destination, CopyDst).value;
    BlitDoes(i, l, s, op.sourceRect, d, op.destinationRect, op.filter != 0, Rotation(op.flipX, op.flipY), O.Transferred(op));
  }

  lemma WriteBufferDoes(i: Input, l: Lowered, op: O.Operation, m: Lowered)
    requires l.last.None? && op.WriteBuffer? && LowerTransfer(i, l, op) == Ok(m)
    ensures Did(i, l, m, [])
  {
    CopyRowIsNoAct(|l.generated|, 0, op.destination, op.offset, |op.data| / 4);
    CopiesDo(i, l, GeneratedObject(64, op.data, READ, Upload), CopyRow(|l.generated|, 0, op.destination, op.offset, |op.data| / 4));
  }

  /** The work of a transfer. */
  function TransferEvents(op: O.Operation): seq<O.Event> {
    if op.WriteBuffer? || op.WriteTexture? then [] else [O.Transferred(op)]
  }

  lemma TransferOpDoes(i: Input, l: Lowered, op: O.Operation, m: Lowered)
    requires l.last.None? && O.IsTransfer(op) && LowerTransfer(i, l, op) == Ok(m)
    ensures Did(i, l, m, TransferEvents(op))
  {
    match op
    case WriteBuffer(_, _, _) => WriteBufferDoes(i, l, op, m);
    case WriteTexture(destination, area, stride, data) => WriteTextureDoes(i, l, destination, area, stride, data);
    case CopyTexture(_, _, _, _) => CopyDoes(i, l, op, m);
    case BlitTexture(_, _, _, _, _, _, _) => ScaledBlitDoes(i, l, op, m);
  }

  // ---- one operation: draws ---------------------------------------------------------------------------------------------------

  /** What the compiler keeps: the work so far is done, and the next draw may inherit the last one's state. */
  ghost predicate Performing(i: Input, l: Lowered, work: seq<O.Event>) {
    && AllPerform(i, l.states, ActsFrom([], l.commands), work)
    && Retains(i.enc.tables, l.commands, l.states, l.last) && (!l.active ==> l.last.None?)
  }

  lemma PerformedMore(i: Input, l: Lowered, m: Lowered, work: seq<O.Event>, more: seq<O.Event>)
    requires Performing(i, l, work) && Did(i, l, m, more)
    ensures Performing(i, m, work + more)
  {
    var cs := m.commands[|l.commands|..];
    assert m.commands == l.commands + cs && [] + l.commands == l.commands;
    ActsConcat([], l.commands, cs);
    PerformConcat(i, l.states, ActsFrom([], l.commands), work, ActsFrom(l.commands, cs), more);
  }

  /** The state of a draw, in whichever form, and what it leaves for the next. */
  lemma DrawSees(t: Tables, p: seq<Command>, last: Option<DrawState>, states: seq<TextureState>, next: nat, d: DrawState)
    requires ValidDraw(d) && Retains(t, p, states, last)
    ensures NoActs(StateOf(t, last, states, next, d))
    ensures Agree(p + StateOf(t, last, states, next, d), p + FullState(t, states, next, d))
    ensures Retains(t, p + (StateOf(t, last, states, next, d) + [Call(d)]), CacheAfter(states, next, d).0, Some(d))
  {
    var mine, own := StateOf(t, last, states, next, d), FullState(t, states, next, d);
    StatesQuiet(t, d, states, next, d);
    if Inherits(last, d) {
      StatesQuiet(t, last.value, states, next, d);
      DeltaIsFull(t, p, last.value, states, next, d);
    }
    CallSetsNothing(p, mine, d);
    FullRetains(t, p, states, next, d);
    RetainsAgree(t, p + own, p + (mine + [Call(d)]), CacheAfter(states, next, d).0, Some(d));
  }

  lemma DrawActs(p: seq<Command>, mine: seq<Command>, own: seq<Command>, d: DrawState) returns (a: Act)
    requires NoActs(mine) && Agree(p + mine, p + own)
    ensures ActsFrom(p, mine + [Call(d)]) == [a] && Shows(a, own, Call(d))
  {
    a := Act(CP_DRAW_INDX_OFFSET, StateAfter(p + mine), CallFields(d.call));
    ActsNone(p, mine);
    ActsSnoc(p, mine, Call(d));
    StateShows(p, own, p + mine, Call(d));
  }

  lemma OwnDraw(i: Input, states: seq<TextureState>, next: nat, d: DrawState, e: O.Event)
    requires ValidDraw(d) && e.Drawn? && EventDraw(i, e) == Some(d)
    ensures OwnCommands(i, CacheAfter(states, next, d).0, e) == Some(FullState(i.enc.tables, states, next, d))
  {
    var more := CacheAfter(states, next, d).0;
    if d.texture.Some? {
      CachedAfter(states, next, d);
    }
    SameLoads(i.enc.tables, states, more, next, d);
  }

  lemma OwnDrawCall(i: Input, d: DrawState, e: O.Event)
    requires ValidDraw(d) && e.Drawn? && EventDraw(i, e) == Some(d)
    ensures OwnCall(i, e) == Call(d)
  {
  }

  lemma DrawPerforms(i: Input, l: Lowered, d: DrawState, work: seq<O.Event>, e: O.Event)
    requires Performing(i, l, work) && ValidDraw(d) && DrawOn(i.enc.tables, l, d).Ok?
    requires e.Drawn? && EventDraw(i, e) == Some(d)
    ensures Performing(i, DrawOn(i.enc.tables, l, d).value, work + [e])
  {
    var t, p, next, m := i.enc.tables, l.commands, |l.generated|, DrawOn(i.enc.tables, l, d).value;
    var mine, own := StateOf(t, l.last, l.states, next, d), FullState(t, l.states, next, d);
    DrawIsDelta(t, l, d);
    DrawSees(t, p, l.last, l.states, next, d);
    var a := DrawActs(p, mine, own, d);
    OwnDraw(i, l.states, next, d, e);
    OwnDrawCall(i, d, e);
    OnePerforms(i, m.states, a, e);
    AllStillPerform(i, l.states, next, d, ActsFrom([], p), work);
    assert [] + p == p;
    ActsConcat([], p, mine + [Call(d)]);
    PerformConcat(i, m.states, ActsFrom([], p), work, [a], [e]);
  }

  // ---- whole streams ----------------------------------------------------------------------------------------------------------

  lemma TransferPerforms(i: Input, l: Lowered, op: O.Operation, work: seq<O.Event>, m: Lowered, f: O.Formats, s: O.Machine)
    requires Performing(i, l, work) && l.last.None? && O.IsTransfer(op) && LowerTransfer(i, l, op) == Ok(m)
    requires O.TransferStep(f, s, op).Ran?
    ensures Performing(i, m, work + WorkOf(O.TransferStep(f, s, op).events))
  {
    TransferOpDoes(i, l, op, m);
    TransferWork(f, s, op);
    PerformedMore(i, l, m, work, TransferEvents(op));
  }

  lemma PassPerforms(i: Input, l: Lowered, pass: O.RenderPass, work: seq<O.Event>, m: Lowered)
    requires Performing(i, l, work) && l.last.None? && LowerBegin(i, l, pass) == Ok(m)
    ensures Performing(i, m, work + WorkOf(O.BeginEvents(pass)))
  {
    BeginPassDoes(i, l, pass);
    AllWork(O.BeginEvents(pass));
    PerformedMore(i, l, m, work, O.BeginEvents(pass));
  }

  lemma EndPerforms(i: Input, l: Lowered, pass: O.RenderPass, work: seq<O.Event>, m: Lowered)
    requires Performing(i, l, work) && (l.active ==> l.sequence.Some?)
    requires if l.active then EndBatch(l) == Ok(m) else m == l
    ensures Performing(i, m, work + WorkOf(O.EndEvents(pass)))
  {
    NoWork(O.EndEvents(pass));
    if l.active {
      EndDoes(i, l);
    } else {
      DidNothing(i, l);
    }
    PerformedMore(i, l, m, work, []);
  }

  /** The batch a draw is added to. */
  lemma BatchPerforms(i: Input, s: State, l: Lowered, work: seq<O.Event>, batch: Lowered)
    requires Performing(i, l, work) && OpenBatch(s, l) == Ok(batch)
    ensures Performing(i, batch, work)
  {
    if !s.started {
      BeginDoes(i, l);
      PerformedMore(i, l, batch, work, []);
      assert work + [] == work;
    }
  }

  lemma DrawOpPerforms(i: Input, s: State, l: Lowered, pass: O.RenderPass, op: O.Operation, work: seq<O.Event>, m: Lowered, e: O.Event)
    requires Performing(i, l, work) && O.IsDraw(op) && s.machine.pass == Some(pass) && LowerDraw(i, s, l, op) == Ok(m)
    requires e == O.Drawn(pass.target, pass.area, O.DepthTarget(pass), s.machine.bound, op)
    ensures Performing(i, m, work + WorkOf([e]))
  {
    OneWork(e);
    BatchPerforms(i, s, l, work, OpenBatch(s, l).value);
    SameAttachments(i, pass, s.machine.bound, op);
    DrawPerforms(i, OpenBatch(s, l).value, DrawStateFor(i, pass, s.machine.bound, op).value, work, e);
  }

  /** One accepted operation does the work of its events. */
  lemma StepPerforms(i: Input, s: State, l: Lowered, op: O.Operation, work: seq<O.Event>, m: Lowered, events: seq<O.Event>)
    requires (l.active ==> l.sequence.Some?) && InTouch(s, l) && Performing(i, l, work)
    requires LowerOne(i, s, l, op).Ok? && m == LowerOne(i, s, l, op).value.1
    requires O.Step(FormatsOf(i.resources), s.machine, op).Ran? && events == O.Step(FormatsOf(i.resources), s.machine, op).events
    ensures Performing(i, m, work + WorkOf(events))
  {
    if O.IsTransfer(op) {
      TransferPerforms(i, l, op, work, m, FormatsOf(i.resources), s.machine);
    } else if op.BeginRenderPass? {
      PassPerforms(i, l, op.pass, work, m);
    } else if op.EndRenderPass? {
      EndPerforms(i, l, s.machine.pass.value, work, m);
    } else if O.IsDraw(op) {
      DrawOpPerforms(i, s, l, s.machine.pass.value, op, work, m, events[0]);
    } else {
      assert work + [] == work;
    }
  }

  lemma TransferWork(f: O.Formats, s: O.Machine, op: O.Operation)
    requires O.IsTransfer(op) && O.TransferStep(f, s, op).Ran?
    ensures WorkOf(O.TransferStep(f, s, op).events) == TransferEvents(op)
  {
    if op.WriteBuffer? || op.WriteTexture? {
      NoWork(O.TransferStep(f, s, op).events);
    } else {
      OneWork(O.Transferred(op));
    }
  }

  lemma {:induction false} AllWork(events: seq<O.Event>)
    requires forall e | e in events :: IsWork(e)
    ensures WorkOf(events) == events
  {
    if events != [] {
      AllWork(events[..|events| - 1]);
      assert events == events[..|events| - 1] + [events[|events| - 1]];
    }
  }

  /** Whatever a stream means for the engines, its commands make them do, each event in its own state. */
  lemma {:induction false} RunPerforms(i: Input, ops: seq<O.Operation>)
    requires LowerRun(i, ops).Ok?
    ensures Performing(i, LowerRun(i, ops).value.1, WorkOf(O.Run(FormatsOf(i.resources), ops).events))
  {
    if ops != [] {
      var n, f := |ops| - 1, FormatsOf(i.resources);
      var s, l := LowerRun(i, ops[..n]).value.0, LowerRun(i, ops[..n]).value.1;
      RunPerforms(i, ops[..n]);
      var m := LowerRun(i, ops).value.1;
      AcceptedRuns(i, s, l, ops[n]);
      var before, events := O.Run(f, ops[..n]).events, O.Step(f, s.machine, ops[n]).events;
      StepPerforms(i, s, l, ops[n], WorkOf(before), m, events);
      WorkConcat(before, events);
    }
  }

  // ---- the emitted stream -------------------------------------------------------------------------------------------------------

  ghost predicate Silent(p: seq<Command>) {
    NoActs(p) && forall k :: Final(p, k).None?
  }

  lemma {:induction false} RunsAreSilent(p: seq<Command>)
    requires NoActs(p) && forall k | 0 <= k < |p| :: p[k].Run?
    ensures Silent(p)
  {
    forall k
      ensures Final(p, k).None?
    {
      SparedIsNone(p, k);
    }
  }

  lemma {:induction false} PrologueRuns(states: seq<TextureState>)
    ensures NoActs(Prologue(states)) && forall k | 0 <= k < |Prologue(states)| :: Prologue(states)[k].Run?
  {
    if states != [] {
      PrologueRuns(states[..|states| - 1]);
    }
  }

  lemma {:induction false} ActsBehindSilent(p: seq<Command>, cs: seq<Command>)
    requires Silent(p)
    ensures ActsFrom(p, cs) == ActsFrom([], cs)
  {
    if cs != [] {
      var front := cs[..|cs| - 1];
      ActsBehindSilent(p, front);
      SilentAgrees(p, front);
      AgreeStates(p + front, [] + front);
    }
  }

  lemma SilentAgrees(p: seq<Command>, cs: seq<Command>)
    requires Silent(p)
    ensures Agree(p + cs, [] + cs)
  {
    forall k
      ensures Final(p + cs, k) == Final([] + cs, k)
    {
      FinalConcat(p, cs, k);
      FinalConcat([], cs, k);
    }
  }

  lemma AllActs(l: Lowered)
    ensures ActsFrom([], AllCommands(l)) == ActsFrom([], l.commands)
  {
    if l.states != [] {
      var p := Prologue(l.states) + Emitters.Barrier();
      PrologueRuns(l.states);
      RunsAreSilent(p);
      ActsConcat([], p, l.commands);
      ActsNone([], p);
      assert [] + p == p;
      ActsBehindSilent(p, l.commands);
    }
  }

  /** The compiler is right about the engines: the commands of a compiled stream hold one packet for each draw,
      clear, copy and blit the stream means, in order, and each finds all the state that the event, emitted
      on its own and in full, would set. */
  lemma CompiledWork(i: Input, ops: seq<O.Operation>)
    requires LowerStream(i, ops).Ok?
    ensures O.Meaning(FormatsOf(i.resources), ops).Some?
    ensures var l := LowerStream(i, ops).value;
            AllPerform(i, l.states, ActsFrom([], AllCommands(l)), WorkOf(O.Meaning(FormatsOf(i.resources), ops).value))
  {
    RunPerforms(i, ops);
    AllActs(LowerStream(i, ops).value);
  }

  /** A draw that samples does so through an object that the prologue fills with its own texture and sampler. */
  lemma CompiledSamples(i: Input, ops: seq<O.Operation>, e: O.Event, d: DrawState)
    requires LowerStream(i, ops).Ok? && e in WorkOf(O.Meaning(FormatsOf(i.resources), ops).value)
    requires e.Drawn? && EventDraw(i, e) == Some(d) && d.texture.Some?
    ensures var l := LowerStream(i, ops).value;
            && Lookup(l.states, d.texture.value, d.sampler).Some?
            && Stored(Prologue(l.states), Lookup(l.states, d.texture.value, d.sampler).value) == Some(Contents(d.texture.value, d.sampler))
  {
    var l, work := LowerStream(i, ops).value, WorkOf(O.Meaning(FormatsOf(i.resources), ops).value);
    CompiledWork(i, ops);
    var k :| 0 <= k < |work| && work[k] == e;
    assert Performance(i, l.states)(ActsFrom([], AllCommands(l))[k], work[k]);
    var at := LookupFinds(l.states, d.texture.value, d.sampler);
    PrologueStores(l.states, |l.generated|, at);
  }
}
