/** Lowering state: generated objects, the texture state cache, batches, draws and transfers. */
module Lowering {
  import opened Wrappers
  import opened WireFormat
  import opened ShaderPack
  import opened Accesses
  import opened Commands
  import opened Draws
  import opened DrawDelta
  import opened Descriptors
  import opened Images
  import opened Bounds
  import opened Transfers

  datatype GeneratedKind = Upload | CcuSequence | TextureStateObject

  datatype GeneratedObject = GeneratedObject(alignment: nat, bytes: seq<byte>, access: Access, kind: GeneratedKind)

  datatype Lowered = Lowered(
    generated: seq<GeneratedObject>, states: seq<TextureState>, sequence: Option<nat>, events: u32, active: bool,
    last: Option<DrawState>, commands: seq<Command>)

  const NOTHING_LOWERED := Lowered([], [], None, 0, false, None, [])

  /** The objects outside the compilation: external sizes, and shader programs. */
  datatype World = World(external: map<nat, nat>, shaders: ShaderSizes)

  function SizesOf(gs: seq<GeneratedObject>): (sizes: seq<nat>)
    ensures |sizes| == |gs|
  {
    seq(|gs|, i requires 0 <= i < |gs| => |gs[i].bytes|)
  }

  function ObjectsOf(w: World, l: Lowered): Objects { Objects(w.external, SizesOf(l.generated), w.shaders) }

  // ---- what always holds ---------------------------------------------------------------------------------------------

  /** Cached states have their objects, and the sequence word has its own. */
  ghost predicate Backed(l: Lowered) {
    && Increasing(l.states, |l.generated|)
    && (forall i | 0 <= i < |l.states| :: |l.generated[l.states[i].id].bytes| == STATE_SIZE)
    && (l.sequence.Some? ==> l.sequence.value < |l.generated| && |l.generated[l.sequence.value].bytes| == 4)
    && (l.active ==> l.sequence.Some?)
  }

  /** The last draw's texture is still cached. */
  ghost predicate LastCached(l: Lowered) {
    l.last.Some? && l.last.value.texture.Some? ==> Lookup(l.states, l.last.value.texture.value, l.last.value.sampler).Some?
  }

  ghost predicate Bounded(w: World, l: Lowered) {
    AllInside(ObjectsOf(w, l), l.commands) && AllInside(ObjectsOf(w, l), Prologue(l.states))
  }

  ghost predicate Good(w: World, l: Lowered) { Backed(l) && LastCached(l) && Bounded(w, l) }

  // ---- growing --------------------------------------------------------------------------------------------------------

  function AddObject(l: Lowered, g: GeneratedObject): Lowered { l.(generated := l.generated + [g]) }

  lemma AddObjectKeeps(w: World, l: Lowered, g: GeneratedObject)
    requires Good(w, l)
    ensures Good(w, AddObject(l, g)) && Extends(ObjectsOf(w, AddObject(l, g)), ObjectsOf(w, l))
  {
    var m := AddObject(l, g);
    assert SizesOf(m.generated) == SizesOf(l.generated) + [|g.bytes|];
    InsideStays(ObjectsOf(w, l), ObjectsOf(w, m), l.commands);
    InsideStays(ObjectsOf(w, l), ObjectsOf(w, m), Prologue(l.states));
  }

  /** The shared sequence word, made on first use. */
  function WithSequence(l: Lowered): (m: Lowered)
    ensures m.sequence.Some? && m.events == l.events && m.active == l.active && m.commands == l.commands && m.last == l.last
  {
    if l.sequence.Some? then l
    else AddObject(l, GeneratedObject(64, [0, 0, 0, 0], WRITE, CcuSequence)).(sequence := Some(|l.generated|))
  }

  lemma WithSequenceKeeps(w: World, l: Lowered)
    requires Good(w, l)
    ensures Good(w, WithSequence(l)) && HasSequence(ObjectsOf(w, WithSequence(l)), WithSequence(l).sequence.value)
  {
    if l.sequence.None? {
      AddObjectKeeps(w, l, GeneratedObject(64, [0, 0, 0, 0], WRITE, CcuSequence));
    }
  }

  function Append(l: Lowered, cs: seq<Command>): Lowered { l.(commands := l.commands + cs) }

  lemma AppendKeeps(w: World, l: Lowered, cs: seq<Command>)
    requires Good(w, l) && AllInside(ObjectsOf(w, l), cs)
    ensures Good(w, Append(l, cs))
  {
    InsideConcat(ObjectsOf(w, l), l.commands, cs);
  }

  /** Only counters and flags change. */
  lemma FlagsKeep(w: World, l: Lowered, events: u32, active: bool, last: Option<DrawState>)
    requires Good(w, l) && (active ==> l.sequence.Some?)
    requires last.Some? && last.value.texture.Some? ==> Lookup(l.states, last.value.texture.value, last.value.sampler).Some?
    ensures Good(w, l.(events := events, active := active, last := last))
  {
  }

  // ---- batches and transfers ---------------------------------------------------------------------------------------------

  predicate Full(l: Lowered) { |l.generated| >= 0x1_0000_0000 }

  function BeginBatch(l: Lowered): Result<Lowered, CompileError> {
    if l.active then Err(BatchState)
    else if Full(l) then Err(Overflow)
    else
      var m := WithSequence(l);
      Ok(Append(m, BatchBegin(m.sequence.value, m.events)).(events := NextEvent(m.events), active := true, last := None))
  }

  function EndBatch(l: Lowered): Result<Lowered, CompileError>
    requires l.active ==> l.sequence.Some?
  {
    if !l.active then Err(BatchState)
    else
      Ok(Append(l, SubmissionEnd(l.sequence.value, l.events)).(events := NextEvent(NextEvent(l.events)), active := false, last := None))
  }

  /** A two-dimensional operation between its own cache events; never inside a batch. */
  function Transfer(l: Lowered, body: seq<Command>): Result<Lowered, CompileError> {
    if l.active then Err(BatchState)
    else if Full(l) then Err(Overflow)
    else
      var m := WithSequence(l);
      Ok(Append(m, Clear(m.sequence.value, m.events, body)).(events := NextEvent(NextEvent(NextEvent(m.events)))))
  }

  lemma BeginBatchKeeps(w: World, l: Lowered)
    requires Good(w, l)
    ensures BeginBatch(l) == Err(BatchState) <==> l.active
    ensures BeginBatch(l).Ok? ==> Good(w, BeginBatch(l).value) && BeginBatch(l).value.active
  {
    if BeginBatch(l).Ok? {
      var m := WithSequence(l);
      WithSequenceKeeps(w, l);
      BatchBeginInside(ObjectsOf(w, m), m.sequence.value, m.events);
      AppendKeeps(w, m, BatchBegin(m.sequence.value, m.events));
      FlagsKeep(w, Append(m, BatchBegin(m.sequence.value, m.events)), NextEvent(m.events), true, None);
    }
  }

  lemma EndBatchKeeps(w: World, l: Lowered)
    requires Good(w, l)
    ensures EndBatch(l) == Err(BatchState) <==> !l.active
    ensures EndBatch(l).Ok? ==> Good(w, EndBatch(l).value) && !EndBatch(l).value.active
  {
    if EndBatch(l).Ok? {
      EventsInside(ObjectsOf(w, l), l.sequence.value, l.events);
      AppendKeeps(w, l, SubmissionEnd(l.sequence.value, l.events));
      FlagsKeep(w, Append(l, SubmissionEnd(l.sequence.value, l.events)), NextEvent(NextEvent(l.events)), false, None);
    }
  }

  lemma TransferKeeps(w: World, l: Lowered, body: seq<Command>)
    requires Good(w, l) && AllInside(ObjectsOf(w, WithSequence(l)), body)
    ensures Transfer(l, body) == Err(BatchState) <==> l.active
    ensures Transfer(l, body).Ok? ==> Good(w, Transfer(l, body).value) && !Transfer(l, body).value.active
  {
    if Transfer(l, body).Ok? {
      var m := WithSequence(l);
      WithSequenceKeeps(w, l);
      ClearInside(ObjectsOf(w, m), m.sequence.value, m.events, body);
      AppendKeeps(w, m, Clear(m.sequence.value, m.events, body));
      FlagsKeep(w, Append(m, Clear(m.sequence.value, m.events, body)), NextEvent(NextEvent(NextEvent(m.events))), m.active, m.last);
    }
  }

  // ---- draws ----------------------------------------------------------------------------------------------------------------

  function StateObject(): GeneratedObject { GeneratedObject(64, seq(STATE_SIZE, _ => 0), 3, TextureStateObject) }

  /** The cache with the draw's texture state in it. */
  function WithState(l: Lowered, d: DrawState): Lowered {
    if d.texture.None? || Lookup(l.states, d.texture.value, d.sampler).Some? then l
    else AddObject(l, StateObject()).(states := l.states + [TextureState(d.texture.value, d.sampler, |l.generated|)])
  }

  lemma WithStateIsCache(l: Lowered, d: DrawState)
    ensures (WithState(l, d).states, |WithState(l, d).generated|) == CacheAfter(l.states, |l.generated|, d)
    ensures WithState(l, d).commands == l.commands && WithState(l, d).sequence == l.sequence && WithState(l, d).active == l.active
    ensures WithState(l, d).last == l.last
  {
  }

  lemma PrologueSnoc(states: seq<TextureState>, s: TextureState)
    ensures Prologue(states + [s]) == Prologue(states) + Initialize(s)
  {
    assert (states + [s])[..|states|] == states;
  }

  lemma NewStateInside(w: World, l: Lowered, d: DrawState)
    requires Good(w, l) && d.texture.Some? && SurfaceKnown(ObjectsOf(w, l), d.texture.value)
    requires Lookup(l.states, d.texture.value, d.sampler).None?
    ensures HasState(ObjectsOf(w, WithState(l, d)), |l.generated|)
    ensures Bounded(w, WithState(l, d))
  {
    var s := TextureState(d.texture.value, d.sampler, |l.generated|);
    var m := AddObject(l, StateObject());
    AddObjectKeeps(w, l, StateObject());
    InitializeInside(ObjectsOf(w, m), s);
    InsideConcat(ObjectsOf(w, m), Prologue(l.states), Initialize(s));
    PrologueSnoc(l.states, s);
    assert ObjectsOf(w, WithState(l, d)) == ObjectsOf(w, m);
  }

  lemma NewStateBacked(l: Lowered, d: DrawState)
    requires Backed(l) && LastCached(l) && d.texture.Some? && Lookup(l.states, d.texture.value, d.sampler).None?
    ensures Backed(WithState(l, d)) && LastCached(WithState(l, d))
  {
    var s := TextureState(d.texture.value, d.sampler, |l.generated|);
    if l.last.Some? && l.last.value.texture.Some? {
      LookupGrows(l.states, s, l.last.value.texture.value, l.last.value.sampler);
    }
  }

  lemma WithStateKeeps(w: World, l: Lowered, d: DrawState)
    requires Good(w, l) && (d.texture.Some? ==> SurfaceKnown(ObjectsOf(w, l), d.texture.value))
    ensures Good(w, WithState(l, d)) && Extends(ObjectsOf(w, WithState(l, d)), ObjectsOf(w, l))
    ensures d.texture.Some? ==>
              && HasState(ObjectsOf(w, WithState(l, d)), StateId(l.states, |l.generated|, d))
              && Lookup(WithState(l, d).states, d.texture.value, d.sampler).Some?
  {
    if d.texture.Some? {
      if Lookup(l.states, d.texture.value, d.sampler).None? {
        NewStateInside(w, l, d);
        NewStateBacked(l, d);
        AddObjectKeeps(w, l, StateObject());
        LookupGrows(l.states, TextureState(d.texture.value, d.sampler, |l.generated|), d.texture.value, d.sampler);
      } else {
        var i := LookupFinds(l.states, d.texture.value, d.sampler);
      }
    }
  }

  predicate TooWide(s: Surface) { s.planeSize / 64 >= 0x1_0000_0000 }

  /** The fields of a complete draw, or of a new descriptor, that do not fit. */
  predicate Unencodable(l: Lowered, d: DrawState) {
    || (!Inherits(l.last, d) && (TooWide(d.fixed.target) || (d.fixed.depth.Some? && TooWide(d.fixed.depth.value.target))))
    || (d.texture.Some? && Lookup(l.states, d.texture.value, d.sampler).None? && (Full(l) || !Describable(d.texture.value)))
  }

  /** A draw: complete, or only what changes behind a compatible draw. */
  function DrawOn(t: Tables, l: Lowered, d: DrawState): Result<Lowered, CompileError>
    requires ValidDraw(d)
  {
    if !l.active then Err(BatchState)
    else if Unencodable(l, d) then Err(Overflow)
    else Ok(Append(WithState(l, d), DrawCommands(t, l.last, l.states, |l.generated|, d)).(last := Some(d)))
  }

  lemma InsideGrown(was: Objects, now: Objects, d: DrawState)
    requires Extends(now, was) && DrawInside(was, d)
    ensures DrawInside(now, d)
  {
  }

  lemma DrawKeeps(w: World, t: Tables, l: Lowered, d: DrawState)
    requires Good(w, l) && ValidDraw(d) && DrawInside(ObjectsOf(w, l), d) && w.shaders == t.sizes
    ensures DrawOn(t, l, d) == Err(BatchState) <==> !l.active
    ensures DrawOn(t, l, d).Ok? ==> Good(w, DrawOn(t, l, d).value) && DrawOn(t, l, d).value.active
  {
    if DrawOn(t, l, d).Ok? {
      var m, cs := WithState(l, d), DrawCommands(t, l.last, l.states, |l.generated|, d);
      WithStateKeeps(w, l, d);
      WithStateIsCache(l, d);
      InsideGrown(ObjectsOf(w, l), ObjectsOf(w, m), d);
      DrawCommandsInside(ObjectsOf(w, m), t, l.last, l.states, |l.generated|, d);
      AppendKeeps(w, m, cs);
      FlagsKeep(w, Append(m, cs), m.events, m.active, Some(d));
    }
  }

  /** A batch of draws is emitted as the delta encoding, draw by draw. */
  lemma DrawIsDelta(t: Tables, l: Lowered, d: DrawState)
    requires ValidDraw(d) && DrawOn(t, l, d).Ok?
    ensures var m, e := DrawOn(t, l, d).value, Emission(l.commands, l.last, l.states, |l.generated|);
            Emission(m.commands, m.last, m.states, |m.generated|) == DrawDelta.Emitted(t, e, true, d)
  {
    WithStateIsCache(l, d);
  }

  /** New bytes for the GPU to copy from. */
  lemma UploadKeeps(w: World, l: Lowered, bytes: seq<byte>, cs: seq<Command>)
    requires Good(w, l)
    requires AllInside(ObjectsOf(w, AddObject(l, GeneratedObject(64, bytes, READ, Upload))), cs)
    ensures Good(w, Append(AddObject(l, GeneratedObject(64, bytes, READ, Upload)), cs))
  {
    AddObjectKeeps(w, l, GeneratedObject(64, bytes, READ, Upload));
    AppendKeeps(w, AddObject(l, GeneratedObject(64, bytes, READ, Upload)), cs);
  }
}
