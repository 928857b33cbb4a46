/** Draws that inherit state see exactly what complete draws would. */
module DrawDelta {
  import opened Wrappers
  import opened WireFormat
  import opened Operations
  import opened Accesses
  import opened Stream
  import opened Commands
  import opened Draws
  import W = SubmitWire

  // ---- state that every draw sets itself -------------------------------------------------------------------------

  predicate Dynamic(k: Key) {
    match k
    case Register(n) => 0x80f0 <= n < 0x80f2 || 0xa00e <= n < 0xa014 || 0xa9e0 <= n < 0xa9e2 || 0xa9e4 <= n < 0xa9e6
    case Loaded(opcode, block, stateType, _) => DynamicLoad(opcode, block, stateType)
  }

  predicate DynamicLoad(opcode: nat, block: nat, stateType: nat) {
    || (opcode == CP_LOAD_STATE6_GEOM && block == 8 && stateType == 1)
    || (opcode == CP_LOAD_STATE6_FRAG && block == 12 && stateType == 1)
    || (opcode == CP_LOAD_STATE6_FRAG && block == 4 && (stateType == 0 || stateType == 1))
  }

  /** No dynamic register is among lo..hi. */
  predicate Outside(lo: nat, hi: nat) {
    && (hi <= 0x80f0 || 0x80f2 <= lo) && (hi <= 0xa00e || 0xa014 <= lo)
    && (hi <= 0xa9e0 || 0xa9e2 <= lo) && (hi <= 0xa9e4 || 0xa9e6 <= lo)
  }

  /** The command sets no dynamic state, whatever mix of values and addresses it writes. */
  predicate Avoids(c: Command) {
    match c
    case Write(register, fields) => Outside(register, register + 2 * |fields|)
    case TrackedWrite(register, _) => Outside(register, register + 1)
    case LoadDirect(opcode, block, stateType, _, _) => !DynamicLoad(opcode, block, stateType)
    case LoadIndirect(opcode, block, stateType, _, _) => !DynamicLoad(opcode, block, stateType)
    case Run(_, _) => false
  }

  ghost predicate AllAvoid(cs: seq<Command>) {
    forall i | 0 <= i < |cs| :: Avoids(cs[i])
  }

  ghost predicate Quiet(cs: seq<Command>) {
    forall i | 0 <= i < |cs| :: !cs[i].Run?
  }

  lemma {:induction false} ExpandBound(fs: seq<Field>)
    ensures |Expand(fs)| <= 2 * |fs|
  {
    if fs != [] {
      ExpandBound(fs[1..]);
    }
  }

  lemma AvoidedSpares(cs: seq<Command>, k: Key)
    requires AllAvoid(cs) && Dynamic(k)
    ensures Spares(cs, k)
  {
    forall i | 0 <= i < |cs|
      ensures !Sets(cs[i], k)
    {
      assert Avoids(cs[i]);
      if cs[i].Write? {
        ExpandBound(cs[i].fields);
      }
    }
  }

  // ---- the fixed commands avoid it -----------------------------------------------------------------------------------

  lemma BeforeAvoids(t: Tables, f: Fixed)
    ensures AllAvoid(FixedBefore(t, f))
  {
    assert AllAvoid(ProgramConfig(t.program(f.variant)));
    assert AllAvoid(TargetState(f));
    assert AllAvoid(BlendState(f));
    assert AllAvoid(DepthCommon());
    assert AllAvoid(DepthBuffer(f.depth));
    assert AllAvoid(SampleAndScissor(t, f));
  }

  lemma RasterAvoids(t: Tables, f: Fixed)
    ensures AllAvoid(Raster(t, f))
  {
  }

  lemma AfterAvoids(t: Tables, f: Fixed)
    requires |f.attributes| <= 4
    ensures AllAvoid(FixedAfter(t, f))
  {
    var p := t.program(f.variant);
    assert AllAvoid(VertexProgram(p, f));
    assert AllAvoid(VertexOutput(p));
    assert AllAvoid(FragmentInput(p));
    assert AllAvoid(FragmentOutput(p));
    assert AllAvoid(FragmentInterp(p));
    assert AllAvoid(Programs(t, p));
  }

  /** All the state a compatible draw inherits. */
  function FixedState(t: Tables, f: Fixed): seq<Command> { FixedBefore(t, f) + Raster(t, f) + FixedAfter(t, f) }

  /** All the state a draw sets itself. */
  function OwnState(states: seq<TextureState>, next: nat, d: DrawState): seq<Command>
    requires ValidDraw(d)
  {
    Scissor(d) + Vertices(d) + Constants(d) + Sampling(states, next, d)
  }

  lemma TwoWords(a: u32, b: u32, r: Address)
    ensures Expand([Val(a), Val(b)]) == [Word(a), Word(b)] && Expand([Ref(r)]) == [Low(r), High(r)]
  {
    assert [Val(a), Val(b)][1..] == [Val(b)] && [Val(b)][1..] == [] && [Ref(r)][1..] == [];
    assert Expand([Val(b)]) == [Word(b)] + Expand([]);
  }

  lemma PlainSpares(d: DrawState, k: Key)
    requires ValidDraw(d) && !Dynamic(k)
    ensures Spares(Scissor(d), k) && Spares(Vertices(d), k) && Spares(Constants(d), k)
  {
    var r := Address(External(d.vertex), d.vertexOffset, d.vertexSize, READ, W.GpuVa64);
    TwoWords(PackXY(d.scissor.x, d.scissor.y), Corner(d.scissor), r);
    TwoWords(FirstVertex(d.call), 0, r);
    TwoWords(d.vertexSize, d.fixed.stride, r);
  }

  lemma LoadsSpare(id: nat, k: Key)
    requires !Dynamic(k)
    ensures Spares(TextureLoads(id), k)
  {
    TwoWords(0, 0, SamplerAt(id));
    TwoWords(0, 0, DescriptorAt(id));
  }

  /** In a complete draw, fixed and own state do not interfere. */
  lemma FullSplits(t: Tables, states: seq<TextureState>, next: nat, d: DrawState, k: Key)
    requires ValidDraw(d)
    ensures Final(FullState(t, states, next, d), k) ==
            if Dynamic(k) then Final(OwnState(states, next, d), k) else Final(FixedState(t, d.fixed), k)
  {
    var a, b, c := FixedBefore(t, d.fixed), Raster(t, d.fixed), FixedAfter(t, d.fixed);
    var s, v, u, x := Scissor(d), Vertices(d), Constants(d), Sampling(states, next, d);
    SevenParts(a, s, b, v, c, u, x, k);
    FourParts(s, v, u, x, k);
    ThreeParts(a, b, c, k);
    if Dynamic(k) {
      BeforeAvoids(t, d.fixed);
      RasterAvoids(t, d.fixed);
      AfterAvoids(t, d.fixed);
      NoneOfThree(a, b, c, k);
    } else {
      PlainSpares(d, k);
      if d.texture.Some? {
        LoadsSpare(StateId(states, next, d), k);
      }
      NoneOfFour(s, v, u, x, k);
    }
  }

  lemma NoneOfThree(a: seq<Command>, b: seq<Command>, c: seq<Command>, k: Key)
    requires AllAvoid(a) && AllAvoid(b) && AllAvoid(c) && Dynamic(k)
    ensures Final(a, k).None? && Final(b, k).None? && Final(c, k).None?
  {
    AvoidedSpares(a, k);
    AvoidedSpares(b, k);
    AvoidedSpares(c, k);
    SparedIsNone(a, k);
    SparedIsNone(b, k);
    SparedIsNone(c, k);
  }

  lemma NoneOfFour(s: seq<Command>, v: seq<Command>, u: seq<Command>, x: seq<Command>, k: Key)
    requires Spares(s, k) && Spares(v, k) && Spares(u, k) && Spares(x, k)
    ensures Final(s, k).None? && Final(v, k).None? && Final(u, k).None? && Final(x, k).None?
  {
    SparedIsNone(s, k);
    SparedIsNone(v, k);
    SparedIsNone(u, k);
    SparedIsNone(x, k);
  }

  function Or(a: Option<Value>, b: Option<Value>): Option<Value> { if b.Some? then b else a }

  lemma ThreeParts(a: seq<Command>, b: seq<Command>, c: seq<Command>, k: Key)
    ensures Final(a + b + c, k) == Or(Or(Final(a, k), Final(b, k)), Final(c, k))
  {
    FinalConcat(a, b, k);
    FinalConcat(a + b, c, k);
  }

  lemma FourParts(a: seq<Command>, b: seq<Command>, c: seq<Command>, d: seq<Command>, k: Key)
    ensures Final(a + b + c + d, k) == Or(Or(Or(Final(a, k), Final(b, k)), Final(c, k)), Final(d, k))
  {
    ThreeParts(a, b, c, k);
    FinalConcat(a + b + c, d, k);
  }

  lemma SevenParts(a: seq<Command>, b: seq<Command>, c: seq<Command>, d: seq<Command>, e: seq<Command>, f: seq<Command>,
                   g: seq<Command>, k: Key)
    ensures Final(a + b + c + d + e + f + g, k) ==
            Or(Or(Or(Or(Or(Or(Final(a, k), Final(b, k)), Final(c, k)), Final(d, k)), Final(e, k)), Final(f, k)), Final(g, k))
  {
    FourParts(a, b, c, d, k);
    FinalConcat(a + b + c + d, e, k);
    FinalConcat(a + b + c + d + e, f, k);
    FinalConcat(a + b + c + d + e + f, g, k);
  }

  // ---- histories ---------------------------------------------------------------------------------------------------

  /** Two streams leave the same state. */
  ghost predicate Agree(p: seq<Command>, q: seq<Command>) {
    forall k :: Final(p, k) == Final(q, k)
  }

  /** What `cs` sets is still in place after p. */
  ghost predicate InPlace(p: seq<Command>, cs: seq<Command>) {
    forall k | Final(cs, k).Some? :: Final(p, k) == Final(cs, k)
  }

  /** The state left by the last draw: its fixed state, and its texture if it has one. */
  ghost predicate Retains(t: Tables, p: seq<Command>, states: seq<TextureState>, last: Option<DrawState>) {
    last.Some? ==>
      && InPlace(p, FixedState(t, last.value.fixed))
      && (last.value.texture.Some? ==>
            && Lookup(states, last.value.texture.value, last.value.sampler).Some?
            && InPlace(p, TextureLoads(Lookup(states, last.value.texture.value, last.value.sampler).value)))
  }

  lemma {:induction false} LookupGrows(states: seq<TextureState>, s: TextureState, texture: Surface, sampler: seq<u32>)
    ensures Lookup(states + [s], texture, sampler) ==
            if Lookup(states, texture, sampler).Some? then Lookup(states, texture, sampler)
            else if s.texture == texture && s.sampler == sampler then Some(s.id) else None
  {
    if states != [] {
      LookupGrows(states[1..], s, texture, sampler);
      assert (states + [s])[1..] == states[1..] + [s];
    }
  }

  /** After the draw its texture is in the cache, under the identity it loaded. */
  lemma CachedAfter(states: seq<TextureState>, next: nat, d: DrawState)
    requires d.texture.Some?
    ensures Lookup(CacheAfter(states, next, d).0, d.texture.value, d.sampler) == Some(StateId(states, next, d))
  {
    LookupGrows(states, TextureState(d.texture.value, d.sampler, next), d.texture.value, d.sampler);
  }

  lemma FixedIsPlain(t: Tables, f: Fixed, k: Key)
    requires |f.attributes| <= 4 && Dynamic(k)
    ensures Final(FixedState(t, f), k).None?
  {
    BeforeAvoids(t, f);
    RasterAvoids(t, f);
    AfterAvoids(t, f);
    NoneOfThree(FixedBefore(t, f), Raster(t, f), FixedAfter(t, f), k);
    ThreeParts(FixedBefore(t, f), Raster(t, f), FixedAfter(t, f), k);
  }

  lemma LoadsAreDynamic(id: nat, k: Key)
    requires Final(TextureLoads(id), k).Some?
    ensures Dynamic(k)
  {
    if !Dynamic(k) {
      LoadsSpare(id, k);
      SparedIsNone(TextureLoads(id), k);
    }
  }

  lemma OwnEndsWithLoads(states: seq<TextureState>, next: nat, d: DrawState, k: Key)
    requires ValidDraw(d)
    ensures Final(OwnState(states, next, d), k) ==
            Or(Final(Scissor(d) + Vertices(d) + Constants(d), k), Final(Sampling(states, next, d), k))
  {
    FinalConcat(Scissor(d) + Vertices(d) + Constants(d), Sampling(states, next, d), k);
  }

  /** A complete draw establishes everything a compatible draw inherits. */
  lemma FullRetains(t: Tables, p: seq<Command>, states: seq<TextureState>, next: nat, d: DrawState)
    requires ValidDraw(d)
    ensures Retains(t, p + FullState(t, states, next, d), CacheAfter(states, next, d).0, Some(d))
  {
    var full := FullState(t, states, next, d);
    forall k | Final(FixedState(t, d.fixed), k).Some?
      ensures Final(p + full, k) == Final(FixedState(t, d.fixed), k)
    {
      FinalConcat(p, full, k);
      FullSplits(t, states, next, d, k);
      if Dynamic(k) {
        FixedIsPlain(t, d.fixed, k);
      }
    }
    if d.texture.Some? {
      CachedAfter(states, next, d);
      var loads := TextureLoads(StateId(states, next, d));
      forall k | Final(loads, k).Some?
        ensures Final(p + full, k) == Final(loads, k)
      {
        FinalConcat(p, full, k);
        FullSplits(t, states, next, d, k);
        LoadsAreDynamic(StateId(states, next, d), k);
        OwnEndsWithLoads(states, next, d, k);
      }
    }
  }

  /** What a delta leaves: its own state where it sets any, and otherwise what was there. */
  lemma DeltaFinal(p: seq<Command>, previous: DrawState, states: seq<TextureState>, next: nat, d: DrawState, k: Key)
    requires ValidDraw(d)
    ensures var x := if SameTexture(previous, d) then [] else Sampling(states, next, d);
            Final(p + DeltaState(previous, states, next, d), k) ==
            Or(Or(Final(p, k), Final(Scissor(d) + Vertices(d) + Constants(d), k)), Final(x, k))
  {
    var x := if SameTexture(previous, d) then [] else Sampling(states, next, d);
    FinalConcat(p, DeltaState(previous, states, next, d), k);
    FinalConcat(Scissor(d) + Vertices(d) + Constants(d), x, k);
  }

  /** Behind a compatible draw, the delta and the complete draw leave the same state. */
  lemma DeltaIsFull(t: Tables, p: seq<Command>, previous: DrawState, states: seq<TextureState>, next: nat, d: DrawState)
    requires ValidDraw(d) && previous.fixed == d.fixed && Retains(t, p, states, Some(previous))
    ensures Agree(p + DeltaState(previous, states, next, d), p + FullState(t, states, next, d))
  {
    forall k
      ensures Final(p + DeltaState(previous, states, next, d), k) == Final(p + FullState(t, states, next, d), k)
    {
      DeltaFinal(p, previous, states, next, d, k);
      FinalConcat(p, FullState(t, states, next, d), k);
      FullSplits(t, states, next, d, k);
      if Dynamic(k) {
        OwnEndsWithLoads(states, next, d, k);
        if SameTexture(previous, d) && d.texture.Some? {
          PlainSparesLoads(d, StateId(states, next, d), k);
        }
      } else {
        PlainSpares(d, k);
        NoneOfFour(Scissor(d), Vertices(d), Constants(d), [], k);
        ThreeParts(Scissor(d), Vertices(d), Constants(d), k);
        if d.texture.Some? {
          LoadsSpare(StateId(states, next, d), k);
          SparedIsNone(TextureLoads(StateId(states, next, d)), k);
        }
      }
    }
  }

  /** Texture state is disjoint from the rest of what a draw sets. */
  lemma PlainSparesLoads(d: DrawState, id: nat, k: Key)
    requires ValidDraw(d)
    ensures Final(TextureLoads(id), k).Some? ==> Final(Scissor(d) + Vertices(d) + Constants(d), k).None?
  {
    if Final(TextureLoads(id), k).Some? {
      TextureKeys(id, k);
      var r := Address(External(d.vertex), d.vertexOffset, d.vertexSize, READ, W.GpuVa64);
      TwoWords(PackXY(d.scissor.x, d.scissor.y), Corner(d.scissor), r);
      TwoWords(FirstVertex(d.call), 0, r);
      TwoWords(d.vertexSize, d.fixed.stride, r);
      assert Spares(Scissor(d), k) && Spares(Vertices(d), k) && Spares(Constants(d), k);
      NoneOfFour(Scissor(d), Vertices(d), Constants(d), [], k);
      ThreeParts(Scissor(d), Vertices(d), Constants(d), k);
    }
  }

  predicate TextureKey(k: Key) {
    match k
    case Register(n) => 0xa9e0 <= n < 0xa9e2 || 0xa9e4 <= n < 0xa9e6
    case Loaded(opcode, block, stateType, _) => opcode == CP_LOAD_STATE6_FRAG && block == 4 && stateType < 2
  }

  lemma TextureKeys(id: nat, k: Key)
    requires Final(TextureLoads(id), k).Some?
    ensures TextureKey(k)
  {
    if !TextureKey(k) {
      TwoWords(0, 0, SamplerAt(id));
      TwoWords(0, 0, DescriptorAt(id));
      assert Spares(TextureLoads(id), k);
      SparedIsNone(TextureLoads(id), k);
    }
  }

  // ---- whole batches -----------------------------------------------------------------------------------------------

  datatype Emission = Emission(commands: seq<Command>, last: Option<DrawState>, states: seq<TextureState>, next: nat)

  ghost predicate AllValid(ds: seq<DrawState>) {
    forall i | 0 <= i < |ds| :: ValidDraw(ds[i])
  }

  function Emitted(t: Tables, e: Emission, inherit: bool, d: DrawState): Emission
    requires ValidDraw(d)
  {
    var (states, next) := CacheAfter(e.states, e.next, d);
    Emission(e.commands + DrawCommands(t, if inherit then e.last else None, e.states, e.next, d), Some(d), states, next)
  }

  /** A batch as it is emitted: compatible draws inherit. */
  ghost function DeltaBatch(t: Tables, e: Emission, ds: seq<DrawState>): Emission
    requires AllValid(ds)
  {
    if ds == [] then e else Emitted(t, DeltaBatch(t, e, ds[..|ds| - 1]), true, ds[|ds| - 1])
  }

  /** The reference: every draw is complete. */
  ghost function FullBatch(t: Tables, e: Emission, ds: seq<DrawState>): Emission
    requires AllValid(ds)
  {
    if ds == [] then e else Emitted(t, FullBatch(t, e, ds[..|ds| - 1]), false, ds[|ds| - 1])
  }

  lemma {:induction false} ShotsQuiet(p: seq<Command>, cs: seq<Command>)
    requires Quiet(cs)
    ensures Shots(p + cs) == Shots(p)
  {
    if cs == [] {
      assert p + cs == p;
    } else {
      assert (p + cs)[..|p + cs| - 1] == p + cs[..|cs| - 1];
      ShotsQuiet(p, cs[..|cs| - 1]);
    }
  }

  lemma ShotsOfDraw(p: seq<Command>, cs: seq<Command>, d: DrawState)
    requires Quiet(cs)
    ensures Shots(p + (cs + [Call(d)])) == Shots(p) + [Shot(StateAfter(p + cs), CallFields(d.call))]
  {
    var all := p + (cs + [Call(d)]);
    assert all[..|all| - 1] == p + cs && all[|all| - 1] == Call(d);
    ShotsQuiet(p, cs);
  }

  lemma CallSetsNothing(p: seq<Command>, cs: seq<Command>, d: DrawState)
    ensures Agree(p + (cs + [Call(d)]), p + cs)
  {
    var all := p + (cs + [Call(d)]);
    assert all[..|all| - 1] == p + cs && all[|all| - 1] == Call(d);
  }

  lemma FixedQuiet(t: Tables, f: Fixed)
    requires |f.attributes| <= 4
    ensures Quiet(FixedBefore(t, f)) && Quiet(Raster(t, f)) && Quiet(FixedAfter(t, f))
  {
    BeforeAvoids(t, f);
    RasterAvoids(t, f);
    AfterAvoids(t, f);
    AvoidIsQuiet(FixedBefore(t, f));
    AvoidIsQuiet(Raster(t, f));
    AvoidIsQuiet(FixedAfter(t, f));
  }

  lemma AvoidIsQuiet(cs: seq<Command>)
    requires AllAvoid(cs)
    ensures Quiet(cs)
  {
    forall i | 0 <= i < |cs|
      ensures !cs[i].Run?
    {
      assert Avoids(cs[i]);
    }
  }

  lemma QuietParts(a: seq<Command>, b: seq<Command>, c: seq<Command>, s: seq<Command>, v: seq<Command>, u: seq<Command>, x: seq<Command>)
    requires Quiet(a) && Quiet(b) && Quiet(c) && Quiet(s) && Quiet(v) && Quiet(u) && Quiet(x)
    ensures Quiet(a + s + b + v + c + u + x)
  {
  }

  lemma StatesQuiet(t: Tables, previous: DrawState, states: seq<TextureState>, next: nat, d: DrawState)
    requires ValidDraw(d)
    ensures Quiet(FullState(t, states, next, d)) && Quiet(DeltaState(previous, states, next, d))
  {
    FixedQuiet(t, d.fixed);
    QuietParts(FixedBefore(t, d.fixed), Raster(t, d.fixed), FixedAfter(t, d.fixed), Scissor(d), Vertices(d), Constants(d),
               Sampling(states, next, d));
  }

  lemma AgreeConcat(p: seq<Command>, q: seq<Command>, cs: seq<Command>)
    requires Agree(p, q)
    ensures Agree(p + cs, q + cs)
  {
    forall k
      ensures Final(p + cs, k) == Final(q + cs, k)
    {
      FinalConcat(p, cs, k);
      FinalConcat(q, cs, k);
    }
  }

  lemma AgreeStates(p: seq<Command>, q: seq<Command>)
    requires Agree(p, q)
    ensures StateAfter(p) == StateAfter(q)
  {
  }

  lemma RetainsAgree(t: Tables, p: seq<Command>, q: seq<Command>, states: seq<TextureState>, last: Option<DrawState>)
    requires Retains(t, p, states, last) && Agree(p, q)
    ensures Retains(t, q, states, last)
  {
  }

  /** The two emissions are at the same point: same cache, same state, same draws seen. */
  ghost predicate InStep(t: Tables, delta: Emission, full: Emission) {
    && delta.states == full.states && delta.next == full.next && delta.last == full.last
    && Agree(delta.commands, full.commands) && Shots(delta.commands) == Shots(full.commands)
    && Retains(t, delta.commands, delta.states, delta.last)
  }

  /** The state part of what is emitted for a draw. */
  function StateOf(t: Tables, last: Option<DrawState>, states: seq<TextureState>, next: nat, d: DrawState): seq<Command>
    requires ValidDraw(d)
  {
    if Inherits(last, d) then DeltaState(last.value, states, next, d) else FullState(t, states, next, d)
  }

  lemma SameStateAtDraw(t: Tables, delta: Emission, full: Emission, d: DrawState)
    requires ValidDraw(d) && InStep(t, delta, full)
    ensures Agree(delta.commands + StateOf(t, delta.last, delta.states, delta.next, d),
                  full.commands + FullState(t, delta.states, delta.next, d))
  {
    var own := FullState(t, delta.states, delta.next, d);
    AgreeConcat(delta.commands, full.commands, own);
    if Inherits(delta.last, d) {
      DeltaIsFull(t, delta.commands, delta.last.value, delta.states, delta.next, d);
    }
  }

  lemma StayInStep(t: Tables, delta: Emission, full: Emission, d: DrawState)
    requires ValidDraw(d) && InStep(t, delta, full)
    ensures InStep(t, Emitted(t, delta, true, d), Emitted(t, full, false, d))
  {
    var p, q := delta.commands, full.commands;
    var mine := StateOf(t, delta.last, delta.states, delta.next, d);
    var own := FullState(t, delta.states, delta.next, d);
    SameStateAtDraw(t, delta, full, d);
    StatesQuiet(t, d, delta.states, delta.next, d);
    if delta.last.Some? {
      StatesQuiet(t, delta.last.value, delta.states, delta.next, d);
    }
    ShotsOfDraw(p, mine, d);
    ShotsOfDraw(q, own, d);
    AgreeStates(p + mine, q + own);
    CallSetsNothing(p, mine, d);
    CallSetsNothing(q, own, d);
    FullRetains(t, q, delta.states, delta.next, d);
    RetainsAgree(t, q + own, p + (mine + [Call(d)]), CacheAfter(delta.states, delta.next, d).0, Some(d));
  }

  lemma {:induction false} BatchInStep(t: Tables, e: Emission, ds: seq<DrawState>)
    requires AllValid(ds) && e.last.None?
    ensures InStep(t, DeltaBatch(t, e, ds), FullBatch(t, e, ds))
  {
    if ds != [] {
      BatchInStep(t, e, ds[..|ds| - 1]);
      StayInStep(t, DeltaBatch(t, e, ds[..|ds| - 1]), FullBatch(t, e, ds[..|ds| - 1]), ds[|ds| - 1]);
    }
  }

  /** Delta draws refine full draws: for any batch, after anything emitted before it, every draw sees the
      same registers, constants and texture state as when each draw is emitted in full, and the two
      forms ask for the same texture state objects. */
  lemma DeltaRefinesFull(t: Tables, e: Emission, ds: seq<DrawState>)
    requires AllValid(ds) && e.last.None?
    ensures Shots(DeltaBatch(t, e, ds).commands) == Shots(FullBatch(t, e, ds).commands)
    ensures DeltaBatch(t, e, ds).states == FullBatch(t, e, ds).states
  {
    BatchInStep(t, e, ds);
  }
}
