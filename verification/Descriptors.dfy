/** Texture state objects: written once in the prologue, each with its own texture and sampler. */
module Descriptors {
  import opened Wrappers
  import opened WireFormat
  import opened Sequences
  import opened Operations
  import opened Accesses
  import opened Stream
  import opened Commands
  import opened Draws
  import opened DrawDelta
  import W = SubmitWire

  const STATE_SIZE := 80

  /** The leading descriptor dwords: format and swizzle, extent, pitch, and array pitch in pages. */
  function Prefix(t: Surface): seq<u32> {
    if t.nv12.Some? then
      [U32(0x2380_0000 + 0x6880 + (if t.nv12.value.midpointX then 0x1_0000 else 0)
           + if t.nv12.value.midpointY then 0x4_0000 else 0),
       U32(t.width + t.height * 0x8000), U32(t.stride * 0x80 + 0x2000_0000), U32((t.planeSize + 4095) / 4096)]
    else
      var swizzle := if t.alphaMask then 0x76d0 else 0x6880;
      var format := if t.tileMode == 0 then 0x4c00_0000 else 0x0c00_0000;
      [U32(format + swizzle + t.tileMode + if t.mipLevels == 0 then 0 else (t.mipLevels - 1) * 0x1_0000),
       U32(t.width + t.height * 0x8000), U32(t.stride * 0x80 + 0x2000_0000 + if t.tileMode == 0 then 0 else 2),
       U32((t.arrayPitch + 4095) / 4096)]
  }

  /** The array pitch must fit its field. */
  predicate Describable(t: Surface) { t.nv12.Some? || (t.arrayPitch + 4095) / 4096 < 0x1_0000_0000 }

  function PlaneAddress(t: Surface): Field {
    Ref(Address(External(t.target), t.planeOffset, t.planeSize, READ, W.GpuVa49TexDescriptor))
  }

  /** The second plane of a biplanar texture, or padding. */
  function SecondPlane(t: Surface): seq<Field> {
    if t.nv12.Some? then
      [Val(U32(t.stride * 0x100)), At(External(t.target), t.nv12.value.uvOffset, t.nv12.value.uvSize, READ)] + Zeroes(7)
    else Zeroes(10)
  }

  /** The contents of a texture state object. */
  function Contents(t: Surface, sampler: seq<u32>): seq<Field> {
    Vals(Prefix(t)) + [PlaneAddress(t)] + SecondPlane(t) + Vals(sampler)
  }

  function Initialize(s: TextureState): seq<Command> {
    [Run(CP_MEM_WRITE, [At(Generated(s.id), 0, STATE_SIZE, WRITE)] + Contents(s.texture, s.sampler)),
     Run(WAIT_MEM_WRITES, [])]
  }

  /** The commands that fill the cached texture states, in the order they were first asked for. */
  function Prologue(states: seq<TextureState>): seq<Command> {
    if states == [] then [] else Prologue(states[..|states| - 1]) + Initialize(states[|states| - 1])
  }

  /** What the last memory write to a generated object stored there. */
  function Stored(cs: seq<Command>, id: nat): Option<seq<Field>> {
    if cs == [] then None
    else
      var last := cs[|cs| - 1];
      if last.Run? && last.opcode == CP_MEM_WRITE && |last.fields| > 0 && last.fields[0].Ref?
         && last.fields[0].ref.target == Generated(id)
      then Some(last.fields[1..])
      else Stored(cs[..|cs| - 1], id)
  }

  /** Identities are handed out in increasing order. */
  ghost predicate Increasing(states: seq<TextureState>, next: nat) {
    && (forall i | 0 <= i < |states| :: states[i].id < next)
    && forall i, j | 0 <= i < j < |states| :: states[i].id < states[j].id
  }

  lemma StoredSnoc(p: seq<Command>, s: TextureState, id: nat)
    ensures Stored(p + Initialize(s), id) == if s.id == id then Some(Contents(s.texture, s.sampler)) else Stored(p, id)
  {
    var write, wait := Initialize(s)[0], Initialize(s)[1];
    var all := p + Initialize(s);
    assert all[..|all| - 1] == p + [write] && all[|all| - 1] == wait;
    assert (p + [write])[..|p|] == p;
    assert write.fields[1..] == Contents(s.texture, s.sampler);
  }

  /** Every cached state's object holds the encoding of its own texture and sampler. */
  lemma {:induction false} PrologueStores(states: seq<TextureState>, next: nat, i: nat)
    requires Increasing(states, next) && i < |states|
    ensures Stored(Prologue(states), states[i].id) == Some(Contents(states[i].texture, states[i].sampler))
  {
    var n := |states| - 1;
    var front, id := states[..n], states[i].id;
    StoredSnoc(Prologue(front), states[n], id);
    if i < n {
      assert id < states[n].id;
      FrontIncreasing(states, next, front);
      PrologueStores(front, next, i);
      assert front[i] == states[i];
    }
  }

  lemma FrontIncreasing(states: seq<TextureState>, next: nat, front: seq<TextureState>)
    requires Increasing(states, next) && states != [] && front == states[..|states| - 1]
    ensures Increasing(front, next)
  {
  }

  /** The object is exactly as large as what is stored, and the sampler sits 64 bytes in. */
  lemma ContentsPlace(t: Surface, sampler: seq<u32>)
    requires |sampler| == 4
    ensures |Expand(Contents(t, sampler))| == 20 == STATE_SIZE / 4
    ensures Expand(Contents(t, sampler))[64 / 4..] == Expand(Vals(sampler))
  {
    var a, b, c, d := Vals(Prefix(t)), [PlaneAddress(t)], SecondPlane(t), Vals(sampler);
    ExpandVals(Prefix(t));
    ExpandVals(sampler);
    assert |Expand(b)| == 2 by { assert b[1..] == []; }
    SecondPlaneWidth(t);
    ExpandConcat(a, b);
    ExpandConcat(a + b, c);
    ExpandConcat(a + b + c, d);
  }

  lemma {:induction false} ExpandConcat(a: seq<Field>, b: seq<Field>)
    ensures Expand(a + b) == Expand(a) + Expand(b)
  {
    if a == [] {
      assert a + b == b;
    } else {
      ExpandConcat(a[1..], b);
      assert (a + b)[1..] == a[1..] + b;
      Assoc(FieldCodes(a[0]), Expand(a[1..]), Expand(b));
    }
  }

  lemma {:induction false} ExpandVals(values: seq<u32>)
    ensures |Expand(Vals(values))| == |values|
  {
    if values != [] {
      ExpandVals(values[1..]);
      assert Vals(values)[1..] == Vals(values[1..]);
    }
  }

  lemma {:induction false} ExpandZeroes(n: nat)
    ensures |Expand(Zeroes(n))| == n
  {
    if n > 0 {
      ExpandZeroes(n - 1);
      assert Zeroes(n)[1..] == Zeroes(n - 1);
    }
  }

  lemma SecondPlaneWidth(t: Surface)
    ensures |Expand(SecondPlane(t))| == 10
  {
    ExpandZeroes(7);
    ExpandZeroes(10);
    if t.nv12.Some? {
      var head := SecondPlane(t)[..2];
      assert SecondPlane(t) == head + Zeroes(7);
      assert head[1..] == [head[1]] && head[1..][1..] == [];
      assert |Expand(head[1..])| == 2;
      ExpandConcat(head, Zeroes(7));
    }
  }

  // ---- over whole batches -------------------------------------------------------------------------------------------

  lemma {:induction false} LookupFinds(states: seq<TextureState>, texture: Surface, sampler: seq<u32>) returns (i: nat)
    requires Lookup(states, texture, sampler).Some?
    ensures i < |states| && states[i] == TextureState(texture, sampler, Lookup(states, texture, sampler).value)
  {
    if states[0].texture == texture && states[0].sampler == sampler {
      i := 0;
    } else {
      var k := LookupFinds(states[1..], texture, sampler);
      i := k + 1;
    }
  }

  lemma CacheKeepsOrder(states: seq<TextureState>, next: nat, d: DrawState)
    requires Increasing(states, next)
    ensures Increasing(CacheAfter(states, next, d).0, CacheAfter(states, next, d).1)
  {
  }

  /** The cache of a batch, draw by draw. */
  function CacheBatch(states: seq<TextureState>, next: nat, ds: seq<DrawState>): (seq<TextureState>, nat) {
    if ds == [] then (states, next)
    else
      var (s, n) := CacheBatch(states, next, ds[..|ds| - 1]);
      CacheAfter(s, n, ds[|ds| - 1])
  }

  lemma {:induction false} BatchCache(t: Tables, e: Emission, ds: seq<DrawState>)
    requires AllValid(ds)
    ensures CacheBatch(e.states, e.next, ds) == (DeltaBatch(t, e, ds).states, DeltaBatch(t, e, ds).next)
  {
    if ds != [] {
      BatchCache(t, e, ds[..|ds| - 1]);
    }
  }

  lemma {:induction false} CacheStaysOrdered(states: seq<TextureState>, next: nat, ds: seq<DrawState>)
    requires Increasing(states, next)
    ensures Increasing(CacheBatch(states, next, ds).0, CacheBatch(states, next, ds).1)
  {
    if ds != [] {
      CacheStaysOrdered(states, next, ds[..|ds| - 1]);
      var (s, n) := CacheBatch(states, next, ds[..|ds| - 1]);
      CacheKeepsOrder(s, n, ds[|ds| - 1]);
    }
  }

  lemma StillCached(states: seq<TextureState>, next: nat, d: DrawState, texture: Surface, sampler: seq<u32>)
    requires Lookup(states, texture, sampler).Some?
    ensures Lookup(CacheAfter(states, next, d).0, texture, sampler) == Lookup(states, texture, sampler)
  {
    if d.texture.Some? {
      LookupGrows(states, TextureState(d.texture.value, d.sampler, next), texture, sampler);
    }
  }

  /** A cached state is found again after any further draws. */
  lemma {:induction false} CachedForGood(states: seq<TextureState>, next: nat, ds: seq<DrawState>, i: nat,
                                         texture: Surface, sampler: seq<u32>)
    requires i <= |ds| && Lookup(CacheBatch(states, next, ds[..i]).0, texture, sampler).Some?
    ensures Lookup(CacheBatch(states, next, ds).0, texture, sampler) == Lookup(CacheBatch(states, next, ds[..i]).0, texture, sampler)
  {
    if i == |ds| {
      assert ds[..i] == ds;
    } else {
      var n := |ds| - 1;
      assert ds[..n][..i] == ds[..i];
      CachedForGood(states, next, ds[..n], i, texture, sampler);
      StillCached(CacheBatch(states, next, ds[..n]).0, CacheBatch(states, next, ds[..n]).1, ds[n], texture, sampler);
    }
  }

  lemma LoadsSet(id: nat)
    ensures Final(TextureLoads(id), Register(SP_PS_SAMPLER_BASE)) == Some(Slot(Low(SamplerAt(id))))
    ensures Final(TextureLoads(id), Register(SP_PS_TEXMEMOBJ_BASE)) == Some(Slot(Low(DescriptorAt(id))))
    ensures Final(TextureLoads(id), Loaded(CP_LOAD_STATE6_FRAG, 4, 0, 0)) == Some(Fetched(SamplerAt(id), 0))
    ensures Final(TextureLoads(id), Loaded(CP_LOAD_STATE6_FRAG, 4, 1, 0)) == Some(Fetched(DescriptorAt(id), 0))
  {
    TwoWords(0, 0, SamplerAt(id));
    TwoWords(0, 0, DescriptorAt(id));
    var cs := TextureLoads(id);
    assert cs[..3][..2] == cs[..2] && cs[..2][..1] == cs[..1];
    assert cs[..1][..0] == [];
    assert Final(cs[..2], Register(SP_PS_TEXMEMOBJ_BASE)) == Some(Slot(Low(DescriptorAt(id))));
    assert Final(cs[..1], Register(SP_PS_SAMPLER_BASE)) == Some(Slot(Low(SamplerAt(id))));
    assert Final(cs[..2], Register(SP_PS_SAMPLER_BASE)) == Some(Slot(Low(SamplerAt(id))));
    assert Final(cs[..3], Loaded(CP_LOAD_STATE6_FRAG, 4, 0, 0)) == Some(Fetched(SamplerAt(id), 0));
  }

  /** The draw whose stream so far is cs samples through the texture state object id. */
  ghost predicate SamplesThrough(cs: seq<Command>, id: nat) {
    && Final(cs, Register(SP_PS_SAMPLER_BASE)) == Some(Slot(Low(SamplerAt(id))))
    && Final(cs, Register(SP_PS_TEXMEMOBJ_BASE)) == Some(Slot(Low(DescriptorAt(id))))
    && Final(cs, Loaded(CP_LOAD_STATE6_FRAG, 4, 0, 0)) == Some(Fetched(SamplerAt(id), 0))
    && Final(cs, Loaded(CP_LOAD_STATE6_FRAG, 4, 1, 0)) == Some(Fetched(DescriptorAt(id), 0))
  }

  lemma RetainedSamples(t: Tables, e: Emission, d: DrawState)
    requires Retains(t, e.commands, e.states, Some(d)) && d.texture.Some?
    ensures Lookup(e.states, d.texture.value, d.sampler).Some?
    ensures SamplesThrough(e.commands, Lookup(e.states, d.texture.value, d.sampler).value)
  {
    LoadsSet(Lookup(e.states, d.texture.value, d.sampler).value);
  }

  lemma LastSamples(t: Tables, e: Emission, ds: seq<DrawState>)
    requires AllValid(ds) && e.last.None? && ds != [] && ds[|ds| - 1].texture.Some?
    ensures var d, here := ds[|ds| - 1], DeltaBatch(t, e, ds);
            && Lookup(here.states, d.texture.value, d.sampler).Some?
            && SamplesThrough(here.commands, Lookup(here.states, d.texture.value, d.sampler).value)
  {
    BatchInStep(t, e, ds);
    LastOfBatch(t, e, ds);
    RetainedSamples(t, DeltaBatch(t, e, ds), ds[|ds| - 1]);
  }

  lemma LastOfBatch(t: Tables, e: Emission, ds: seq<DrawState>)
    requires AllValid(ds) && ds != []
    ensures DeltaBatch(t, e, ds).last == Some(ds[|ds| - 1])
  {
  }

  /** In any batch, every draw that samples does so through an object that the prologue fills with that
      draw's own texture and sampler, whatever other draws the batch holds. */
  lemma DrawsSampleTheirOwn(t: Tables, e: Emission, ds: seq<DrawState>, i: nat) returns (id: nat)
    requires AllValid(ds) && e.last.None? && Increasing(e.states, e.next)
    requires i < |ds| && ds[i].texture.Some?
    ensures SamplesThrough(DeltaBatch(t, e, ds[..i + 1]).commands, id)
    ensures Stored(Prologue(DeltaBatch(t, e, ds).states), id) == Some(Contents(ds[i].texture.value, ds[i].sampler))
  {
    var upTo := ds[..i + 1];
    var texture, sampler := ds[i].texture.value, ds[i].sampler;
    LastSamples(t, e, upTo);
    BatchCache(t, e, upTo);
    BatchCache(t, e, ds);
    id := Lookup(CacheBatch(e.states, e.next, upTo).0, texture, sampler).value;
    CachedForGood(e.states, e.next, ds, i + 1, texture, sampler);
    CacheStaysOrdered(e.states, e.next, ds);
    var (states, next) := CacheBatch(e.states, e.next, ds);
    var k := LookupFinds(states, texture, sampler);
    PrologueStores(states, next, k);
  }
}
