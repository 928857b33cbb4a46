/** Where generated objects go: aligned, disjoint places in the upload arena of their chunk. */
module Placements {
  import opened Wrappers
  import opened Arith
  import opened Sequences
  import opened Lowering

  const UPLOAD_ARENA_BYTES := 8 * 1024 * 1024
  const UPLOAD_ARENAS := 4
  const SMALLEST_ARENA := 64 * 1024

  predicate IsPowerOfTwo(n: nat) { n == 1 || (n > 1 && n % 2 == 0 && IsPowerOfTwo(n / 2)) }

  datatype Place = Place(offset: nat, size: nat)

  predicate Placeable(g: GeneratedObject) { |g.bytes| > 0 && IsPowerOfTwo(g.alignment) }

  predicate AllPlaceable(gs: seq<GeneratedObject>) {
    forall i | 0 <= i < |gs| :: Placeable(gs[i])
  }

  /** The next multiple of the alignment. */
  function AlignTo(v: nat, alignment: nat): nat
    requires alignment > 0
  {
    v + alignment - 1 - (v + alignment - 1) % alignment
  }

  lemma MultipleBounds(a: int, d: int)
    requires a >= 0
    ensures d >= 1 ==> a * d >= a
    ensures d <= -1 ==> a * d <= -a
  {
  }

  lemma MultipleMod(q: nat, a: nat)
    requires a > 0
    ensures a * q % a == 0
  {
    var y := a * q;
    assert y == a * (y / a) + y % a;
    assert a * (q - y / a) == a * q - a * (y / a);
    MultipleBounds(a, q - y / a);
  }

  lemma AlignToAligns(v: nat, alignment: nat)
    requires alignment > 0
    ensures v <= AlignTo(v, alignment) < v + alignment && AlignTo(v, alignment) % alignment == 0
  {
    var w := v + alignment - 1;
    assert w - w % alignment == alignment * (w / alignment);
    MultipleMod(w / alignment, alignment);
  }

  /** Where the objects end when packed from `start`. */
  function PackedEnd(gs: seq<GeneratedObject>, start: nat): nat
    requires AllPlaceable(gs)
  {
    if gs == [] then start
    else
      var last := gs[|gs| - 1];
      assert Placeable(last);
      AlignTo(PackedEnd(gs[..|gs| - 1], start), last.alignment) + |last.bytes|
  }

  lemma {:induction false} PackedEndGrows(gs: seq<GeneratedObject>, start: nat, n: nat)
    requires AllPlaceable(gs) && n <= |gs|
    ensures start <= PackedEnd(gs[..n], start) <= PackedEnd(gs, start)
  {
    if n == |gs| {
      assert gs[..n] == gs;
      if gs != [] {
        PackedEndGrows(gs[..n - 1], start, n - 1);
        assert gs[..n - 1][..n - 1] == gs[..n - 1];
        AlignToAligns(PackedEnd(gs[..n - 1], start), gs[n - 1].alignment);
      }
    } else {
      var m := |gs| - 1;
      PackedEndGrows(gs[..m], start, n);
      assert gs[..m][..n] == gs[..n];
      AlignToAligns(PackedEnd(gs[..m], start), gs[m].alignment);
    }
  }

  predicate InOrder(places: seq<Place>, start: nat, end: nat) {
    && (forall i | 0 <= i < |places| :: start <= places[i].offset && places[i].offset + places[i].size <= end)
    && forall i, j | 0 <= i < j < |places| :: places[i].offset + places[i].size <= places[j].offset
  }

  lemma InOrderNext(places: seq<Place>, start: nat, end: nat, offset: nat, size: nat)
    requires InOrder(places, start, end) && start <= end <= offset
    ensures InOrder(places + [Place(offset, size)], start, offset + size)
  {
  }

  /** Each object has its own size at an aligned place. */
  predicate AllPlaced(gs: seq<GeneratedObject>, places: seq<Place>) {
    && |places| == |gs|
    && forall i | 0 <= i < |gs| ::
         places[i].size == |gs[i].bytes| > 0 && gs[i].alignment > 0 && places[i].offset % gs[i].alignment == 0
  }

  lemma PackedNext(gs: seq<GeneratedObject>, start: nat, k: nat)
    requires k < |gs| && AllPlaceable(gs[..k]) && Placeable(gs[k])
    ensures AllPlaceable(gs[..k + 1])
    ensures PackedEnd(gs[..k + 1], start) == AlignTo(PackedEnd(gs[..k], start), gs[k].alignment) + |gs[k].bytes|
  {
    TakeTake(gs, k);
  }

  /** Places every object in turn.  It succeeds exactly when each object is placeable and their packing fits
      the arena limit; the places are aligned, pairwise disjoint, in order, and end where it says. */
  method GeneratedPlacements(gs: seq<GeneratedObject>, start: nat) returns (r: Option<(seq<Place>, nat)>)
    ensures r.Some? <==> AllPlaceable(gs) && (gs != [] ==> PackedEnd(gs, start) <= UPLOAD_ARENA_BYTES)
    ensures r.Some? ==>
              && var (places, end) := r.value;
              && AllPlaced(gs, places) && InOrder(places, start, end) && end == PackedEnd(gs, start)
  {
    var places: seq<Place>, end := [], start;
    for k := 0 to |gs|
      invariant AllPlaceable(gs[..k]) && AllPlaced(gs[..k], places)
      invariant start <= end == PackedEnd(gs[..k], start) && InOrder(places, start, end)
      invariant k > 0 ==> end <= UPLOAD_ARENA_BYTES
    {
      var g := gs[k];
      if |g.bytes| == 0 || !IsPowerOfTwo(g.alignment) {
        assert !Placeable(gs[k]);
        return None;
      }
      AlignToAligns(end, g.alignment);
      var offset := AlignTo(end, g.alignment);
      PackedNext(gs, start, k);
      if offset + |g.bytes| > UPLOAD_ARENA_BYTES {
        if AllPlaceable(gs) {
          PackedEndGrows(gs, start, k + 1);
        }
        return None;
      }
      InOrderNext(places, start, end, offset, |g.bytes|);
      places := places + [Place(offset, |g.bytes|)];
      end := offset + |g.bytes|;
    }
    assert gs[..|gs|] == gs;
    r := Some((places, end));
  }

  // ---- arenas ---------------------------------------------------------------------------------------------------------

  /** The least power of two at or above n, found by doubling p. */
  function NextPower(n: nat, p: nat): (r: nat)
    requires IsPowerOfTwo(p)
    ensures IsPowerOfTwo(r) && n <= r && p <= r && (r == p || r < 2 * n)
    decreases n - p
  {
    if n <= p then p
    else
      assert IsPowerOfTwo(2 * p) by { assert 2 * p / 2 == p; }
      NextPower(n, 2 * p)
  }

  function ArenaSize(required: nat): (r: Option<nat>)
    ensures r.Some? ==> IsPowerOfTwo(r.value) && Max(required, SMALLEST_ARENA) <= r.value <= UPLOAD_ARENA_BYTES
  {
    var size := NextPower(Max(required, SMALLEST_ARENA), 1);
    if size <= UPLOAD_ARENA_BYTES then Some(size) else None
  }

  lemma {:induction false} NextPowerIsLeast(n: nat, p: nat, q: nat)
    requires IsPowerOfTwo(p) && IsPowerOfTwo(q) && n <= q && p <= q
    ensures NextPower(n, p) <= q
    decreases n - p
  {
    if n > p {
      PowersDouble(p, q);
      assert IsPowerOfTwo(2 * p) by { assert 2 * p / 2 == p; }
      NextPowerIsLeast(n, 2 * p, q);
    }
  }

  lemma {:induction false} PowersDouble(p: nat, q: nat)
    requires IsPowerOfTwo(p) && IsPowerOfTwo(q) && p < q
    ensures 2 * p <= q
  {
    if p > 1 {
      PowersDouble(p / 2, q / 2);
    }
  }

  /** An arena can be made for exactly the requirements up to the limit. */
  lemma ArenaSizeExists(required: nat)
    ensures ArenaSize(required).Some? <==> required <= UPLOAD_ARENA_BYTES
  {
    if required <= UPLOAD_ARENA_BYTES {
      LimitIsPower();
      NextPowerIsLeast(Max(required, SMALLEST_ARENA), 1, UPLOAD_ARENA_BYTES);
    }
  }

  lemma LimitIsPower()
    ensures IsPowerOfTwo(UPLOAD_ARENA_BYTES)
  {
    assert IsPowerOfTwo(2) && IsPowerOfTwo(4) && IsPowerOfTwo(8) && IsPowerOfTwo(16);
    assert IsPowerOfTwo(32) && IsPowerOfTwo(64) && IsPowerOfTwo(128) && IsPowerOfTwo(256);
    assert IsPowerOfTwo(512) && IsPowerOfTwo(1024) && IsPowerOfTwo(2048) && IsPowerOfTwo(4096);
    assert IsPowerOfTwo(8192) && IsPowerOfTwo(16384) && IsPowerOfTwo(32768) && IsPowerOfTwo(65536);
    assert IsPowerOfTwo(131072) && IsPowerOfTwo(262144) && IsPowerOfTwo(524288) && IsPowerOfTwo(1048576);
    assert IsPowerOfTwo(2097152) && IsPowerOfTwo(4194304);
  }

  /** A mapped upload buffer; the identity changes when it is replaced. */
  datatype Arena = Arena(identity: nat, size: nat)

  /** The largest end among the chunks that use a slot. */
  method RequiredSizes(ends: seq<nat>) returns (required: seq<nat>)
    ensures |required| == UPLOAD_ARENAS
    ensures forall i | 0 <= i < |ends| :: ends[i] <= required[i % UPLOAD_ARENAS]
    ensures forall k | 0 <= k < UPLOAD_ARENAS :: required[k] == 0 || required[k] in ends
  {
    required := [0, 0, 0, 0];
    for i := 0 to |ends|
      invariant |required| == UPLOAD_ARENAS
      invariant forall j | 0 <= j < i :: ends[j] <= required[j % UPLOAD_ARENAS]
      invariant forall k | 0 <= k < UPLOAD_ARENAS :: required[k] == 0 || required[k] in ends
    {
      required := required[i % UPLOAD_ARENAS := Max(required[i % UPLOAD_ARENAS], ends[i])];
    }
  }

  /** A slot keeps its arena or gets a larger one of its own. */
  predicate Kept(now: Arena, was: Arena, unused: nat) {
    now == was || (now.identity >= unused && now.size > was.size)
  }

  predicate AllKept(now: seq<Arena>, was: seq<Arena>, unused: nat) {
    |was| <= |now| && forall k | 0 <= k < |was| :: Kept(now[k], was[k], unused)
  }

  /** Makes slot k large enough. */
  method GrowSlot(arenas: seq<Arena>, k: nat, required: nat, unused: nat) returns (r: Option<seq<Arena>>)
    requires k <= |arenas|
    ensures r.Some? <==> required <= UPLOAD_ARENA_BYTES
    ensures r.Some? ==>
              && |r.value| == Max(|arenas|, k + 1) && required <= r.value[k].size && AllKept(r.value, arenas, unused)
              && forall j | 0 <= j < |arenas| && j != k :: r.value[j] == arenas[j]
  {
    ArenaSizeExists(required);
    var size := ArenaSize(required);
    if size.None? {
      return None;
    }
    if k < |arenas| && arenas[k].size >= size.value {
      return Some(arenas);
    }
    var arena := Arena(unused + k, size.value);
    r := Some(if k < |arenas| then arenas[k := arena] else arenas + [arena]);
  }

  /** Every chunk's end fits the arena of its slot. */
  ghost predicate AllServed(ends: seq<nat>, arenas: seq<Arena>) {
    forall i | 0 <= i < |ends| :: i % UPLOAD_ARENAS < |arenas| && ends[i] <= arenas[i % UPLOAD_ARENAS].size
  }

  /** Grows the four-slot cache so that every chunk's placements fit the arena of its slot; a slot that is
      large enough keeps its arena, and a slot that is not gets a new one instead of the old being touched. */
  method PrepareArenas(ends: seq<nat>, arenas: seq<Arena>, unused: nat) returns (r: Option<seq<Arena>>)
    requires |arenas| <= UPLOAD_ARENAS
    ensures r.None? <==> exists i | 0 <= i < |ends| :: ends[i] > UPLOAD_ARENA_BYTES
    ensures r.Some? ==> |r.value| <= UPLOAD_ARENAS && AllServed(ends, r.value) && AllKept(r.value, arenas, unused)
  {
    var required := RequiredSizes(ends);
    var count := Min(|ends|, UPLOAD_ARENAS);
    var now := arenas;
    for k := 0 to count
      invariant k <= |now| <= UPLOAD_ARENAS && AllKept(now, arenas, unused)
      invariant forall j | 0 <= j < k :: required[j] <= now[j].size && required[j] <= UPLOAD_ARENA_BYTES
      invariant forall j | k <= j < |arenas| :: now[j] == arenas[j]
    {
      var grown := GrowSlot(now, k, required[k], unused);
      if grown.None? {
        assert required[k] in ends;
        return None;
      }
      assert k < |arenas| ==> Kept(grown.value[k], now[k], unused);
      now := grown.value;
    }
    SlotsServe(ends, required, now);
    SlotsFit(ends, required);
    r := Some(now);
  }

  lemma SlotsFit(ends: seq<nat>, required: seq<nat>)
    requires |required| == UPLOAD_ARENAS
    requires forall i | 0 <= i < |ends| :: ends[i] <= required[i % UPLOAD_ARENAS]
    requires forall j | 0 <= j < Min(|ends|, UPLOAD_ARENAS) :: required[j] <= UPLOAD_ARENA_BYTES
    ensures forall i | 0 <= i < |ends| :: ends[i] <= UPLOAD_ARENA_BYTES
  {
    forall i | 0 <= i < |ends|
      ensures ends[i] <= UPLOAD_ARENA_BYTES
    {
      var j := i % UPLOAD_ARENAS;
      assert j <= i;
      assert required[j] <= UPLOAD_ARENA_BYTES;
    }
  }

  lemma SlotsServe(ends: seq<nat>, required: seq<nat>, now: seq<Arena>)
    requires |required| == UPLOAD_ARENAS && Min(|ends|, UPLOAD_ARENAS) <= |now|
    requires forall i | 0 <= i < |ends| :: ends[i] <= required[i % UPLOAD_ARENAS]
    requires forall j | 0 <= j < Min(|ends|, UPLOAD_ARENAS) :: required[j] <= now[j].size
    ensures AllServed(ends, now)
  {
    forall i | 0 <= i < |ends|
      ensures i % UPLOAD_ARENAS < |now| && ends[i] <= now[i % UPLOAD_ARENAS].size
    {
      var j := i % UPLOAD_ARENAS;
      assert j <= i;
      assert required[j] <= now[j].size;
    }
  }
}
