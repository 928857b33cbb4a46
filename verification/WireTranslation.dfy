/** From a compiled command stream and its bound objects to a submit payload. */
module WireTranslation {
  import opened Wrappers
  import opened Arith
  import opened WireFormat
  import opened ShaderPack
  import opened Accesses
  import opened Stream
  import W = SubmitWire
  import SubmitEncoder

  datatype Compiled = Compiled(words: seq<u32>, fixups: seq<Fixup>, accesses: seq<Range>)

  datatype Bound = Bound(target: ObjectRef, token: u64, allocation: u64, size: u64)

  datatype Error = ResourceState | Wire(error: W.WireError)

  // ---- the order of objects ------------------------------------------------------------------------------

  function Rank(o: ObjectRef): nat {
    match o case External(_) => 0 case Generated(_) => 1 case CanonicalShader(_) => 2
  }

  function Identity(o: ObjectRef): nat {
    if o.CanonicalShader? then o.variant else o.id
  }

  predicate Before(a: ObjectRef, b: ObjectRef) {
    Rank(a) < Rank(b) || (Rank(a) == Rank(b) && Identity(a) < Identity(b))
  }

  /** Lexicographic on object and offset. */
  predicate KeyAtMost(a: ObjectRef, x: nat, b: ObjectRef, y: nat) {
    Before(a, b) || (a == b && x <= y)
  }

  // ---- a binary search ---------------------------------------------------------------------------------

  /** The number of leading indices that satisfy a predicate true of a prefix only. */
  method PartitionPoint(n: nat, holds: int -> bool) returns (p: nat)
    requires forall i, j | 0 <= i < j < n && holds(j) :: holds(i)
    ensures p <= n && forall i | 0 <= i < n :: holds(i) <==> i < p
  {
    p := 0;
    var hi := n;
    while p < hi
      invariant p <= hi <= n
      invariant forall i | 0 <= i < p :: holds(i)
      invariant forall i | hi <= i < n :: !holds(i)
    {
      var mid := (p + hi) / 2;
      if holds(mid) {
        p := mid + 1;
      } else {
        hi := mid;
      }
    }
  }

  // ---- looking a binding up ------------------------------------------------------------------------------

  /** The reference meaning: the first binding of the object in the caller's order. */
  function FirstBound(bs: seq<Bound>, o: ObjectRef): Option<Bound> {
    if bs == [] then None else if bs[0].target == o then Some(bs[0]) else FirstBound(bs[1..], o)
  }

  ghost predicate SortedBounds(bs: seq<Bound>) {
    forall i, j | 0 <= i < j < |bs| :: !Before(bs[j].target, bs[i].target)
  }

  function InsertBound(b: Bound, bs: seq<Bound>): seq<Bound> {
    if bs == [] || !Before(bs[0].target, b.target) then [b] + bs else [bs[0]] + InsertBound(b, bs[1..])
  }

  /** A stable sort by object. */
  function SortBounds(bs: seq<Bound>): seq<Bound> {
    if bs == [] then [] else InsertBound(bs[0], SortBounds(bs[1..]))
  }

  lemma {:induction false} InsertKeepsOrder(b: Bound, bs: seq<Bound>)
    requires SortedBounds(bs)
    ensures SortedBounds(InsertBound(b, bs))
    ensures forall x :: x in InsertBound(b, bs) <==> x == b || x in bs
    ensures forall o :: FirstBound(InsertBound(b, bs), o) == if b.target == o then Some(b) else FirstBound(bs, o)
  {
    if bs == [] || !Before(bs[0].target, b.target) {
      assert ([b] + bs)[1..] == bs;
    } else {
      var rest := InsertBound(b, bs[1..]);
      InsertKeepsOrder(b, bs[1..]);
      assert ([bs[0]] + rest)[1..] == rest;
      forall i | 0 <= i < |rest|
        ensures !Before(rest[i].target, bs[0].target)
      {
        assert rest[i] == b || rest[i] in bs[1..];
      }
    }
  }

  lemma {:induction false} SortKeepsFirst(bs: seq<Bound>)
    ensures SortedBounds(SortBounds(bs))
    ensures forall o :: FirstBound(SortBounds(bs), o) == FirstBound(bs, o)
  {
    if bs != [] {
      SortKeepsFirst(bs[1..]);
      InsertKeepsOrder(bs[0], SortBounds(bs[1..]));
    }
  }

  lemma {:induction false} FirstBoundAt(bs: seq<Bound>, o: ObjectRef, p: nat)
    requires p <= |bs| && forall i | 0 <= i < p :: bs[i].target != o
    ensures FirstBound(bs, o) == FirstBound(bs[p..], o)
  {
    if p > 0 {
      FirstBoundAt(bs[1..], o, p - 1);
      assert bs[1..][p - 1..] == bs[p..];
    } else {
      assert bs[0..] == bs;
    }
  }

  lemma {:induction false} FirstBoundNone(bs: seq<Bound>, o: ObjectRef)
    requires forall i | 0 <= i < |bs| :: bs[i].target != o
    ensures FirstBound(bs, o).None?
  {
    if bs != [] {
      FirstBoundNone(bs[1..], o);
    }
  }

  /** Binary search over the sorted bindings finds what a linear search of the caller's would. */
  method Binding(bs: seq<Bound>, o: ObjectRef) returns (r: Option<Bound>)
    requires SortedBounds(bs)
    ensures r == FirstBound(bs, o)
  {
    var earlier := i => 0 <= i < |bs| && Before(bs[i].target, o);
    var p := PartitionPoint(|bs|, earlier);
    assert forall i | 0 <= i < |bs| :: Before(bs[i].target, o) == earlier(i);
    FirstBoundAt(bs, o, p);
    if p < |bs| && bs[p].target == o {
      r := Some(bs[p]);
    } else {
      r := None;
      FirstBoundNone(bs[p..], o);
    }
  }

  // ---- the record that covers a fixup -----------------------------------------------------------------------

  predicate Serves(r: Range, f: Fixup) {
    r.target == f.target && W.Grants(r.access, f.access) && r.offset <= f.offset && f.End() <= r.End()
  }

  ghost predicate SortedIndices(accesses: seq<Range>, order: seq<nat>)
  {
    && (forall i | 0 <= i < |order| :: order[i] < |accesses|)
    && forall i, j | 0 <= i < j < |order| ::
         KeyAtMost(accesses[order[i]].target, accesses[order[i]].offset, accesses[order[j]].target, accesses[order[j]].offset)
  }

  function InsertIndex(accesses: seq<Range>, k: nat, order: seq<nat>): (r: seq<nat>)
    requires k < |accesses| && forall i | 0 <= i < |order| :: order[i] < |accesses|
    ensures forall i | 0 <= i < |r| :: r[i] < |accesses|
    ensures forall x :: x in r <==> x == k || x in order
  {
    if order == [] then [k]
    else
      var a, b := accesses[k], accesses[order[0]];
      if KeyAtMost(a.target, a.offset, b.target, b.offset) then [k] + order
      else [order[0]] + InsertIndex(accesses, k, order[1..])
  }

  /** All record indices, ordered by object and offset. */
  function SortIndices(accesses: seq<Range>, k: nat): (r: seq<nat>)
    requires k <= |accesses|
    ensures forall i | 0 <= i < |r| :: r[i] < |accesses|
    ensures forall x :: x in r <==> 0 <= x < k
  {
    if k == 0 then [] else InsertIndex(accesses, k - 1, SortIndices(accesses, k - 1))
  }

  lemma {:induction false} InsertIndexSorted(accesses: seq<Range>, k: nat, order: seq<nat>)
    requires k < |accesses| && SortedIndices(accesses, order)
    ensures SortedIndices(accesses, InsertIndex(accesses, k, order))
  {
    if order != [] && !KeyAtMost(accesses[k].target, accesses[k].offset, accesses[order[0]].target, accesses[order[0]].offset) {
      var rest := InsertIndex(accesses, k, order[1..]);
      InsertIndexSorted(accesses, k, order[1..]);
      forall i | 0 <= i < |rest|
        ensures KeyAtMost(accesses[order[0]].target, accesses[order[0]].offset, accesses[rest[i]].target, accesses[rest[i]].offset)
      {
        assert rest[i] == k || rest[i] in order[1..];
      }
    }
  }

  lemma {:induction false} SortIndicesSorted(accesses: seq<Range>, k: nat)
    requires k <= |accesses|
    ensures SortedIndices(accesses, SortIndices(accesses, k))
  {
    if k > 0 {
      SortIndicesSorted(accesses, k - 1);
      InsertIndexSorted(accesses, k - 1, SortIndices(accesses, k - 1));
    }
  }

  /** Searches only the records of the fixup's object that start at or before it, and finds a serving
      record exactly when the whole table has one. */
  method FindServing(accesses: seq<Range>, order: seq<nat>, f: Fixup) returns (r: Option<nat>)
    requires SortedIndices(accesses, order) && (forall x | 0 <= x < |accesses| :: x in order) && AllFit(accesses)
    ensures r.Some? ==> r.value < |accesses| && Serves(accesses[r.value], f)
    ensures r.None? ==> forall k | 0 <= k < |accesses| :: !Serves(accesses[k], f)
  {
    var earlier := i => 0 <= i < |order| && order[i] < |accesses| && Before(accesses[order[i]].target, f.target);
    var starts := i => 0 <= i < |order| && order[i] < |accesses| &&
                       KeyAtMost(accesses[order[i]].target, accesses[order[i]].offset, f.target, f.offset);
    var first := PartitionPoint(|order|, earlier);
    var end := PartitionPoint(|order|, starts);
    assert forall k | 0 <= k < |order| :: (earlier(k) <==> k < first) && (starts(k) <==> k < end);
    var i := end;
    while i > first
      invariant 0 <= i <= end <= |order|
      invariant forall k | i <= k < end :: !Serves(accesses[order[k]], f)
    {
      i := i - 1;
      var a := accesses[order[i]];
      assert starts(i) && !earlier(i);
      if W.Grants(a.access, f.access) && f.End() <= a.End() {
        return Some(order[i]);
      }
    }
    forall k | 0 <= k < |accesses|
      ensures !Serves(accesses[k], f)
    {
      assert k in order;
      var at :| 0 <= at < |order| && order[at] == k;
      assert earlier(at) <==> at < first;
      assert starts(at) <==> at < end;
    }
    r := None;
  }

  // ---- translation ---------------------------------------------------------------------------------------

  /** A relocation that lets the kernel reach the fixup's bytes of its bound object, and no others. */
  ghost predicate Points(bs: seq<Bound>, resources: seq<W.Resource>, f: Fixup, l: W.Relocation) {
    && l.wordOffset == f.wordOffset && l.requiredSize == f.required && l.access == f.access && l.encoding == f.encoding
    && match l.source
       case CanonicalShader(variant) => f.target == CanonicalShader(variant) && l.resourceOffset == f.offset
       case Attachment(index) =>
         && !f.target.CanonicalShader? && index < |resources| && FirstBound(bs, f.target).Some?
         && resources[index].token == FirstBound(bs, f.target).value.token
         && resources[index].rangeOffset + l.resourceOffset == FirstBound(bs, f.target).value.allocation + f.offset
         && W.Grants(resources[index].access, f.access)
         && f.required > 0 && l.resourceOffset + f.required <= resources[index].rangeSize
  }

  /** The resource entry of an access record: the same bytes, at their place in the allocation. */
  ghost predicate Attaches(bs: seq<Bound>, a: Range, r: W.Resource) {
    && FirstBound(bs, a.target).Some?
    && r.token == FirstBound(bs, a.target).value.token
    && r.rangeOffset == FirstBound(bs, a.target).value.allocation + a.offset
    && 0 < r.rangeSize == a.size && a.End() <= FirstBound(bs, a.target).value.size
    && r.access == a.access
  }

  ghost predicate AllAttach(bs: seq<Bound>, accesses: seq<Range>, resources: seq<W.Resource>) {
    |resources| == |accesses| && forall i | 0 <= i < |accesses| :: Attaches(bs, accesses[i], resources[i])
  }

  ghost predicate AllPoint(bs: seq<Bound>, resources: seq<W.Resource>, fixups: seq<Fixup>, relocations: seq<W.Relocation>) {
    |relocations| == |fixups| && forall i | 0 <= i < |fixups| :: Points(bs, resources, fixups[i], relocations[i])
  }

  /** A binding that can hold the record. */
  ghost predicate Holdable(bs: seq<Bound>, a: Range) {
    && FirstBound(bs, a.target).Some?
    && var b := FirstBound(bs, a.target).value;
       && b.token != 0 && a.End() <= b.size && b.allocation + b.size < U64_LIMIT
  }

  /** Every accessed object is bound to enough space with a non-zero token. */
  ghost predicate Complete(bs: seq<Bound>, accesses: seq<Range>) {
    forall i | 0 <= i < |accesses| :: Holdable(bs, accesses[i])
  }

  /** What the compiler guarantees of one fixup. */
  ghost predicate FixupSound(sizes: ShaderSizes, accesses: seq<Range>, f: Fixup) {
    if f.target.CanonicalShader? then
      f.offset == 0 && f.required == sizes[f.target.variant] && f.access == READ && f.encoding.GpuVa64?
    else
      f.required > 0 && InOne(accesses, f.target, f.access, f.offset, f.End())
  }

  ghost predicate FixupsSound(sizes: ShaderSizes, accesses: seq<Range>, fixups: seq<Fixup>) {
    forall i | 0 <= i < |fixups| :: FixupSound(sizes, accesses, fixups[i])
  }

  ghost predicate Sound(sizes: ShaderSizes, c: Compiled) {
    AllFit(c.accesses) && NoneEmpty(c.accesses) && FixupsSound(sizes, c.accesses, c.fixups) && FixupsPlaced(c.words, c.fixups)
  }

  method TranslateAccess(sorted: seq<Bound>, ghost bs: seq<Bound>, a: Range) returns (r: Option<W.Resource>)
    requires SortedBounds(sorted) && forall o :: FirstBound(sorted, o) == FirstBound(bs, o)
    ensures r.Some? ==> Attaches(bs, a, r.value) && a.End() < U64_LIMIT
    ensures a.size > 0 && a.End() < U64_LIMIT && Holdable(bs, a) ==> r.Some? && W.ResourceError(r.value).None?
  {
    var b := Binding(sorted, a.target);
    if b.None? || a.End() >= U64_LIMIT || a.size == 0 || a.End() > b.value.size {
      return None;
    }
    if b.value.allocation + a.offset >= U64_LIMIT {
      return None;
    }
    r := Some(W.Resource(b.value.token, b.value.allocation + a.offset, a.size, a.access));
  }

  method TranslateFixup(sorted: seq<Bound>, ghost bs: seq<Bound>, accesses: seq<Range>, order: seq<nat>,
                        resources: seq<W.Resource>, f: Fixup)
    returns (r: Option<W.Relocation>)
    requires SortedBounds(sorted) && forall o :: FirstBound(sorted, o) == FirstBound(bs, o)
    requires SortedIndices(accesses, order) && (forall x | 0 <= x < |accesses| :: x in order) && AllFit(accesses)
    requires AllAttach(bs, accesses, resources)
    ensures r.Some? ==> Points(bs, resources, f, r.value)
    ensures forall sizes | FixupSound(sizes, accesses, f) && Complete(bs, accesses) && |accesses| <= W.MAX_RESOURCES :: r.Some?
  {
    if f.target.CanonicalShader? {
      if f.encoding.GpuVa49TexDescriptor? {
        return None;
      }
      return Some(W.Relocation(f.wordOffset, W.CanonicalShader(f.target.variant), f.offset, f.required, f.access, f.encoding));
    }
    var b := Binding(sorted, f.target);
    if b.None? || f.End() >= U64_LIMIT || f.required == 0 || f.End() > b.value.size {
      EnclosedIsServed(bs, accesses, f);
      return None;
    }
    var index := FindServing(accesses, order, f);
    if index.None? {
      EnclosedIsServed(bs, accesses, f);
      return None;
    }
    var resource := resources[index.value];
    assert Attaches(bs, accesses[index.value], resource);
    if b.value.allocation + f.offset >= U64_LIMIT || index.value >= 0x1_0000_0000 {
      EnclosedIsServed(bs, accesses, f);
      return None;
    }
    r := Some(W.Relocation(f.wordOffset, W.Attachment(index.value), b.value.allocation + f.offset - resource.rangeOffset,
                           f.required, f.access, f.encoding));
  }

  /** A fixup enclosed in a record of its own access is served, and fits the object's binding. */
  lemma EnclosedIsServed(bs: seq<Bound>, accesses: seq<Range>, f: Fixup)
    ensures InOne(accesses, f.target, f.access, f.offset, f.End()) ==>
              exists k | 0 <= k < |accesses| :: Serves(accesses[k], f)
    ensures InOne(accesses, f.target, f.access, f.offset, f.End()) && Complete(bs, accesses) && f.required > 0 ==>
              && FirstBound(bs, f.target).Some? && f.End() <= FirstBound(bs, f.target).value.size
              && FirstBound(bs, f.target).value.allocation + f.offset < U64_LIMIT && f.End() < U64_LIMIT
  {
    if InOne(accesses, f.target, f.access, f.offset, f.End()) {
      var k :| 0 <= k < |accesses| && accesses[k].Encloses(f.target, f.access, f.offset, f.End());
      assert Serves(accesses[k], f);
      assert Complete(bs, accesses) ==> Holdable(bs, accesses[k]);
    }
  }

  // ---- what the codec accepts ------------------------------------------------------------------------------

  lemma {:induction false} ResourcesAccepted(rs: seq<W.Resource>)
    requires forall i | 0 <= i < |rs| :: W.ResourceError(rs[i]).None?
    ensures W.ResourcesError(rs).None?
  {
    if rs != [] {
      ResourcesAccepted(rs[1..]);
    }
  }

  lemma {:induction false} RelocationsAccepted(sizes: ShaderSizes, words: seq<u32>, bs: seq<Bound>, accesses: seq<Range>,
                                               resources: seq<W.Resource>, fixups: seq<Fixup>,
                                               relocations: seq<W.Relocation>, previousEnd: nat)
    requires |words| < 0x1_0000_0000
    requires FixupsSound(sizes, accesses, fixups) && FixupsPlaced(words, fixups) && AllPoint(bs, resources, fixups, relocations)
    requires forall i | 0 <= i < |resources| :: W.ResourceError(resources[i]).None?
    requires fixups != [] ==> previousEnd <= fixups[0].wordOffset
    ensures W.RelocationsError(sizes, relocations, previousEnd, words, resources).None?
  {
    if relocations != [] {
      assert Points(bs, resources, fixups[0], relocations[0]);
      assert FixupSound(sizes, accesses, fixups[0]);
      assert W.SourceError(sizes, relocations[0], resources).None?;
      assert PlacedAt(words, fixups[0]);
      forall i | 0 <= i < |fixups[1..]|
        ensures Points(bs, resources, fixups[1..][i], relocations[1..][i])
      {
        assert Points(bs, resources, fixups[i + 1], relocations[i + 1]);
      }
      RelocationsAccepted(sizes, words, bs, accesses, resources, fixups[1..], relocations[1..], relocations[0].wordOffset + 2);
    }
  }

  // ---- the whole translation --------------------------------------------------------------------------------

  /** The count-only check made before any encoding. */
  function Preflight(c: Compiled): Result<nat, W.WireError> {
    var l := W.LayoutFor(|c.words|, |c.accesses|, |c.fixups|);
    if l.Err? then Err(l.error) else Ok(l.value.total)
  }

  method TranslateAccesses(sorted: seq<Bound>, ghost bs: seq<Bound>, accesses: seq<Range>) returns (r: Option<seq<W.Resource>>)
    requires SortedBounds(sorted) && forall o :: FirstBound(sorted, o) == FirstBound(bs, o)
    ensures r.Some? ==> AllAttach(bs, accesses, r.value) && AllFit(accesses)
    ensures AllFit(accesses) && NoneEmpty(accesses) && Complete(bs, accesses) ==>
              r.Some? && forall i | 0 <= i < |r.value| :: W.ResourceError(r.value[i]).None?
  {
    var resources := [];
    for i := 0 to |accesses|
      invariant |resources| == i
      invariant forall k | 0 <= k < i :: Attaches(bs, accesses[k], resources[k]) && accesses[k].End() < U64_LIMIT
      invariant AllFit(accesses) && NoneEmpty(accesses) && Complete(bs, accesses) ==>
                  forall k | 0 <= k < i :: W.ResourceError(resources[k]).None?
    {
      var resource := TranslateAccess(sorted, bs, accesses[i]);
      if resource.None? {
        return None;
      }
      resources := resources + [resource.value];
    }
    r := Some(resources);
  }

  method TranslateFixups(sorted: seq<Bound>, ghost bs: seq<Bound>, c: Compiled, resources: seq<W.Resource>)
    returns (r: Option<seq<W.Relocation>>)
    requires SortedBounds(sorted) && forall o :: FirstBound(sorted, o) == FirstBound(bs, o)
    requires AllFit(c.accesses) && AllAttach(bs, c.accesses, resources)
    ensures r.Some? ==> AllPoint(bs, resources, c.fixups, r.value)
    ensures forall sizes | FixupsSound(sizes, c.accesses, c.fixups) && Complete(bs, c.accesses)
                           && |c.accesses| <= W.MAX_RESOURCES :: r.Some?
  {
    var order := SortIndices(c.accesses, |c.accesses|);
    SortIndicesSorted(c.accesses, |c.accesses|);
    var relocations := [];
    for i := 0 to |c.fixups|
      invariant |relocations| == i
      invariant forall k | 0 <= k < i :: Points(bs, resources, c.fixups[k], relocations[k])
    {
      var relocation := TranslateFixup(sorted, bs, c.accesses, order, resources, c.fixups[i]);
      if relocation.None? {
        return None;
      }
      relocations := relocations + [relocation.value];
    }
    r := Some(relocations);
  }

  lemma TranslatedEncodes(sizes: ShaderSizes, c: Compiled, bs: seq<Bound>, s: W.Submit)
    requires Sound(sizes, c) && Preflight(c).Ok?
    requires s.pm4 == c.words && |s.resources| == |c.accesses| && AllPoint(bs, s.resources, c.fixups, s.relocations)
    requires forall i | 0 <= i < |s.resources| :: W.ResourceError(s.resources[i]).None?
    ensures W.Encode(sizes, s).Ok? && |W.Encode(sizes, s).value| == Preflight(c).value
  {
    ResourcesAccepted(s.resources);
    RelocationsAccepted(sizes, c.words, bs, c.accesses, s.resources, c.fixups, s.relocations, 0);
    W.DecodeEncoded(sizes, s);
  }

  /** A sound stream that passes the count-only check, with complete bindings, always encodes, to exactly
      the length the check computed; and whatever is encoded decodes to the stream with every fixup
      pointing at its own bytes of its own allocation. */
  method Translate(sizes: ShaderSizes, c: Compiled, bindings: seq<Bound>)
    returns (r: Result<seq<byte>, Error>, ghost s: W.Submit)
    ensures r.Ok? ==>
              && W.Decode(sizes, r.value) == Ok(s) && s.pm4 == c.words
              && AllAttach(bindings, c.accesses, s.resources)
              && AllPoint(bindings, s.resources, c.fixups, s.relocations)
    ensures Sound(sizes, c) && Complete(bindings, c.accesses) && Preflight(c).Ok? ==>
              r.Ok? && |r.value| == Preflight(c).value
  {
    var sorted := SortBounds(bindings);
    SortKeepsFirst(bindings);
    s := W.Submit([], [], []);
    var resources := TranslateAccesses(sorted, bindings, c.accesses);
    if resources.None? {
      return Err(ResourceState), s;
    }
    var relocations := TranslateFixups(sorted, bindings, c, resources.value);
    if relocations.None? {
      assert Preflight(c).Ok? ==> |c.accesses| <= W.MAX_RESOURCES;
      return Err(ResourceState), s;
    }
    var submit := W.Submit(c.words, resources.value, relocations.value);
    s := submit;
    if Sound(sizes, c) && Complete(bindings, c.accesses) && Preflight(c).Ok? {
      TranslatedEncodes(sizes, c, bindings, s);
    }
    var layout := W.LayoutFor(|c.words|, |submit.resources|, |submit.relocations|);
    if layout.Err? {
      return Err(Wire(layout.error)), s;
    }
    var output := new byte[layout.value.total](_ => 0);
    var error := SubmitEncoder.EncodeInto(sizes, submit, output);
    if error.Some? {
      return Err(Wire(error.value)), s;
    }
    r := Ok(output[..]);
  }
}
