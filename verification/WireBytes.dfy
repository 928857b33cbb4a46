/** The submit payload byte by byte: which byte of which value stands where, from the format alone. */
module WireBytes {
  import opened Wrappers
  import opened Arith
  import opened Sequences
  import opened WireFormat
  import opened ShaderPack
  import opened SubmitWire

  /** The value stands at `at` in `width` bytes, least significant first. */
  predicate FieldAt(b: seq<byte>, at: nat, width: nat, value: nat) {
    at + width <= |b| && b[at..at + width] == Le(width, value)
  }

  // ---- fields ---------------------------------------------------------------------------------------------------------

  lemma DivTwice(v: nat, p: nat)
    requires p > 0
    ensures v / 256 / p == v / (256 * p)
  {
    var q, r := v / (256 * p), v % (256 * p);
    assert v == q * p * 256 + r;
    assert r / 256 < p;
    assert v / 256 == q * p + r / 256;
    QuotientIs(q, p, r / 256);
  }

  lemma QuotientIs(q: nat, p: nat, r: nat)
    requires r < p
    ensures (q * p + r) / p == q
  {
    var d := Div(q * p + r, p);
    if d < q {
      ProductGrows(d + 1, q, p);
    } else if q < d {
      ProductGrows(q + 1, d, p);
    }
  }

  lemma ProductGrows(a: nat, b: nat, p: nat)
    requires a <= b
    ensures a * p <= b * p
  {
  }

  /** Byte i of a field is digit i of its value to the base 256. */
  lemma {:induction false} LeByte(width: nat, value: nat, i: nat)
    requires i < width
    ensures Le(width, value)[i] == value / Pow256(i) % 256
  {
    if i > 0 {
      LeByte(width - 1, value / 256, i - 1);
      DivTwice(value, Pow256(i - 1));
    }
  }

  /** So is byte i of a field of the payload. */
  lemma FieldByte(b: seq<byte>, at: nat, width: nat, value: nat, i: nat)
    requires FieldAt(b, at, width, value) && i < width
    ensures b[at + i] == value / Pow256(i) % 256
  {
    LeByte(width, value, i);
    assert b[at..at + width][i] == b[at + i];
  }

  /** A field keeps its place in a longer payload. */
  lemma FieldInSlice(b: seq<byte>, from: nat, to: nat, at: nat, width: nat, value: nat)
    requires from <= to <= |b| && FieldAt(b[from..to], at, width, value)
    ensures FieldAt(b, from + at, width, value)
  {
    SliceOfSlice(b, from, to, at, at + width);
  }

  lemma FieldBehind(front: seq<byte>, b: seq<byte>, at: nat, width: nat, value: nat)
    requires FieldAt(b, at, width, value)
    ensures FieldAt(front + b, |front| + at, width, value)
  {
    assert (front + b)[|front|..|front + b|] == b;
    FieldInSlice(front + b, |front|, |front + b|, at, width, value);
  }

  lemma FieldBefore(b: seq<byte>, back: seq<byte>, at: nat, width: nat, value: nat)
    requires FieldAt(b, at, width, value)
    ensures FieldAt(b + back, at, width, value)
  {
    assert (b + back)[0..|b|] == b;
    FieldInSlice(b + back, 0, |b|, at, width, value);
  }

  /** Where field k of a record begins. */
  function Offset(shape: Shape, k: nat): nat
    requires k <= |shape|
  {
    if k == 0 then 0 else shape[0] + Offset(shape[1..], k - 1)
  }

  lemma {:induction false} PackField(shape: Shape, values: seq<nat>, k: nat)
    requires |values| == |shape| && k < |shape|
    ensures FieldAt(Pack(shape, values), Offset(shape, k), shape[k], values[k])
  {
    var first, rest := Le(shape[0], values[0]), Pack(shape[1..], values[1..]);
    if k == 0 {
      assert first[0..shape[0]] == first;
      FieldBefore(first, rest, 0, shape[0], values[0]);
    } else {
      PackField(shape[1..], values[1..], k - 1);
      FieldBehind(first, rest, Offset(shape[1..], k - 1), shape[k], values[k]);
    }
  }

  lemma OffsetsOfFive(a: nat, b: nat, c: nat, d: nat, e: nat)
    ensures var s := [a, b, c, d, e];
            && Offset(s, 0) == 0 && Offset(s, 1) == a && Offset(s, 2) == a + b && Offset(s, 3) == a + b + c
            && Offset(s, 4) == a + b + c + d
  {
    assert [a, b, c, d, e][1..] == [b, c, d, e] && [b, c, d, e][1..] == [c, d, e] && [c, d, e][1..] == [d, e] && [d, e][1..] == [e];
    assert Offset([d, e], 1) == d && Offset([c, d, e], 1) == c && Offset([c, d, e], 2) == c + d;
    assert Offset([b, c, d, e], 1) == b && Offset([b, c, d, e], 2) == b + c && Offset([b, c, d, e], 3) == b + c + d;
  }

  lemma OffsetsOfSeven(a: nat, b: nat, c: nat, d: nat, e: nat, f: nat, g: nat)
    ensures var s := [a, b, c, d, e, f, g];
            && Offset(s, 0) == 0 && Offset(s, 1) == a && Offset(s, 2) == a + b && Offset(s, 3) == a + b + c
            && Offset(s, 4) == a + b + c + d && Offset(s, 5) == a + b + c + d + e && Offset(s, 6) == a + b + c + d + e + f
  {
    OffsetsOfFive(c, d, e, f, g);
    assert [a, b, c, d, e, f, g][1..] == [b, c, d, e, f, g] && [b, c, d, e, f, g][1..] == [c, d, e, f, g];
    assert forall k | 1 <= k < 6 :: Offset([b, c, d, e, f, g], k) == b + Offset([c, d, e, f, g], k - 1);
    assert forall k | 1 <= k < 7 :: Offset([a, b, c, d, e, f, g], k) == a + Offset([b, c, d, e, f, g], k - 1);
  }

  // ---- the format ------------------------------------------------------------------------------------------------------

  /** The forty bytes in use of the header, and the rest of it zero. */
  predicate HeaderSpelt(b: seq<byte>, s: Submit, l: Layout, minor: nat) {
    && FieldAt(b, 0, 4, 0x5358_3641) && FieldAt(b, 4, 2, 1) && FieldAt(b, 6, 2, minor) && FieldAt(b, 8, 2, 64) && FieldAt(b, 10, 2, 0)
    && FieldAt(b, 12, 4, l.total) && FieldAt(b, 16, 4, 64) && FieldAt(b, 20, 4, |s.pm4|) && FieldAt(b, 24, 4, l.resourcesOffset)
    && FieldAt(b, 28, 4, |s.resources|) && FieldAt(b, 32, 4, l.relocationsOffset) && FieldAt(b, 36, 4, |s.relocations|)
    && 64 <= |b| && AllZero(b[40..64])
  }

  predicate ResourceSpelt(b: seq<byte>, at: nat, r: Resource) {
    && FieldAt(b, at, 8, r.token) && FieldAt(b, at + 8, 8, r.rangeOffset) && FieldAt(b, at + 16, 8, r.rangeSize)
    && FieldAt(b, at + 24, 4, r.access) && FieldAt(b, at + 28, 4, 0)
  }

  predicate RelocationSpelt(b: seq<byte>, at: nat, r: Relocation) {
    && FieldAt(b, at, 4, r.wordOffset) && FieldAt(b, at + 8, 8, r.resourceOffset) && FieldAt(b, at + 16, 8, r.requiredSize)
    && FieldAt(b, at + 24, 4, r.access)
    && FieldAt(b, at + 28, 2, match r.encoding case GpuVa64 => 1 case GpuVa49TexDescriptor => 3)
    && match r.source
       case Attachment(index) => FieldAt(b, at + 4, 4, index) && FieldAt(b, at + 30, 2, 0)
       case CanonicalShader(variant) => FieldAt(b, at + 4, 4, variant) && FieldAt(b, at + 30, 2, 1)
  }

  /** The tables stand behind the header: the words, zeroes up to a multiple of eight, then one record of 32 bytes for
      each resource and each relocation, and nothing else. */
  ghost predicate Spelt(b: seq<byte>, s: Submit, minor: nat) {
    exists l: Layout :: Tabled(b, s, l) && SpeltAt(b, s, l, minor)
  }

  predicate Tabled(b: seq<byte>, s: Submit, l: Layout) {
    && 64 + 4 * |s.pm4| <= l.resourcesOffset < 64 + 4 * |s.pm4| + 8 && l.resourcesOffset % 8 == 0
    && l.relocationsOffset == l.resourcesOffset + 32 * |s.resources| && l.total == l.relocationsOffset + 32 * |s.relocations|
    && |b| == l.total
  }

  predicate SpeltAt(b: seq<byte>, s: Submit, l: Layout, minor: nat)
    requires Tabled(b, s, l)
  {
    && HeaderSpelt(b, s, l, minor) && AllZero(b[64 + 4 * |s.pm4|..l.resourcesOffset]) && WordsSpelt(b, s.pm4)
    && ResourcesSpelt(b, l.resourcesOffset, s.resources) && RelocationsSpelt(b, l.relocationsOffset, s.relocations)
  }

  predicate WordsSpelt(b: seq<byte>, words: seq<u32>) {
    forall j | 0 <= j < |words| :: FieldAt(b, 64 + 4 * j, 4, words[j])
  }

  predicate ResourcesSpelt(b: seq<byte>, from: nat, rs: seq<Resource>) {
    forall j | 0 <= j < |rs| :: ResourceSpelt(b, from + 32 * j, rs[j])
  }

  predicate RelocationsSpelt(b: seq<byte>, from: nat, rs: seq<Relocation>) {
    forall j | 0 <= j < |rs| :: RelocationSpelt(b, from + 32 * j, rs[j])
  }

  // ---- records ---------------------------------------------------------------------------------------------------------

  lemma PackedAt(shape: Shape, values: seq<nat>, k: nat, at: nat, width: nat, value: nat)
    requires |shape| == |values| && k < |shape| && Offset(shape, k) == at && shape[k] == width && values[k] == value
    ensures FieldAt(Pack(shape, values), at, width, value)
  {
    PackField(shape, values, k);
  }

  /** Field k of a packed slice of the payload. */
  lemma PackedInSlice(b: seq<byte>, from: nat, to: nat, shape: Shape, values: seq<nat>, k: nat, at: nat, width: nat, value: nat)
    requires from <= to <= |b| && |shape| == |values| && b[from..to] == Pack(shape, values)
    requires k < |shape| && Offset(shape, k) == at && shape[k] == width && values[k] == value
    ensures FieldAt(b, from + at, width, value)
  {
    PackedAt(shape, values, k, at, width, value);
    FieldInSlice(b, from, to, at, width, value);
  }

  lemma ResourceInSlice(b: seq<byte>, from: nat, to: nat, r: Resource)
    requires from <= to <= |b| && b[from..to] == Pack(ResourceShape(), ResourceFields(r))
    ensures ResourceSpelt(b, from, r)
  {
    var v := ResourceFields(r);
    OffsetsOfFive(8, 8, 8, 4, 4);
    PackedInSlice(b, from, to, ResourceShape(), v, 0, 0, 8, r.token);
    PackedInSlice(b, from, to, ResourceShape(), v, 1, 8, 8, r.rangeOffset);
    PackedInSlice(b, from, to, ResourceShape(), v, 2, 16, 8, r.rangeSize);
    PackedInSlice(b, from, to, ResourceShape(), v, 3, 24, 4, r.access);
    PackedInSlice(b, from, to, ResourceShape(), v, 4, 28, 4, 0);
  }

  lemma RelocationInSlice(b: seq<byte>, from: nat, to: nat, r: Relocation)
    requires from <= to <= |b| && b[from..to] == Pack(RelocationShape(), RelocationFields(r))
    ensures RelocationSpelt(b, from, r)
  {
    var v := RelocationFields(r);
    OffsetsOfSeven(4, 4, 8, 8, 4, 2, 2);
    PackedInSlice(b, from, to, RelocationShape(), v, 0, 0, 4, v[0]);
    PackedInSlice(b, from, to, RelocationShape(), v, 1, 4, 4, v[1]);
    PackedInSlice(b, from, to, RelocationShape(), v, 2, 8, 8, v[2]);
    PackedInSlice(b, from, to, RelocationShape(), v, 3, 16, 8, v[3]);
    PackedInSlice(b, from, to, RelocationShape(), v, 4, 24, 4, v[4]);
    PackedInSlice(b, from, to, RelocationShape(), v, 5, 28, 2, v[5]);
    PackedInSlice(b, from, to, RelocationShape(), v, 6, 30, 2, v[6]);
  }

  lemma HeaderInPayload(b: seq<byte>, s: Submit, l: Layout, minor: nat)
    requires 64 <= |b| && b[..64] == HeaderBytes(s, l, minor)
    ensures HeaderSpelt(b, s, l, minor)
  {
    HeaderParts(s, l, minor);
    assert b[0..12] == b[..64][..12] && b[12..40] == b[..64][12..40] && b[40..64] == b[..64][40..];
    VersionInPayload(b, minor);
    CountsInPayload(b, s, l);
  }

  lemma VersionInPayload(b: seq<byte>, minor: nat)
    requires 12 <= |b| && b[0..12] == Pack(VersionShape(), VersionFields(minor))
    ensures FieldAt(b, 0, 4, 0x5358_3641) && FieldAt(b, 4, 2, 1) && FieldAt(b, 6, 2, minor) && FieldAt(b, 8, 2, 64) && FieldAt(b, 10, 2, 0)
  {
    var v := VersionFields(minor);
    OffsetsOfFive(4, 2, 2, 2, 2);
    PackedInSlice(b, 0, 12, VersionShape(), v, 0, 0, 4, 0x5358_3641);
    PackedInSlice(b, 0, 12, VersionShape(), v, 1, 4, 2, 1);
    PackedInSlice(b, 0, 12, VersionShape(), v, 2, 6, 2, minor);
    PackedInSlice(b, 0, 12, VersionShape(), v, 3, 8, 2, 64);
    PackedInSlice(b, 0, 12, VersionShape(), v, 4, 10, 2, 0);
  }

  lemma CountsInPayload(b: seq<byte>, s: Submit, l: Layout)
    requires 40 <= |b| && b[12..40] == Pack(CountsShape(), CountFields(s, l))
    ensures FieldAt(b, 12, 4, l.total) && FieldAt(b, 16, 4, 64) && FieldAt(b, 20, 4, |s.pm4|) && FieldAt(b, 24, 4, l.resourcesOffset)
    ensures FieldAt(b, 28, 4, |s.resources|) && FieldAt(b, 32, 4, l.relocationsOffset) && FieldAt(b, 36, 4, |s.relocations|)
  {
    var v := CountFields(s, l);
    OffsetsOfSeven(4, 4, 4, 4, 4, 4, 4);
    PackedInSlice(b, 12, 40, CountsShape(), v, 0, 0, 4, l.total);
    PackedInSlice(b, 12, 40, CountsShape(), v, 1, 4, 4, 64);
    PackedInSlice(b, 12, 40, CountsShape(), v, 2, 8, 4, |s.pm4|);
    PackedInSlice(b, 12, 40, CountsShape(), v, 3, 12, 4, l.resourcesOffset);
    PackedInSlice(b, 12, 40, CountsShape(), v, 4, 16, 4, |s.resources|);
    PackedInSlice(b, 12, 40, CountsShape(), v, 5, 20, 4, l.relocationsOffset);
    PackedInSlice(b, 12, 40, CountsShape(), v, 6, 24, 4, |s.relocations|);
  }

  // ---- tables ----------------------------------------------------------------------------------------------------------

  lemma {:induction false} RecordAt(records: seq<seq<byte>>, width: nat, j: nat)
    requires AllWide(records, width) && j < |records|
    ensures Rows(width, j) + width <= |Flatten(records)|
    ensures Flatten(records)[Rows(width, j)..Rows(width, j) + width] == records[j]
  {
    if j == 0 {
      assert Flatten(records)[0..width] == records[0];
    } else {
      RecordAt(records[1..], width, j - 1);
      BehindFirst(records[0], Flatten(records[1..]), Rows(width, j - 1), width);
    }
  }

  lemma BehindFirst(first: seq<byte>, rest: seq<byte>, at: nat, n: nat)
    requires at + n <= |rest|
    ensures (first + rest)[|first| + at..|first| + at + n] == rest[at..at + n]
  {
  }

  /** The tables as lists of records, one for each word, resource and relocation. */
  predicate WordTable(records: seq<seq<byte>>, words: seq<u32>) {
    |records| == |words| && forall j | 0 <= j < |words| :: records[j] == Le(4, words[j])
  }

  predicate ResourceTable(records: seq<seq<byte>>, rs: seq<Resource>) {
    |records| == |rs| && forall j | 0 <= j < |rs| :: records[j] == Pack(ResourceShape(), ResourceFields(rs[j]))
  }

  predicate RelocationTable(records: seq<seq<byte>>, rs: seq<Relocation>) {
    |records| == |rs| && forall j | 0 <= j < |rs| :: records[j] == Pack(RelocationShape(), RelocationFields(rs[j]))
  }

  lemma {:induction false} WordsAreTable(words: seq<u32>)
    ensures WordTable(WordRecords(words), words)
  {
    if words != [] {
      WordsAreTable(words[1..]);
    }
  }

  lemma {:induction false} ResourcesAreTable(rs: seq<Resource>)
    ensures ResourceTable(ResourceRecords(rs), rs)
  {
    if rs != [] {
      ResourcesAreTable(rs[1..]);
    }
  }

  lemma {:induction false} RelocationsAreTable(rs: seq<Relocation>)
    ensures RelocationTable(RelocationRecords(rs), rs)
  {
    if rs != [] {
      RelocationsAreTable(rs[1..]);
    }
  }

  /** A record of a table that is a slice of the payload. */
  lemma RecordInPayload(b: seq<byte>, from: nat, to: nat, records: seq<seq<byte>>, width: nat, j: nat, at: nat)
    requires from <= to <= |b| && b[from..to] == Flatten(records) && AllWide(records, width) && j < |records|
    requires at == from + Rows(width, j)
    ensures at + width <= to && b[at..at + width] == records[j]
  {
    RecordAt(records, width, j);
    SliceOfSlice(b, from, to, Rows(width, j), Rows(width, j) + width);
  }

  lemma SpellWords(b: seq<byte>, words: seq<u32>, to: nat, records: seq<seq<byte>>)
    requires 64 <= to <= |b| && b[64..to] == Flatten(records) && AllWide(records, 4) && WordTable(records, words)
    ensures WordsSpelt(b, words)
  {
    forall j | 0 <= j < |words|
      ensures FieldAt(b, 64 + 4 * j, 4, words[j])
    {
      RowsIsProduct(4, j);
      RecordInPayload(b, 64, to, records, 4, j, 64 + 4 * j);
    }
  }

  lemma SpellResources(b: seq<byte>, rs: seq<Resource>, from: nat, to: nat, records: seq<seq<byte>>)
    requires from <= to <= |b| && b[from..to] == Flatten(records) && AllWide(records, 32) && ResourceTable(records, rs)
    ensures ResourcesSpelt(b, from, rs)
  {
    forall j | 0 <= j < |rs|
      ensures ResourceSpelt(b, from + 32 * j, rs[j])
    {
      var at := from + 32 * j;
      RowsIsProduct(32, j);
      RecordInPayload(b, from, to, records, 32, j, at);
      ResourceInSlice(b, at, at + 32, rs[j]);
    }
  }

  lemma SpellRelocations(b: seq<byte>, rs: seq<Relocation>, from: nat, to: nat, records: seq<seq<byte>>)
    requires from <= to <= |b| && b[from..to] == Flatten(records) && AllWide(records, 32) && RelocationTable(records, rs)
    ensures RelocationsSpelt(b, from, rs)
  {
    forall j | 0 <= j < |rs|
      ensures RelocationSpelt(b, from + 32 * j, rs[j])
    {
      var at := from + 32 * j;
      RowsIsProduct(32, j);
      RecordInPayload(b, from, to, records, 32, j, at);
      RelocationInSlice(b, at, at + 32, rs[j]);
    }
  }

  /** The payload of an encodable submit, at any minor version, is spelt as the format says. */
  lemma PayloadSpelt(sizes: ShaderSizes, s: Submit, l: Layout, minor: nat, b: seq<byte>)
    requires EncodeError(sizes, s).None? && LayoutFor(|s.pm4|, |s.resources|, |s.relocations|) == Ok(l)
    requires b == PayloadBytes(s, l, minor)
    ensures Spelt(b, s, minor)
  {
    var words, resources, relocations := WordRecords(s.pm4), ResourceRecords(s.resources), RelocationRecords(s.relocations);
    TablesWide(sizes, s, words, resources, relocations);
    TablesPlaced(s, l, minor, b, Flatten(words), Flatten(resources), Flatten(relocations));
    WordsAreTable(s.pm4);
    ResourcesAreTable(s.resources);
    RelocationsAreTable(s.relocations);
    HeaderInPayload(b, s, l, minor);
    TablesSpelt(s, l, b, words, resources, relocations);
    assert SpeltAt(b, s, l, minor);
  }

  lemma TablesSpelt(s: Submit, l: Layout, b: seq<byte>, words: seq<seq<byte>>, resources: seq<seq<byte>>, relocations: seq<seq<byte>>)
    requires Tabled(b, s, l) && AllWide(words, 4) && AllWide(resources, 32) && AllWide(relocations, 32)
    requires WordTable(words, s.pm4) && ResourceTable(resources, s.resources) && RelocationTable(relocations, s.relocations)
    requires b[64..64 + 4 * |s.pm4|] == Flatten(words)
    requires b[l.resourcesOffset..l.relocationsOffset] == Flatten(resources) && b[l.relocationsOffset..|b|] == Flatten(relocations)
    ensures WordsSpelt(b, s.pm4)
    ensures ResourcesSpelt(b, l.resourcesOffset, s.resources) && RelocationsSpelt(b, l.relocationsOffset, s.relocations)
  {
    SpellWords(b, s.pm4, 64 + 4 * |s.pm4|, words);
    SpellResources(b, s.resources, l.resourcesOffset, l.relocationsOffset, resources);
    SpellRelocations(b, s.relocations, l.relocationsOffset, |b|, relocations);
  }

  lemma TablesWide(sizes: ShaderSizes, s: Submit, words: seq<seq<byte>>, resources: seq<seq<byte>>, relocations: seq<seq<byte>>)
    requires EncodeError(sizes, s).None? && words == WordRecords(s.pm4) && resources == ResourceRecords(s.resources)
    requires relocations == RelocationRecords(s.relocations)
    ensures AllWide(words, 4) && AllWide(resources, 32) && AllWide(relocations, 32)
    ensures |Flatten(words)| == 4 * |s.pm4| && |Flatten(resources)| == 32 * |s.resources|
    ensures |Flatten(relocations)| == 32 * |s.relocations|
  {
    WordsRoundTrip(s.pm4);
    ResourcesRoundTrip(s.resources);
    RelocationsRoundTrip(sizes, s.relocations, 0, s.pm4, s.resources, 1);
    TableSizes(s);
  }

  lemma TablesPlaced(s: Submit, l: Layout, minor: nat, b: seq<byte>, words: seq<byte>, resources: seq<byte>, relocations: seq<byte>)
    requires LayoutFor(|s.pm4|, |s.resources|, |s.relocations|) == Ok(l) && b == PayloadBytes(s, l, minor)
    requires words == Flatten(WordRecords(s.pm4)) && resources == Flatten(ResourceRecords(s.resources))
    requires relocations == Flatten(RelocationRecords(s.relocations))
    requires |words| == 4 * |s.pm4| && |resources| == 32 * |s.resources| && |relocations| == 32 * |s.relocations|
    ensures Tabled(b, s, l) && b[..64] == HeaderBytes(s, l, minor)
    ensures b[64..64 + 4 * |s.pm4|] == words && AllZero(b[64 + 4 * |s.pm4|..l.resourcesOffset])
    ensures b[l.resourcesOffset..l.relocationsOffset] == resources && b[l.relocationsOffset..|b|] == relocations
  {
    HeaderParts(s, l, minor);
    PayloadParts(HeaderBytes(s, l, minor), s, l, words, resources, relocations, b);
    ToTheEnd(b, l.relocationsOffset);
  }

  lemma ToTheEnd(b: seq<byte>, from: nat)
    requires from <= |b|
    ensures b[from..|b|] == b[from..]
  {
  }

  /** An encoded payload is spelt as the format says, at the current minor version. */
  lemma EncodedSpelt(sizes: ShaderSizes, s: Submit)
    requires Encode(sizes, s).Ok?
    ensures Spelt(Encode(sizes, s).value, s, 1)
  {
    var l := LayoutFor(|s.pm4|, |s.resources|, |s.relocations|).value;
    PayloadSpelt(sizes, s, l, VERSION_MINOR, Encode(sizes, s).value);
  }

  /** Whatever decodes is spelt as the format says, at the minor version it claims. */
  lemma DecodedSpelt(sizes: ShaderSizes, b: seq<byte>)
    requires Decode(sizes, b).Ok?
    ensures |b| >= HEADER_SIZE && Spelt(b, Decode(sizes, b).value, Minor(b))
  {
    DecodedIsCanonical(sizes, b);
    PayloadSpelt(sizes, Decode(sizes, b).value, DecodeHeader(b).value.layout, Minor(b), b);
  }

  /** Every payload begins with the same four bytes, and byte i of word j is digit i of that word. */
  lemma SpeltBytes(b: seq<byte>, s: Submit, minor: nat, j: nat, i: nat)
    requires Spelt(b, s, minor) && j < |s.pm4| && i < 4
    ensures 64 + 4 * j + i < |b| && b[..4] == [0x41, 0x36, 0x58, 0x53] && b[64 + 4 * j + i] == s.pm4[j] / Pow256(i) % 256
  {
    MagicBytes(b);
    FieldByte(b, 64 + 4 * j, 4, s.pm4[j], i);
  }

  lemma MagicBytes(b: seq<byte>)
    requires FieldAt(b, 0, 4, 0x5358_3641)
    ensures b[..4] == [0x41, 0x36, 0x58, 0x53]
  {
    assert Pow256(0) == 1 && Pow256(1) == 256 && Pow256(2) == 65536 && Pow256(3) == 16777216;
    FieldByte(b, 0, 4, 0x5358_3641, 0);
    FieldByte(b, 0, 4, 0x5358_3641, 1);
    FieldByte(b, 0, 4, 0x5358_3641, 2);
    FieldByte(b, 0, 4, 0x5358_3641, 3);
  }
}
