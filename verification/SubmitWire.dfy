/** The versioned submit payload: canonical encoding and structural decoding. */
module SubmitWire {
  import opened Wrappers
  import opened Arith
  import opened Sequences
  import opened WireFormat
  import opened ShaderPack

  const MAGIC := 0x5358_3641
  const VERSION_MAJOR := 1
  const VERSION_MINOR := 1
  const HEADER_SIZE := 64
  const MAX_SUBMIT_SIZE := 2 * 1024 * 1024
  const MAX_RESOURCES := 1024
  const MAX_RELOCATIONS := 8192
  const ACCESS_READ: u32 := 1
  const ACCESS_WRITE: u32 := 2
  const USIZE_LIMIT := 0x1_0000_0000_0000_0000

  datatype WireError =
    | Overflow | InvalidSize | UnsupportedVersion | InvalidField | ReservedNotZero
    | InvalidTable | RelocationsNotSorted | RelocationOutOfBounds | NonZeroPlaceholder

  datatype Resource = Resource(token: u64, rangeOffset: u64, rangeSize: u64, access: u32)

  datatype AddressEncoding = GpuVa64 | GpuVa49TexDescriptor

  datatype Source = Attachment(index: u32) | CanonicalShader(variant: Variant)

  datatype Relocation = Relocation(
    wordOffset: u32, source: Source, resourceOffset: u64, requiredSize: u64, access: u32, encoding: AddressEncoding)

  datatype Submit = Submit(pm4: seq<u32>, resources: seq<Resource>, relocations: seq<Relocation>)

  // ---- layout ---------------------------------------------------------------------------------------

  datatype Layout = Layout(total: nat, resourcesOffset: nat, relocationsOffset: nat)

  function AlignUp8(value: nat): (r: nat)
    ensures value <= r < value + 8 && r % 8 == 0
  {
    (value + 7) / 8 * 8
  }

  function LayoutFor(pm4: nat, resources: nat, relocations: nat): (r: Result<Layout, WireError>)
    ensures r.Ok? ==>
              && HEADER_SIZE + 4 * pm4 <= r.value.resourcesOffset && r.value.resourcesOffset % 8 == 0
              && r.value.resourcesOffset + 32 * resources <= r.value.relocationsOffset
              && r.value.relocationsOffset + 32 * relocations == r.value.total <= MAX_SUBMIT_SIZE
  {
    if pm4 == 0 || resources > MAX_RESOURCES || relocations > MAX_RELOCATIONS then Err(InvalidSize)
    else if HEADER_SIZE + 4 * pm4 + 7 + 32 * resources + 32 * relocations >= USIZE_LIMIT then Err(Overflow)
    else
      var resourcesOffset := AlignUp8(HEADER_SIZE + 4 * pm4);
      var relocationsOffset := resourcesOffset + 32 * resources;
      var total := relocationsOffset + 32 * relocations;
      if total > MAX_SUBMIT_SIZE then Err(InvalidSize) else Ok(Layout(total, resourcesOffset, relocationsOffset))
  }

  // ---- validation -------------------------------------------------------------------------------------

  predicate ValidAccess(access: u32) { 1 <= access <= 3 }

  /** Every access bit of `need`, one of the two valid ones, is granted by `have`. */
  predicate Grants(have: u32, need: u32) {
    (need % 2 == 1 ==> have % 2 == 1) && (need / 2 % 2 == 1 ==> have / 2 % 2 == 1)
  }

  function ResourceError(r: Resource): Option<WireError> {
    if !ValidAccess(r.access) || r.token == 0 || r.rangeSize == 0 || r.rangeOffset + r.rangeSize >= USIZE_LIMIT
    then Some(InvalidField) else None
  }

  predicate PlaceholderValid(encoding: AddressEncoding, w0: u32, w1: u32) {
    match encoding
    case GpuVa64 => w0 == 0 && w1 == 0
    case GpuVa49TexDescriptor => w0 == 0 && w1 % 0x2_0000 == 0
  }

  function SourceError(sizes: ShaderSizes, r: Relocation, resources: seq<Resource>): Option<WireError> {
    match r.source
    case Attachment(index) =>
      if index >= |resources| then Some(RelocationOutOfBounds)
      else if !Grants(resources[index].access, r.access) || r.requiredSize == 0 then Some(RelocationOutOfBounds)
      else if r.resourceOffset + r.requiredSize >= USIZE_LIMIT then Some(Overflow)
      else if r.resourceOffset + r.requiredSize > resources[index].rangeSize then Some(RelocationOutOfBounds)
      else None
    case CanonicalShader(variant) =>
      if r.resourceOffset != 0 || r.requiredSize != sizes[variant] || r.access != ACCESS_READ || !r.encoding.GpuVa64?
      then Some(RelocationOutOfBounds) else None
  }

  function RelocationError(sizes: ShaderSizes, r: Relocation, previousEnd: nat, pm4: seq<u32>, resources: seq<Resource>)
    : Option<WireError>
  {
    if !ValidAccess(r.access) then Some(InvalidField)
    else if previousEnd > r.wordOffset then Some(RelocationsNotSorted)
    else if SourceError(sizes, r, resources).Some? then SourceError(sizes, r, resources)
    else if r.wordOffset + 2 >= 0x1_0000_0000 then Some(Overflow)
    else if r.wordOffset + 2 > |pm4| then Some(RelocationOutOfBounds)
    else if !PlaceholderValid(r.encoding, pm4[r.wordOffset], pm4[r.wordOffset + 1]) then Some(NonZeroPlaceholder)
    else None
  }

  function ResourcesError(rs: seq<Resource>): Option<WireError> {
    if rs == [] then None
    else if ResourceError(rs[0]).Some? then ResourceError(rs[0])
    else ResourcesError(rs[1..])
  }

  function RelocationsError(sizes: ShaderSizes, rs: seq<Relocation>, previousEnd: nat, pm4: seq<u32>, resources: seq<Resource>)
    : Option<WireError>
  {
    if rs == [] then None
    else
      var error := RelocationError(sizes, rs[0], previousEnd, pm4, resources);
      if error.Some? then error else RelocationsError(sizes, rs[1..], rs[0].wordOffset + 2, pm4, resources)
  }

  /** Why a submit cannot be encoded, or None. */
  function EncodeError(sizes: ShaderSizes, s: Submit): Option<WireError> {
    var layout := LayoutFor(|s.pm4|, |s.resources|, |s.relocations|);
    if layout.Err? then Some(layout.error)
    else if ResourcesError(s.resources).Some? then ResourcesError(s.resources)
    else RelocationsError(sizes, s.relocations, 0, s.pm4, s.resources)
  }

  // ---- encoding ---------------------------------------------------------------------------------------

  // Little-endian field widths of the records.
  function VersionShape(): Shape { [4, 2, 2, 2, 2] }
  function CountsShape(): Shape { [4, 4, 4, 4, 4, 4, 4] }
  function ResourceShape(): Shape { [8, 8, 8, 4, 4] }
  function RelocationShape(): Shape { [4, 4, 8, 8, 4, 2, 2] }

  lemma Widths()
    ensures Width(VersionShape()) == 12 && Width(CountsShape()) == 28
    ensures Width(ResourceShape()) == 32 && Width(RelocationShape()) == 32
  {
    WidthOfFive(4, 2, 2, 2, 2);
    WidthOfFive(8, 8, 8, 4, 4);
    WidthOfSeven(4, 4, 4, 4, 4, 4, 4);
    WidthOfSeven(4, 4, 8, 8, 4, 2, 2);
  }

  lemma WidthOfFive(a: nat, b: nat, c: nat, d: nat, e: nat)
    ensures Width([a, b, c, d, e]) == a + b + c + d + e
  {
    assert [a, b, c, d, e][1..] == [b, c, d, e] && [b, c, d, e][1..] == [c, d, e] && [c, d, e][1..] == [d, e] && [d, e][1..] == [e];
    assert Width([e]) == e && Width([d, e]) == d + e && Width([c, d, e]) == c + d + e;
  }

  lemma WidthOfSeven(a: nat, b: nat, c: nat, d: nat, e: nat, f: nat, g: nat)
    ensures Width([a, b, c, d, e, f, g]) == a + b + c + d + e + f + g
  {
    WidthOfFive(c, d, e, f, g);
    assert [a, b, c, d, e, f, g][1..] == [b, c, d, e, f, g] && [b, c, d, e, f, g][1..] == [c, d, e, f, g];
  }

  function VersionFields(minor: nat): seq<nat> { [MAGIC, VERSION_MAJOR, minor, HEADER_SIZE, 0] }

  function CountFields(s: Submit, l: Layout): seq<nat> {
    [l.total, HEADER_SIZE, |s.pm4|, l.resourcesOffset, |s.resources|, l.relocationsOffset, |s.relocations|]
  }

  function ResourceFields(r: Resource): seq<nat> { [r.token, r.rangeOffset, r.rangeSize, r.access, 0] }

  function EncodingRaw(e: AddressEncoding): nat { if e.GpuVa64? then 1 else 3 }

  function RelocationFields(r: Relocation): seq<nat> {
    [r.wordOffset,
     if r.source.Attachment? then r.source.index else r.source.variant,
     r.resourceOffset, r.requiredSize, r.access, EncodingRaw(r.encoding),
     if r.source.Attachment? then 0 else 1]
  }

  function WordRecords(words: seq<u32>): seq<seq<byte>> {
    if words == [] then [] else [Le(4, words[0])] + WordRecords(words[1..])
  }

  function ResourceRecords(rs: seq<Resource>): seq<seq<byte>> {
    if rs == [] then [] else [Pack(ResourceShape(), ResourceFields(rs[0]))] + ResourceRecords(rs[1..])
  }

  function RelocationRecords(rs: seq<Relocation>): seq<seq<byte>> {
    if rs == [] then [] else [Pack(RelocationShape(), RelocationFields(rs[0]))] + RelocationRecords(rs[1..])
  }

  function HeaderBytes(s: Submit, l: Layout, minor: nat): seq<byte> {
    Pack(VersionShape(), VersionFields(minor)) + Pack(CountsShape(), CountFields(s, l)) + Zeros(24)
  }

  /** The tables behind a header. */
  function PayloadBehind(header: seq<byte>, s: Submit, l: Layout): seq<byte>
    requires HEADER_SIZE + 4 * |s.pm4| <= l.resourcesOffset
  {
    Assemble(header, Flatten(WordRecords(s.pm4)), l.resourcesOffset - (HEADER_SIZE + 4 * |s.pm4|),
             Flatten(ResourceRecords(s.resources)), Flatten(RelocationRecords(s.relocations)))
  }

  /** The canonical payload, at a given minor version. */
  function PayloadBytes(s: Submit, l: Layout, minor: nat): seq<byte>
    requires HEADER_SIZE + 4 * |s.pm4| <= l.resourcesOffset
  {
    PayloadBehind(HeaderBytes(s, l, minor), s, l)
  }

  function Assemble(header: seq<byte>, words: seq<byte>, padding: nat, resources: seq<byte>, relocations: seq<byte>)
    : seq<byte>
  {
    header + words + Zeros(padding) + resources + relocations
  }

  function Encode(sizes: ShaderSizes, s: Submit): Result<seq<byte>, WireError> {
    var error := EncodeError(sizes, s);
    if error.Some? then Err(error.value)
    else Ok(PayloadBytes(s, LayoutFor(|s.pm4|, |s.resources|, |s.relocations|).value, VERSION_MINOR))
  }

  // ---- decoding ---------------------------------------------------------------------------------------

  function DecodeWords(records: seq<seq<byte>>): seq<u32>
    requires AllWide(records, 4)
  {
    if records == [] then []
    else
      EncodeField(records[0]);
      [FromLe(records[0])] + DecodeWords(records[1..])
  }

  function DecodeResources(records: seq<seq<byte>>): Result<seq<Resource>, WireError>
    requires AllWide(records, 32)
  {
    if records == [] then Ok([])
    else
      Widths();
      UnpackFits(ResourceShape(), records[0]);
      var f := Unpack(ResourceShape(), records[0]);
      if f[4] != 0 then Err(ReservedNotZero)
      else
        FieldRanges();
        var r := Resource(f[0], f[1], f[2], f[3]);
        if ResourceError(r).Some? then Err(ResourceError(r).value)
        else
          var rest := DecodeResources(records[1..]);
          if rest.Err? then rest else Ok([r] + rest.value)
  }

  lemma FieldRanges()
    ensures Pow256(2) == 0x1_0000 && Pow256(4) == 0x1_0000_0000 && Pow256(8) == 0x1_0000_0000_0000_0000
  {
    assert Pow256(4) == 256 * 256 * 256 * 256 * Pow256(0);
    assert Pow256(8) == 256 * 256 * 256 * 256 * Pow256(4);
  }

  function DecodeRelocation(record: seq<byte>, minor: nat): Option<Relocation>
    requires |record| == 32
  {
    Widths();
    UnpackFits(RelocationShape(), record);
    FieldRanges();
    var f := Unpack(RelocationShape(), record);
    if f[6] > 1 || (f[6] == 1 && (minor < 1 || f[1] >= 15)) || (f[5] != 1 && f[5] != 3) then None
    else
      Some(Relocation(f[0], if f[6] == 0 then Attachment(f[1]) else CanonicalShader(f[1]),
                      f[2], f[3], f[4], if f[5] == 1 then GpuVa64 else GpuVa49TexDescriptor))
  }

  function DecodeRelocations(sizes: ShaderSizes, records: seq<seq<byte>>, minor: nat, previousEnd: nat,
                             pm4: seq<u32>, resources: seq<Resource>)
    : Result<seq<Relocation>, WireError>
    requires AllWide(records, 32)
  {
    if records == [] then Ok([])
    else
      var r := DecodeRelocation(records[0], minor);
      if r.None? then Err(InvalidField)
      else
        var error := RelocationError(sizes, r.value, previousEnd, pm4, resources);
        if error.Some? then Err(error.value)
        else
          var rest := DecodeRelocations(sizes, records[1..], minor, r.value.wordOffset + 2, pm4, resources);
          if rest.Err? then rest else Ok([r.value] + rest.value)
  }

  /** The tables of a payload whose header has been accepted. */
  function DecodeTables(sizes: ShaderSizes, b: seq<byte>, minor: nat, pm4: nat, resources: nat, relocations: nat, l: Layout)
    : Result<Submit, WireError>
    requires LayoutFor(pm4, resources, relocations) == Ok(l) && |b| == l.total
  {
    RowsIsProduct(4, pm4); RowsIsProduct(32, resources); RowsIsProduct(32, relocations);
    var end := HEADER_SIZE + 4 * pm4;
    if !AllZero(b[end..l.resourcesOffset]) then Err(ReservedNotZero)
    else
      var words := DecodeWords(Cut(b[HEADER_SIZE..end], 4, pm4));
      var rs := DecodeResources(Cut(b[l.resourcesOffset..l.relocationsOffset], 32, resources));
      if rs.Err? then Err(rs.error)
      else
        var ls := DecodeRelocations(sizes, Cut(b[l.relocationsOffset..], 32, relocations), minor, 0, words, rs.value);
        if ls.Err? then Err(ls.error) else Ok(Submit(words, rs.value, ls.value))
  }

  datatype Header = Header(minor: nat, pm4: nat, resources: nat, relocations: nat, layout: Layout)

  function DecodeHeader(b: seq<byte>): (r: Result<Header, WireError>)
    ensures r.Ok? ==> LayoutFor(r.value.pm4, r.value.resources, r.value.relocations) == Ok(r.value.layout)
                      && |b| == r.value.layout.total >= HEADER_SIZE
  {
    if |b| < HEADER_SIZE || |b| > MAX_SUBMIT_SIZE then Err(InvalidSize)
    else
      Widths();
      var v, c := Unpack(VersionShape(), b[..12]), Unpack(CountsShape(), b[12..40]);
      if v[0] != MAGIC || v[1] != VERSION_MAJOR then Err(UnsupportedVersion)
      else if v[2] > VERSION_MINOR || v[3] != HEADER_SIZE then Err(UnsupportedVersion)
      else if v[4] != 0 || !AllZero(b[40..HEADER_SIZE]) then Err(ReservedNotZero)
      else if c[0] != |b| then Err(InvalidSize)
      else
        var l := LayoutFor(c[2], c[4], c[6]);
        if l.Err? then Err(l.error)
        else if c[1] != HEADER_SIZE || c[3] != l.value.resourcesOffset || c[5] != l.value.relocationsOffset
                || l.value.total != |b|
        then Err(InvalidTable)
        else Ok(Header(v[2], c[2], c[4], c[6], l.value))
  }

  /** Total on arbitrary bytes: every read is within the payload. */
  function Decode(sizes: ShaderSizes, b: seq<byte>): Result<Submit, WireError> {
    var h := DecodeHeader(b);
    if h.Err? then Err(h.error)
    else DecodeTables(sizes, b, h.value.minor, h.value.pm4, h.value.resources, h.value.relocations, h.value.layout)
  }

  /** The minor version a payload claims. */
  function Minor(b: seq<byte>): nat
    requires |b| >= HEADER_SIZE
  {
    Widths();
    Unpack(VersionShape(), b[..12])[2]
  }

  // ---- records round trip -----------------------------------------------------------------------------

  lemma {:induction false} WordsRoundTrip(words: seq<u32>)
    ensures AllWide(WordRecords(words), 4) && |WordRecords(words)| == |words|
    ensures DecodeWords(WordRecords(words)) == words
  {
    if words != [] {
      WordsRoundTrip(words[1..]);
      FieldRanges();
      DecodeField(4, words[0]);
      ConsWide(Le(4, words[0]), WordRecords(words[1..]), 4);
    }
  }

  lemma ConsWide(record: seq<byte>, rest: seq<seq<byte>>, width: nat)
    requires |record| == width && AllWide(rest, width)
    ensures AllWide([record] + rest, width)
    ensures ([record] + rest)[1..] == rest
  {
  }

  lemma {:induction false} RecordsToWords(records: seq<seq<byte>>)
    requires AllWide(records, 4)
    ensures WordRecords(DecodeWords(records)) == records && |DecodeWords(records)| == |records|
  {
    if records != [] {
      RecordsToWords(records[1..]);
      EncodeField(records[0]);
      assert DecodeWords(records)[1..] == DecodeWords(records[1..]);
    }
  }

  lemma ResourceFits(r: Resource)
    ensures Fits(ResourceShape(), ResourceFields(r))
  {
    FieldRanges();
  }

  lemma {:induction false} ResourcesRoundTrip(rs: seq<Resource>)
    requires ResourcesError(rs).None?
    ensures AllWide(ResourceRecords(rs), 32) && |ResourceRecords(rs)| == |rs|
    ensures DecodeResources(ResourceRecords(rs)) == Ok(rs)
  {
    if rs != [] {
      ResourcesRoundTrip(rs[1..]);
      ResourceFits(rs[0]);
      UnpackPacked(ResourceShape(), ResourceFields(rs[0]));
      Widths();
      ConsWide(Pack(ResourceShape(), ResourceFields(rs[0])), ResourceRecords(rs[1..]), 32);
      assert [rs[0]] + rs[1..] == rs;
    }
  }

  lemma {:induction false} RecordsToResources(records: seq<seq<byte>>)
    requires AllWide(records, 32) && DecodeResources(records).Ok?
    ensures ResourcesError(DecodeResources(records).value).None?
    ensures ResourceRecords(DecodeResources(records).value) == records
    ensures |DecodeResources(records).value| == |records|
  {
    if records != [] {
      RecordsToResources(records[1..]);
      Widths();
      PackUnpacked(ResourceShape(), records[0]);
      var rs := DecodeResources(records).value;
      assert rs[1..] == DecodeResources(records[1..]).value;
      assert ResourceFields(rs[0]) == Unpack(ResourceShape(), records[0]);
    }
  }

  lemma RelocationFits(r: Relocation)
    ensures Fits(RelocationShape(), RelocationFields(r))
  {
    FieldRanges();
  }

  /** Programs can be named from minor version 1 on. */
  predicate Speakable(rs: seq<Relocation>, minor: nat) {
    minor >= 1 || forall i | 0 <= i < |rs| :: rs[i].source.Attachment?
  }

  lemma RelocationRoundTrip(r: Relocation, minor: nat)
    ensures |Pack(RelocationShape(), RelocationFields(r))| == 32
    ensures DecodeRelocation(Pack(RelocationShape(), RelocationFields(r)), minor) == if Speakable([r], minor) then Some(r) else None
  {
    Widths();
    RelocationFits(r);
    UnpackPacked(RelocationShape(), RelocationFields(r));
    assert [r][0] == r;
  }

  lemma RecordToRelocation(record: seq<byte>, minor: nat)
    requires |record| == 32 && DecodeRelocation(record, minor).Some?
    ensures Pack(RelocationShape(), RelocationFields(DecodeRelocation(record, minor).value)) == record
  {
    Widths();
    PackUnpacked(RelocationShape(), record);
    assert RelocationFields(DecodeRelocation(record, minor).value) == Unpack(RelocationShape(), record);
  }

  lemma {:induction false} RelocationsRoundTrip(sizes: ShaderSizes, rs: seq<Relocation>, previousEnd: nat,
                                                pm4: seq<u32>, resources: seq<Resource>, minor: nat)
    requires RelocationsError(sizes, rs, previousEnd, pm4, resources).None?
    ensures AllWide(RelocationRecords(rs), 32) && |RelocationRecords(rs)| == |rs|
    ensures var r := DecodeRelocations(sizes, RelocationRecords(rs), minor, previousEnd, pm4, resources);
            if Speakable(rs, minor) then r == Ok(rs) else r.Err?
  {
    if rs != [] {
      RelocationsRoundTrip(sizes, rs[1..], rs[0].wordOffset + 2, pm4, resources, minor);
      RelocationRoundTrip(rs[0], minor);
      ConsWide(Pack(RelocationShape(), RelocationFields(rs[0])), RelocationRecords(rs[1..]), 32);
      SpeakableCons(rs, minor);
      assert [rs[0]] + rs[1..] == rs;
    }
  }

  lemma SpeakableCons(rs: seq<Relocation>, minor: nat)
    requires rs != []
    ensures Speakable(rs, minor) == (Speakable([rs[0]], minor) && Speakable(rs[1..], minor))
  {
    if Speakable([rs[0]], minor) && Speakable(rs[1..], minor) {
      forall i | minor < 1 && 0 <= i < |rs|
        ensures rs[i].source.Attachment?
      {
        assert i == 0 ==> rs[i] == [rs[0]][0];
        assert i > 0 ==> rs[i] == rs[1..][i - 1];
      }
    }
  }

  lemma {:induction false} RecordsToRelocations(sizes: ShaderSizes, records: seq<seq<byte>>, minor: nat, previousEnd: nat,
                                                pm4: seq<u32>, resources: seq<Resource>)
    requires AllWide(records, 32) && DecodeRelocations(sizes, records, minor, previousEnd, pm4, resources).Ok?
    ensures var rs := DecodeRelocations(sizes, records, minor, previousEnd, pm4, resources).value;
            && RelocationsError(sizes, rs, previousEnd, pm4, resources).None?
            && RelocationRecords(rs) == records && |rs| == |records|
  {
    if records != [] {
      var r := DecodeRelocation(records[0], minor).value;
      RecordsToRelocations(sizes, records[1..], minor, r.wordOffset + 2, pm4, resources);
      RecordToRelocation(records[0], minor);
      var rs := DecodeRelocations(sizes, records, minor, previousEnd, pm4, resources).value;
      assert rs[1..] == DecodeRelocations(sizes, records[1..], minor, r.wordOffset + 2, pm4, resources).value;
    }
  }

  // ---- the whole payload round trips --------------------------------------------------------------------

  lemma TableSizes(s: Submit)
    requires AllWide(WordRecords(s.pm4), 4) && |WordRecords(s.pm4)| == |s.pm4|
    requires AllWide(ResourceRecords(s.resources), 32) && |ResourceRecords(s.resources)| == |s.resources|
    requires AllWide(RelocationRecords(s.relocations), 32) && |RelocationRecords(s.relocations)| == |s.relocations|
    ensures |Flatten(WordRecords(s.pm4))| == 4 * |s.pm4|
    ensures |Flatten(ResourceRecords(s.resources))| == 32 * |s.resources|
    ensures |Flatten(RelocationRecords(s.relocations))| == 32 * |s.relocations|
  {
    CutJoined(WordRecords(s.pm4), 4);
    CutJoined(ResourceRecords(s.resources), 32);
    CutJoined(RelocationRecords(s.relocations), 32);
    RowsIsProduct(4, |s.pm4|);
    RowsIsProduct(32, |s.resources|);
    RowsIsProduct(32, |s.relocations|);
  }

  lemma HeaderParts(s: Submit, l: Layout, minor: nat)
    ensures var h := HeaderBytes(s, l, minor);
            && |h| == 64 && h[..12] == Pack(VersionShape(), VersionFields(minor))
            && h[12..40] == Pack(CountsShape(), CountFields(s, l)) && AllZero(h[40..])
  {
    Widths();
  }

  /** An assembled payload sliced back at its boundaries. */
  lemma AssembledParts(h: seq<byte>, w: seq<byte>, padding: nat, r: seq<byte>, l: seq<byte>)
    ensures var b := Assemble(h, w, padding, r, l);
            var n1, n2, n3, n4 := |h|, |h| + |w|, |h| + |w| + padding, |h| + |w| + padding + |r|;
            && |b| == n4 + |l|
            && b[..n1] == h && b[n1..n2] == w && AllZero(b[n2..n3]) && b[n3..n4] == r && b[n4..] == l
  {
  }

  /** Bytes cut at four boundaries, zero between the second and the third, are assembled from the slices. */
  lemma Reassembled(b: seq<byte>, n1: nat, n2: nat, n3: nat, n4: nat)
    requires n1 <= n2 <= n3 <= n4 <= |b| && AllZero(b[n2..n3])
    ensures b == Assemble(b[..n1], b[n1..n2], n3 - n2, b[n3..n4], b[n4..])
  {
    assert b[n2..n3] == Zeros(n3 - n2);
    assert b == b[..n1] + b[n1..n2] + b[n2..n3] + b[n3..n4] + b[n4..];
  }

  lemma DecodeTablesOfPayload(sizes: ShaderSizes, s: Submit, l: Layout, b: seq<byte>, minor: nat)
    requires EncodeError(sizes, s).None? && LayoutFor(|s.pm4|, |s.resources|, |s.relocations|) == Ok(l)
    requires |b| == l.total
    requires b[HEADER_SIZE..HEADER_SIZE + 4 * |s.pm4|] == Flatten(WordRecords(s.pm4))
    requires AllZero(b[HEADER_SIZE + 4 * |s.pm4|..l.resourcesOffset])
    requires b[l.resourcesOffset..l.relocationsOffset] == Flatten(ResourceRecords(s.resources))
    requires b[l.relocationsOffset..] == Flatten(RelocationRecords(s.relocations))
    ensures var r := DecodeTables(sizes, b, minor, |s.pm4|, |s.resources|, |s.relocations|, l);
            if Speakable(s.relocations, minor) then r == Ok(s) else r.Err?
  {
    WordsRoundTrip(s.pm4);
    ResourcesRoundTrip(s.resources);
    RelocationsRoundTrip(sizes, s.relocations, 0, s.pm4, s.resources, minor);
    CutJoined(WordRecords(s.pm4), 4);
    CutJoined(ResourceRecords(s.resources), 32);
    CutJoined(RelocationRecords(s.relocations), 32);
  }

  lemma HeaderDecodes(s: Submit, l: Layout, minor: nat, b: seq<byte>)
    requires LayoutFor(|s.pm4|, |s.resources|, |s.relocations|) == Ok(l) && minor <= VERSION_MINOR
    requires |b| == l.total >= HEADER_SIZE && b[..64] == HeaderBytes(s, l, minor)
    ensures DecodeHeader(b) == Ok(Header(minor, |s.pm4|, |s.resources|, |s.relocations|, l))
    ensures Minor(b) == minor
  {
    HeaderParts(s, l, minor);
    HeaderUnpacks(s, l, minor);
    var h := HeaderBytes(s, l, minor);
    assert b[..12] == h[..12] && b[12..40] == h[12..40] && b[40..64] == h[40..];
    assert Unpack(VersionShape(), b[..12]) == VersionFields(minor);
    assert Unpack(CountsShape(), b[12..40]) == CountFields(s, l);
  }

  lemma PayloadParts(header: seq<byte>, s: Submit, l: Layout, w: seq<byte>, r: seq<byte>, t: seq<byte>, b: seq<byte>)
    requires |header| == HEADER_SIZE && HEADER_SIZE + 4 * |s.pm4| <= l.resourcesOffset
    requires w == Flatten(WordRecords(s.pm4)) && r == Flatten(ResourceRecords(s.resources))
    requires t == Flatten(RelocationRecords(s.relocations)) && b == PayloadBehind(header, s, l)
    requires |w| == 4 * |s.pm4| && l.relocationsOffset == l.resourcesOffset + |r| && l.total == l.relocationsOffset + |t|
    ensures |b| == l.total && b[..64] == header
    ensures b[HEADER_SIZE..HEADER_SIZE + 4 * |s.pm4|] == w && AllZero(b[HEADER_SIZE + 4 * |s.pm4|..l.resourcesOffset])
    ensures b[l.resourcesOffset..l.relocationsOffset] == r && b[l.relocationsOffset..] == t
  {
    PartsPlaced(header, w, r, t, HEADER_SIZE + 4 * |s.pm4|, l.resourcesOffset, l.relocationsOffset, b);
  }

  lemma PartsPlaced(h: seq<byte>, w: seq<byte>, r: seq<byte>, t: seq<byte>, n2: nat, n3: nat, n4: nat, b: seq<byte>)
    requires n2 == |h| + |w| && n2 <= n3 && n4 == n3 + |r| && b == Assemble(h, w, n3 - n2, r, t)
    ensures |b| == n4 + |t|
    ensures b[..|h|] == h && b[|h|..n2] == w && AllZero(b[n2..n3]) && b[n3..n4] == r && b[n4..] == t
  {
    AssembledParts(h, w, n3 - n2, r, t);
  }

  /** An encodable submit written at any supported minor version: the parts are where the layout says. */
  lemma PayloadReads(sizes: ShaderSizes, s: Submit, l: Layout, minor: nat, b: seq<byte>)
    requires EncodeError(sizes, s).None? && LayoutFor(|s.pm4|, |s.resources|, |s.relocations|) == Ok(l)
    requires minor <= VERSION_MINOR && b == PayloadBytes(s, l, minor)
    ensures |b| == l.total && DecodeHeader(b) == Ok(Header(minor, |s.pm4|, |s.resources|, |s.relocations|, l)) && Minor(b) == minor
    ensures var r := DecodeTables(sizes, b, minor, |s.pm4|, |s.resources|, |s.relocations|, l);
            if Speakable(s.relocations, minor) then r == Ok(s) else r.Err?
  {
    WordsRoundTrip(s.pm4);
    ResourcesRoundTrip(s.resources);
    RelocationsRoundTrip(sizes, s.relocations, 0, s.pm4, s.resources, minor);
    TableSizes(s);
    HeaderParts(s, l, minor);
    PayloadParts(HeaderBytes(s, l, minor), s, l, Flatten(WordRecords(s.pm4)), Flatten(ResourceRecords(s.resources)),
                 Flatten(RelocationRecords(s.relocations)), b);
    HeaderDecodes(s, l, minor, b);
    DecodeTablesOfPayload(sizes, s, l, b, minor);
  }

  /** A payload of an older minor version decodes to its submit exactly when that version can name its
      relocation sources. */
  lemma DecodeAtMinor(sizes: ShaderSizes, s: Submit, minor: nat)
    requires Encode(sizes, s).Ok? && minor <= VERSION_MINOR
    ensures var b := PayloadBytes(s, LayoutFor(|s.pm4|, |s.resources|, |s.relocations|).value, minor);
            && (Decode(sizes, b) == Ok(s) <==> Speakable(s.relocations, minor))
            && (Decode(sizes, b).Ok? ==> Decode(sizes, b) == Ok(s)) && |b| >= HEADER_SIZE && Minor(b) == minor
  {
    var l := LayoutFor(|s.pm4|, |s.resources|, |s.relocations|).value;
    PayloadReads(sizes, s, l, minor, PayloadBytes(s, l, minor));
  }

  /** Decoding an encoded submit gives it back, and the payload has exactly the computed length. */
  lemma DecodeEncoded(sizes: ShaderSizes, s: Submit)
    requires Encode(sizes, s).Ok?
    ensures |Encode(sizes, s).value| == LayoutFor(|s.pm4|, |s.resources|, |s.relocations|).value.total
    ensures Decode(sizes, Encode(sizes, s).value) == Ok(s)
  {
    var l := LayoutFor(|s.pm4|, |s.resources|, |s.relocations|).value;
    PayloadReads(sizes, s, l, VERSION_MINOR, Encode(sizes, s).value);
  }

  lemma HeaderUnpacks(s: Submit, l: Layout, minor: nat)
    requires LayoutFor(|s.pm4|, |s.resources|, |s.relocations|) == Ok(l) && minor < 0x1_0000
    ensures Width(VersionShape()) == 12 && Width(CountsShape()) == 28
    ensures Unpack(VersionShape(), Pack(VersionShape(), VersionFields(minor))) == VersionFields(minor)
    ensures Unpack(CountsShape(), Pack(CountsShape(), CountFields(s, l))) == CountFields(s, l)
  {
    Widths();
    FieldRanges();
    assert Fits(VersionShape(), VersionFields(minor));
    assert Fits(CountsShape(), CountFields(s, l));
    UnpackPacked(VersionShape(), VersionFields(minor));
    UnpackPacked(CountsShape(), CountFields(s, l));
  }

  lemma ZerosAreAll(b: seq<byte>)
    requires AllZero(b)
    ensures b == Zeros(|b|)
  {
  }

  /** The four tables after the header of a decoded payload are the records of what was decoded. */
  lemma TablesEncode(sizes: ShaderSizes, b: seq<byte>, minor: nat, pm4: nat, resources: nat, relocations: nat, l: Layout)
    requires LayoutFor(pm4, resources, relocations) == Ok(l) && |b| == l.total
    requires DecodeTables(sizes, b, minor, pm4, resources, relocations, l).Ok?
    ensures var s := DecodeTables(sizes, b, minor, pm4, resources, relocations, l).value;
            && |s.pm4| == pm4 && |s.resources| == resources && |s.relocations| == relocations
            && EncodeError(sizes, s).None?
            && Flatten(WordRecords(s.pm4)) == b[HEADER_SIZE..HEADER_SIZE + 4 * pm4]
            && AllZero(b[HEADER_SIZE + 4 * pm4..l.resourcesOffset])
            && Flatten(ResourceRecords(s.resources)) == b[l.resourcesOffset..l.relocationsOffset]
            && Flatten(RelocationRecords(s.relocations)) == b[l.relocationsOffset..]
  {
    RowsIsProduct(4, pm4);
    RowsIsProduct(32, resources);
    RowsIsProduct(32, relocations);
    var s := DecodeTables(sizes, b, minor, pm4, resources, relocations, l).value;
    var words := Cut(b[HEADER_SIZE..HEADER_SIZE + 4 * pm4], 4, pm4);
    var rs := Cut(b[l.resourcesOffset..l.relocationsOffset], 32, resources);
    var ls := Cut(b[l.relocationsOffset..], 32, relocations);
    RecordsToWords(words);
    RecordsToResources(rs);
    RecordsToRelocations(sizes, ls, minor, 0, s.pm4, s.resources);
    JoinCut(b[HEADER_SIZE..HEADER_SIZE + 4 * pm4], 4, pm4);
    JoinCut(b[l.resourcesOffset..l.relocationsOffset], 32, resources);
    JoinCut(b[l.relocationsOffset..], 32, relocations);
  }

  lemma HeaderEncodes(b: seq<byte>, s: Submit)
    requires DecodeHeader(b).Ok?
    requires var h := DecodeHeader(b).value;
             |s.pm4| == h.pm4 && |s.resources| == h.resources && |s.relocations| == h.relocations
    ensures b[..64] == HeaderBytes(s, DecodeHeader(b).value.layout, Minor(b))
    ensures Minor(b) == DecodeHeader(b).value.minor <= VERSION_MINOR
  {
    Widths();
    var v, c := Unpack(VersionShape(), b[..12]), Unpack(CountsShape(), b[12..40]);
    var l := DecodeHeader(b).value.layout;
    PackUnpacked(VersionShape(), b[..12]);
    PackUnpacked(CountsShape(), b[12..40]);
    assert v == VersionFields(v[2]);
    assert c == CountFields(s, l);
    ZerosAreAll(b[40..64]);
    assert b[..64] == b[..12] + b[12..40] + b[40..64];
  }

  lemma DecodedIsCanonical(sizes: ShaderSizes, b: seq<byte>)
    requires Decode(sizes, b).Ok?
    ensures var s, h := Decode(sizes, b).value, DecodeHeader(b).value;
            && EncodeError(sizes, s).None?
            && LayoutFor(|s.pm4|, |s.resources|, |s.relocations|) == Ok(h.layout)
            && b == PayloadBytes(s, h.layout, Minor(b)) && Minor(b) <= VERSION_MINOR
  {
    var s := Decode(sizes, b).value;
    var h := DecodeHeader(b).value;
    TablesEncode(sizes, b, h.minor, h.pm4, h.resources, h.relocations, h.layout);
    HeaderEncodes(b, s);
    PayloadFromParts(b, HeaderBytes(s, h.layout, Minor(b)), s, h.layout);
  }

  lemma PayloadFromParts(b: seq<byte>, header: seq<byte>, s: Submit, l: Layout)
    requires HEADER_SIZE + 4 * |s.pm4| <= l.resourcesOffset <= l.relocationsOffset <= |b|
    requires b[..64] == header
    requires b[HEADER_SIZE..HEADER_SIZE + 4 * |s.pm4|] == Flatten(WordRecords(s.pm4))
    requires AllZero(b[HEADER_SIZE + 4 * |s.pm4|..l.resourcesOffset])
    requires b[l.resourcesOffset..l.relocationsOffset] == Flatten(ResourceRecords(s.resources))
    requires b[l.relocationsOffset..] == Flatten(RelocationRecords(s.relocations))
    ensures b == PayloadBehind(header, s, l)
  {
    ReassembledAs(b, 64, HEADER_SIZE + 4 * |s.pm4|, l.resourcesOffset, l.relocationsOffset,
                  header, Flatten(WordRecords(s.pm4)), Flatten(ResourceRecords(s.resources)),
                  Flatten(RelocationRecords(s.relocations)));
  }

  lemma ReassembledAs(b: seq<byte>, n1: nat, n2: nat, n3: nat, n4: nat,
                      h: seq<byte>, w: seq<byte>, r: seq<byte>, l: seq<byte>)
    requires n1 <= n2 <= n3 <= n4 <= |b| && AllZero(b[n2..n3])
    requires b[..n1] == h && b[n1..n2] == w && b[n3..n4] == r && b[n4..] == l
    ensures b == Assemble(h, w, n3 - n2, r, l)
  {
    Reassembled(b, n1, n2, n3, n4);
  }

  /** Any payload that decodes is the canonical encoding of what it decodes to, up to the minor
      version it claims; at the current minor version, re-encoding restores it byte for byte. */
  lemma EncodeDecoded(sizes: ShaderSizes, b: seq<byte>)
    requires Decode(sizes, b).Ok?
    ensures var s := Decode(sizes, b).value;
            && Encode(sizes, s).Ok?
            && b == PayloadBytes(s, LayoutFor(|s.pm4|, |s.resources|, |s.relocations|).value, Minor(b))
            && (Encode(sizes, s).value == b <==> Minor(b) == VERSION_MINOR)
  {
    DecodedIsCanonical(sizes, b);
    if Minor(b) != VERSION_MINOR {
      MinorShows(sizes, Decode(sizes, b).value, DecodeHeader(b).value.layout, b);
    }
  }

  lemma MinorShows(sizes: ShaderSizes, s: Submit, l: Layout, b: seq<byte>)
    requires EncodeError(sizes, s).None? && LayoutFor(|s.pm4|, |s.resources|, |s.relocations|) == Ok(l)
    requires |b| >= HEADER_SIZE && Minor(b) < VERSION_MINOR
    ensures PayloadBytes(s, l, VERSION_MINOR) != b
  {
    PayloadReads(sizes, s, l, VERSION_MINOR, PayloadBytes(s, l, VERSION_MINOR));
  }

  /** Encoding accepts exactly the submits that some payload decodes to. */
  lemma EncodableIffDecodable(sizes: ShaderSizes, s: Submit)
    ensures Encode(sizes, s).Ok? <==>
            exists b: seq<byte> :: Decode(sizes, b) == Ok(s)
  {
    if Encode(sizes, s).Ok? {
      DecodeEncoded(sizes, s);
    }
    forall b: seq<byte> | Decode(sizes, b) == Ok(s)
      ensures Encode(sizes, s).Ok?
    {
      EncodeDecoded(sizes, b);
    }
  }
}
