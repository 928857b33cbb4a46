/** The in-place encoder: it fills caller-owned storage with exactly the canonical payload. */
module SubmitEncoder {
  import opened Wrappers
  import opened Sequences
  import opened WireFormat
  import opened ShaderPack
  import opened SubmitWire
  import opened WireBytes

  /** The storage holds `done` followed by zeros. */
  ghost predicate Written(output: array<byte>, done: seq<byte>)
    reads output
  {
    |done| <= output.Length && output[..] == done + Zeros(output.Length - |done|)
  }

  method Fill(output: array<byte>)
    modifies output
    ensures Written(output, [])
  {
    for i := 0 to output.Length
      invariant forall k | 0 <= k < i :: output[k] == 0
    {
      output[i] := 0;
    }
    assert output[..] == [] + Zeros(output.Length);
  }

  /** Writes bytes at `offset`, behind what is already written. */
  method PutBytes(output: array<byte>, offset: nat, bytes: seq<byte>, ghost done: seq<byte>)
    requires offset == |done| && offset + |bytes| <= output.Length && Written(output, done)
    modifies output
    ensures Written(output, done + bytes)
  {
    for i := 0 to |bytes|
      invariant Written(output, done + bytes[..i])
    {
      ghost var was := output[..];
      output[offset + i] := bytes[i];
      assert output[..] == was[offset + i := bytes[i]];
      assert bytes[..i + 1] == bytes[..i] + [bytes[i]];
      assert output[..] == done + bytes[..i + 1] + Zeros(output.Length - offset - i - 1);
    }
    assert bytes[..|bytes|] == bytes;
  }

  /** Writes one little-endian field at `offset`. */
  method Put(output: array<byte>, offset: nat, width: nat, value: nat, ghost done: seq<byte>)
    requires offset == |done| && offset + width <= output.Length && Written(output, done)
    modifies output
    ensures Written(output, done + Le(width, value))
  {
    PutBytes(output, offset, Le(width, value), done);
  }

  /** Writes one record, field by field. */
  method PutRecord(output: array<byte>, start: nat, shape: Shape, values: seq<nat>, ghost done: seq<byte>)
    requires |values| == |shape| && start == |done| && start + Width(shape) <= output.Length && Written(output, done)
    modifies output
    ensures Written(output, done + Pack(shape, values))
  {
    var offset := start;
    ghost var packed: seq<byte> := [];
    for i := 0 to |shape|
      invariant offset == |done| + |packed| && Written(output, done + packed)
      invariant offset + Width(shape[i..]) == start + Width(shape)
      invariant packed + Pack(shape[i..], values[i..]) == Pack(shape, values)
    {
      Put(output, offset, shape[i], values[i], done + packed);
      offset := offset + shape[i];
      ghost var field := Le(shape[i], values[i]);
      assert shape[i..][1..] == shape[i + 1..] && values[i..][1..] == values[i + 1..];
      Assoc(packed, field, Pack(shape[i + 1..], values[i + 1..]));
      Assoc(done, packed, field);
      packed := packed + field;
    }
    assert packed + [] == packed;
  }

  method PutWords(output: array<byte>, start: nat, words: seq<u32>, ghost done: seq<byte>)
    requires start == |done| && start + 4 * |words| <= output.Length && Written(output, done)
    modifies output
    ensures Written(output, done + Flatten(WordRecords(words)))
  {
    ghost var joined: seq<byte> := [];
    for i := 0 to |words|
      invariant |joined| == 4 * i && Written(output, done + joined)
      invariant joined + Flatten(WordRecords(words[i..])) == Flatten(WordRecords(words))
    {
      Put(output, start + 4 * i, 4, words[i], done + joined);
      ghost var record, rest := Le(4, words[i]), WordRecords(words[i + 1..]);
      assert words[i..][1..] == words[i + 1..] && ([record] + rest)[1..] == rest;
      Assoc(joined, record, Flatten(rest));
      Assoc(done, joined, record);
      joined := joined + record;
    }
    assert joined + [] == joined;
  }

  method PutResources(output: array<byte>, start: nat, resources: seq<Resource>, ghost done: seq<byte>)
    requires start == |done| && start + 32 * |resources| <= output.Length && Written(output, done)
    modifies output
    ensures Written(output, done + Flatten(ResourceRecords(resources)))
  {
    Widths();
    ghost var joined: seq<byte> := [];
    for i := 0 to |resources|
      invariant |joined| == 32 * i && Written(output, done + joined)
      invariant joined + Flatten(ResourceRecords(resources[i..])) == Flatten(ResourceRecords(resources))
    {
      PutRecord(output, start + 32 * i, ResourceShape(), ResourceFields(resources[i]), done + joined);
      ghost var record, rest := Pack(ResourceShape(), ResourceFields(resources[i])), ResourceRecords(resources[i + 1..]);
      assert resources[i..][1..] == resources[i + 1..] && ([record] + rest)[1..] == rest;
      Assoc(joined, record, Flatten(rest));
      Assoc(done, joined, record);
      joined := joined + record;
    }
    assert joined + [] == joined;
  }

  method PutRelocations(output: array<byte>, start: nat, relocations: seq<Relocation>, ghost done: seq<byte>)
    requires start == |done| && start + 32 * |relocations| <= output.Length && Written(output, done)
    modifies output
    ensures Written(output, done + Flatten(RelocationRecords(relocations)))
  {
    Widths();
    ghost var joined: seq<byte> := [];
    for i := 0 to |relocations|
      invariant |joined| == 32 * i && Written(output, done + joined)
      invariant joined + Flatten(RelocationRecords(relocations[i..])) == Flatten(RelocationRecords(relocations))
    {
      PutRecord(output, start + 32 * i, RelocationShape(), RelocationFields(relocations[i]), done + joined);
      ghost var record, rest :=
        Pack(RelocationShape(), RelocationFields(relocations[i])), RelocationRecords(relocations[i + 1..]);
      assert relocations[i..][1..] == relocations[i + 1..] && ([record] + rest)[1..] == rest;
      Assoc(joined, record, Flatten(rest));
      Assoc(done, joined, record);
      joined := joined + record;
    }
    assert joined + [] == joined;
  }

  method Validate(sizes: ShaderSizes, s: Submit) returns (error: Option<WireError>)
    requires LayoutFor(|s.pm4|, |s.resources|, |s.relocations|).Ok?
    ensures error == EncodeError(sizes, s)
  {
    for i := 0 to |s.resources|
      invariant ResourcesError(s.resources) == ResourcesError(s.resources[i..])
    {
      assert s.resources[i..][1..] == s.resources[i + 1..];
      error := ResourceError(s.resources[i]);
      if error.Some? {
        return;
      }
    }
    var previousEnd: nat := 0;
    for i := 0 to |s.relocations|
      invariant RelocationsError(sizes, s.relocations, 0, s.pm4, s.resources)
             == RelocationsError(sizes, s.relocations[i..], previousEnd, s.pm4, s.resources)
    {
      assert s.relocations[i..][1..] == s.relocations[i + 1..];
      error := RelocationError(sizes, s.relocations[i], previousEnd, s.pm4, s.resources);
      if error.Some? {
        return;
      }
      previousEnd := s.relocations[i].wordOffset + 2;
    }
    error := None;
  }

  lemma PaddingWritten(output: array<byte>, done: seq<byte>, padding: nat)
    requires Written(output, done) && |done| + padding <= output.Length
    ensures Written(output, done + Zeros(padding))
  {
  }

  method PutHeader(output: array<byte>, s: Submit, l: Layout)
    requires Written(output, []) && output.Length >= HEADER_SIZE
    modifies output
    ensures Written(output, HeaderBytes(s, l, VERSION_MINOR))
  {
    Widths();
    PutRecord(output, 0, VersionShape(), VersionFields(VERSION_MINOR), []);
    ghost var version := Pack(VersionShape(), VersionFields(VERSION_MINOR));
    assert [] + version == version;
    PutRecord(output, 12, CountsShape(), CountFields(s, l), version);
    PaddingWritten(output, version + Pack(CountsShape(), CountFields(s, l)), 24);
  }

  /** Writes the words, the padding and both tables behind a written header. */
  method PutTables(s: Submit, l: Layout, output: array<byte>, ghost header: seq<byte>)
    requires |header| == HEADER_SIZE && Written(output, header)
    requires |Flatten(WordRecords(s.pm4))| == 4 * |s.pm4|
    requires |Flatten(ResourceRecords(s.resources))| == 32 * |s.resources|
    requires |Flatten(RelocationRecords(s.relocations))| == 32 * |s.relocations|
    requires HEADER_SIZE + 4 * |s.pm4| <= l.resourcesOffset
    requires l.relocationsOffset == l.resourcesOffset + 32 * |s.resources|
    requires output.Length == l.relocationsOffset + 32 * |s.relocations|
    modifies output
    ensures output[..] == PayloadBehind(header, s, l)
  {
    ghost var words := header + Flatten(WordRecords(s.pm4));
    ghost var padded := words + Zeros(l.resourcesOffset - |words|);
    ghost var resources := padded + Flatten(ResourceRecords(s.resources));
    PutWords(output, HEADER_SIZE, s.pm4, header);
    PaddingWritten(output, words, l.resourcesOffset - |words|);
    PutResources(output, l.resourcesOffset, s.resources, padded);
    PutRelocations(output, l.relocationsOffset, s.relocations, resources);
    AllWritten(output, resources + Flatten(RelocationRecords(s.relocations)));
  }

  lemma AllWritten(output: array<byte>, done: seq<byte>)
    requires Written(output, done) && |done| == output.Length
    ensures output[..] == done
  {
    assert done + [] == done;
  }

  method PutPayload(sizes: ShaderSizes, s: Submit, l: Layout, output: array<byte>)
    requires EncodeError(sizes, s).None? && LayoutFor(|s.pm4|, |s.resources|, |s.relocations|) == Ok(l)
    requires output.Length == l.total
    modifies output
    ensures output[..] == PayloadBytes(s, l, VERSION_MINOR)
  {
    EncodedSizes(sizes, s);
    HeaderParts(s, l, VERSION_MINOR);
    Fill(output);
    PutHeader(output, s, l);
    PutTables(s, l, output, HeaderBytes(s, l, VERSION_MINOR));
  }

  lemma EncodedSizes(sizes: ShaderSizes, s: Submit)
    requires EncodeError(sizes, s).None?
    ensures |Flatten(WordRecords(s.pm4))| == 4 * |s.pm4|
    ensures |Flatten(ResourceRecords(s.resources))| == 32 * |s.resources|
    ensures |Flatten(RelocationRecords(s.relocations))| == 32 * |s.relocations|
  {
    WordsRoundTrip(s.pm4);
    ResourcesRoundTrip(s.resources);
    RelocationsRoundTrip(sizes, s.relocations, 0, s.pm4, s.resources, VERSION_MINOR);
    TableSizes(s);
  }

  /** Success leaves a payload that decodes to the submit and is spelt as the format says; refusal leaves the
      storage untouched, and happens exactly when the submit is invalid or the storage has the wrong length. */
  method EncodeInto(sizes: ShaderSizes, s: Submit, output: array<byte>) returns (error: Option<WireError>)
    modifies output
    ensures error.None? ==> Decode(sizes, output[..]) == Ok(s) && Encode(sizes, s) == Ok(output[..]) && Spelt(output[..], s, 1)
    ensures error.Some? ==> output[..] == old(output[..])
    ensures error.None? <==> Encode(sizes, s).Ok? && |Encode(sizes, s).value| == output.Length
  {
    var layout := LayoutFor(|s.pm4|, |s.resources|, |s.relocations|);
    if layout.Err? {
      return Some(layout.error);
    }
    if Encode(sizes, s).Ok? {
      DecodeEncoded(sizes, s);
      EncodedSpelt(sizes, s);
    }
    if output.Length != layout.value.total {
      return Some(InvalidSize);
    }
    error := Validate(sizes, s);
    if error.None? {
      PutPayload(sizes, s, layout.value, output);
    }
  }
}
