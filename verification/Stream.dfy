/** Packets with symbolic addresses, and the words and fixups they are emitted as. */
module Stream {
  import opened Wrappers
  import opened WireFormat
  import opened Sequences
  import opened Accesses
  import opened Pm4
  import W = SubmitWire

  datatype Address = Address(target: ObjectRef, offset: u64, size: u64, access: Access, encoding: W.AddressEncoding)

  /** What one dword stands for: a header, a value, or half of an address left for relocation. */
  datatype Code = Head(header: Header, word: u32) | Word(value: u32) | Low(ref: Address) | High(ref: Address)

  /** A header and its payload. */
  type Packet = seq<Code>

  datatype Fixup = Fixup(
    wordOffset: u32, target: ObjectRef, offset: u64, required: u64, access: Access, encoding: W.AddressEncoding)
  {
    function End(): nat { offset + required }
  }

  // ---- words -------------------------------------------------------------------------------------------------

  /** An address is left zero, except that a texture descriptor keeps the depth field of its second dword. */
  function Bits(c: Code): u32 {
    match c
    case Head(_, word) => word
    case Word(value) => value
    case Low(_) => 0
    case High(ref) => if ref.encoding.GpuVa64? then 0 else 0x2_0000
  }

  function Words(cs: seq<Code>): (ws: seq<u32>)
    ensures |ws| == |cs|
  {
    seq(|cs|, i requires 0 <= i < |cs| => Bits(cs[i]))
  }

  lemma WordsSnoc(cs: seq<Code>, c: Code)
    ensures Words(cs + [c]) == Words(cs) + [Bits(c)]
  {
  }

  lemma WordsConcat(a: seq<Code>, b: seq<Code>)
    ensures Words(a + b) == Words(a) + Words(b)
  {
  }

  /** Addresses take two adjacent dwords. */
  predicate Paired(cs: seq<Code>) {
    && (forall i | 0 <= i < |cs| && cs[i].Low? :: i + 1 < |cs| && cs[i + 1] == High(cs[i].ref))
    && (forall i | 0 <= i < |cs| && cs[i].High? :: i > 0 && cs[i - 1] == Low(cs[i].ref))
  }

  predicate HeadFirst(p: Packet) {
    |p| > 0 && p[0].Head? && forall i | 0 < i < |p| :: !p[i].Head?
  }

  /** The header counts exactly the payload. */
  predicate Shaped(p: Packet) {
    HeadFirst(p) && p[0].header.count == |p| - 1 && Paired(p)
  }

  /** The header is encoded as its first dword. */
  predicate Whole(p: Packet) {
    Shaped(p) && Representable(p[0].header) && p[0].word == HeaderWord(p[0].header)
  }

  predicate AllWhole(ps: seq<Packet>) {
    ps == [] || (Whole(ps[0]) && AllWhole(ps[1..]))
  }

  lemma {:induction false} WholeConcat(a: seq<Packet>, b: seq<Packet>)
    requires AllWhole(a) && AllWhole(b)
    ensures AllWhole(a + b)
  {
    if a == [] {
      assert a + b == b;
    } else {
      WholeConcat(a[1..], b);
      assert (a + b)[1..] == a[1..] + b;
    }
  }

  lemma PairedConcat(a: seq<Code>, b: seq<Code>)
    requires Paired(a) && Paired(b)
    ensures Paired(a + b)
  {
    var all := a + b;
    forall i | 0 <= i < |all| && all[i].Low?
      ensures i + 1 < |all| && all[i + 1] == High(all[i].ref)
    {
      if i < |a| {
        assert a[i] == all[i] && a[i + 1] == all[i + 1];
      } else {
        assert b[i - |a|] == all[i] && b[i - |a| + 1] == all[i + 1];
      }
    }
    forall i | 0 <= i < |all| && all[i].High?
      ensures i > 0 && all[i - 1] == Low(all[i].ref)
    {
      if i < |a| {
        assert a[i] == all[i] && a[i - 1] == all[i - 1];
      } else {
        assert b[i - |a|] == all[i] && b[i - |a| - 1] == all[i - 1];
      }
    }
  }

  lemma {:induction false} StreamPaired(ps: seq<Packet>)
    requires AllWhole(ps)
    ensures Paired(Flatten(ps))
  {
    if ps != [] {
      StreamPaired(ps[1..]);
      PairedConcat(ps[0], Flatten(ps[1..]));
    }
  }

  // ---- fixups ------------------------------------------------------------------------------------------------

  function FixupAt(ref: Address, at: u32): Fixup {
    Fixup(at, ref.target, ref.offset, ref.size, ref.access, ref.encoding)
  }

  /** The fixups of a stream that starts at `base`. */
  function Fixups(cs: seq<Code>, base: nat): seq<Fixup>
    requires base + |cs| <= 0x1_0000_0000
  {
    if cs == [] then []
    else
      var n := |cs| - 1;
      Fixups(cs[..n], base) + if cs[n].Low? then [FixupAt(cs[n].ref, base + n)] else []
  }

  lemma FixupsSnoc(cs: seq<Code>, c: Code, base: nat)
    requires base + |cs| < 0x1_0000_0000
    ensures Fixups(cs + [c], base) == Fixups(cs, base) + if c.Low? then [FixupAt(c.ref, base + |cs|)] else []
  {
    assert (cs + [c])[..|cs|] == cs;
  }

  lemma {:induction false} FixupsConcat(a: seq<Code>, b: seq<Code>, base: nat)
    requires base + |a| + |b| <= 0x1_0000_0000
    ensures Fixups(a + b, base) == Fixups(a, base) + Fixups(b, base + |a|)
  {
    if b == [] {
      assert a + b == a;
    } else {
      var front, last := b[..|b| - 1], b[|b| - 1];
      var f := if last.Low? then [FixupAt(last.ref, base + |a| + |front|)] else [];
      calc {
        Fixups(a + b, base);
        { assert a + b == a + front + [last]; FixupsSnoc(a + front, last, base); }
        Fixups(a + front, base) + f;
        { FixupsConcat(a, front, base); }
        (Fixups(a, base) + Fixups(front, base + |a|)) + f;
        { Assoc(Fixups(a, base), Fixups(front, base + |a|), f); }
        Fixups(a, base) + (Fixups(front, base + |a|) + f);
        { assert b == front + [last]; FixupsSnoc(front, last, base + |a|); }
        Fixups(a, base) + Fixups(b, base + |a|);
      }
    }
  }

  function Shifted(fs: seq<Fixup>, shift: nat): seq<Fixup>
    requires EndBy(fs, 0x1_0000_0000 - shift)
  {
    seq(|fs|, i requires 0 <= i < |fs| => fs[i].(wordOffset := fs[i].wordOffset + shift))
  }

  predicate EndBy(fs: seq<Fixup>, end: int) {
    forall i | 0 <= i < |fs| :: fs[i].wordOffset < end
  }

  /** Prepending words only moves the fixups. */
  lemma {:induction false} FixupsShift(cs: seq<Code>, base: nat, shift: nat)
    requires base + shift + |cs| <= 0x1_0000_0000
    ensures EndBy(Fixups(cs, base), base + |cs|)
    ensures Fixups(cs, base + shift) == Shifted(Fixups(cs, base), shift)
  {
    if cs != [] {
      var n := |cs| - 1;
      FixupsShift(cs[..n], base, shift);
      assert Fixups(cs, base + shift) ==
             Fixups(cs[..n], base + shift) + if cs[n].Low? then [FixupAt(cs[n].ref, base + shift + n)] else [];
    }
  }

  // ---- placement -----------------------------------------------------------------------------------------------

  ghost predicate PlacedAt(words: seq<u32>, f: Fixup) {
    && f.wordOffset + 2 <= |words|
    && W.PlaceholderValid(f.encoding, words[f.wordOffset], words[f.wordOffset + 1])
  }

  /** Fixups are sorted and disjoint, and each sits on a placeholder inside the stream. */
  ghost predicate FixupsPlaced(words: seq<u32>, fs: seq<Fixup>) {
    && (forall i | 0 <= i < |fs| :: PlacedAt(words, fs[i]))
    && forall i | 0 < i < |fs| :: fs[i - 1].wordOffset + 2 <= fs[i].wordOffset
  }

  /** Each fixup of a stream stands for the address at its offset, in order. */
  lemma {:induction false} FixupsAreAddresses(cs: seq<Code>)
    requires |cs| <= 0x1_0000_0000
    ensures EndBy(Fixups(cs, 0), |cs|)
    ensures forall i | 0 <= i < |Fixups(cs, 0)| ::
              var f := Fixups(cs, 0)[i]; cs[f.wordOffset].Low? && f == FixupAt(cs[f.wordOffset].ref, f.wordOffset)
    ensures forall i | 0 < i < |Fixups(cs, 0)| :: Fixups(cs, 0)[i - 1].wordOffset < Fixups(cs, 0)[i].wordOffset
  {
    if cs != [] {
      FixupsAreAddresses(cs[..|cs| - 1]);
    }
  }

  lemma StreamPlaced(cs: seq<Code>)
    requires |cs| <= 0x1_0000_0000 && Paired(cs)
    ensures FixupsPlaced(Words(cs), Fixups(cs, 0))
  {
    FixupsAreAddresses(cs);
    var fs := Fixups(cs, 0);
    forall i | 0 <= i < |fs|
      ensures PlacedAt(Words(cs), fs[i])
    {
      var at := fs[i].wordOffset;
      assert cs[at + 1] == High(cs[at].ref);
      assert Words(cs)[at] == Bits(cs[at]) && Words(cs)[at + 1] == Bits(cs[at + 1]);
    }
    forall i | 0 < i < |fs|
      ensures fs[i - 1].wordOffset + 2 <= fs[i].wordOffset
    {
      assert cs[fs[i - 1].wordOffset + 1].High?;
    }
  }

  /** Both words of the fixup lie in the payload of one packet, behind its header. */
  ghost predicate InPayload(ps: seq<Packet>, base: nat, f: Fixup) {
    && ps != []
    && ((base < f.wordOffset && f.wordOffset + 2 <= base + |ps[0]|) || InPayload(ps[1..], base + |ps[0]|, f))
  }

  lemma {:induction false} AddressInPayload(ps: seq<Packet>, base: nat, f: Fixup)
    requires AllWhole(ps) && base <= f.wordOffset < base + |Flatten(ps)| && Flatten(ps)[f.wordOffset - base].Low?
    ensures InPayload(ps, base, f)
  {
    var at := f.wordOffset - base;
    if at < |ps[0]| {
      assert ps[0][at] == Flatten(ps)[at];
    } else {
      assert Flatten(ps)[at] == Flatten(ps[1..])[at - |ps[0]|];
      AddressInPayload(ps[1..], base + |ps[0]|, f);
    }
  }

  // ---- parsing back --------------------------------------------------------------------------------------------

  /** What the reader should return for a stream that starts at `base`. */
  function Reading(ps: seq<Packet>, base: nat): seq<Parsed>
    requires AllWhole(ps)
  {
    if ps == [] then []
    else [Parsed(ps[0][0].header, Words(ps[0][1..]), base)] + Reading(ps[1..], base + |ps[0]|)
  }

  lemma WordsSlice(cs: seq<Code>, i: nat, j: nat)
    requires i <= j <= |cs|
    ensures Words(cs)[i..j] == Words(cs[i..j])
  {
  }

  lemma ParseOne(decode: Decoder, words: seq<u32>, offset: nat, h: Header, payload: seq<u32>, rest: seq<Parsed>)
    requires offset + 1 + |payload| <= |words| && decode(words[offset]) == Ok(h) && h.count == |payload|
    requires words[offset + 1..offset + 1 + |payload|] == payload
    requires ParseWith(decode, words, offset + 1 + |payload|) == Ok(rest)
    ensures ParseWith(decode, words, offset) == Ok([Parsed(h, payload, offset)] + rest)
  {
  }

  ghost predicate DecodesHeads(decode: Decoder, ps: seq<Packet>)
    requires AllWhole(ps)
  {
    ps == [] || (decode(Bits(ps[0][0])) == Ok(ps[0][0].header) && DecodesHeads(decode, ps[1..]))
  }

  lemma {:induction false} HeadersDecode(ps: seq<Packet>)
    requires AllWhole(ps)
    ensures DecodesHeads(DecodeHeader, ps)
  {
    if ps != [] {
      HeaderRoundTrip(ps[0][0].header);
      HeadersDecode(ps[1..]);
    }
  }

  /** The packet at the front of the stream's tail. */
  lemma PacketAt(all: seq<Code>, base: nat, p: Packet, rest: seq<Code>)
    requires base <= |all| && all[base..] == p + rest && |p| > 0
    ensures base + |p| <= |all| && all[base + |p|..] == rest
    ensures Words(all)[base] == Bits(p[0]) && Words(all)[base + 1..base + |p|] == Words(p[1..])
  {
    assert all[base..][0] == p[0];
    assert all[base..][1..|p|] == p[1..] && all[base..][1..|p|] == all[base + 1..base + |p|];
    assert all[base..][|p|..] == rest && all[base..][|p|..] == all[base + |p|..];
    WordsSlice(all, base + 1, base + |p|);
  }

  /** The words from `base` on are the packets, header by header. */
  ghost predicate Laid(decode: Decoder, words: seq<u32>, base: nat, ps: seq<Packet>)
    requires AllWhole(ps)
    decreases |ps|
  {
    if ps == [] then base == |words|
    else
      && base + |ps[0]| <= |words| && decode(words[base]) == Ok(ps[0][0].header)
      && words[base + 1..base + |ps[0]|] == Words(ps[0][1..])
      && Laid(decode, words, base + |ps[0]|, ps[1..])
  }

  lemma {:induction false} EmittedIsLaid(decode: Decoder, all: seq<Code>, base: nat, ps: seq<Packet>)
    requires AllWhole(ps) && DecodesHeads(decode, ps) && base <= |all| && all[base..] == Flatten(ps)
    ensures Laid(decode, Words(all), base, ps)
    decreases |ps|
  {
    if ps != [] {
      PacketAt(all, base, ps[0], Flatten(ps[1..]));
      EmittedIsLaid(decode, all, base + |ps[0]|, ps[1..]);
    }
  }

  lemma {:induction false} ReadsBack(decode: Decoder, words: seq<u32>, base: nat, ps: seq<Packet>)
    requires AllWhole(ps) && base <= |words| && Laid(decode, words, base, ps)
    ensures ParseWith(decode, words, base) == Ok(Reading(ps, base))
    decreases |ps|
  {
    if ps != [] {
      ReadsBack(decode, words, base + |ps[0]|, ps[1..]);
      ParseOne(decode, words, base, ps[0][0].header, Words(ps[0][1..]), Reading(ps[1..], base + |ps[0]|));
    }
  }

  /** Reading an emitted stream returns exactly the packets emitted, to the end. */
  lemma ParseEmitted(ps: seq<Packet>)
    requires AllWhole(ps)
    ensures Parse(Words(Flatten(ps))) == Ok(Reading(ps, 0))
  {
    HeadersDecode(ps);
    EmittedIsLaid(DecodeHeader, Flatten(ps), 0, ps);
    ReadsBack(DecodeHeader, Words(Flatten(ps)), 0, ps);
  }
}
