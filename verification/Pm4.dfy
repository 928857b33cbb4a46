/** The packet grammar: headers with odd-parity checks, and the bounded packet reader. */
module Pm4 {
  import opened Wrappers
  import opened Arith
  import opened WireFormat

  const TYPE4_MAX_COUNT := 0x7e
  const TYPE7_MAX_COUNT := 0x3fff
  const TYPE4_MAX_REGISTER := 0x3ffff

  datatype Header = Type4(register: nat, count: nat) | Type7(opcode: nat, count: nat)

  datatype Pm4Error = FieldOutOfRange | UnsupportedPacketType | InvalidParity | TruncatedPacket

  function Ones(v: nat): nat { if v == 0 then 0 else v % 2 + Ones(v / 2) }

  /** The bit that makes the number of ones odd. */
  function OddParityBit(v: nat): (b: nat)
    ensures b < 2 && (Ones(v) + b) % 2 == 1
  {
    (Ones(v) + 1) % 2
  }

  predicate Representable(h: Header) {
    match h
    case Type4(register, count) => 0 < register <= TYPE4_MAX_REGISTER && 0 < count <= TYPE4_MAX_COUNT
    case Type7(opcode, count) => opcode <= 0x7f && count <= TYPE7_MAX_COUNT
  }

  /** The fields occupy disjoint bits, so their union is their sum. */
  function HeaderWord(h: Header): (w: u32)
    requires Representable(h)
  {
    match h
    case Type4(register, count) =>
      0x4000_0000 + count + OddParityBit(count) * 0x80 + register * 0x100 + OddParityBit(register) * 0x800_0000
    case Type7(opcode, count) =>
      0x7000_0000 + count + OddParityBit(count) * 0x8000 + opcode * 0x1_0000 + OddParityBit(opcode) * 0x80_0000
  }

  function EncodeHeader(h: Header): Result<u32, Pm4Error> {
    if Representable(h) then Ok(HeaderWord(h)) else Err(FieldOutOfRange)
  }

  function DecodeHeader(word: u32): (r: Result<Header, Pm4Error>)
    ensures r.Ok? ==> Representable(r.value)
  {
    if word / 0x1000_0000 == 4 then
      var count, register := word % 0x80, word / 0x100 % 0x4_0000;
      if word / 0x400_0000 % 2 != 0 || register == 0 || count == 0 || count > 0x7e then Err(FieldOutOfRange)
      else if word / 0x80 % 2 != OddParityBit(count) || word / 0x800_0000 % 2 != OddParityBit(register)
      then Err(InvalidParity)
      else Ok(Type4(register, count))
    else if word / 0x1000_0000 == 7 then
      var count, opcode := word % 0x4000, word / 0x1_0000 % 0x80;
      if word / 0x100_0000 % 0x10 != 0 then Err(FieldOutOfRange)
      else if word / 0x8000 % 2 != OddParityBit(count) || word / 0x80_0000 % 2 != OddParityBit(opcode)
      then Err(InvalidParity)
      else Ok(Type7(opcode, count))
    else Err(UnsupportedPacketType)
  }

  /** Decoding an encoded header gives it back, and what cannot be encoded is never decoded. */
  lemma HeaderRoundTrip(h: Header)
    ensures EncodeHeader(h).Ok? ==> DecodeHeader(EncodeHeader(h).value) == Ok(h)
    ensures EncodeHeader(h).Err? ==> forall w: u32 :: DecodeHeader(w) != Ok(h)
  {
    if Representable(h) {
      match h
      case Type4(register, count) => Type4RoundTrip(register, count, HeaderWord(h));
      case Type7(opcode, count) => Type7RoundTrip(opcode, count, HeaderWord(h));
    }
  }

  lemma Type4RoundTrip(register: nat, count: nat, w: u32)
    requires Representable(Type4(register, count)) && w == HeaderWord(Type4(register, count))
    ensures DecodeHeader(w) == Ok(Type4(register, count))
  {
    var a, b := OddParityBit(count), OddParityBit(register);
    Type4Fields(count, a, register, b, w);
    SplitType4(count, a, register, b, w);
    DecodeType4(w, register, count, a, b);
  }

  lemma DecodeType4(w: u32, register: nat, count: nat, countParity: nat, registerParity: nat)
    requires Representable(Type4(register, count)) && w / 0x1000_0000 == 4 && w / 0x400_0000 % 2 == 0
    requires w % 0x80 == count && w / 0x80 % 2 == countParity == OddParityBit(count)
    requires w / 0x100 % 0x4_0000 == register && w / 0x800_0000 % 2 == registerParity == OddParityBit(register)
    ensures DecodeHeader(w) == Ok(Type4(register, count))
  {
  }

  lemma Type7RoundTrip(opcode: nat, count: nat, w: u32)
    requires Representable(Type7(opcode, count)) && w == HeaderWord(Type7(opcode, count))
    ensures DecodeHeader(w) == Ok(Type7(opcode, count))
  {
    var a, b := OddParityBit(count), OddParityBit(opcode);
    Type7Fields(count, a, opcode, b, w);
    SplitType7(count, a, opcode, b, w);
    DecodeType7(w, opcode, count, a, b);
  }

  lemma DecodeType7(w: u32, opcode: nat, count: nat, countParity: nat, opcodeParity: nat)
    requires Representable(Type7(opcode, count)) && w / 0x1000_0000 == 7 && w / 0x100_0000 % 0x10 == 0
    requires w % 0x4000 == count && w / 0x8000 % 2 == countParity == OddParityBit(count)
    requires w / 0x1_0000 % 0x80 == opcode && w / 0x80_0000 % 2 == opcodeParity == OddParityBit(opcode)
    ensures DecodeHeader(w) == Ok(Type7(opcode, count))
  {
  }

  lemma SplitType4(count: nat, countParity: nat, register: nat, registerParity: nat, w: nat)
    requires count < 0x80 && countParity < 2 && register < 0x4_0000 && registerParity < 2
    requires w == 0x4000_0000 + count + countParity * 0x80 + register * 0x100 + registerParity * 0x800_0000
    ensures w % 0x80 == count && w / 0x80 % 2 == countParity && w / 0x100 % 0x4_0000 == register
    ensures w / 0x400_0000 % 2 == 0 && w / 0x800_0000 % 2 == registerParity && w / 0x1000_0000 == 4
  {
    assert w / 0x80 == 0x80_0000 + countParity + register * 2 + registerParity * 0x10_0000;
    assert w / 0x100 == 0x40_0000 + register + registerParity * 0x8_0000;
    assert w / 0x400_0000 == 0x10 + registerParity * 2;
  }

  lemma SplitType7(count: nat, countParity: nat, opcode: nat, opcodeParity: nat, w: nat)
    requires count < 0x4000 && countParity < 2 && opcode < 0x80 && opcodeParity < 2
    requires w == 0x7000_0000 + count + countParity * 0x8000 + opcode * 0x1_0000 + opcodeParity * 0x80_0000
    ensures w % 0x4000 == count && w / 0x8000 % 2 == countParity
    ensures w / 0x1_0000 % 0x80 == opcode && w / 0x80_0000 % 2 == opcodeParity
    ensures w / 0x100_0000 % 0x10 == 0 && w / 0x1000_0000 == 7
  {
    assert w / 0x8000 == 0xe000 + countParity + opcode * 2 + opcodeParity * 0x100;
    assert w / 0x1_0000 == 0x7000 + opcode + opcodeParity * 0x80;
    assert w / 0x80_0000 == 0xe0 + opcodeParity;
  }

  lemma Type4Fields(count: nat, countParity: nat, register: nat, registerParity: nat, w: u32)
    requires Representable(Type4(register, count)) && w == HeaderWord(Type4(register, count))
    requires countParity == OddParityBit(count) && registerParity == OddParityBit(register)
    ensures w == 0x4000_0000 + count + countParity * 0x80 + register * 0x100 + registerParity * 0x800_0000
  {
  }

  lemma Type7Fields(count: nat, countParity: nat, opcode: nat, opcodeParity: nat, w: u32)
    requires Representable(Type7(opcode, count)) && w == HeaderWord(Type7(opcode, count))
    requires countParity == OddParityBit(count) && opcodeParity == OddParityBit(opcode)
    ensures w == 0x7000_0000 + count + countParity * 0x8000 + opcode * 0x1_0000 + opcodeParity * 0x80_0000
  {
  }

  // ---- the bits of a header ---------------------------------------------------------------------------------

  /** A bit above a number adds itself to the number's ones. */
  lemma {:induction false} OnesTop(v: nat, bit: nat, n: nat)
    requires v < Pow2(n) && bit < 2
    ensures Ones(v + bit * Pow2(n)) == Ones(v) + bit
  {
    if n > 0 {
      OnesTop(v / 2, bit, n - 1);
      assert (v + bit * Pow2(n)) / 2 == v / 2 + bit * Pow2(n - 1);
    }
  }

  lemma Powers()
    ensures Pow2(7) == 0x80 && Pow2(15) == 0x8000 && Pow2(19) == 0x8_0000
  {
    assert Pow2(7) == 0x80;
    assert Pow2(11) == 16 * Pow2(7);
    assert Pow2(15) == 16 * Pow2(11);
    assert Pow2(19) == 16 * Pow2(15);
  }

  /** A header read by its bits: a four-bit type, the count and the register or opcode at their places, and an odd number
      of ones in the low half of the word's fields and in the high half. */
  lemma HeaderBits(h: Header)
    requires Representable(h)
    ensures var w := HeaderWord(h);
            match h
            case Type4(register, count) =>
              && w / 0x1000_0000 == 4 && w % 0x80 == count && w / 0x100 % 0x4_0000 == register
              && Ones(w % 0x100) % 2 == 1 && Ones(w / 0x100 % 0x10_0000) % 2 == 1
            case Type7(opcode, count) =>
              && w / 0x1000_0000 == 7 && w % 0x4000 == count && w / 0x1_0000 % 0x80 == opcode
              && Ones(w % 0x1_0000) % 2 == 1 && Ones(w / 0x1_0000 % 0x100) % 2 == 1
  {
    Powers();
    var w := HeaderWord(h);
    match h
    case Type4(register, count) =>
      var a, b := OddParityBit(count), OddParityBit(register);
      Type4Fields(count, a, register, b, w);
      SplitType4(count, a, register, b, w);
      LowHalf4(count, a, register, b, w);
      OddHalf(count, a, 7, w % 0x100);
      OddHalf(register, b, 19, w / 0x100 % 0x10_0000);
    case Type7(opcode, count) =>
      var a, b := OddParityBit(count), OddParityBit(opcode);
      Type7Fields(count, a, opcode, b, w);
      SplitType7(count, a, opcode, b, w);
      LowHalf7(count, a, opcode, b, w);
      OddHalf(count, a, 15, w % 0x1_0000);
      OddHalf(opcode, b, 7, w / 0x1_0000 % 0x100);
  }

  lemma OddHalf(v: nat, bit: nat, n: nat, half: nat)
    requires v < Pow2(n) && bit == OddParityBit(v) && half == v + bit * Pow2(n)
    ensures Ones(half) % 2 == 1
  {
    OnesTop(v, bit, n);
  }

  lemma LowHalf4(count: nat, a: nat, register: nat, b: nat, w: nat)
    requires count < 0x80 && a < 2 && register < 0x4_0000 && b < 2
    requires w == 0x4000_0000 + count + a * 0x80 + register * 0x100 + b * 0x800_0000
    ensures w % 0x100 == count + a * 0x80 && w / 0x100 % 0x10_0000 == register + b * 0x8_0000
  {
    assert w / 0x100 == 0x40_0000 + register + b * 0x8_0000;
  }

  lemma LowHalf7(count: nat, a: nat, opcode: nat, b: nat, w: nat)
    requires count < 0x4000 && a < 2 && opcode < 0x80 && b < 2
    requires w == 0x7000_0000 + count + a * 0x8000 + opcode * 0x1_0000 + b * 0x80_0000
    ensures w % 0x1_0000 == count + a * 0x8000 && w / 0x1_0000 % 0x100 == opcode + b * 0x80
  {
    assert w / 0x1_0000 == 0x7000 + opcode + b * 0x80;
  }

  lemma JoinType4(w: u32)
    requires w / 0x1000_0000 == 4 && w / 0x400_0000 % 2 == 0
    ensures w == 0x4000_0000 + w % 0x80 + w / 0x80 % 2 * 0x80 + w / 0x100 % 0x4_0000 * 0x100 + w / 0x800_0000 % 2 * 0x800_0000
  {
    assert w / 0x80 == w / 0x100 * 2 + w / 0x80 % 2;
    assert w / 0x100 == w / 0x400_0000 * 0x4_0000 + w / 0x100 % 0x4_0000;
    assert w / 0x400_0000 == w / 0x800_0000 * 2;
    assert w / 0x800_0000 == 8 + w / 0x800_0000 % 2;
  }

  lemma JoinType7(w: u32)
    requires w / 0x1000_0000 == 7 && w / 0x100_0000 % 0x10 == 0
    ensures w == 0x7000_0000 + w % 0x4000 + w / 0x4000 % 2 * 0x4000 + w / 0x8000 % 2 * 0x8000
                 + w / 0x1_0000 % 0x80 * 0x1_0000 + w / 0x80_0000 % 2 * 0x80_0000
  {
    assert w / 0x4000 == w / 0x8000 * 2 + w / 0x4000 % 2;
    assert w / 0x8000 == w / 0x1_0000 * 2 + w / 0x8000 % 2;
    assert w / 0x1_0000 == w / 0x80_0000 * 0x80 + w / 0x1_0000 % 0x80;
    assert w / 0x80_0000 == w / 0x100_0000 * 2 + w / 0x80_0000 % 2;
  }

  /** Re-encoding a decoded header restores a type-4 word exactly, and a type-7 word exactly when
      its bit 14, which decoding does not inspect, is clear. */
  lemma DecodedHeaderReencodes(word: u32)
    requires DecodeHeader(word).Ok?
    ensures var h := DecodeHeader(word).value;
            && HeaderWord(h) == (if h.Type4? then word else word - word / 0x4000 % 2 * 0x4000)
            && (HeaderWord(h) == word <==> h.Type4? || word / 0x4000 % 2 == 0)
  {
    var h := DecodeHeader(word).value;
    if word / 0x1000_0000 == 4 {
      JoinType4(word);
      Type4Fields(word % 0x80, word / 0x80 % 2, word / 0x100 % 0x4_0000, word / 0x800_0000 % 2, HeaderWord(h));
    } else {
      JoinType7(word);
      Type7Fields(word % 0x4000, word / 0x8000 % 2, word / 0x1_0000 % 0x80, word / 0x80_0000 % 2, HeaderWord(h));
    }
  }

  /** A word with bit 14 set that decodes, and is not restored. */
  lemma SpareBitIsLost()
    ensures DecodeHeader(0x7080_c000) == Ok(Type7(0, 0)) && HeaderWord(Type7(0, 0)) == 0x7080_8000
  {
    assert Ones(0) == 0 && OddParityBit(0) == 1;
    DecodeType7(0x7080_c000, 0, 0, 1, 1);
  }

  // ---- reading a stream ------------------------------------------------------------------------------------

  datatype Parsed = Parsed(header: Header, payload: seq<u32>, wordOffset: nat)

  type Decoder = u32 -> Result<Header, Pm4Error>

  /** Every packet from `offset` to the end, or the first error. */
  function ParseWith(decode: Decoder, words: seq<u32>, offset: nat): Result<seq<Parsed>, Pm4Error>
    requires offset <= |words|
    decreases |words| - offset
  {
    if offset == |words| then Ok([])
    else
      var h := decode(words[offset]);
      if h.Err? then Err(h.error)
      else
        var end := offset + 1 + h.value.count;
        if end > |words| then Err(TruncatedPacket)
        else
          var rest := ParseWith(decode, words, end);
          if rest.Err? then rest else Ok([Parsed(h.value, words[offset + 1..end], offset)] + rest.value)
  }

  function Parse(words: seq<u32>): Result<seq<Parsed>, Pm4Error> { ParseWith(DecodeHeader, words, 0) }

  /** The iterator that consumes a stream packet by packet and stops at the first error. */
  class Packets {
    const words: seq<u32>
    var offset: nat
    var failed: bool

    ghost predicate Valid()
      reads this
    {
      offset <= |words|
    }

    /** What is still to be read. */
    ghost function Remaining(): Result<seq<Parsed>, Pm4Error>
      reads this
      requires Valid()
    {
      if failed then Ok([]) else ParseWith(DecodeHeader, words, offset)
    }

    constructor (words: seq<u32>)
      ensures Valid() && !failed && offset == 0 && this.words == words
    {
      this.words := words;
      offset := 0;
      failed := false;
    }

    method Next() returns (r: Option<Result<Parsed, Pm4Error>>)
      requires Valid()
      modifies this
      ensures Valid()
      ensures r.None? ==> old(Remaining()) == Ok([]) && Remaining() == Ok([])
      ensures r.Some? && r.value.Err? ==> old(Remaining()) == Err(r.value.error) && Remaining() == Ok([])
      ensures r.Some? && r.value.Ok? ==>
                && |words| - offset < |words| - old(offset)
                && old(Remaining()) ==
                   (if Remaining().Err? then Remaining() else Ok([r.value.value] + Remaining().value))
    {
      if failed || offset == |words| {
        return None;
      }
      var start := offset;
      var header := DecodeHeader(words[start]);
      if header.Err? {
        failed := true;
        return Some(Err(header.error));
      }
      var end := start + 1 + header.value.count;
      if end > |words| {
        failed := true;
        return Some(Err(TruncatedPacket));
      }
      offset := end;
      r := Some(Ok(Parsed(header.value, words[start + 1..end], start)));
    }
  }
}
