/** What single registers hold at the end of the commands of a draw, a fill or a blit. */
module RegisterReads {
  import opened Wrappers
  import opened WireFormat
  import opened Accesses
  import opened Stream
  import opened Commands
  import opened Draws
  import opened DrawDelta
  import opened Transfers
  import O = Operations
  import W = SubmitWire

  function Word32(value: u32): Value { Slot(Word(value)) }

  /** The registers of the commands hold the two halves of an address. */
  predicate AddressAt(cs: seq<Command>, n: int, ref: Address) {
    Final(cs, Register(n)) == Some(Slot(Low(ref))) && Final(cs, Register(n + 1)) == Some(Slot(High(ref)))
  }

  // ---- looking a register up ----------------------------------------------------------------------------------------------

  /** The command may set a register of lo..hi; exact for single values, generous for addresses. */
  predicate MayTouch(c: Command, lo: int, hi: int) {
    match c
    case Write(register, fields) =>
      register < hi && lo < register + if |fields| == 1 && fields[0].Val? then 1 else 2 * |fields|
    case TrackedWrite(register, _) => lo <= register < hi
    case _ => false
  }

  ghost predicate AllMiss(cs: seq<Command>, lo: int, hi: int) {
    forall j | 0 <= j < |cs| :: !MayTouch(cs[j], lo, hi)
  }

  lemma OneWord(value: u32)
    ensures Expand([Val(value)]) == [Word(value)]
  {
    assert [Val(value)][1..] == [];
  }

  lemma MissSets(c: Command, lo: int, hi: int, n: int)
    requires !MayTouch(c, lo, hi) && lo <= n < hi
    ensures !Sets(c, Register(n))
  {
    if c.Write? {
      ExpandBound(c.fields);
      if |c.fields| == 1 && c.fields[0].Val? {
        OneWord(c.fields[0].value);
        assert c.fields == [Val(c.fields[0].value)];
      }
    }
  }

  lemma Missed(cs: seq<Command>, lo: int, hi: int, n: int)
    requires AllMiss(cs, lo, hi) && lo <= n < hi
    ensures Final(cs, Register(n)).None?
  {
    forall j | 0 <= j < |cs|
      ensures !Sets(cs[j], Register(n))
    {
      MissSets(cs[j], lo, hi, n);
    }
    SparedIsNone(cs, Register(n));
  }

  /** The last command that sets a key decides it. */
  lemma {:induction false} Decided(cs: seq<Command>, j: nat, k: Key)
    requires j < |cs| && Sets(cs[j], k) && forall m | j < m < |cs| :: !Sets(cs[m], k)
    ensures Final(cs, k) == Some(SetValue(cs[j], k))
  {
    if j < |cs| - 1 {
      Decided(cs[..|cs| - 1], j, k);
    }
  }

  /** Command j of a block, with nothing behind it that touches its registers. */
  lemma DecidedWrite(cs: seq<Command>, j: nat, register: u32, fields: seq<Field>, n: int)
    requires j < |cs| && cs[j] == Write(register, fields) && register <= n < register + |Expand(fields)|
    requires forall m | j < m < |cs| :: !MayTouch(cs[m], n, n + 1)
    ensures Final(cs, Register(n)) == Some(Slot(Expand(fields)[n - register]))
  {
    forall m | j < m < |cs|
      ensures !Sets(cs[m], Register(n))
    {
      MissSets(cs[m], n, n + 1, n);
    }
    Decided(cs, j, Register(n));
  }

  lemma FourWords(a: u32, b: u32, c: u32, d: u32)
    ensures Expand([Val(a), Val(b), Val(c), Val(d)]) == [Word(a), Word(b), Word(c), Word(d)]
  {
    assert [Val(a), Val(b), Val(c), Val(d)][1..] == [Val(b), Val(c), Val(d)] && [Val(b), Val(c), Val(d)][1..] == [Val(c), Val(d)];
    TwoWords(c, d, Address(Generated(0), 0, 0, READ, W.GpuVa64));
  }

  // ---- fills and blits ------------------------------------------------------------------------------------------------------

  /** Both registers of a rectangle: its first corner and its last. */
  predicate RectAt(cs: seq<Command>, n: int, area: O.Rect) {
    && Final(cs, Register(n)) == Some(Word32(PackXY(area.x, area.y)))
    && Final(cs, Register(n + 1)) == Some(Word32(Corner(area)))
  }

  lemma CoordinatesRead(area: O.Rect)
    ensures RectAt(Coordinates(area), 0x8405, area) && RectAt(Coordinates(area), 0x840a, area)
  {
    var cs, fs := Coordinates(area), [Val(PackXY(area.x, area.y)), Val(Corner(area))];
    TwoWords(PackXY(area.x, area.y), Corner(area), Address(Generated(0), 0, 0, READ, W.GpuVa64));
    DecidedWrite(cs, 0, 0x8405, fs, 0x8405);
    DecidedWrite(cs, 0, 0x8405, fs, 0x8406);
    DecidedWrite(cs, 1, 0x840a, fs, 0x840a);
    DecidedWrite(cs, 1, 0x840a, fs, 0x840b);
  }

  lemma DestinationReads(s: Surface, format: nat, swap: nat)
    ensures var cs := Destination(s, format, swap);
            && AddressAt(cs, 0x8c18, Address(External(s.target), s.planeOffset, s.planeSize, WRITE, W.GpuVa64))
            && Final(cs, Register(0x8c1a)) == Some(Word32(s.stride / 64))
            && Final(cs, Register(0x8c17)) == Some(Word32(U32(format + s.tileMode * 0x100 + if s.tileMode == 0 then swap else 0)))
  {
    var cs, ref := Destination(s, format, swap), Address(External(s.target), s.planeOffset, s.planeSize, WRITE, W.GpuVa64);
    var kind := U32(format + s.tileMode * 0x100 + if s.tileMode == 0 then swap else 0);
    TwoWords(0, 0, ref);
    OneWord(s.stride / 64);
    OneWord(kind);
    DecidedWrite(cs, 0, 0x8c17, [Val(kind)], 0x8c17);
    DecidedWrite(cs, 1, 0x8c18, [Ref(ref)], 0x8c18);
    DecidedWrite(cs, 1, 0x8c18, [Ref(ref)], 0x8c19);
    DecidedWrite(cs, 2, 0x8c1a, [Val(s.stride / 64)], 0x8c1a);
  }

  lemma SourceRectReads(area: O.Rect)
    ensures var cs := SourceRect(area);
            && Final(cs, Register(0x8401)) == Some(Word32(U32(area.x * 0x100)))
            && Final(cs, Register(0x8402)) == Some(Word32(U32(LastOf(area.x, area.width) * 0x100)))
            && Final(cs, Register(0x8403)) == Some(Word32(U32(area.y * 0x100)))
            && Final(cs, Register(0x8404)) == Some(Word32(U32(LastOf(area.y, area.height) * 0x100)))
  {
    var a, b, c, d := U32(area.x * 0x100), U32(LastOf(area.x, area.width) * 0x100), U32(area.y * 0x100),
                      U32(LastOf(area.y, area.height) * 0x100);
    var cs, fs := SourceRect(area), [Val(a), Val(b), Val(c), Val(d)];
    FourWords(a, b, c, d);
    DecidedWrite(cs, 0, 0x8401, fs, 0x8401);
    DecidedWrite(cs, 0, 0x8401, fs, 0x8402);
    DecidedWrite(cs, 0, 0x8401, fs, 0x8403);
    DecidedWrite(cs, 0, 0x8401, fs, 0x8404);
  }

  lemma BlitSourceReads(s: Surface, area: O.Rect, linear: bool)
    ensures var cs := BlitSource(s, area, linear);
            && AddressAt(cs, 0xb4c2, Address(External(s.target), s.planeOffset, s.planeSize, READ, W.GpuVa64))
            && Final(cs, Register(0xb4c0)) == Some(Word32(U32(0x50_0430 + if linear then 0x1_0000 else 0)))
            && Final(cs, Register(0xb4c1)) == Some(Word32(U32(s.width + s.height * 0x8000)))
            && Final(cs, Register(0xb4c4)) == Some(Word32(U32(s.stride / 64 * 0x200)))
  {
    var cs, ref := BlitSource(s, area, linear), Address(External(s.target), s.planeOffset, s.planeSize, READ, W.GpuVa64);
    var kind, size, pitch := U32(0x50_0430 + if linear then 0x1_0000 else 0), U32(s.width + s.height * 0x8000), U32(s.stride / 64 * 0x200);
    TwoWords(0, 0, ref);
    OneWord(kind);
    OneWord(size);
    OneWord(pitch);
    DecidedWrite(cs, 0, 0xb4c0, [Val(kind)], 0xb4c0);
    DecidedWrite(cs, 1, 0xb4c1, [Val(size)], 0xb4c1);
    DecidedWrite(cs, 2, 0xb4c2, [Ref(ref)], 0xb4c2);
    DecidedWrite(cs, 2, 0xb4c2, [Ref(ref)], 0xb4c3);
    DecidedWrite(cs, 3, 0xb4c4, [Val(pitch)], 0xb4c4);
  }

  function Control2D(format: nat, input: nat, solid: bool): u32 {
    U32(format * 0x100 + 0xf0_0000 + (if solid then 0x80 else 0) + 0x1_0000 + input * 0x100_0000)
  }

  lemma A2DReads(format: nat, input: nat, solid: bool)
    ensures Final(A2D(format, input, solid), Register(0x8c00)) == Some(Word32(Control2D(format, input, solid)))
    ensures Final(A2D(format, input, solid), Register(0x8400)) == Some(Word32(Control2D(format, input, solid)))
  {
    var cs, control := A2D(format, input, solid), Control2D(format, input, solid);
    OneWord(control);
    DecidedWrite(cs, 0, 0x8c00, [Val(control)], 0x8c00);
    DecidedWrite(cs, 1, 0x8400, [Val(control)], 0x8400);
  }

  lemma RotateReads(rotation: nat)
    requires rotation != 0
    ensures Final(Rotate(rotation), Register(0x8c00)) == Some(Word32(U32(0xf1_3000 + rotation)))
    ensures Final(Rotate(rotation), Register(0x8400)) == Some(Word32(U32(0xf1_3000 + rotation)))
  {
    var cs, control := Rotate(rotation), U32(0xf1_3000 + rotation);
    OneWord(control);
    DecidedWrite(cs, 0, 0x8c00, [Val(control)], 0x8c00);
    DecidedWrite(cs, 1, 0x8400, [Val(control)], 0x8400);
  }

  lemma FiveParts(a: seq<Command>, b: seq<Command>, c: seq<Command>, d: seq<Command>, e: seq<Command>, k: Key)
    ensures Final(a + b + c + d + e, k) == Or(Or(Or(Or(Final(a, k), Final(b, k)), Final(c, k)), Final(d, k)), Final(e, k))
  {
    FourParts(a, b, c, d, k);
    FinalConcat(a + b + c + d, e, k);
  }

  /** What a fill tells the engine: where, what colour, and into which image. */
  ghost predicate FillTold(cs: seq<Command>, s: Surface, area: O.Rect, words: Short, format: nat, input: nat, swap: nat) {
    && RectAt(cs, 0x8405, area) && RectAt(cs, 0x840a, area)
    && (forall j | 0 <= j < |words| :: Final(cs, Register(0x8c2c + j)) == Some(Word32(words[j])))
    && Final(cs, Register(0x8c00)) == Some(Word32(Control2D(format, input, true)))
    && Final(cs, Register(0x8400)) == Some(Word32(Control2D(format, input, true)))
    && AddressAt(cs, 0x8c18, Address(External(s.target), s.planeOffset, s.planeSize, WRITE, W.GpuVa64))
    && Final(cs, Register(0x8c1a)) == Some(Word32(s.stride / 64))
    && Final(cs, Register(0x8c17)) == Some(Word32(U32(format + s.tileMode * 0x100 + if s.tileMode == 0 then swap else 0)))
  }

  lemma {:induction false} ExpandWords(values: seq<u32>)
    ensures |Expand(Vals(values))| == |values| && forall j | 0 <= j < |values| :: Expand(Vals(values))[j] == Word(values[j])
  {
    if values != [] {
      ExpandWords(values[1..]);
      assert Vals(values)[1..] == Vals(values[1..]);
    }
  }

  /** A block that decides a register, between blocks that miss it. */
  lemma OfFive(a: seq<Command>, b: seq<Command>, c: seq<Command>, d: seq<Command>, e: seq<Command>, k: Key, v: Value)
    requires Final(e, k).None?
    requires Final(d, k) == Some(v) || (Final(d, k).None? &&
             (Final(c, k) == Some(v) || (Final(c, k).None? &&
             (Final(b, k) == Some(v) || (Final(b, k).None? && Final(a, k) == Some(v))))))
    ensures Final(a + b + c + d + e, k) == Some(v)
  {
    FiveParts(a, b, c, d, e, k);
  }

  lemma BlitRunsSetNothing(n: int)
    ensures Final(RunBlit(), Register(n)).None?
  {
    SparedIsNone(RunBlit(), Register(n));
  }

  lemma ColourRead(words: Short, j: nat)
    requires j < |words|
    ensures Final([Write(0x8c2c, Vals(words))], Register(0x8c2c + j)) == Some(Word32(words[j]))
  {
    ExpandWords(words);
    DecidedWrite([Write(0x8c2c, Vals(words))], 0, 0x8c2c, Vals(words), 0x8c2c + j);
  }

  lemma FillRegister(s: Surface, area: O.Rect, words: Short, format: nat, input: nat, swap: nat, n: int, v: Value, part: nat)
    requires part < 4
    requires part == 0 ==> (0x8405 <= n < 0x8407 || 0x840a <= n < 0x840c) && Final(Coordinates(area), Register(n)) == Some(v)
    requires part == 1 ==> 0x8c2c <= n < 0x8c34 && Final([Write(0x8c2c, Vals(words))], Register(n)) == Some(v)
    requires part == 2 ==> (n == 0x8c00 || n == 0x8400) && Final(A2D(format, input, true), Register(n)) == Some(v)
    requires part == 3 ==> Final(Destination(s, format, swap), Register(n)) == Some(v)
    ensures Final(SolidFill(s, area, words, format, input, swap), Register(n)) == Some(v)
  {
    var a, b, c, d := Coordinates(area), [Write(0x8c2c, Vals(words))], A2D(format, input, true), Destination(s, format, swap);
    BlitRunsSetNothing(n);
    if part < 3 {
      Missed(d, n, n + 1, n);
    }
    if part < 2 {
      Missed(c, n, n + 1, n);
    }
    if part < 1 {
      Missed(b, n, n + 1, n);
    }
    OfFive(a, b, c, d, RunBlit(), Register(n), v);
  }

  lemma FillReads(s: Surface, area: O.Rect, words: Short, format: nat, input: nat, swap: nat)
    ensures FillTold(SolidFill(s, area, words, format, input, swap), s, area, words, format, input, swap)
  {
    var ref := Address(External(s.target), s.planeOffset, s.planeSize, WRITE, W.GpuVa64);
    CoordinatesRead(area);
    FillRegister(s, area, words, format, input, swap, 0x8405, Word32(PackXY(area.x, area.y)), 0);
    FillRegister(s, area, words, format, input, swap, 0x8406, Word32(Corner(area)), 0);
    FillRegister(s, area, words, format, input, swap, 0x840a, Word32(PackXY(area.x, area.y)), 0);
    FillRegister(s, area, words, format, input, swap, 0x840b, Word32(Corner(area)), 0);
    forall j | 0 <= j < |words|
      ensures Final(SolidFill(s, area, words, format, input, swap), Register(0x8c2c + j)) == Some(Word32(words[j]))
    {
      ColourRead(words, j);
      FillRegister(s, area, words, format, input, swap, 0x8c2c + j, Word32(words[j]), 1);
    }
    A2DReads(format, input, true);
    FillRegister(s, area, words, format, input, swap, 0x8c00, Word32(Control2D(format, input, true)), 2);
    FillRegister(s, area, words, format, input, swap, 0x8400, Word32(Control2D(format, input, true)), 2);
    DestinationReads(s, format, swap);
    FillRegister(s, area, words, format, input, swap, 0x8c18, Slot(Low(ref)), 3);
    FillRegister(s, area, words, format, input, swap, 0x8c19, Slot(High(ref)), 3);
    FillRegister(s, area, words, format, input, swap, 0x8c1a, Word32(s.stride / 64), 3);
    FillRegister(s, area, words, format, input, swap, 0x8c17,
                 Word32(U32(format + s.tileMode * 0x100 + if s.tileMode == 0 then swap else 0)), 3);
  }

  /** What a blit tells the engine: from where, to where, and how. */
  ghost predicate BlitTold(cs: seq<Command>, source: Surface, from: O.Rect, destination: Surface, to: O.Rect, linear: bool, rotation: nat) {
    && Final(cs, Register(0x8401)) == Some(Word32(U32(from.x * 0x100)))
    && Final(cs, Register(0x8402)) == Some(Word32(U32(LastOf(from.x, from.width) * 0x100)))
    && Final(cs, Register(0x8403)) == Some(Word32(U32(from.y * 0x100)))
    && Final(cs, Register(0x8404)) == Some(Word32(U32(LastOf(from.y, from.height) * 0x100)))
    && AddressAt(cs, 0xb4c2, Address(External(source.target), source.planeOffset, source.planeSize, READ, W.GpuVa64))
    && Final(cs, Register(0xb4c0)) == Some(Word32(U32(0x50_0430 + if linear then 0x1_0000 else 0)))
    && Final(cs, Register(0xb4c1)) == Some(Word32(U32(source.width + source.height * 0x8000)))
    && Final(cs, Register(0xb4c4)) == Some(Word32(U32(source.stride / 64 * 0x200)))
    && RectAt(cs, 0x8405, to) && RectAt(cs, 0x840a, to)
    && AddressAt(cs, 0x8c18, Address(External(destination.target), destination.planeOffset, destination.planeSize, WRITE, W.GpuVa64))
    && Final(cs, Register(0x8c1a)) == Some(Word32(destination.stride / 64))
    && Final(cs, Register(0x8c00)) == Some(Word32(U32(0xf1_3000 + rotation)))
    && Final(cs, Register(0x8400)) == Some(Word32(U32(0xf1_3000 + rotation)))
  }

  /** The block of a blit that decides a register, and the registers it may be. */
  ghost predicate BlitPart(source: Surface, from: O.Rect, destination: Surface, to: O.Rect, linear: bool, rotation: nat, n: int, v: Value,
                           part: nat) {
    match part
    case 0 => 0x8401 <= n < 0x8405 && Final(SourceRect(from), Register(n)) == Some(v)
    case 1 => (0x8405 <= n < 0x8407 || 0x840a <= n < 0x840c) && Final(Coordinates(to), Register(n)) == Some(v)
    case 2 => rotation == 0 && (n == 0x8c00 || n == 0x8400) && Final(A2D(0x30, 0, false), Register(n)) == Some(v)
    case 3 => (n == 0x8c00 || n == 0x8400) && Final(Rotate(rotation), Register(n)) == Some(v)
    case 4 => 0xb4c0 <= n < 0xb4c5 && Final(BlitSource(source, from, linear), Register(n)) == Some(v)
    case 5 => 0x8c18 <= n < 0x8c1b && Final(Destination(destination, 0x30, 0x400), Register(n)) == Some(v)
    case _ => false
  }

  lemma BlitRegister(source: Surface, from: O.Rect, destination: Surface, to: O.Rect, linear: bool, rotation: nat, n: int, v: Value,
                     part: nat)
    requires BlitPart(source, from, destination, to, linear, rotation, n, v, part)
    ensures Final(BlitBody(source, from, destination, to, linear, rotation), Register(n)) == Some(v)
  {
    var b, c, d := Coordinates(to), A2D(0x30, 0, false), Rotate(rotation);
    var e, g := BlitSource(source, from, linear), Destination(destination, 0x30, 0x400);
    BlitRunsSetNothing(n);
    if part < 5 {
      Missed(g, n, n + 1, n);
    }
    if part < 4 {
      Missed(e, n, n + 1, n);
    }
    if part < 3 {
      Missed(d, n, n + 1, n);
    }
    if part < 2 {
      Missed(c, n, n + 1, n);
    }
    if part < 1 {
      Missed(b, n, n + 1, n);
    }
    SevenParts(SourceRect(from), b, c, d, e, g, RunBlit(), Register(n));
  }

  lemma BlitSourceTold(source: Surface, from: O.Rect, destination: Surface, to: O.Rect, linear: bool, rotation: nat)
    ensures var cs := BlitBody(source, from, destination, to, linear, rotation);
            && AddressAt(cs, 0xb4c2, Address(External(source.target), source.planeOffset, source.planeSize, READ, W.GpuVa64))
            && Final(cs, Register(0xb4c0)) == Some(Word32(U32(0x50_0430 + if linear then 0x1_0000 else 0)))
            && Final(cs, Register(0xb4c1)) == Some(Word32(U32(source.width + source.height * 0x8000)))
            && Final(cs, Register(0xb4c4)) == Some(Word32(U32(source.stride / 64 * 0x200)))
  {
    var ref := Address(External(source.target), source.planeOffset, source.planeSize, READ, W.GpuVa64);
    BlitSourceReads(source, from, linear);
    BlitRegister(source, from, destination, to, linear, rotation, 0xb4c2, Slot(Low(ref)), 4);
    BlitRegister(source, from, destination, to, linear, rotation, 0xb4c3, Slot(High(ref)), 4);
    BlitRegister(source, from, destination, to, linear, rotation, 0xb4c0, Word32(U32(0x50_0430 + if linear then 0x1_0000 else 0)), 4);
    BlitRegister(source, from, destination, to, linear, rotation, 0xb4c1, Word32(U32(source.width + source.height * 0x8000)), 4);
    BlitRegister(source, from, destination, to, linear, rotation, 0xb4c4, Word32(U32(source.stride / 64 * 0x200)), 4);
  }

  lemma BlitRectsTold(source: Surface, from: O.Rect, destination: Surface, to: O.Rect, linear: bool, rotation: nat)
    ensures var cs := BlitBody(source, from, destination, to, linear, rotation);
            && Final(cs, Register(0x8401)) == Some(Word32(U32(from.x * 0x100)))
            && Final(cs, Register(0x8402)) == Some(Word32(U32(LastOf(from.x, from.width) * 0x100)))
            && Final(cs, Register(0x8403)) == Some(Word32(U32(from.y * 0x100)))
            && Final(cs, Register(0x8404)) == Some(Word32(U32(LastOf(from.y, from.height) * 0x100)))
            && RectAt(cs, 0x8405, to) && RectAt(cs, 0x840a, to)
  {
    SourceRectReads(from);
    BlitRegister(source, from, destination, to, linear, rotation, 0x8401, Word32(U32(from.x * 0x100)), 0);
    BlitRegister(source, from, destination, to, linear, rotation, 0x8402, Word32(U32(LastOf(from.x, from.width) * 0x100)), 0);
    BlitRegister(source, from, destination, to, linear, rotation, 0x8403, Word32(U32(from.y * 0x100)), 0);
    BlitRegister(source, from, destination, to, linear, rotation, 0x8404, Word32(U32(LastOf(from.y, from.height) * 0x100)), 0);
    CoordinatesRead(to);
    BlitRegister(source, from, destination, to, linear, rotation, 0x8405, Word32(PackXY(to.x, to.y)), 1);
    BlitRegister(source, from, destination, to, linear, rotation, 0x8406, Word32(Corner(to)), 1);
    BlitRegister(source, from, destination, to, linear, rotation, 0x840a, Word32(PackXY(to.x, to.y)), 1);
    BlitRegister(source, from, destination, to, linear, rotation, 0x840b, Word32(Corner(to)), 1);
  }

  lemma BlitReads(source: Surface, from: O.Rect, destination: Surface, to: O.Rect, linear: bool, rotation: nat)
    ensures BlitTold(BlitBody(source, from, destination, to, linear, rotation), source, from, destination, to, linear, rotation)
  {
    var ref := Address(External(destination.target), destination.planeOffset, destination.planeSize, WRITE, W.GpuVa64);
    BlitSourceTold(source, from, destination, to, linear, rotation);
    BlitRectsTold(source, from, destination, to, linear, rotation);
    DestinationReads(destination, 0x30, 0x400);
    BlitRegister(source, from, destination, to, linear, rotation, 0x8c18, Slot(Low(ref)), 5);
    BlitRegister(source, from, destination, to, linear, rotation, 0x8c19, Slot(High(ref)), 5);
    BlitRegister(source, from, destination, to, linear, rotation, 0x8c1a, Word32(destination.stride / 64), 5);
    var control := Word32(U32(0xf1_3000 + rotation));
    if rotation == 0 {
      A2DReads(0x30, 0, false);
      BlitRegister(source, from, destination, to, linear, rotation, 0x8c00, control, 2);
      BlitRegister(source, from, destination, to, linear, rotation, 0x8400, control, 2);
    } else {
      RotateReads(rotation);
      BlitRegister(source, from, destination, to, linear, rotation, 0x8c00, control, 3);
      BlitRegister(source, from, destination, to, linear, rotation, 0x8400, control, 3);
    }
  }

  // ---- draws ------------------------------------------------------------------------------------------------------------------

  /** What every draw sets itself: its scissor, where its vertices begin, and how many bytes of them there are. */
  ghost predicate OwnTold(cs: seq<Command>, d: DrawState) {
    && RectAt(cs, 0x80f0, d.scissor)
    && Final(cs, Register(0xa00e)) == Some(Word32(FirstVertex(d.call)))
    && AddressAt(cs, 0xa010, Address(External(d.vertex), d.vertexOffset, d.vertexSize, READ, W.GpuVa64))
    && Final(cs, Register(0xa012)) == Some(Word32(d.vertexSize)) && Final(cs, Register(0xa013)) == Some(Word32(d.fixed.stride))
  }

  lemma ScissorReads(d: DrawState)
    ensures RectAt(Scissor(d), 0x80f0, d.scissor)
  {
    var fs := [Val(PackXY(d.scissor.x, d.scissor.y)), Val(Corner(d.scissor))];
    TwoWords(PackXY(d.scissor.x, d.scissor.y), Corner(d.scissor), Address(Generated(0), 0, 0, READ, W.GpuVa64));
    DecidedWrite(Scissor(d), 0, 0x80f0, fs, 0x80f0);
    DecidedWrite(Scissor(d), 0, 0x80f0, fs, 0x80f1);
  }

  lemma VerticesRead(d: DrawState)
    ensures var cs := Vertices(d);
            && Final(cs, Register(0xa00e)) == Some(Word32(FirstVertex(d.call)))
            && AddressAt(cs, 0xa010, Address(External(d.vertex), d.vertexOffset, d.vertexSize, READ, W.GpuVa64))
            && Final(cs, Register(0xa012)) == Some(Word32(d.vertexSize)) && Final(cs, Register(0xa013)) == Some(Word32(d.fixed.stride))
  {
    var cs, ref := Vertices(d), Address(External(d.vertex), d.vertexOffset, d.vertexSize, READ, W.GpuVa64);
    TwoWords(FirstVertex(d.call), 0, ref);
    TwoWords(d.vertexSize, d.fixed.stride, ref);
    DecidedWrite(cs, 0, 0xa00e, [Val(FirstVertex(d.call)), Val(0)], 0xa00e);
    DecidedWrite(cs, 1, 0xa010, [Ref(ref)], 0xa010);
    DecidedWrite(cs, 1, 0xa010, [Ref(ref)], 0xa011);
    DecidedWrite(cs, 2, 0xa012, [Val(d.vertexSize), Val(d.fixed.stride)], 0xa012);
    DecidedWrite(cs, 2, 0xa012, [Val(d.vertexSize), Val(d.fixed.stride)], 0xa013);
  }

  lemma SamplingMisses(states: seq<TextureState>, next: nat, d: DrawState, n: int)
    requires n < 0xa9e0
    ensures Final(Sampling(states, next, d), Register(n)).None?
  {
    Missed(Sampling(states, next, d), n, n + 1, n);
  }

  /** A register of the scissor or of the vertices keeps its value to the end of a complete draw. */
  lemma OwnRegister(t: Tables, states: seq<TextureState>, next: nat, d: DrawState, n: int, v: Value)
    requires ValidDraw(d)
    requires (0x80f0 <= n < 0x80f2 && Final(Scissor(d), Register(n)) == Some(v))
             || (0xa00e <= n < 0xa014 && Final(Vertices(d), Register(n)) == Some(v))
    ensures Final(FullState(t, states, next, d), Register(n)) == Some(v)
  {
    FullSplits(t, states, next, d, Register(n));
    FourParts(Scissor(d), Vertices(d), Constants(d), Sampling(states, next, d), Register(n));
    Missed(Constants(d), n, n + 1, n);
    SamplingMisses(states, next, d, n);
    if n < 0x80f2 {
      Missed(Vertices(d), n, n + 1, n);
    }
  }

  lemma OwnReads(t: Tables, states: seq<TextureState>, next: nat, d: DrawState)
    requires ValidDraw(d)
    ensures OwnTold(FullState(t, states, next, d), d)
  {
    var ref := Address(External(d.vertex), d.vertexOffset, d.vertexSize, READ, W.GpuVa64);
    ScissorReads(d);
    OwnRegister(t, states, next, d, 0x80f0, Word32(PackXY(d.scissor.x, d.scissor.y)));
    OwnRegister(t, states, next, d, 0x80f1, Word32(Corner(d.scissor)));
    VerticesRead(d);
    OwnRegister(t, states, next, d, 0xa00e, Word32(FirstVertex(d.call)));
    OwnRegister(t, states, next, d, 0xa010, Slot(Low(ref)));
    OwnRegister(t, states, next, d, 0xa011, Slot(High(ref)));
    OwnRegister(t, states, next, d, 0xa012, Word32(d.vertexSize));
    OwnRegister(t, states, next, d, 0xa013, Word32(d.fixed.stride));
  }

  // ---- the state draws may inherit ----------------------------------------------------------------------------------------------

  /** The registers of the viewport, culling, the pass area, blending, the colour image and the depth image. */
  predicate OfPass(n: int) {
    || 0x8010 <= n < 0x8016 || n == 0x8090 || 0x80b0 <= n < 0x80b2 || 0x8820 <= n < 0x8827 || n == 0x8865 || 0x8871 <= n < 0x8878
  }

  lemma AfterMisses(t: Tables, f: Fixed, n: int)
    requires OfPass(n) && |f.attributes| <= 4
    ensures Final(FixedAfter(t, f), Register(n)).None?
  {
    var p := t.program(f.variant);
    assert AllMiss(VertexProgram(p, f), n, n + 1);
    assert AllMiss(VertexOutput(p), n, n + 1);
    assert AllMiss(FragmentInput(p), n, n + 1);
    assert AllMiss(FragmentOutput(p), n, n + 1);
    assert AllMiss(FragmentInterp(p), n, n + 1);
    assert AllMiss(Programs(t, p), n, n + 1);
    Missed(FixedAfter(t, f), n, n + 1, n);
  }

  lemma RasterMisses(t: Tables, f: Fixed, n: int)
    requires OfPass(n) && n != 0x8090
    ensures Final(Raster(t, f), Register(n)).None?
  {
    Missed(Raster(t, f), n, n + 1, n);
  }

  /** The block of the fixed state that decides a register of the pass. */
  ghost predicate PassPart(t: Tables, f: Fixed, n: int, v: Value, part: nat) {
    match part
    case 0 => 0x8820 <= n < 0x8827 && Final(TargetState(f), Register(n)) == Some(v)
    case 1 => 0x8871 <= n < 0x8878 && Final(DepthBuffer(f.depth), Register(n)) == Some(v)
    case 2 => (0x8010 <= n < 0x8016 || 0x80b0 <= n < 0x80b2) && Final(SampleAndScissor(t, f), Register(n)) == Some(v)
    case 3 => n == 0x8865 && Final(BlendState(f), Register(n)) == Some(v)
    case _ => false
  }

  lemma BeforeRegister(t: Tables, f: Fixed, n: int, v: Value, part: nat)
    requires PassPart(t, f, n, v, part)
    ensures Final(FixedBefore(t, f), Register(n)) == Some(v)
  {
    var a, b, c, d, e, g := ProgramConfig(t.program(f.variant)), TargetState(f), BlendState(f), DepthCommon(), DepthBuffer(f.depth),
                            SampleAndScissor(t, f);
    if part != 2 {
      Missed(g, n, n + 1, n);
    }
    if part == 0 {
      Missed(c, n, n + 1, n);
    }
    if part == 0 || part == 3 {
      Missed(d, n, n + 1, n);
      Missed(e, n, n + 1, n);
    }
    FiveParts(a, b, c, d, e, Register(n));
    FinalConcat(a + b + c + d + e, g, Register(n));
  }

  lemma PassRegister(t: Tables, states: seq<TextureState>, next: nat, d: DrawState, n: int, v: Value, part: nat)
    requires ValidDraw(d) && PassPart(t, d.fixed, n, v, part)
    ensures Final(FullState(t, states, next, d), Register(n)) == Some(v)
  {
    FullSplits(t, states, next, d, Register(n));
    ThreeParts(FixedBefore(t, d.fixed), Raster(t, d.fixed), FixedAfter(t, d.fixed), Register(n));
    AfterMisses(t, d.fixed, n);
    RasterMisses(t, d.fixed, n);
    BeforeRegister(t, d.fixed, n, v, part);
  }

  lemma TargetReads(f: Fixed)
    ensures var cs, s := TargetState(f), f.target;
            && Final(cs, Register(0x8822)) == Some(Word32(U32(0x30 + s.tileMode * 0x100 + if s.tileMode == 0 then 0x2000 else 0)))
            && Final(cs, Register(0x8823)) == Some(Word32(U32(s.stride / 64)))
            && AddressAt(cs, 0x8825, Address(External(s.target), s.planeOffset, s.planeSize, WRITE, W.GpuVa64))
  {
    var cs, s := TargetState(f), f.target;
    var ref := Address(External(s.target), s.planeOffset, s.planeSize, WRITE, W.GpuVa64);
    var kind := U32(0x30 + s.tileMode * 0x100 + if s.tileMode == 0 then 0x2000 else 0);
    var pitches := [Val(U32(s.stride / 64)), Val(U32(s.planeSize / 64))];
    OneWord(kind);
    TwoWords(U32(s.stride / 64), U32(s.planeSize / 64), ref);
    DecidedWrite(cs, 1, 0x8822, [Val(kind)], 0x8822);
    DecidedWrite(cs, 2, 0x8823, pitches, 0x8823);
    DecidedWrite(cs, 3, 0x8825, [Ref(ref)], 0x8825);
    DecidedWrite(cs, 3, 0x8825, [Ref(ref)], 0x8826);
  }

  lemma BlendReads(f: Fixed)
    ensures Final(TargetState(f), Register(0x8820)) == Some(Word32(if f.sourceOver then 0x7e3 else 0x7e0))
    ensures Final(BlendState(f), Register(0x8865)) == Some(Word32(if f.sourceOver then 0xffff_0001 else 0xffff_0000))
  {
    var a, b, c: u32 := if f.sourceOver then 0x7e3 else 0x7e0, if f.sourceOver then 0x0701_0706 else 0x0001_0001,
                        if f.sourceOver then 0xffff_0001 else 0xffff_0000;
    TwoWords(a, b, Address(Generated(0), 0, 0, READ, W.GpuVa64));
    OneWord(c);
    DecidedWrite(TargetState(f), 0, 0x8820, [Val(a), Val(b)], 0x8820);
    DecidedWrite(BlendState(f), 2, 0x8865, [Val(c)], 0x8865);
  }

  lemma CullReads(t: Tables, states: seq<TextureState>, next: nat, d: DrawState)
    requires ValidDraw(d)
    ensures Final(FullState(t, states, next, d), Register(0x8090)) == Some(Word32(U32(0x2010 + d.fixed.cull)))
  {
    var w := U32(0x2010 + d.fixed.cull);
    OneWord(w);
    DecidedWrite(Raster(t, d.fixed), 1, 0x8090, [Val(w)], 0x8090);
    FullSplits(t, states, next, d, Register(0x8090));
    ThreeParts(FixedBefore(t, d.fixed), Raster(t, d.fixed), FixedAfter(t, d.fixed), Register(0x8090));
    AfterMisses(t, d.fixed, 0x8090);
  }

  lemma AreaReads(t: Tables, f: Fixed)
    ensures RectAt(SampleAndScissor(t, f), 0x80b0, f.area)
  {
    var cs, fs := SampleAndScissor(t, f), [Val(PackXY(f.area.x, f.area.y)), Val(Corner(f.area))];
    TwoWords(PackXY(f.area.x, f.area.y), Corner(f.area), Address(Generated(0), 0, 0, READ, W.GpuVa64));
    DecidedWrite(cs, 7, 0x80b0, fs, 0x80b0);
    DecidedWrite(cs, 7, 0x80b0, fs, 0x80b1);
  }

  lemma ViewportReads(t: Tables, f: Fixed, j: nat)
    requires j < 6
    ensures Final(SampleAndScissor(t, f), Register(0x8010 + j)) == Some(Word32(t.transform(f.viewport)[j]))
  {
    ExpandWords(t.transform(f.viewport));
    DecidedWrite(SampleAndScissor(t, f), 5, 0x8010, Vals(t.transform(f.viewport)), 0x8010 + j);
  }

  lemma DepthWords(a: u32, b: u32, c: u32, r: Address, d: u32)
    ensures Expand([Val(a), Val(b), Val(c), Ref(r), Val(d)]) == [Word(a), Word(b), Word(c), Low(r), High(r), Word(d)]
  {
    var fs := [Val(a), Val(b), Val(c), Ref(r), Val(d)];
    assert fs[1..] == [Val(b), Val(c), Ref(r), Val(d)] && fs[1..][1..] == [Val(c), Ref(r), Val(d)];
    assert [Val(c), Ref(r), Val(d)][1..] == [Ref(r), Val(d)] && [Ref(r), Val(d)][1..] == [Val(d)];
    OneWord(d);
    assert Expand([Ref(r), Val(d)]) == [Low(r), High(r)] + [Word(d)];
    assert Expand([Val(c), Ref(r), Val(d)]) == [Word(c)] + Expand([Ref(r), Val(d)]);
  }

  lemma DepthReads(d: DepthState)
    ensures var cs := DepthBuffer(Some(d));
            && Final(cs, Register(0x8871)) == Some(Word32(DepthControl(d)))
            && Final(cs, Register(0x8873)) == Some(Word32(U32(d.target.stride / 64)))
            && AddressAt(cs, 0x8875, Address(External(d.target.target), d.target.planeOffset, d.target.planeSize, 3, W.GpuVa64))
  {
    var cs, ref := DepthBuffer(Some(d)), Address(External(d.target.target), d.target.planeOffset, d.target.planeSize, 3, W.GpuVa64);
    var pitch, size := U32(d.target.stride / 64), U32(d.target.planeSize / 64);
    var fs := [Val(4), Val(pitch), Val(size), Ref(ref), Val(0)];
    OneWord(DepthControl(d));
    DepthWords(4, pitch, size, ref, 0);
    DecidedWrite(cs, 0, 0x8871, [Val(DepthControl(d))], 0x8871);
    DecidedWrite(cs, 3, 0x8872, fs, 0x8873);
    DecidedWrite(cs, 3, 0x8872, fs, 0x8875);
    DecidedWrite(cs, 3, 0x8872, fs, 0x8876);
  }

  lemma NoDepthReads()
    ensures Final(DepthBuffer(None), Register(0x8871)) == Some(Word32(0))
  {
    OneWord(0);
    DecidedWrite(DepthBuffer(None), 0, 0x8871, [Val(0)], 0x8871);
  }

  /** What a draw is told about its pass: the colour image, the area, the viewport, and the depth image if any. */
  ghost predicate PassTold(t: Tables, cs: seq<Command>, f: Fixed) {
    && Final(cs, Register(0x8822)) == Some(Word32(U32(0x30 + f.target.tileMode * 0x100 + if f.target.tileMode == 0 then 0x2000 else 0)))
    && Final(cs, Register(0x8823)) == Some(Word32(U32(f.target.stride / 64)))
    && AddressAt(cs, 0x8825, Address(External(f.target.target), f.target.planeOffset, f.target.planeSize, WRITE, W.GpuVa64))
    && RectAt(cs, 0x80b0, f.area)
    && (forall j | 0 <= j < 6 :: Final(cs, Register(0x8010 + j)) == Some(Word32(t.transform(f.viewport)[j])))
    && DepthTold(cs, f.depth) && BlendTold(cs, f)
  }

  /** Whether colours are blended, and which faces are culled. */
  ghost predicate BlendTold(cs: seq<Command>, f: Fixed) {
    && Final(cs, Register(0x8820)) == Some(Word32(if f.sourceOver then 0x7e3 else 0x7e0))
    && Final(cs, Register(0x8865)) == Some(Word32(if f.sourceOver then 0xffff_0001 else 0xffff_0000))
    && Final(cs, Register(0x8090)) == Some(Word32(U32(0x2010 + f.cull)))
  }

  ghost predicate DepthTold(cs: seq<Command>, depth: Option<DepthState>) {
    match depth
    case None => Final(cs, Register(0x8871)) == Some(Word32(0))
    case Some(d) =>
      && Final(cs, Register(0x8871)) == Some(Word32(DepthControl(d)))
      && Final(cs, Register(0x8873)) == Some(Word32(U32(d.target.stride / 64)))
      && AddressAt(cs, 0x8875, Address(External(d.target.target), d.target.planeOffset, d.target.planeSize, 3, W.GpuVa64))
  }

  lemma DepthIsTold(t: Tables, states: seq<TextureState>, next: nat, d: DrawState)
    requires ValidDraw(d)
    ensures DepthTold(FullState(t, states, next, d), d.fixed.depth)
  {
    match d.fixed.depth
    case None =>
      NoDepthReads();
      PassRegister(t, states, next, d, 0x8871, Word32(0), 1);
    case Some(depth) =>
      var ref := Address(External(depth.target.target), depth.target.planeOffset, depth.target.planeSize, 3, W.GpuVa64);
      DepthReads(depth);
      PassRegister(t, states, next, d, 0x8871, Word32(DepthControl(depth)), 1);
      PassRegister(t, states, next, d, 0x8873, Word32(U32(depth.target.stride / 64)), 1);
      PassRegister(t, states, next, d, 0x8875, Slot(Low(ref)), 1);
      PassRegister(t, states, next, d, 0x8876, Slot(High(ref)), 1);
  }

  lemma PassReads(t: Tables, states: seq<TextureState>, next: nat, d: DrawState)
    requires ValidDraw(d)
    ensures PassTold(t, FullState(t, states, next, d), d.fixed)
  {
    var f := d.fixed;
    var ref := Address(External(f.target.target), f.target.planeOffset, f.target.planeSize, WRITE, W.GpuVa64);
    TargetReads(f);
    PassRegister(t, states, next, d, 0x8822, Word32(U32(0x30 + f.target.tileMode * 0x100 + if f.target.tileMode == 0 then 0x2000 else 0)), 0);
    PassRegister(t, states, next, d, 0x8823, Word32(U32(f.target.stride / 64)), 0);
    PassRegister(t, states, next, d, 0x8825, Slot(Low(ref)), 0);
    PassRegister(t, states, next, d, 0x8826, Slot(High(ref)), 0);
    AreaReads(t, f);
    PassRegister(t, states, next, d, 0x80b0, Word32(PackXY(f.area.x, f.area.y)), 2);
    PassRegister(t, states, next, d, 0x80b1, Word32(Corner(f.area)), 2);
    forall j | 0 <= j < 6
      ensures Final(FullState(t, states, next, d), Register(0x8010 + j)) == Some(Word32(t.transform(f.viewport)[j]))
    {
      ViewportReads(t, f, j);
      PassRegister(t, states, next, d, 0x8010 + j, Word32(t.transform(f.viewport)[j]), 2);
    }
    DepthIsTold(t, states, next, d);
    BlendIsTold(t, states, next, d);
  }

  lemma BlendIsTold(t: Tables, states: seq<TextureState>, next: nat, d: DrawState)
    requires ValidDraw(d)
    ensures BlendTold(FullState(t, states, next, d), d.fixed)
  {
    BlendReads(d.fixed);
    PassRegister(t, states, next, d, 0x8820, Word32(if d.fixed.sourceOver then 0x7e3 else 0x7e0), 0);
    PassRegister(t, states, next, d, 0x8865, Word32(if d.fixed.sourceOver then 0xffff_0001 else 0xffff_0000), 3);
    CullReads(t, states, next, d);
  }

  // ---- uniforms and sampled textures -----------------------------------------------------------------------------------------------

  /** The constants of both shader stages, and the state object of the texture. */
  ghost predicate InputsTold(cs: seq<Command>, uniforms: seq<u32>, units: nat, sampled: Option<nat>) {
    && |uniforms| == 32 && units <= 8
    && (forall j | 0 <= j < 20 :: Final(cs, Loaded(CP_LOAD_STATE6_GEOM, 8, 1, j)) == Some(Word32(uniforms[j])))
    && (forall j | 0 <= j < 4 * units :: Final(cs, Loaded(CP_LOAD_STATE6_FRAG, 12, 1, j)) == Some(Word32(uniforms[j])))
    && (sampled.Some? ==> AddressAt(cs, 0xa9e0, SamplerAt(sampled.value)) && AddressAt(cs, 0xa9e4, DescriptorAt(sampled.value)))
  }

  lemma ConstantsRead(d: DrawState, j: nat)
    requires ValidDraw(d)
    ensures j < 20 ==> Final(Constants(d), Loaded(CP_LOAD_STATE6_GEOM, 8, 1, j)) == Some(Word32(d.uniforms[j]))
    ensures j < 4 * ConstantUnits(d) ==> Final(Constants(d), Loaded(CP_LOAD_STATE6_FRAG, 12, 1, j)) == Some(Word32(d.uniforms[j]))
  {
    if j < 20 {
      Decided(Constants(d), 0, Loaded(CP_LOAD_STATE6_GEOM, 8, 1, j));
    }
    if j < 4 * ConstantUnits(d) {
      Decided(Constants(d), 1, Loaded(CP_LOAD_STATE6_FRAG, 12, 1, j));
    }
  }

  lemma ConstantKept(t: Tables, states: seq<TextureState>, next: nat, d: DrawState, k: Key)
    requires ValidDraw(d) && k.Loaded? && (k.block == 8 || k.block == 12) && k.stateType == 1 && Final(Constants(d), k).Some?
    requires k.block == 8 ==> k.opcode == CP_LOAD_STATE6_GEOM
    requires k.block == 12 ==> k.opcode == CP_LOAD_STATE6_FRAG
    ensures Final(FullState(t, states, next, d), k) == Final(Constants(d), k)
  {
    FullSplits(t, states, next, d, k);
    FourParts(Scissor(d), Vertices(d), Constants(d), Sampling(states, next, d), k);
    SparedIsNone(Sampling(states, next, d), k);
  }

  lemma LoadsRead(id: nat)
    ensures AddressAt(TextureLoads(id), 0xa9e0, SamplerAt(id)) && AddressAt(TextureLoads(id), 0xa9e4, DescriptorAt(id))
  {
    var cs := TextureLoads(id);
    TwoWords(0, 0, SamplerAt(id));
    TwoWords(0, 0, DescriptorAt(id));
    DecidedWrite(cs, 0, 0xa9e0, [Ref(SamplerAt(id))], 0xa9e0);
    DecidedWrite(cs, 0, 0xa9e0, [Ref(SamplerAt(id))], 0xa9e1);
    DecidedWrite(cs, 1, 0xa9e4, [Ref(DescriptorAt(id))], 0xa9e4);
    DecidedWrite(cs, 1, 0xa9e4, [Ref(DescriptorAt(id))], 0xa9e5);
  }

  lemma LoadsKept(t: Tables, states: seq<TextureState>, next: nat, d: DrawState, n: int)
    requires ValidDraw(d) && d.texture.Some? && (0xa9e0 <= n < 0xa9e2 || 0xa9e4 <= n < 0xa9e6)
    requires Final(TextureLoads(StateId(states, next, d)), Register(n)).Some?
    ensures Final(FullState(t, states, next, d), Register(n)) == Final(TextureLoads(StateId(states, next, d)), Register(n))
  {
    FullSplits(t, states, next, d, Register(n));
    FourParts(Scissor(d), Vertices(d), Constants(d), Sampling(states, next, d), Register(n));
  }

  lemma InputsRead(t: Tables, states: seq<TextureState>, next: nat, d: DrawState)
    requires ValidDraw(d)
    ensures InputsTold(FullState(t, states, next, d), d.uniforms, ConstantUnits(d),
                       if d.texture.Some? then Some(StateId(states, next, d)) else None)
  {
    var cs := FullState(t, states, next, d);
    forall j | 0 <= j < 20
      ensures Final(cs, Loaded(CP_LOAD_STATE6_GEOM, 8, 1, j)) == Some(Word32(d.uniforms[j]))
    {
      ConstantsRead(d, j);
      ConstantKept(t, states, next, d, Loaded(CP_LOAD_STATE6_GEOM, 8, 1, j));
    }
    forall j | 0 <= j < 4 * ConstantUnits(d)
      ensures Final(cs, Loaded(CP_LOAD_STATE6_FRAG, 12, 1, j)) == Some(Word32(d.uniforms[j]))
    {
      ConstantsRead(d, j);
      ConstantKept(t, states, next, d, Loaded(CP_LOAD_STATE6_FRAG, 12, 1, j));
    }
    if d.texture.Some? {
      LoadsRead(StateId(states, next, d));
      LoadsKept(t, states, next, d, 0xa9e0);
      LoadsKept(t, states, next, d, 0xa9e1);
      LoadsKept(t, states, next, d, 0xa9e4);
      LoadsKept(t, states, next, d, 0xa9e5);
    }
  }
}
