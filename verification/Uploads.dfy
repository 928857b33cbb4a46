/** Texture uploads: pixel conversion, row copies of bounded size, and what they leave in memory. */
module Uploads {
  import opened Wrappers
  import opened Arith
  import opened WireFormat
  import opened Sequences
  import opened Accesses
  import opened Commands
  import opened Images
  import O = Operations
  import SubmitEncoder

  const MAX_COPY_DWORDS := 128

  // ---- conversion ------------------------------------------------------------------------------------------------

  predicate Uploadable(f: Format) { f == Bgra8 || f == Rgba8 || f == R8 }

  function RowSize(f: Format, width: nat): nat { if f == R8 then width else 4 * width }

  /** One pixel in the storage order. */
  function Texel(f: Format, row: seq<byte>, x: nat): (p: seq<byte>)
    requires Uploadable(f) && RowSize(f, x + 1) <= |row|
    ensures |p| == 4
  {
    match f
    case Bgra8 => row[4 * x..4 * x + 4]
    case Rgba8 => [row[4 * x + 2], row[4 * x + 1], row[4 * x], row[4 * x + 3]]
    case R8 => [0, 0, 0, row[x]]
  }

  function ConvertRow(f: Format, width: nat, row: seq<byte>): (p: seq<byte>)
    requires Uploadable(f) && RowSize(f, width) <= |row|
    ensures |p| == 4 * width
  {
    if width == 0 then [] else ConvertRow(f, width - 1, row) + Texel(f, row, width - 1)
  }

  lemma SliceOfFront(front: seq<byte>, last: seq<byte>, at: nat, n: nat)
    requires at + n <= |front|
    ensures (front + last)[at..at + n] == front[at..at + n]
  {
  }

  lemma SliceOfLast(front: seq<byte>, last: seq<byte>)
    ensures (front + last)[|front|..|front| + |last|] == last
  {
  }

  /** Converting a row converts each of its pixels on its own. */
  lemma {:induction false} ConvertedPixel(f: Format, width: nat, row: seq<byte>, x: nat)
    requires Uploadable(f) && RowSize(f, width) <= |row| && x < width
    ensures ConvertRow(f, width, row)[4 * x..4 * x + 4] == Texel(f, row, x)
  {
    if x < width - 1 {
      ConvertedPixel(f, width - 1, row, x);
      SliceOfFront(ConvertRow(f, width - 1, row), Texel(f, row, width - 1), 4 * x, 4);
    } else {
      SliceOfLast(ConvertRow(f, width - 1, row), Texel(f, row, width - 1));
    }
  }

  lemma {:induction false} SameFormatRow(width: nat, row: seq<byte>)
    requires 4 * width <= |row|
    ensures ConvertRow(Bgra8, width, row) == row[..4 * width]
  {
    if width > 0 {
      SameFormatRow(width - 1, row);
    }
  }

  /** Client pixels: rows of one format, `stride` bytes apart, the last one possibly unpadded. */
  datatype Source = Source(format: Format, width: nat, height: nat, stride: nat, data: seq<byte>)

  predicate Present(s: Source) {
    Uploadable(s.format) && O.RowsPresent(s.height, s.stride, RowSize(s.format, s.width), s.data)
  }

  function SourceRow(s: Source, r: nat): (row: seq<byte>)
    requires Present(s) && r < s.height
    ensures |row| == RowSize(s.format, s.width)
  {
    O.RowInside(s.height, s.stride, RowSize(s.format, s.width), s.data, r);
    O.RowTexels(s.stride, RowSize(s.format, s.width), s.data, r)
  }

  /** Row r of the source, converted. */
  function PixelRow(s: Source, r: nat): (p: seq<byte>)
    requires Present(s) && r < s.height
    ensures |p| == 4 * s.width
  {
    ConvertRow(s.format, s.width, SourceRow(s, r))
  }

  /** The first `rows` rows, converted and packed. */
  function Pixels(s: Source, rows: nat): (p: seq<byte>)
    requires Present(s) && rows <= s.height
    ensures |p| == Rows(4 * s.width, rows)
  {
    if rows == 0 then [] else Pixels(s, rows - 1) + PixelRow(s, rows - 1)
  }

  lemma {:induction false} PackedRow(s: Source, rows: nat, r: nat)
    requires Present(s) && r < rows <= s.height
    ensures Rows(4 * s.width, r) + 4 * s.width <= |Pixels(s, rows)|
    ensures Pixels(s, rows)[Rows(4 * s.width, r)..Rows(4 * s.width, r) + 4 * s.width] == PixelRow(s, r)
  {
    if r < rows - 1 {
      PackedRow(s, rows - 1, r);
      SliceOfFront(Pixels(s, rows - 1), PixelRow(s, rows - 1), Rows(4 * s.width, r), 4 * s.width);
    } else {
      SliceOfLast(Pixels(s, r), PixelRow(s, r));
    }
  }

  /** A prepared image: its row r holds the converted row r of the source. */
  ghost predicate Holds(pixels: seq<byte>, stride: nat, s: Source, r: nat)
    requires Present(s) && r < s.height
  {
    && Rows(stride, r) + 4 * s.width <= |pixels|
    && O.RowTexels(stride, 4 * s.width, pixels, r) == PixelRow(s, r)
  }

  // ---- colours ---------------------------------------------------------------------------------------------------

  datatype Colour = Colour(red: byte, green: byte, blue: byte, alpha: byte)

  function TexelSize(f: Format): nat { if f == R8 then 1 else 4 }

  /** The colour of a client texel: the bytes of RGBA in that order, BGRA with red and blue exchanged, and a mask
      that is all alpha. */
  function ClientColour(f: Format, data: seq<byte>, at: nat): Colour
    requires Uploadable(f) && at + TexelSize(f) <= |data|
  {
    match f
    case Rgba8 => Colour(data[at], data[at + 1], data[at + 2], data[at + 3])
    case Bgra8 => Colour(data[at + 2], data[at + 1], data[at], data[at + 3])
    case R8 => Colour(0, 0, 0, data[at])
  }

  /** The colour of a stored pixel, which is BGRA. */
  function StoredColour(pixels: seq<byte>, at: nat): Colour
    requires at + 4 <= |pixels|
  {
    Colour(pixels[at + 2], pixels[at + 1], pixels[at], pixels[at + 3])
  }

  lemma TexelColour(f: Format, row: seq<byte>, x: nat)
    requires Uploadable(f) && RowSize(f, x + 1) <= |row|
    ensures StoredColour(Texel(f, row, x), 0) == ClientColour(f, row, TexelSize(f) * x)
  {
  }

  lemma RowColour(f: Format, width: nat, row: seq<byte>, x: nat)
    requires Uploadable(f) && RowSize(f, width) <= |row| && x < width
    ensures StoredColour(ConvertRow(f, width, row), 4 * x) == ClientColour(f, row, TexelSize(f) * x)
  {
    var converted := ConvertRow(f, width, row);
    ConvertedPixel(f, width, row, x);
    TexelColour(f, row, x);
    StoredInSlice(converted, 4 * x, 4, 0);
  }

  lemma ColourInSlice(f: Format, data: seq<byte>, from: nat, size: nat, at: nat)
    requires Uploadable(f) && from + size <= |data| && at + TexelSize(f) <= size
    ensures ClientColour(f, data[from..from + size], at) == ClientColour(f, data, from + at)
  {
  }

  lemma StoredInSlice(pixels: seq<byte>, from: nat, size: nat, at: nat)
    requires from + size <= |pixels| && at + 4 <= size
    ensures StoredColour(pixels[from..from + size], at) == StoredColour(pixels, from + at)
  {
  }

  /** Texel x of row r of the client's data. */
  function TexelAt(s: Source, r: nat, x: nat): nat { r * s.stride + TexelSize(s.format) * x }

  lemma TexelInside(s: Source, r: nat, x: nat)
    requires Present(s) && r < s.height && x < s.width
    ensures TexelAt(s, r, x) + TexelSize(s.format) <= |s.data|
  {
    O.RowInside(s.height, s.stride, RowSize(s.format, s.width), s.data, r);
    RowsIsProduct(s.stride, r);
  }

  lemma SourceColour(s: Source, r: nat, x: nat)
    requires Present(s) && r < s.height && x < s.width
    ensures TexelAt(s, r, x) + TexelSize(s.format) <= |s.data|
    ensures StoredColour(PixelRow(s, r), 4 * x) == ClientColour(s.format, s.data, TexelAt(s, r, x))
  {
    O.RowInside(s.height, s.stride, RowSize(s.format, s.width), s.data, r);
    RowsIsProduct(s.stride, r);
    TexelInside(s, r, x);
    ConvertedColour(s.format, s.width, s.data, r * s.stride, SourceRow(s, r), x);
  }

  lemma ConvertedColour(f: Format, width: nat, data: seq<byte>, from: nat, row: seq<byte>, x: nat)
    requires Uploadable(f) && x < width && from + RowSize(f, width) <= |data| && row == data[from..from + RowSize(f, width)]
    ensures StoredColour(ConvertRow(f, width, row), 4 * x) == ClientColour(f, data, from + TexelSize(f) * x)
  {
    RowColour(f, width, row, x);
    ColourInSlice(f, data, from, RowSize(f, width), TexelSize(f) * x);
  }

  /** Pixel x of row r has the colour of its client texel. */
  ghost predicate KeepsColour(pixels: seq<byte>, stride: nat, s: Source, r: nat, x: nat) {
    && r * stride + 4 * x + 4 <= |pixels| && Uploadable(s.format) && TexelAt(s, r, x) + TexelSize(s.format) <= |s.data|
    && StoredColour(pixels, r * stride + 4 * x) == ClientColour(s.format, s.data, TexelAt(s, r, x))
  }

  /** Every pixel has the colour of its client texel. */
  ghost predicate KeepsColours(pixels: seq<byte>, stride: nat, s: Source) {
    forall r: nat, x: nat | r < s.height && x < s.width :: KeepsColour(pixels, stride, s, r, x)
  }

  lemma HeldColour(pixels: seq<byte>, stride: nat, s: Source, r: nat, x: nat)
    requires Present(s) && r < s.height && x < s.width && Holds(pixels, stride, s, r)
    ensures KeepsColour(pixels, stride, s, r, x)
  {
    SourceColour(s, r, x);
    StoredInSlice(pixels, Rows(stride, r), 4 * s.width, 4 * x);
    RowsIsProduct(stride, r);
  }

  lemma HeldColours(pixels: seq<byte>, stride: nat, s: Source)
    requires Present(s) && forall r | 0 <= r < s.height :: Holds(pixels, stride, s, r)
    ensures KeepsColours(pixels, stride, s)
  {
    forall r: nat, x: nat | r < s.height && x < s.width
      ensures KeepsColour(pixels, stride, s, r, x)
    {
      HeldColour(pixels, stride, s, r, x);
    }
  }

  lemma PackedColours(s: Source)
    requires Present(s)
    ensures KeepsColours(Pixels(s, s.height), 4 * s.width, s)
  {
    forall r | 0 <= r < s.height
      ensures Holds(Pixels(s, s.height), 4 * s.width, s, r)
    {
      PackedRow(s, s.height, r);
    }
    HeldColours(Pixels(s, s.height), 4 * s.width, s);
  }

  // ---- the converters ----------------------------------------------------------------------------------------------

  method AppendRow(f: Format, width: nat, source: seq<byte>, before: seq<byte>) returns (pixels: seq<byte>)
    requires Uploadable(f) && RowSize(f, width) <= |source|
    ensures pixels == before + ConvertRow(f, width, source)
  {
    pixels := before;
    assert before + [] == before;
    for x := 0 to width
      invariant pixels == before + ConvertRow(f, x, source)
    {
      pixels := pixels + Texel(f, source, x);
      Assoc(before, ConvertRow(f, x, source), Texel(f, source, x));
    }
  }

  /** The slice of row r, at its multiplied offset. */
  method ReadRow(s: Source, r: nat) returns (row: seq<byte>)
    requires Present(s) && r < s.height
    ensures row == SourceRow(s, r)
  {
    O.RowInside(s.height, s.stride, RowSize(s.format, s.width), s.data, r);
    RowsIsProduct(s.stride, r);
    row := s.data[r * s.stride..r * s.stride + RowSize(s.format, s.width)];
  }

  /** The compiler's conversion, row by row and pixel by pixel. */
  method ConvertPixels(s: Source) returns (pixels: seq<byte>)
    requires Present(s)
    ensures pixels == Pixels(s, s.height) && KeepsColours(pixels, 4 * s.width, s)
  {
    pixels := [];
    for r := 0 to s.height
      invariant pixels == Pixels(s, r)
    {
      var row := ReadRow(s, r);
      pixels := AppendRow(s.format, s.width, row, pixels);
    }
    PackedColours(s);
  }

  /** The synchronous converter: native pixels are passed through at their own stride, others are
      written into a packed buffer.  Either way every row holds the same converted pixels, and every pixel
      has the colour of its client texel. */
  method PrepareBgra(s: Source) returns (pixels: seq<byte>, stride: nat)
    requires Present(s)
    ensures forall r | 0 <= r < s.height :: Holds(pixels, stride, s, r)
    ensures KeepsColours(pixels, stride, s)
  {
    if s.format == Bgra8 {
      pixels, stride := s.data, s.stride;
      forall r | 0 <= r < s.height
        ensures Holds(pixels, stride, s, r)
      {
        O.RowInside(s.height, s.stride, 4 * s.width, s.data, r);
        SameFormatRow(s.width, SourceRow(s, r));
      }
    } else {
      pixels := Pack(s);
      stride := 4 * s.width;
      forall r | 0 <= r < s.height
        ensures Holds(pixels, stride, s, r)
      {
        PackedRow(s, s.height, r);
      }
    }
    HeldColours(pixels, stride, s);
  }

  method Pack(s: Source) returns (pixels: seq<byte>)
    requires Present(s)
    ensures pixels == Pixels(s, s.height)
  {
    RowsIsProduct(4 * s.width, s.height);
    var output := new byte[s.height * (4 * s.width)](_ => 0);
    assert output[..] == [] + Zeros(output.Length);
    for r := 0 to s.height
      invariant SubmitEncoder.Written(output, Pixels(s, r))
    {
      RowsIsProduct(4 * s.width, r);
      RowsAdd(4 * s.width, r + 1, s.height - r - 1);
      var row := ReadRow(s, r);
      FillRow(s.format, s.width, row, output, r * (4 * s.width), Pixels(s, r));
    }
    SubmitEncoder.AllWritten(output, Pixels(s, s.height));
    pixels := output[..];
  }

  method FillRow(f: Format, width: nat, source: seq<byte>, output: array<byte>, start: nat, ghost done: seq<byte>)
    requires Uploadable(f) && RowSize(f, width) <= |source|
    requires start == |done| && start + 4 * width <= output.Length && SubmitEncoder.Written(output, done)
    modifies output
    ensures SubmitEncoder.Written(output, done + ConvertRow(f, width, source))
  {
    ghost var now := done;
    assert done + [] == done;
    for x := 0 to width
      invariant |now| == start + 4 * x && now == done + ConvertRow(f, x, source)
      invariant SubmitEncoder.Written(output, now)
    {
      var texel := Texel(f, source, x);
      SubmitEncoder.PutBytes(output, start + 4 * x, texel, now);
      Assoc(done, ConvertRow(f, x, source), texel);
      now := now + texel;
    }
  }

  // ---- memory ----------------------------------------------------------------------------------------------------------

  /** Memory with `bytes` written at `at`; a write that does not fit changes nothing. */
  function Poke(mem: seq<byte>, at: nat, bytes: seq<byte>): (r: seq<byte>)
    ensures |r| == |mem|
  {
    if at + |bytes| <= |mem| then mem[..at] + bytes + mem[at + |bytes|..] else mem
  }

  lemma PokeTwice(mem: seq<byte>, at: nat, a: seq<byte>, b: seq<byte>)
    requires at + |a| + |b| <= |mem|
    ensures Poke(Poke(mem, at, a), at + |a|, b) == Poke(mem, at, a + b)
  {
  }

  lemma PokeAt(mem: seq<byte>, at: nat, bytes: seq<byte>, k: nat)
    requires at + |bytes| <= |mem| && k < |mem|
    ensures Poke(mem, at, bytes)[k] == if at <= k < at + |bytes| then bytes[k - at] else mem[k]
  {
  }

  // ---- row copies --------------------------------------------------------------------------------------------------------

  function MemCopy(id: nat, from: u64, target: nat, to: u64, dwords: nat): Command
    requires dwords <= MAX_COPY_DWORDS
  {
    Run(CP_MEMCPY, [Val(dwords), At(Generated(id), from, 4 * dwords, READ), At(External(target), to, 4 * dwords, WRITE)])
  }

  predicate CopyFits(from: nat, to: nat, dwords: nat) {
    from + 4 * dwords < 0x1_0000_0000_0000_0000 && to + 4 * dwords < 0x1_0000_0000_0000_0000
  }

  /** One row in copies of at most 128 dwords, each followed by a write barrier. */
  function CopyRow(id: nat, from: nat, target: nat, to: nat, dwords: nat): seq<Command>
    requires CopyFits(from, to, dwords)
    decreases dwords
  {
    if dwords == 0 then []
    else
      var n := Min(dwords, MAX_COPY_DWORDS);
      [MemCopy(id, from, target, to, n)] + ([Run(WAIT_MEM_WRITES, [])]
      + CopyRow(id, from + 4 * n, target, to + 4 * n, dwords - n))
  }

  /** The effect of one command on a target's bytes, with the contents of generated objects given. */
  function Copied(c: Command, staging: seq<seq<byte>>, target: nat, mem: seq<byte>): seq<byte> {
    if c.Run? && c.opcode == CP_MEMCPY && |c.fields| == 3 && c.fields[1].Ref? && c.fields[2].Ref?
       && c.fields[1].ref.target.Generated? && c.fields[1].ref.target.id < |staging|
       && c.fields[2].ref.target == External(target)
    then
      var s, from, size := staging[c.fields[1].ref.target.id], c.fields[1].ref.offset, c.fields[1].ref.size;
      if from + size <= |s| then Poke(mem, c.fields[2].ref.offset, s[from..from + size]) else mem
    else mem
  }

  function RunCopies(cs: seq<Command>, staging: seq<seq<byte>>, target: nat, mem: seq<byte>): seq<byte>
    decreases |cs|
  {
    if cs == [] then mem else RunCopies(cs[1..], staging, target, Copied(cs[0], staging, target, mem))
  }

  lemma {:induction false} RunConcat(a: seq<Command>, b: seq<Command>, staging: seq<seq<byte>>, target: nat, mem: seq<byte>)
    ensures RunCopies(a + b, staging, target, mem) == RunCopies(b, staging, target, RunCopies(a, staging, target, mem))
    decreases |a|
  {
    if a == [] {
      assert a + b == b;
    } else {
      assert (a + b)[0] == a[0] && (a + b)[1..] == a[1..] + b;
      RunConcat(a[1..], b, staging, target, Copied(a[0], staging, target, mem));
    }
  }

  lemma RunCons(c: Command, cs: seq<Command>, staging: seq<seq<byte>>, target: nat, mem: seq<byte>)
    ensures RunCopies([c] + cs, staging, target, mem) == RunCopies(cs, staging, target, Copied(c, staging, target, mem))
  {
    assert ([c] + cs)[1..] == cs;
  }

  lemma CopyEffect(id: nat, from: nat, target: nat, to: nat, n: nat, staging: seq<seq<byte>>, mem: seq<byte>)
    requires n <= MAX_COPY_DWORDS && CopyFits(from, to, n) && id < |staging| && from + 4 * n <= |staging[id]|
    ensures Copied(MemCopy(id, from, target, to, n), staging, target, mem) == Poke(mem, to, staging[id][from..from + 4 * n])
  {
  }

  lemma Slices(s: seq<byte>, a: nat, b: nat, c: nat)
    requires a <= b <= c <= |s|
    ensures s[a..b] + s[b..c] == s[a..c]
  {
  }

  /** The first copy of a row, and the rest of them. */
  lemma FirstCopy(id: nat, from: nat, target: nat, to: nat, dwords: nat, staging: seq<seq<byte>>, mem: seq<byte>)
    requires CopyFits(from, to, dwords) && id < |staging| && dwords > 0 && from + 4 * dwords <= |staging[id]|
    ensures var n := Min(dwords, MAX_COPY_DWORDS);
            && CopyFits(from + 4 * n, to + 4 * n, dwords - n)
            && RunCopies(CopyRow(id, from, target, to, dwords), staging, target, mem) ==
               RunCopies(CopyRow(id, from + 4 * n, target, to + 4 * n, dwords - n), staging, target,
                         Poke(mem, to, staging[id][from..from + 4 * n]))
  {
    var n := Min(dwords, MAX_COPY_DWORDS);
    var rest := CopyRow(id, from + 4 * n, target, to + 4 * n, dwords - n);
    var first := Poke(mem, to, staging[id][from..from + 4 * n]);
    RunCons(MemCopy(id, from, target, to, n), [Run(WAIT_MEM_WRITES, [])] + rest, staging, target, mem);
    CopyEffect(id, from, target, to, n, staging, mem);
    RunCons(Run(WAIT_MEM_WRITES, []), rest, staging, target, first);
  }

  /** The memory after each copy of a row in turn. */
  function CopyPieces(s: seq<byte>, from: nat, to: nat, dwords: nat, mem: seq<byte>): seq<byte>
    requires from + 4 * dwords <= |s|
    decreases dwords
  {
    if dwords == 0 then mem
    else
      var n := Min(dwords, MAX_COPY_DWORDS);
      CopyPieces(s, from + 4 * n, to + 4 * n, dwords - n, Poke(mem, to, s[from..from + 4 * n]))
  }

  lemma FirstPiece(s: seq<byte>, from: nat, to: nat, dwords: nat, mem: seq<byte>) returns (n: nat, first: seq<byte>)
    requires from + 4 * dwords <= |s| && dwords > 0
    ensures 0 < n <= dwords && first == Poke(mem, to, s[from..from + 4 * n])
    ensures CopyPieces(s, from, to, dwords, mem) == CopyPieces(s, from + 4 * n, to + 4 * n, dwords - n, first)
  {
    n := Min(dwords, MAX_COPY_DWORDS);
    first := Poke(mem, to, s[from..from + 4 * n]);
  }

  lemma NoPieces(s: seq<byte>, from: nat, to: nat, mem: seq<byte>)
    requires from <= |s|
    ensures CopyPieces(s, from, to, 0, mem) == Poke(mem, to, s[from..from])
  {
    PokeNothing(mem, to);
  }

  lemma {:induction false} PiecesAreRow(s: seq<byte>, from: nat, to: nat, dwords: nat, mem: seq<byte>, row: seq<byte>, now: seq<byte>)
    requires from + 4 * dwords <= |s| && to + 4 * dwords <= |mem|
    requires row == s[from..from + 4 * dwords] && now == CopyPieces(s, from, to, dwords, mem)
    ensures now == Poke(mem, to, row)
    decreases dwords
  {
    if dwords == 0 {
      NoPieces(s, from, to, mem);
    } else {
      var n, first := FirstPiece(s, from, to, dwords, mem);
      var mid, end, at := from + 4 * n, from + 4 * dwords, to + 4 * n;
      assert mid + 4 * (dwords - n) == end;
      PiecesAreRow(s, mid, at, dwords - n, first, s[mid..end], now);
      PieceThenRest(s, from, mid, end, mem, to, at, first, now);
    }
  }

  lemma PieceThenRest(s: seq<byte>, from: nat, mid: nat, end: nat, mem: seq<byte>, to: nat, at: nat, first: seq<byte>, now: seq<byte>)
    requires from <= mid <= end <= |s| && at == to + (mid - from) && to + (end - from) <= |mem|
    requires first == Poke(mem, to, s[from..mid]) && now == Poke(first, at, s[mid..end])
    ensures now == Poke(mem, to, s[from..end])
  {
    Slices(s, from, mid, end);
    PokeBoth(mem, to, s[from..mid], at, s[mid..end], first, now, s[from..end]);
  }

  lemma PokeBoth(mem: seq<byte>, to: nat, a: seq<byte>, at: nat, b: seq<byte>, first: seq<byte>, now: seq<byte>, row: seq<byte>)
    requires to + |a| + |b| <= |mem| && at == to + |a| && row == a + b
    requires first == Poke(mem, to, a) && now == Poke(first, at, b)
    ensures now == Poke(mem, to, row)
  {
    PokeTwice(mem, to, a, b);
  }

  lemma {:induction false} CopiesArePieces(id: nat, from: nat, target: nat, to: nat, dwords: nat, staging: seq<seq<byte>>, mem: seq<byte>)
    requires CopyFits(from, to, dwords) && id < |staging| && from + 4 * dwords <= |staging[id]|
    ensures RunCopies(CopyRow(id, from, target, to, dwords), staging, target, mem)
         == CopyPieces(staging[id], from, to, dwords, mem)
    decreases dwords
  {
    if dwords > 0 {
      var n := Min(dwords, MAX_COPY_DWORDS);
      FirstCopy(id, from, target, to, dwords, staging, mem);
      CopiesArePieces(id, from + 4 * n, target, to + 4 * n, dwords - n, staging, Poke(mem, to, staging[id][from..from + 4 * n]));
    }
  }

  /** However a row is cut up, the whole row arrives. */
  lemma RowArrives(id: nat, from: nat, target: nat, to: nat, dwords: nat, staging: seq<seq<byte>>, mem: seq<byte>)
    requires CopyFits(from, to, dwords) && id < |staging|
    requires from + 4 * dwords <= |staging[id]| && to + 4 * dwords <= |mem|
    ensures RunCopies(CopyRow(id, from, target, to, dwords), staging, target, mem)
         == Poke(mem, to, staging[id][from..from + 4 * dwords])
  {
    CopiesArePieces(id, from, target, to, dwords, staging, mem);
    PiecesAreRow(staging[id], from, to, dwords, mem, staging[id][from..from + 4 * dwords],
                 CopyPieces(staging[id], from, to, dwords, mem));
  }

  lemma PokeNothing(mem: seq<byte>, at: nat)
    ensures Poke(mem, at, []) == mem
  {
  }
}
