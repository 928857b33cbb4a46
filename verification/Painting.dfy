/** What a texture upload leaves in the image: exactly the converted pixels, and nothing else. */
module Painting {
  import opened Wrappers
  import opened Arith
  import opened Commands
  import opened Images
  import opened Uploads
  import A = AsyncSplit
  import O = Operations

  /** A linear image in memory. */
  datatype Canvas = Canvas(target: nat, planeOffset: nat, stride: nat, format: Format)

  function PixelAt(c: Canvas, x: nat, y: nat): nat { c.planeOffset + Rows(c.stride, y) + 4 * x }

  /** The rectangle lies in a row, and its last byte in memory. */
  predicate AreaFits(c: Canvas, area: O.Rect, size: nat) {
    && 4 * (area.x + area.width) <= c.stride && area.width > 0 && area.height > 0
    && PixelAt(c, area.x + area.width, area.y + area.height - 1) <= size < 0x1_0000_0000_0000_0000
  }

  function SourceOf(c: Canvas, op: O.Operation): Source
    requires op.WriteTexture?
  {
    Source(c.format, op.area.width, op.area.height, op.bytesPerRow, op.data)
  }

  lemma RowFits(c: Canvas, area: O.Rect, size: nat, r: nat)
    requires AreaFits(c, area, size) && r < area.height
    ensures PixelAt(c, area.x, area.y + r) == PixelAt(c, area.x, area.y) + Rows(c.stride, r)
    ensures PixelAt(c, area.x, area.y + r) + 4 * area.width <= size
  {
    RowsAdd(c.stride, area.y, r);
    RowsAdd(c.stride, area.y + r, area.height - 1 - r);
  }

  // ---- the rows of one upload ---------------------------------------------------------------------------------------

  /** The packed rows have addresses too. */
  predicate StripFits(c: Canvas, area: O.Rect, size: nat) {
    AreaFits(c, area, size) && Rows(4 * area.width, area.height) < 0x1_0000_0000_0000_0000
  }

  lemma StripRowFits(c: Canvas, area: O.Rect, size: nat, r: nat)
    requires StripFits(c, area, size) && r < area.height
    ensures CopyFits(Rows(4 * area.width, r), PixelAt(c, area.x, area.y + r), area.width)
    ensures PixelAt(c, area.x, area.y + r) + 4 * area.width <= size
  {
    RowFits(c, area, size, r);
    RowsAdd(4 * area.width, r + 1, area.height - r - 1);
  }

  /** The copies of row r of a packed strip. */
  function RowCopies(id: nat, c: Canvas, area: O.Rect, size: nat, r: nat): seq<Command>
    requires StripFits(c, area, size) && r < area.height
  {
    StripRowFits(c, area, size, r);
    CopyRow(id, Rows(4 * area.width, r), c.target, PixelAt(c, area.x, area.y + r), area.width)
  }

  /** The copies of the first n rows. */
  function CopyRows(id: nat, c: Canvas, area: O.Rect, size: nat, n: nat): seq<Command>
    requires StripFits(c, area, size) && n <= area.height
  {
    if n == 0 then [] else CopyRows(id, c, area, size, n - 1) + RowCopies(id, c, area, size, n - 1)
  }

  /** Rows of pixel bytes for a rectangle. */
  predicate RowsOf(area: O.Rect, rows: seq<seq<byte>>) {
    |rows| == area.height && forall r | 0 <= r < |rows| :: |rows[r]| == 4 * area.width
  }

  /** The converted rows of a source. */
  function PixelRows(s: Source): (rows: seq<seq<byte>>)
    requires Present(s)
    ensures |rows| == s.height && forall r | 0 <= r < s.height :: rows[r] == PixelRow(s, r)
  {
    seq(s.height, r requires 0 <= r < s.height => PixelRow(s, r))
  }

  /** Memory with the first n rows written. */
  function PokeRows(c: Canvas, area: O.Rect, rows: seq<seq<byte>>, mem: seq<byte>, n: nat): (r: seq<byte>)
    requires n <= |rows|
    ensures |r| == |mem|
  {
    if n == 0 then mem else Poke(PokeRows(c, area, rows, mem, n - 1), PixelAt(c, area.x, area.y + (n - 1)), rows[n - 1])
  }

  /** Row r of a packed strip. */
  ghost predicate PackedAt(packed: seq<byte>, row: seq<byte>, width: nat, r: nat) {
    Rows(4 * width, r) + 4 * width <= |packed| && packed[Rows(4 * width, r)..Rows(4 * width, r) + 4 * width] == row
  }

  ghost predicate PackedAs(packed: seq<byte>, rows: seq<seq<byte>>, width: nat) {
    forall r | 0 <= r < |rows| :: PackedAt(packed, rows[r], width, r)
  }

  lemma PixelsArePacked(s: Source)
    requires Present(s)
    ensures PackedAs(Pixels(s, s.height), PixelRows(s), s.width)
  {
    forall r | 0 <= r < s.height
      ensures PackedAt(Pixels(s, s.height), PixelRows(s)[r], s.width, r)
    {
      PackedRow(s, s.height, r);
    }
  }

  /** One staged row arrives at its place. */
  lemma StagedRow(id: nat, c: Canvas, area: O.Rect, row: seq<byte>, staging: seq<seq<byte>>, mem: seq<byte>, r: nat,
                  cs: seq<Command>)
    requires StripFits(c, area, |mem|) && r < area.height && id < |staging| && PackedAt(staging[id], row, area.width, r)
    requires cs == RowCopies(id, c, area, |mem|, r)
    ensures RunCopies(cs, staging, c.target, mem) == Poke(mem, PixelAt(c, area.x, area.y + r), row)
  {
    StripRowFits(c, area, |mem|, r);
    RowArrives(id, Rows(4 * area.width, r), c.target, PixelAt(c, area.x, area.y + r), area.width, staging, mem);
  }

  /** The copies of a staged strip write its rows. */
  lemma {:induction false} RowsArrive(id: nat, c: Canvas, area: O.Rect, rows: seq<seq<byte>>, staging: seq<seq<byte>>,
                                      mem: seq<byte>, n: nat, cs: seq<Command>, now: seq<byte>)
    requires StripFits(c, area, |mem|) && n <= |rows| == area.height
    requires id < |staging| && PackedAs(staging[id], rows, area.width)
    requires cs == CopyRows(id, c, area, |mem|, n) && now == PokeRows(c, area, rows, mem, n)
    ensures RunCopies(cs, staging, c.target, mem) == now
  {
    if n > 0 {
      var front, before := CopyRows(id, c, area, |mem|, n - 1), PokeRows(c, area, rows, mem, n - 1);
      RowsArrive(id, c, area, rows, staging, mem, n - 1, front, before);
      OneRowMore(id, c, area, rows, staging, mem, |mem|, n - 1, front, before, cs, now);
    }
  }

  lemma OneRowMore(id: nat, c: Canvas, area: O.Rect, rows: seq<seq<byte>>, staging: seq<seq<byte>>, mem: seq<byte>, size: nat, r: nat,
                   front: seq<Command>, before: seq<byte>, cs: seq<Command>, now: seq<byte>)
    requires size == |mem| == |before| && StripFits(c, area, size) && r < |rows| == area.height
    requires id < |staging| && PackedAs(staging[id], rows, area.width)
    requires RunCopies(front, staging, c.target, mem) == before
    requires cs == front + RowCopies(id, c, area, size, r) && now == Poke(before, PixelAt(c, area.x, area.y + r), rows[r])
    ensures RunCopies(cs, staging, c.target, mem) == now
  {
    NextRowArrives(id, c, area, rows, staging, mem, r, front, RowCopies(id, c, area, size, r), before);
  }

  lemma NextRowArrives(id: nat, c: Canvas, area: O.Rect, rows: seq<seq<byte>>, staging: seq<seq<byte>>, mem: seq<byte>, r: nat,
                       front: seq<Command>, row: seq<Command>, before: seq<byte>)
    requires StripFits(c, area, |mem|) && r < |rows| == area.height && |before| == |mem|
    requires id < |staging| && PackedAs(staging[id], rows, area.width) && row == RowCopies(id, c, area, |mem|, r)
    requires RunCopies(front, staging, c.target, mem) == before
    ensures RunCopies(front + row, staging, c.target, mem) == Poke(before, PixelAt(c, area.x, area.y + r), rows[r])
  {
    assert PackedAt(staging[id], rows[r], area.width, r);
    StagedRow(id, c, area, rows[r], staging, before, r, row);
    ThenRow(front, row, staging, c.target, mem, before, Poke(before, PixelAt(c, area.x, area.y + r), rows[r]));
  }

  lemma ThenRow(rows: seq<Command>, row: seq<Command>, staging: seq<seq<byte>>, target: nat, mem: seq<byte>,
                before: seq<byte>, after: seq<byte>)
    requires RunCopies(rows, staging, target, mem) == before && RunCopies(row, staging, target, before) == after
    ensures RunCopies(rows + row, staging, target, mem) == after
  {
    RunConcat(rows, row, staging, target, mem);
  }

  // ---- pixel by pixel -------------------------------------------------------------------------------------------------

  predicate InRow(c: Canvas, area: O.Rect, r: nat, at: nat) {
    PixelAt(c, area.x, area.y + r) <= at < PixelAt(c, area.x, area.y + r) + 4 * area.width
  }

  lemma RowsApart(c: Canvas, area: O.Rect, size: nat, q: nat, r: nat, at: nat)
    requires AreaFits(c, area, size) && q < r < area.height && InRow(c, area, q, at)
    ensures !InRow(c, area, r, at)
  {
    RowFits(c, area, size, q);
    RowFits(c, area, size, r);
    RowsAdd(c.stride, q + 1, r - q - 1);
  }

  /** The last of the first n rows that holds the byte. */
  function RowAt(c: Canvas, area: O.Rect, n: nat, at: nat): (r: Option<nat>)
    ensures r.Some? ==> r.value < n && InRow(c, area, r.value, at)
  {
    if n == 0 then None else if InRow(c, area, n - 1, at) then Some(n - 1) else RowAt(c, area, n - 1, at)
  }

  /** The naive result, byte by byte: a byte of the rectangle comes from its row, any other stays. */
  function Naive(c: Canvas, area: O.Rect, rows: seq<seq<byte>>, mem: seq<byte>, n: nat, at: nat): byte
    requires RowsOf(area, rows) && n <= |rows| && at < |mem|
  {
    var r := RowAt(c, area, n, at);
    if r.Some? then rows[r.value][at - PixelAt(c, area.x, area.y + r.value)] else mem[at]
  }

  ghost predicate Painted(c: Canvas, area: O.Rect, rows: seq<seq<byte>>, mem: seq<byte>, now: seq<byte>)
    requires RowsOf(area, rows)
  {
    |now| == |mem| && forall at | 0 <= at < |mem| :: now[at] == Naive(c, area, rows, mem, |rows|, at)
  }

  lemma NaiveStep(c: Canvas, area: O.Rect, rows: seq<seq<byte>>, mem: seq<byte>, n: nat, at: nat, start: nat)
    requires RowsOf(area, rows) && 0 < n <= |rows| && at < |mem| && start == PixelAt(c, area.x, area.y + (n - 1))
    ensures Naive(c, area, rows, mem, n, at) ==
            if start <= at < start + 4 * area.width then rows[n - 1][at - start] else Naive(c, area, rows, mem, n - 1, at)
  {
  }

  lemma PokeStep(c: Canvas, area: O.Rect, rows: seq<seq<byte>>, mem: seq<byte>, n: nat, at: nat, start: nat, before: seq<byte>)
    requires AreaFits(c, area, |mem|) && RowsOf(area, rows) && 0 < n <= |rows| && at < |mem|
    requires start == PixelAt(c, area.x, area.y + (n - 1)) && before == PokeRows(c, area, rows, mem, n - 1)
    ensures PokeRows(c, area, rows, mem, n)[at] ==
            if start <= at < start + 4 * area.width then rows[n - 1][at - start] else before[at]
  {
    RowFits(c, area, |mem|, n - 1);
    PokedRow(before, start, rows[n - 1], 4 * area.width, at);
  }

  lemma PokedRow(before: seq<byte>, start: nat, row: seq<byte>, size: nat, at: nat)
    requires |row| == size && start + size <= |before| && at < |before|
    ensures Poke(before, start, row)[at] == if start <= at < start + size then row[at - start] else before[at]
  {
    PokeAt(before, start, row, at);
  }

  lemma {:induction false} PokedByte(c: Canvas, area: O.Rect, rows: seq<seq<byte>>, mem: seq<byte>, n: nat, at: nat)
    requires AreaFits(c, area, |mem|) && RowsOf(area, rows) && n <= |rows| && at < |mem|
    ensures PokeRows(c, area, rows, mem, n)[at] == Naive(c, area, rows, mem, n, at)
  {
    if n > 0 {
      var start := PixelAt(c, area.x, area.y + (n - 1));
      PokedByte(c, area, rows, mem, n - 1, at);
      NaiveStep(c, area, rows, mem, n, at, start);
      PokeStep(c, area, rows, mem, n, at, start, PokeRows(c, area, rows, mem, n - 1));
    }
  }

  /** Writing the rows paints the rectangle and nothing else. */
  lemma RowsPaint(c: Canvas, area: O.Rect, rows: seq<seq<byte>>, mem: seq<byte>)
    requires AreaFits(c, area, |mem|) && RowsOf(area, rows)
    ensures Painted(c, area, rows, mem, PokeRows(c, area, rows, mem, |rows|))
  {
    forall at | 0 <= at < |mem|
      ensures PokeRows(c, area, rows, mem, |rows|)[at] == Naive(c, area, rows, mem, |rows|, at)
    {
      PokedByte(c, area, rows, mem, |rows|, at);
    }
  }

  /** A byte of row r belongs to no other row. */
  lemma {:induction false} RowFound(c: Canvas, area: O.Rect, size: nat, n: nat, r: nat, at: nat)
    requires AreaFits(c, area, size) && r < n <= area.height && InRow(c, area, r, at)
    ensures RowAt(c, area, n, at) == Some(r)
  {
    if r < n - 1 {
      RowsApart(c, area, size, r, n - 1, at);
      RowFound(c, area, size, n - 1, r, at);
    }
  }

  lemma RowPixel(s: Source, r: nat, x: nat, k: nat)
    requires Present(s) && r < s.height && x < s.width && k < 4
    ensures PixelRow(s, r)[4 * x + k] == Texel(s.format, SourceRow(s, r), x)[k]
  {
    ConvertedPixel(s.format, s.width, SourceRow(s, r), x);
    assert PixelRow(s, r)[4 * x + k] == PixelRow(s, r)[4 * x..4 * x + 4][k];
  }

  /** The byte of channel k of pixel (x, r) is that channel of the naively converted texel. */
  lemma PaintedPixel(c: Canvas, area: O.Rect, s: Source, mem: seq<byte>, now: seq<byte>, x: nat, r: nat, k: nat)
    requires AreaFits(c, area, |mem|) && Present(s) && s.width == area.width && s.height == area.height
    requires Painted(c, area, PixelRows(s), mem, now) && x < s.width && r < s.height && k < 4
    ensures PixelAt(c, area.x + x, area.y + r) + k < |now|
    ensures now[PixelAt(c, area.x + x, area.y + r) + k] == Texel(s.format, SourceRow(s, r), x)[k]
  {
    RowFits(c, area, |mem|, r);
    PaintedByte(c, area, PixelRows(s), mem, now, r, 4 * x + k);
    RowPixel(s, r, x, k);
    assert PixelAt(c, area.x + x, area.y + r) + k == PixelAt(c, area.x, area.y + r) + (4 * x + k);
  }

  /** The painted pixel has the colour of its client texel. */
  lemma PaintedColour(c: Canvas, area: O.Rect, s: Source, mem: seq<byte>, now: seq<byte>, x: nat, r: nat)
    requires AreaFits(c, area, |mem|) && Present(s) && s.width == area.width && s.height == area.height
    requires Painted(c, area, PixelRows(s), mem, now) && x < s.width && r < s.height
    ensures PixelAt(c, area.x + x, area.y + r) + 4 <= |now| && TexelAt(s, r, x) + TexelSize(s.format) <= |s.data|
    ensures StoredColour(now, PixelAt(c, area.x + x, area.y + r)) == ClientColour(s.format, s.data, TexelAt(s, r, x))
  {
    SourceColour(s, r, x);
    RowFits(c, area, |mem|, r);
    var first := PixelAt(c, area.x, area.y + r);
    assert PixelAt(c, area.x + x, area.y + r) == first + 4 * x;
    RowStored(now, first, PixelRow(s, r), 4 * x, 4 * s.width) by {
      forall k: nat | k < 4 * s.width
        ensures first + k < |now| && now[first + k] == PixelRow(s, r)[k]
      {
        PaintedByte(c, area, PixelRows(s), mem, now, r, k);
      }
    }
  }

  lemma RowStored(now: seq<byte>, first: nat, row: seq<byte>, at: nat, size: nat)
    requires |row| == size && at + 4 <= size && first + size <= |now|
    requires forall k: nat | k < size :: now[first + k] == row[k]
    ensures StoredColour(now, first + at) == StoredColour(row, at)
  {
    assert row[at] == now[first + at] && row[at + 1] == now[first + (at + 1)];
    assert row[at + 2] == now[first + (at + 2)] && row[at + 3] == now[first + (at + 3)];
  }

  lemma PaintedByte(c: Canvas, area: O.Rect, rows: seq<seq<byte>>, mem: seq<byte>, now: seq<byte>, r: nat, k: nat)
    requires AreaFits(c, area, |mem|) && RowsOf(area, rows) && Painted(c, area, rows, mem, now)
    requires r < |rows| && k < 4 * area.width
    ensures PixelAt(c, area.x, area.y + r) + k < |now|
    ensures now[PixelAt(c, area.x, area.y + r) + k] == rows[r][k]
  {
    RowFits(c, area, |mem|, r);
    RowFound(c, area, |mem|, |rows|, r, PixelAt(c, area.x, area.y + r) + k);
  }

  // ---- one upload, and a split one ----------------------------------------------------------------------------------------

  /** Formats are described by their bytes per pixel. */
  predicate Describes(f: O.Formats, c: Canvas) {
    Uploadable(c.format) && c.target in f && f[c.target] == if c.format == R8 then 1 else 4
  }

  lemma RowSizeIs(f: O.Formats, c: Canvas, width: nat)
    requires Describes(f, c)
    ensures width * f[c.target] == RowSize(c.format, width)
  {
  }

  /** Staging a write and running its copies. */
  ghost function Uploaded(c: Canvas, op: O.Operation, mem: seq<byte>): seq<byte>
    requires op.WriteTexture? && Present(SourceOf(c, op)) && StripFits(c, op.area, |mem|)
  {
    RunCopies(CopyRows(0, c, op.area, |mem|, op.area.height), [Pixels(SourceOf(c, op), op.area.height)], c.target, mem)
  }

  /** The effect of one row event on the image. */
  function Applied(c: Canvas, e: O.Event, mem: seq<byte>): (r: seq<byte>)
    ensures |r| == |mem|
  {
    if e.RowWritten? && Uploadable(c.format) && RowSize(c.format, e.width) <= |e.texels|
    then Poke(mem, PixelAt(c, e.x, e.y), ConvertRow(c.format, e.width, e.texels)) else mem
  }

  function ApplyAll(c: Canvas, es: seq<O.Event>, mem: seq<byte>): (r: seq<byte>)
    ensures |r| == |mem|
  {
    if es == [] then mem else Applied(c, es[|es| - 1], ApplyAll(c, es[..|es| - 1], mem))
  }

  lemma {:induction false} ApplyConcat(c: Canvas, a: seq<O.Event>, b: seq<O.Event>, mem: seq<byte>)
    ensures ApplyAll(c, a + b, mem) == ApplyAll(c, b, ApplyAll(c, a, mem))
  {
    if b == [] {
      assert a + b == a;
    } else {
      assert (a + b)[..|a + b| - 1] == a + b[..|b| - 1];
      ApplyConcat(c, a, b[..|b| - 1], mem);
    }
  }

  lemma ApplyNext(c: Canvas, es: seq<O.Event>, mem: seq<byte>, n: nat)
    requires n < |es|
    ensures ApplyAll(c, es[..n + 1], mem) == Applied(c, es[n], ApplyAll(c, es[..n], mem))
  {
    assert es[..n + 1][..n] == es[..n];
  }

  function EventsOf(c: Canvas, op: O.Operation): (es: seq<O.Event>)
    requires op.WriteTexture? && Present(SourceOf(c, op))
    ensures |es| == op.area.height
  {
    O.RowEvents(op.destination, op.area, op.bytesPerRow, RowSize(c.format, op.area.width), op.data)
  }

  lemma EventPokes(c: Canvas, op: O.Operation, mem: seq<byte>, r: nat)
    requires op.WriteTexture? && Present(SourceOf(c, op)) && r < op.area.height
    ensures Applied(c, EventsOf(c, op)[r], mem) == Poke(mem, PixelAt(c, op.area.x, op.area.y + r), PixelRow(SourceOf(c, op), r))
  {
    assert EventsOf(c, op)[r].texels == SourceRow(SourceOf(c, op), r);
  }

  /** Each event writes the row of the same index. */
  ghost predicate WritesRows(c: Canvas, area: O.Rect, es: seq<O.Event>, rows: seq<seq<byte>>) {
    && |es| == |rows|
    && forall r, mem | 0 <= r < |es| :: Applied(c, es[r], mem) == Poke(mem, PixelAt(c, area.x, area.y + r), rows[r])
  }

  lemma WritesRow(c: Canvas, area: O.Rect, es: seq<O.Event>, rows: seq<seq<byte>>, r: nat, mem: seq<byte>)
    requires WritesRows(c, area, es, rows) && r < |rows|
    ensures Applied(c, es[r], mem) == Poke(mem, PixelAt(c, area.x, area.y + r), rows[r])
  {
  }

  lemma {:induction false} EventsPoke(c: Canvas, area: O.Rect, es: seq<O.Event>, rows: seq<seq<byte>>, mem: seq<byte>, n: nat)
    requires WritesRows(c, area, es, rows) && n <= |rows|
    ensures ApplyAll(c, es[..n], mem) == PokeRows(c, area, rows, mem, n)
  {
    if n > 0 {
      var before := PokeRows(c, area, rows, mem, n - 1);
      calc {
        ApplyAll(c, es[..n], mem);
        { ApplyNext(c, es, mem, n - 1); }
        Applied(c, es[n - 1], ApplyAll(c, es[..n - 1], mem));
        { EventsPoke(c, area, es, rows, mem, n - 1); }
        Applied(c, es[n - 1], before);
        { WritesRow(c, area, es, rows, n - 1, before); }
        Poke(before, PixelAt(c, area.x, area.y + (n - 1)), rows[n - 1]);
      }
    }
  }

  lemma RowsWritten(c: Canvas, op: O.Operation)
    requires op.WriteTexture? && Present(SourceOf(c, op))
    ensures WritesRows(c, op.area, EventsOf(c, op), PixelRows(SourceOf(c, op)))
  {
    forall r, mem: seq<byte> | 0 <= r < op.area.height
      ensures Applied(c, EventsOf(c, op)[r], mem)
           == Poke(mem, PixelAt(c, op.area.x, op.area.y + r), PixelRows(SourceOf(c, op))[r])
    {
      EventPokes(c, op, mem, r);
    }
  }

  /** An accepted write does in memory exactly what its row events say. */
  lemma UploadIsEvents(f: O.Formats, c: Canvas, op: O.Operation, mem: seq<byte>)
    requires op.WriteTexture? && op.destination == c.target && Describes(f, c) && O.TransferStep(f, O.IDLE, op).Ran?
    requires StripFits(c, op.area, |mem|)
    ensures Present(SourceOf(c, op))
    ensures Uploaded(c, op, mem) == ApplyAll(c, O.TransferStep(f, O.IDLE, op).events, mem)
         == PokeRows(c, op.area, PixelRows(SourceOf(c, op)), mem, op.area.height)
  {
    EventsArePokes(f, c, op, mem);
    StagedUpload(c, op, 0, [Pixels(SourceOf(c, op), op.area.height)], mem);
  }

  lemma EventsArePokes(f: O.Formats, c: Canvas, op: O.Operation, mem: seq<byte>)
    requires op.WriteTexture? && op.destination == c.target && Describes(f, c) && O.TransferStep(f, O.IDLE, op).Ran?
    ensures Present(SourceOf(c, op))
    ensures ApplyAll(c, O.TransferStep(f, O.IDLE, op).events, mem)
         == PokeRows(c, op.area, PixelRows(SourceOf(c, op)), mem, op.area.height)
  {
    RowSizeIs(f, c, op.area.width);
    var s, es := SourceOf(c, op), EventsOf(c, op);
    RowsWritten(c, op);
    EventsPoke(c, op.area, es, PixelRows(s), mem, s.height);
    assert es[..s.height] == es;
  }

  /** Wherever the converted pixels are staged, the copies write the rows. */
  lemma StagedUpload(c: Canvas, op: O.Operation, id: nat, staging: seq<seq<byte>>, mem: seq<byte>)
    requires op.WriteTexture? && Present(SourceOf(c, op)) && StripFits(c, op.area, |mem|)
    requires id < |staging| && staging[id] == Pixels(SourceOf(c, op), op.area.height)
    ensures RunCopies(CopyRows(id, c, op.area, |mem|, op.area.height), staging, c.target, mem)
         == PokeRows(c, op.area, PixelRows(SourceOf(c, op)), mem, op.area.height)
  {
    var s := SourceOf(c, op);
    PixelsArePacked(s);
    RowsArrive(id, c, op.area, PixelRows(s), staging, mem, s.height, CopyRows(id, c, op.area, |mem|, s.height),
               PokeRows(c, op.area, PixelRows(s), mem, s.height));
  }

  /** Uploading the strips of a write one after another paints the same pixels as the naive conversion of
      the whole write, and touches nothing else. */
  lemma StripsPaint(f: O.Formats, c: Canvas, op: O.Operation, chunks: seq<seq<O.Operation>>, mem: seq<byte>)
    requires op.WriteTexture? && op.destination == c.target && Describes(f, c) && O.TransferStep(f, O.IDLE, op).Ran?
    requires StripFits(c, op.area, |mem|)
    requires O.ChunksMeaning(f, chunks) == Some(O.TransferStep(f, O.IDLE, op).events)
    ensures Present(SourceOf(c, op))
    ensures Painted(c, op.area, PixelRows(SourceOf(c, op)), mem, ApplyAll(c, O.ChunksMeaning(f, chunks).value, mem))
  {
    UploadIsEvents(f, c, op, mem);
    RowsPaint(c, op.area, PixelRows(SourceOf(c, op)), mem);
  }

  /** One strip is a write inside the rectangle of the whole. */
  ghost predicate Strip(f: O.Formats, c: Canvas, size: nat, chunk: seq<O.Operation>) {
    && |chunk| == 1 && chunk[0].WriteTexture? && chunk[0].destination == c.target
    && O.TransferStep(f, O.IDLE, chunk[0]).Ran? && Present(SourceOf(c, chunk[0]))
    && StripFits(c, chunk[0].area, size)
  }

  /** Running the copies of each strip in turn. */
  ghost function UploadStrips(f: O.Formats, c: Canvas, chunks: seq<seq<O.Operation>>, mem: seq<byte>): (r: seq<byte>)
    requires forall i | 0 <= i < |chunks| :: Strip(f, c, |mem|, chunks[i])
    ensures |r| == |mem|
  {
    if chunks == [] then mem
    else
      var before := UploadStrips(f, c, chunks[..|chunks| - 1], mem);
      var last := chunks[|chunks| - 1];
      assert Strip(f, c, |mem|, last);
      CopiesKeepSize(CopyRows(0, c, last[0].area, |mem|, last[0].area.height), [Pixels(SourceOf(c, last[0]), last[0].area.height)],
                     c.target, before);
      Uploaded(c, last[0], before)
  }

  lemma {:induction false} CopiesKeepSize(cs: seq<Command>, staging: seq<seq<byte>>, target: nat, mem: seq<byte>)
    ensures |RunCopies(cs, staging, target, mem)| == |mem|
    decreases |cs|
  {
    if cs != [] {
      CopiesKeepSize(cs[1..], staging, target, Copied(cs[0], staging, target, mem));
    }
  }

  lemma {:induction false} StripsAreEvents(f: O.Formats, c: Canvas, chunks: seq<seq<O.Operation>>, mem: seq<byte>)
    requires Describes(f, c) && forall i | 0 <= i < |chunks| :: Strip(f, c, |mem|, chunks[i])
    ensures O.ChunksMeaning(f, chunks).Some?
    ensures UploadStrips(f, c, chunks, mem) == ApplyAll(c, O.ChunksMeaning(f, chunks).value, mem)
  {
    if chunks != [] {
      var front, last := chunks[..|chunks| - 1], chunks[|chunks| - 1];
      StripsAreEvents(f, c, front, mem);
      assert Strip(f, c, |mem|, last);
      A.SingleTransfer(f, last[0]);
      assert last == [last[0]];
      UploadIsEvents(f, c, last[0], UploadStrips(f, c, front, mem));
      ApplyConcat(c, O.ChunksMeaning(f, front).value, O.TransferStep(f, O.IDLE, last[0]).events, mem);
    }
  }

  lemma PartFits(c: Canvas, area: O.Rect, part: O.Rect, size: nat)
    requires StripFits(c, area, size) && part.x == area.x && part.width == area.width && part.height > 0
    requires area.y <= part.y && part.y + part.height <= area.y + area.height
    ensures StripFits(c, part, size)
  {
    var last, whole := part.y + part.height - 1, area.y + area.height - 1;
    RowsAdd(c.stride, last, whole - last);
    RowsAdd(4 * area.width, part.height, area.height - part.height);
  }

  lemma {:induction false} EachMeans(f: O.Formats, chunks: seq<seq<O.Operation>>, i: nat)
    requires O.ChunksMeaning(f, chunks).Some? && i < |chunks|
    ensures O.Meaning(f, chunks[i]).Some?
  {
    if i < |chunks| - 1 {
      EachMeans(f, chunks[..|chunks| - 1], i);
    }
  }

  lemma AloneIsAccepted(f: O.Formats, op: O.Operation)
    requires op.WriteTexture? && O.Meaning(f, [op]).Some?
    ensures O.TransferStep(f, O.IDLE, op).Ran?
  {
    O.RunSnoc(f, [], op);
    assert [] + [op] == [op];
  }

  /** Splitting a texture write into row strips, converting each on its own, and running its bounded row
      copies leaves exactly the pixels of the naive conversion of the whole write, and nothing else. */
  lemma SplitUploadPaints(f: O.Formats, c: Canvas, op: O.Operation, chunks: seq<seq<O.Operation>>, maxRows: nat, mem: seq<byte>)
    requires op.WriteTexture? && op.destination == c.target && Describes(f, c) && O.TransferStep(f, O.IDLE, op).Ran?
    requires StripFits(c, op.area, |mem|)
    requires O.ChunksMeaning(f, chunks) == Some(O.TransferStep(f, O.IDLE, op).events)
    requires forall k | k in chunks :: |k| == 1 && A.IsStrip(k[0], op, maxRows)
    ensures Present(SourceOf(c, op)) && forall i | 0 <= i < |chunks| :: Strip(f, c, |mem|, chunks[i])
    ensures Painted(c, op.area, PixelRows(SourceOf(c, op)), mem, UploadStrips(f, c, chunks, mem))
  {
    forall i | 0 <= i < |chunks|
      ensures Strip(f, c, |mem|, chunks[i])
    {
      assert chunks[i] in chunks;
      var strip := chunks[i][0];
      EachMeans(f, chunks, i);
      assert chunks[i] == [strip];
      AloneIsAccepted(f, strip);
      PartFits(c, op.area, strip.area, |mem|);
      RowSizeIs(f, c, strip.area.width);
    }
    StripsAreEvents(f, c, chunks, mem);
    StripsPaint(f, c, op, chunks, mem);
  }
}
