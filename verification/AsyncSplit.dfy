/** Splitting a whole stream: transfers become bounded submissions of their own, and the
    render work between them goes through the draw splitter. */
module AsyncSplit {
  import opened Wrappers
  import opened Operations
  import opened Splitter
  import opened Arith
  import opened Sequences

  const UPLOAD_CHUNK_BYTES := 256 * 1024
  const MAX_RESOURCES := 1024
  const GRAPHICS_DRAWS := 512

  lemma SingleTransfer(f: Formats, op: Operation)
    requires IsTransfer(op) && TransferStep(f, IDLE, op).Ran?
    ensures Meaning(f, [op]) == Some(TransferStep(f, IDLE, op).events)
  {
    RunSnoc(f, [], op);
    assert [] + [op] == [op];
    assert [] + TransferStep(f, IDLE, op).events == TransferStep(f, IDLE, op).events;
  }

  lemma SingleTransferCounts(op: Operation)
    requires IsTransfer(op)
    ensures DrawCount([op]) == 0 && WithinLimits([op], GRAPHICS_DRAWS)
  {
    assert [op][..0] == [];
  }

  lemma ByteEventsConcat(destination: ObjectId, offset: nat, a: seq<byte>, b: seq<byte>)
    ensures ByteEvents(destination, offset, a + b) ==
            ByteEvents(destination, offset, a) + ByteEvents(destination, offset + |a|, b)
  {
  }

  /** What the judge accepts of an upload, it accepts of its pieces and strips. */
  ghost predicate TakesParts(ok: Judge) {
    && (forall d, offset: nat, data, a: nat, b: nat | ok(IDLE, WriteBuffer(d, offset, data)) && IsCut(data, a, b) ::
          ok(IDLE, WriteBuffer(d, offset + a, data[a..b])))
    && (forall op: Operation, row: nat, rows: nat | op.WriteTexture? && ok(IDLE, op) && IsStripOf(op, row, rows) ::
          ok(IDLE, StripOf(op, row, rows).value))
  }

  /** A piece between two cuts, or up to the end. */
  predicate IsCut(data: seq<byte>, a: nat, b: nat) {
    a < b <= |data| && a % UPLOAD_CHUNK_BYTES == 0 && (b == |data| || b % UPLOAD_CHUNK_BYTES == 0)
  }

  predicate IsStripOf(op: Operation, row: nat, rows: nat)
    requires op.WriteTexture?
  {
    0 < rows && row + rows <= op.area.height && StripOf(op, row, rows).Some?
  }

  predicate Takes(ok: Judge, chunks: seq<seq<Operation>>) {
    forall c | c in chunks :: |c| == 1 && ok(IDLE, c[0])
  }

  lemma {:induction false} StripsTaken(ok: Judge, op: Operation, row: nat, maxRows: nat)
    requires op.WriteTexture? && maxRows > 0 && Strips(op, row, maxRows).Some? && TakesParts(ok) && ok(IDLE, op)
    ensures Takes(ok, Strips(op, row, maxRows).value)
    decreases op.area.height - row
  {
    if row < op.area.height {
      var rows := Min(maxRows, op.area.height - row);
      StripsTaken(ok, op, row + rows, maxRows);
      assert IsStripOf(op, row, rows);
    }
  }

  lemma AloneOk(f: Formats, ok: Judge, op: Operation)
    requires ok(IDLE, op)
    ensures AllOk(f, ok, [op])
  {
    AllOkSnoc(f, ok, [], op);
    assert [] + [op] == [op];
  }

  lemma AllAloneOk(f: Formats, ok: Judge, chunks: seq<seq<Operation>>)
    requires Takes(ok, chunks)
    ensures forall c | c in chunks :: AllOk(f, ok, c)
  {
    forall c | c in chunks
      ensures AllOk(f, ok, c)
    {
      AloneOk(f, ok, c[0]);
      assert c == [c[0]];
    }
  }

  /** Upload pieces stay within the staging budget. */
  predicate IsPiece(op: Operation) {
    op.WriteBuffer? && 0 < |op.data| <= UPLOAD_CHUNK_BYTES
  }

  lemma PieceFollows(f: Formats, chunks: seq<seq<Operation>>, destination: ObjectId, offset: nat, data: seq<byte>,
                     done: nat, end: nat)
    requires done < end <= |data| && offset + |data| < U64_LIMIT
    requires ChunksMeaning(f, chunks) == Some(ByteEvents(destination, offset, data[..done]))
    ensures ChunksMeaning(f, chunks + [[WriteBuffer(destination, offset + done, data[done..end])]])
         == Some(ByteEvents(destination, offset, data[..end]))
  {
    var piece := WriteBuffer(destination, offset + done, data[done..end]);
    ChunksSnoc(f, chunks, [piece]);
    SingleTransfer(f, piece);
    ByteEventsConcat(destination, offset, data[..done], data[done..end]);
    assert data[..end] == data[..done] + data[done..end];
  }

  predicate WholePiece(c: seq<Operation>) { |c| == 1 && c[0].WriteBuffer? && |c[0].data| == UPLOAD_CHUNK_BYTES }

  /** Cuts a buffer write into pieces that write the same bytes at the same offsets, in order; all but the last are as
      large as they may be. */
  method SplitBufferWrite(destination: ObjectId, offset: nat, data: seq<byte>, ghost f: Formats, ghost ok: Judge)
    returns (r: Result<seq<seq<Operation>>, SubmitError>)
    ensures r.Ok? && TakesParts(ok) && ok(IDLE, WriteBuffer(destination, offset, data)) ==> Takes(ok, r.value)
    ensures r.Ok? ==> TotalDraws(r.value) == 0
    ensures r.Ok? ==> forall c | c in r.value :: |c| == 1 && IsPiece(c[0])
    ensures r.Ok? ==> forall i | 0 <= i < |r.value| - 1 :: WholePiece(r.value[i])
    ensures offset + |data| < U64_LIMIT ==>
              r.Ok? && ChunksMeaning(f, r.value) == Some(ByteEvents(destination, offset, data))
  {
    var chunks: seq<seq<Operation>> := [];
    var done := 0;
    assert ByteEvents(destination, offset, data[..0]) == [];
    while done < |data|
      invariant 0 <= done <= |data| && (done == |data| || done % UPLOAD_CHUNK_BYTES == 0)
      invariant TakesParts(ok) && ok(IDLE, WriteBuffer(destination, offset, data)) ==> Takes(ok, chunks)
      invariant TotalDraws(chunks) == 0
      invariant forall c | c in chunks :: |c| == 1 && IsPiece(c[0])
      invariant forall i | 0 <= i < |chunks| && (done < |data| || i < |chunks| - 1) :: WholePiece(chunks[i])
      invariant offset + |data| < U64_LIMIT ==>
                  ChunksMeaning(f, chunks) == Some(ByteEvents(destination, offset, data[..done]))
    {
      var end := if done + UPLOAD_CHUNK_BYTES < |data| then done + UPLOAD_CHUNK_BYTES else |data|;
      if offset + done >= U64_LIMIT {
        return Err(SubmissionTooLarge);
      }
      var piece := WriteBuffer(destination, offset + done, data[done..end]);
      SingleTransferCounts(piece);
      assert IsCut(data, done, end);
      ChunksSnoc(f, chunks, [piece]);
      if offset + |data| < U64_LIMIT {
        PieceFollows(f, chunks, destination, offset, data, done, end);
      }
      chunks := chunks + [[piece]];
      done := end;
    }
    assert data[..|data|] == data;
    return Ok(chunks);
  }

  // ---- texture strips -------------------------------------------------------------------

  /** Rows per strip: bounded in converted bytes, and in the records the rows cost on the wire. */
  function StripRows(stride: nat, width: nat): nat
    requires stride > 0
  {
    Min(Max(Div(UPLOAD_CHUNK_BYTES, Max(stride, width * 4)), 1), MAX_RESOURCES / 2)
  }

  /** A strip is at most `maxRows` rows of the upload's own rectangle, at its own stride. */
  predicate IsStrip(strip: Operation, op: Operation, maxRows: nat)
    requires op.WriteTexture?
  {
    && strip.WriteTexture? && strip.destination == op.destination && strip.bytesPerRow == op.bytesPerRow
    && strip.area.x == op.area.x && strip.area.width == op.area.width && 0 < strip.area.height <= maxRows
    && op.area.y <= strip.area.y && strip.area.y + strip.area.height <= op.area.y + op.area.height
  }

  lemma StripBytes(stride: nat, width: nat)
    requires stride > 0
    ensures 1 <= StripRows(stride, width) <= 512
    ensures StripRows(stride, width) > 1 ==> StripRows(stride, width) * width * 4 <= UPLOAD_CHUNK_BYTES
    ensures StripRows(stride, width) > 1 ==> StripRows(stride, width) * stride <= UPLOAD_CHUNK_BYTES
    ensures StripRows(stride, width) < 512 ==> (StripRows(stride, width) + 1) * Max(stride, width * 4) > UPLOAD_CHUNK_BYTES
  {
    var budget := Max(stride, width * 4);
    var rows, most := StripRows(stride, width), Div(UPLOAD_CHUNK_BYTES, budget);
    if rows > 1 {
      assert rows <= most;
      assert rows * budget <= most * budget;
      assert rows * (width * 4) <= rows * budget;
      assert rows * stride <= rows * budget;
    }
    if rows < 512 {
      assert most <= rows;
      assert (most + 1) * budget <= (rows + 1) * budget;
    }
  }

  /** A strip holds its rows at the same distances as the whole upload does. */
  lemma StripRow(stride: nat, rowSize: nat, data: seq<byte>, row: nat, end: nat, r: nat)
    requires Rows(stride, row) <= end <= |data|
    requires Rows(stride, row) + Rows(stride, r) + rowSize <= end
    ensures Rows(stride, row + r) == Rows(stride, row) + Rows(stride, r)
    ensures RowTexels(stride, rowSize, data[Rows(stride, row)..end], r) == RowTexels(stride, rowSize, data, row + r)
  {
    RowsAdd(stride, row, r);
    SliceOfSlice(data, Rows(stride, row), end, Rows(stride, r), Rows(stride, r) + rowSize);
  }

  function StripEnd(stride: nat, data: seq<byte>, row: nat, rows: nat): nat {
    Min(Rows(stride, row + rows), |data|)
  }

  lemma StripRowsPresent(height: nat, stride: nat, rowSize: nat, data: seq<byte>, row: nat, rows: nat)
    requires RowsPresent(height, stride, rowSize, data) && 0 < rows && row + rows <= height
    ensures Rows(stride, row) <= StripEnd(stride, data, row, rows)
    ensures RowsPresent(rows, stride, rowSize, data[Rows(stride, row)..StripEnd(stride, data, row, rows)])
  {
    var first, last := Rows(stride, row), Rows(stride, rows - 1);
    LastRowInside(height, stride, rowSize, data, row, rows - 1);
    RowsAdd(stride, row, rows);
    EndHolds(first, last, stride, rowSize, |data|);
    assert StripEnd(stride, data, row, rows) == Min(first + last + stride, |data|);
  }

  lemma LastRowInside(height: nat, stride: nat, rowSize: nat, data: seq<byte>, row: nat, more: nat)
    requires RowsPresent(height, stride, rowSize, data) && row + more < height
    ensures Rows(stride, row) + Rows(stride, more) + rowSize <= |data|
  {
    RowInside(height, stride, rowSize, data, row + more);
    RowsAdd(stride, row, more);
  }

  lemma EndHolds(first: nat, last: nat, stride: nat, rowSize: nat, total: nat)
    requires rowSize <= stride && first + last + rowSize <= total
    ensures first + last + rowSize <= Min(first + last + stride, total)
  {
  }

  lemma StripEvents(destination: ObjectId, area: Rect, stride: nat, rowSize: nat, data: seq<byte>, row: nat, rows: nat, end: nat,
                    pixels: seq<byte>)
    requires RowsPresent(area.height, stride, rowSize, data) && row + rows <= area.height
    requires Rows(stride, row) <= end <= |data| && pixels == data[Rows(stride, row)..end]
    requires RowsPresent(rows, stride, rowSize, pixels)
    ensures RowEvents(destination, Rect(area.x, area.y + row, area.width, rows), stride, rowSize, pixels) ==
            RowEvents(destination, area, stride, rowSize, data)[row..row + rows]
  {
    var a := RowEvents(destination, Rect(area.x, area.y + row, area.width, rows), stride, rowSize, pixels);
    var b := RowEvents(destination, area, stride, rowSize, data);
    forall r | 0 <= r < |a|
      ensures a[r] == b[row + r]
    {
      StripEvent(destination, area, stride, rowSize, data, row, rows, end, pixels, r, a, b);
    }
    SliceByPoints(a, b, row);
  }

  lemma StripEvent(destination: ObjectId, area: Rect, stride: nat, rowSize: nat, data: seq<byte>, row: nat, rows: nat, end: nat,
                   pixels: seq<byte>, r: nat, a: seq<Event>, b: seq<Event>)
    requires RowsPresent(area.height, stride, rowSize, data) && row + rows <= area.height && r < rows
    requires Rows(stride, row) <= end <= |data| && pixels == data[Rows(stride, row)..end]
    requires RowsPresent(rows, stride, rowSize, pixels)
    requires a == RowEvents(destination, Rect(area.x, area.y + row, area.width, rows), stride, rowSize, pixels)
    requires b == RowEvents(destination, area, stride, rowSize, data)
    ensures a[r] == b[row + r]
  {
    RowEventAt(destination, Rect(area.x, area.y + row, area.width, rows), stride, rowSize, pixels, r);
    RowEventAt(destination, area, stride, rowSize, data, row + r);
    StripTexels(stride, rowSize, data, row, rows, area.height, end, pixels, r);
  }

  lemma StripTexels(stride: nat, rowSize: nat, data: seq<byte>, row: nat, rows: nat, height: nat, end: nat, pixels: seq<byte>, r: nat)
    requires RowsPresent(height, stride, rowSize, data) && r < rows && row + rows <= height
    requires Rows(stride, row) <= end <= |data| && pixels == data[Rows(stride, row)..end]
    requires RowsPresent(rows, stride, rowSize, pixels)
    ensures Rows(stride, r) + rowSize <= |pixels| && Rows(stride, row + r) + rowSize <= |data|
    ensures RowTexels(stride, rowSize, pixels, r) == RowTexels(stride, rowSize, data, row + r)
  {
    RowInside(rows, stride, rowSize, pixels, r);
    RowInside(height, stride, rowSize, data, row + r);
    StripRow(stride, rowSize, data, row, end, r);
  }

  /** The strip of `rows` rows starting at `row`; None when the data ends before it. */
  function StripOf(op: Operation, row: nat, rows: nat): (strip: Option<Operation>)
    requires op.WriteTexture?
    ensures strip.Some? ==>
              && strip.value.WriteTexture? && strip.value.destination == op.destination
              && strip.value.bytesPerRow == op.bytesPerRow
              && strip.value.area == Rect(op.area.x, op.area.y + row, op.area.width, rows)
  {
    var first := Rows(op.bytesPerRow, row);
    var end := StripEnd(op.bytesPerRow, op.data, row, rows);
    if first <= end
    then Some(WriteTexture(op.destination, Rect(op.area.x, op.area.y + row, op.area.width, rows),
                           op.bytesPerRow, op.data[first..end]))
    else None
  }

  /** The rows an upload writes; none when compilation rejects it. */
  function UploadEvents(f: Formats, op: Operation): seq<Event>
    requires op.WriteTexture?
  {
    if TransferStep(f, IDLE, op).Ran? then TransferStep(f, IDLE, op).events else []
  }

  lemma StripMeaning(f: Formats, op: Operation, row: nat, rows: nat)
    requires op.WriteTexture? && TransferStep(f, IDLE, op).Ran? && 0 < rows && row + rows <= op.area.height
    ensures StripOf(op, row, rows).Some?
    ensures |UploadEvents(f, op)| == op.area.height
    ensures TransferStep(f, IDLE, StripOf(op, row, rows).value) == Ran(IDLE, UploadEvents(f, op)[row..row + rows])
  {
    var rowSize := op.area.width * f[op.destination];
    StripRowsPresent(op.area.height, op.bytesPerRow, rowSize, op.data, row, rows);
    var end := StripEnd(op.bytesPerRow, op.data, row, rows);
    StripEvents(op.destination, op.area, op.bytesPerRow, rowSize, op.data, row, rows, end, op.data[Rows(op.bytesPerRow, row)..end]);
  }

  /** The strips of an upload from `row` on. */
  function Strips(op: Operation, row: nat, maxRows: nat): Option<seq<seq<Operation>>>
    requires op.WriteTexture? && maxRows > 0
    decreases op.area.height - row
  {
    if row >= op.area.height then Some([])
    else
      var rows := Min(maxRows, op.area.height - row);
      var strip, rest := StripOf(op, row, rows), Strips(op, row + rows, maxRows);
      if strip.Some? && rest.Some? then Some([[strip.value]] + rest.value) else None
  }

  lemma {:induction false} StripsBounded(f: Formats, op: Operation, row: nat, maxRows: nat)
    requires op.WriteTexture? && maxRows > 0 && Strips(op, row, maxRows).Some?
    ensures TotalDraws(Strips(op, row, maxRows).value) == 0
    ensures forall c | c in Strips(op, row, maxRows).value :: |c| == 1 && IsStrip(c[0], op, maxRows)
    decreases op.area.height - row
  {
    if row < op.area.height {
      var rows := Min(maxRows, op.area.height - row);
      StripsBounded(f, op, row + rows, maxRows);
      var strip := StripOf(op, row, rows).value;
      ChunksConcat(f, [[strip]], Strips(op, row + rows, maxRows).value);
      ChunksSnoc(f, [], [strip]);
      assert [] + [[strip]] == [[strip]];
      SingleTransferCounts(strip);
    }
  }

  /** All strips but the last have as many rows as they may. */
  predicate WholeStrip(c: seq<Operation>, maxRows: nat) { |c| == 1 && c[0].WriteTexture? && c[0].area.height == maxRows }

  lemma {:induction false} StripsWhole(op: Operation, row: nat, maxRows: nat)
    requires op.WriteTexture? && maxRows > 0 && Strips(op, row, maxRows).Some?
    ensures var strips := Strips(op, row, maxRows).value; forall i | 0 <= i < |strips| - 1 :: WholeStrip(strips[i], maxRows)
    decreases op.area.height - row
  {
    if row < op.area.height {
      var rows := Min(maxRows, op.area.height - row);
      StripsWhole(op, row + rows, maxRows);
    }
  }

  lemma {:induction false} StripsMeaning(f: Formats, op: Operation, row: nat, maxRows: nat)
    requires op.WriteTexture? && maxRows > 0 && TransferStep(f, IDLE, op).Ran? && row <= op.area.height
    ensures |UploadEvents(f, op)| == op.area.height
    ensures Strips(op, row, maxRows).Some?
    ensures ChunksMeaning(f, Strips(op, row, maxRows).value) == Some(UploadEvents(f, op)[row..])
    decreases op.area.height - row
  {
    if row < op.area.height {
      var rows := Min(maxRows, op.area.height - row);
      StripsMeaning(f, op, row + rows, maxRows);
      StripMeaning(f, op, row, rows);
      StripThenRest(f, op, row, rows, maxRows, UploadEvents(f, op), Strips(op, row + rows, maxRows).value);
    } else {
      assert UploadEvents(f, op)[row..] == [];
    }
  }

  lemma StripThenRest(f: Formats, op: Operation, row: nat, rows: nat, maxRows: nat, all: seq<Event>, rest: seq<seq<Operation>>)
    requires op.WriteTexture? && row < op.area.height && 0 < maxRows && rows == Min(maxRows, op.area.height - row)
    requires |all| == op.area.height && StripOf(op, row, rows).Some?
    requires TransferStep(f, IDLE, StripOf(op, row, rows).value) == Ran(IDLE, all[row..row + rows])
    requires Strips(op, row + rows, maxRows) == Some(rest) && ChunksMeaning(f, rest) == Some(all[row + rows..])
    ensures Strips(op, row, maxRows).Some? && ChunksMeaning(f, Strips(op, row, maxRows).value) == Some(all[row..])
  {
    TransferThenRest(f, StripOf(op, row, rows).value, rest, all[row..row + rows], all[row + rows..]);
    CutTail(all, row, row + rows);
  }

  lemma TransferThenRest(f: Formats, op: Operation, rest: seq<seq<Operation>>, first: seq<Event>, later: seq<Event>)
    requires IsTransfer(op) && TransferStep(f, IDLE, op) == Ran(IDLE, first) && ChunksMeaning(f, rest) == Some(later)
    ensures ChunksMeaning(f, [[op]] + rest) == Some(first + later)
  {
    AloneMeans(f, op, first);
    ChunksConcat(f, [[op]], rest);
  }

  lemma AloneMeans(f: Formats, op: Operation, events: seq<Event>)
    requires IsTransfer(op) && TransferStep(f, IDLE, op) == Ran(IDLE, events)
    ensures ChunksMeaning(f, [[op]]) == Some(events)
  {
    SingleTransfer(f, op);
    ChunksOne(f, [op]);
  }

  /** Cuts a texture write into row strips that write the same rows, in order.  The last row
      of the data need not be padded to the stride. */
  method SplitTextureWrite(op: Operation, ghost f: Formats, ghost ok: Judge)
    returns (r: Result<seq<seq<Operation>>, SubmitError>)
    requires op.WriteTexture?
    ensures r.Ok? && TakesParts(ok) && ok(IDLE, op) ==> Takes(ok, r.value)
    ensures op.bytesPerRow == 0 ==> r == Err(UnsupportedUpload)
    ensures r.Ok? ==> op.bytesPerRow > 0 && TotalDraws(r.value) == 0
    ensures r.Ok? ==> forall c | c in r.value ::
                        |c| == 1 && IsStrip(c[0], op, StripRows(op.bytesPerRow, op.area.width))
    ensures r.Ok? ==> forall i | 0 <= i < |r.value| - 1 :: WholeStrip(r.value[i], StripRows(op.bytesPerRow, op.area.width))
    ensures TransferStep(f, IDLE, op).Ran? ==>
              r.Ok? && ChunksMeaning(f, r.value) == Some(TransferStep(f, IDLE, op).events)
  {
    if op.bytesPerRow == 0 {
      return Err(UnsupportedUpload);
    }
    var maxRows := StripRows(op.bytesPerRow, op.area.width);
    StripBytes(op.bytesPerRow, op.area.width);
    r := CutStrips(op, maxRows);
    if TransferStep(f, IDLE, op).Ran? {
      StripsMeaning(f, op, 0, maxRows);
      assert UploadEvents(f, op)[0..] == UploadEvents(f, op);
    }
    if r.Ok? {
      StripsBounded(f, op, 0, maxRows);
      StripsWhole(op, 0, maxRows);
      if TakesParts(ok) && ok(IDLE, op) {
        StripsTaken(ok, op, 0, maxRows);
      }
    }
  }

  method CutStrips(op: Operation, maxRows: nat) returns (r: Result<seq<seq<Operation>>, SubmitError>)
    requires op.WriteTexture? && maxRows > 0
    ensures r == if Strips(op, 0, maxRows).Some? then Ok(Strips(op, 0, maxRows).value) else Err(UnsupportedUpload)
  {
    var chunks: seq<seq<Operation>> := [];
    var row := 0;
    assert Strips(op, 0, maxRows).Some? ==> [] + Strips(op, 0, maxRows).value == Strips(op, 0, maxRows).value;
    while row < op.area.height
      invariant Strips(op, 0, maxRows) ==
                if Strips(op, row, maxRows).Some? then Some(chunks + Strips(op, row, maxRows).value) else None
    {
      var rows := Min(maxRows, op.area.height - row);
      var strip := StripOf(op, row, rows);
      if strip.None? {
        return Err(UnsupportedUpload);
      }
      ghost var rest := Strips(op, row + rows, maxRows);
      assert rest.Some? ==> chunks + ([[strip.value]] + rest.value) == (chunks + [[strip.value]]) + rest.value;
      chunks := chunks + [[strip.value]];
      row := row + rows;
    }
    assert chunks + [] == chunks;
    return Ok(chunks);
  }

  // ---- the whole stream ---------------------------------------------------------------------

  /** An upload small enough to be staged: a piece of a buffer write, or a strip of a texture write. */
  predicate Stageable(op: Operation)
    requires IsTransfer(op)
  {
    match op
    case WriteBuffer(_, _, _) => IsPiece(op)
    case WriteTexture(_, area, stride, _) => stride > 0 && 0 < area.height <= StripRows(stride, area.width)
    case _ => true
  }

  /** A submission is one transfer that can be staged, or render work within its draw limits. */
  predicate Bounded(c: seq<Operation>) {
    || (|c| == 1 && IsTransfer(c[0]) && Stageable(c[0]))
    || (c != [] && Rendering(c) && WithinLimits(c, GRAPHICS_DRAWS))
  }

  /** The chunks so far and the render work still to be split have done what `done` has. */
  ghost predicate Following(f: Formats, done: seq<Operation>, chunks: seq<seq<Operation>>, graphics: seq<Operation>) {
    var whole, part, before := Run(f, done), Run(f, graphics), ChunksMeaning(f, chunks);
    && whole.Ran? && part.Ran? && before.Some?
    && whole.state == part.state
    && whole.events == before.value + part.events
  }

  lemma FlushFollows(f: Formats, done: seq<Operation>, chunks: seq<seq<Operation>>, graphics: seq<Operation>,
                     flushed: seq<seq<Operation>>)
    requires Following(f, done, chunks, graphics) && Run(f, done).state.pass.None?
    requires ChunksMeaning(f, flushed) == Meaning(f, graphics)
    ensures Following(f, done, chunks + flushed, [])
  {
    ChunksConcat(f, chunks, flushed);
    IdleIsUnbound(f, done);
    assert ChunksMeaning(f, chunks + flushed).value + [] == ChunksMeaning(f, chunks + flushed).value;
  }

  lemma TransferFollows(f: Formats, done: seq<Operation>, chunks: seq<seq<Operation>>, op: Operation,
                        pieces: seq<seq<Operation>>)
    requires Following(f, done, chunks, []) && IsTransfer(op) && Run(f, done + [op]).Ran?
    requires ChunksMeaning(f, pieces) == Some(TransferStep(f, IDLE, op).events)
    ensures Following(f, done + [op], chunks + pieces, [])
  {
    RunSnoc(f, done, op);
    ChunksConcat(f, chunks, pieces);
    assert Run(f, done).events == ChunksMeaning(f, chunks).value;
    assert Run(f, done).state == IDLE;
  }

  lemma GraphicsFollows(f: Formats, done: seq<Operation>, chunks: seq<seq<Operation>>, graphics: seq<Operation>, op: Operation)
    requires Following(f, done, chunks, graphics) && Run(f, done + [op]).Ran?
    ensures Following(f, done + [op], chunks, graphics + [op])
  {
    RunSnoc(f, done, op);
    RunSnoc(f, graphics, op);
    Assoc(ChunksMeaning(f, chunks).value, Run(f, graphics).events, Step(f, Run(f, done).state, op).events);
  }

  lemma WholeTransfer(f: Formats, op: Operation)
    requires op.CopyTexture? || op.BlitTexture?
    ensures TotalDraws([[op]]) == 0 && ChunksMeaning(f, [[op]]) == Some(TransferStep(f, IDLE, op).events)
  {
    AloneMeans(f, op, [Transferred(op)]);
    SingleTransferCounts(op);
    assert [[op]][..0] == [];
  }

  method SplitTransfer(op: Operation, ghost f: Formats, ghost ok: Judge) returns (r: Result<seq<seq<Operation>>, SubmitError>)
    requires IsTransfer(op)
    ensures r.Ok? && TakesParts(ok) && ok(IDLE, op) ==> Takes(ok, r.value)
    ensures r.Ok? ==> TotalDraws(r.value) == 0 && forall c | c in r.value :: Bounded(c)
    ensures TransferStep(f, IDLE, op).Ran? ==>
              r.Ok? && ChunksMeaning(f, r.value) == Some(TransferStep(f, IDLE, op).events)
  {
    if op.WriteBuffer? {
      r := SplitBufferWrite(op.destination, op.offset, op.data, f, ok);
    } else if op.WriteTexture? {
      r := SplitTextureWrite(op, f, ok);
    } else {
      WholeTransfer(f, op);
      r := Ok([[op]]);
    }
  }

  ghost predicate AllChunksOk(f: Formats, ok: Judge, chunks: seq<seq<Operation>>) {
    forall c | c in chunks :: AllOk(f, ok, c)
  }

  /** A judge that accepts the parts of what it accepts, and the whole of a stream that has a meaning. */
  ghost predicate Fair(f: Formats, ok: Judge, source: seq<Operation>) {
    Tolerant(ok) && TakesParts(ok) && AllOk(f, ok, source) && Meaning(f, source).Some?
  }

  /** What is accepted of the stream is accepted of the chunks so far and of the render work still to be split. */
  ghost predicate FineSoFar(f: Formats, ok: Judge, done: seq<Operation>, chunks: seq<seq<Operation>>, graphics: seq<Operation>) {
    Following(f, done, chunks, graphics) && AllChunksOk(f, ok, chunks) && AllOk(f, ok, graphics)
  }

  lemma RenderFine(f: Formats, ok: Judge, done: seq<Operation>, chunks: seq<seq<Operation>>, graphics: seq<Operation>, op: Operation)
    requires FineSoFar(f, ok, done, chunks, graphics) && AllOk(f, ok, done + [op]) && Run(f, done + [op]).Ran?
    ensures FineSoFar(f, ok, done + [op], chunks, graphics + [op])
  {
    AllOkSnoc(f, ok, done, op);
    AllOkSnoc(f, ok, graphics, op);
    GraphicsFollows(f, done, chunks, graphics, op);
  }

  /** A transfer is accepted where the machine is idle. */
  lemma TransferAtRest(f: Formats, ok: Judge, done: seq<Operation>, op: Operation)
    requires IsTransfer(op) && AllOk(f, ok, done + [op]) && Run(f, done + [op]).Ran?
    ensures ok(IDLE, op)
  {
    AllOkSnoc(f, ok, done, op);
    RunSnoc(f, done, op);
    IdleIsUnbound(f, done);
  }

  /** Closes the render work before a transfer, and adds the transfer's own chunks. */
  method SplitAround(chunks: seq<seq<Operation>>, graphics: seq<Operation>, op: Operation, ghost f: Formats, ghost ok: Judge,
                     ghost done: seq<Operation>, ghost accepted: bool, ghost fair: bool)
    returns (r: Result<seq<seq<Operation>>, SubmitError>)
    requires IsTransfer(op) && Rendering(graphics) && forall c | c in chunks :: Bounded(c)
    requires accepted ==> Following(f, done, chunks, graphics) && Run(f, done + [op]).Ran?
    requires fair ==> accepted && Tolerant(ok) && TakesParts(ok) && AllOk(f, ok, done + [op])
    requires fair ==> AllChunksOk(f, ok, chunks) && AllOk(f, ok, graphics)
    ensures r.Ok? ==> TotalDraws(r.value) == TotalDraws(chunks) + DrawCount(graphics) && forall c | c in r.value :: Bounded(c)
    ensures accepted ==> r.Ok? && Following(f, done + [op], r.value, [])
    ensures fair && r.Ok? ==> AllChunksOk(f, ok, r.value)
  {
    if accepted {
      RunSnoc(f, done, op);
    }
    var preceding := SplitSubmissionOperations(graphics, GRAPHICS_DRAWS, f, ok);
    if preceding.Err? {
      return Err(preceding.error);
    }
    ChunksConcat(f, chunks, preceding.value);
    if accepted {
      FlushFollows(f, done, chunks, graphics, preceding.value);
    }
    var pieces := SplitTransfer(op, f, ok);
    if pieces.Err? {
      return Err(pieces.error);
    }
    ChunksConcat(f, chunks + preceding.value, pieces.value);
    if accepted {
      TransferFollows(f, done, chunks + preceding.value, op, pieces.value);
    }
    if fair {
      TransferAtRest(f, ok, done, op);
      AllAloneOk(f, ok, pieces.value);
    }
    r := Ok(chunks + preceding.value + pieces.value);
  }

  /** Splits a whole stream.  Whatever the stream means, its chunks mean, one after another; each is one
      staged transfer or bounded render work; and whatever a fair judge accepts of the stream it accepts of
      every chunk. */
  method SplitAsyncOperations(source: seq<Operation>, ghost f: Formats, ghost ok: Judge)
    returns (r: Result<seq<seq<Operation>>, SubmitError>)
    ensures r.Ok? ==> TotalDraws(r.value) == DrawCount(source) && forall c | c in r.value :: Bounded(c)
    ensures Meaning(f, source).Some? ==> r.Ok? && ChunksMeaning(f, r.value) == Meaning(f, source)
    ensures r.Ok? && Fair(f, ok, source) ==> AllChunksOk(f, ok, r.value)
  {
    var chunks: seq<seq<Operation>> := [];
    var graphics: seq<Operation> := [];
    ghost var accepted, fair := Meaning(f, source).Some?, Fair(f, ok, source);
    for i := 0 to |source|
      invariant TotalDraws(chunks) + DrawCount(graphics) == DrawCount(source[..i])
      invariant Rendering(graphics) && forall c | c in chunks :: Bounded(c)
      invariant accepted ==> Following(f, source[..i], chunks, graphics)
      invariant fair ==> AllChunksOk(f, ok, chunks) && AllOk(f, ok, graphics)
    {
      var op := source[i];
      assert source[..i + 1] == source[..i] + [op];
      DrawCountSnoc(source[..i], op);
      if accepted {
        PrefixRuns(f, source, i + 1);
      }
      if fair {
        AllOkPrefix(f, ok, source, i + 1);
      }
      if IsTransfer(op) {
        var around := SplitAround(chunks, graphics, op, f, ok, source[..i], accepted, fair);
        if around.Err? {
          return around;
        }
        chunks, graphics := around.value, [];
      } else {
        DrawCountSnoc(graphics, op);
        if fair {
          RenderFine(f, ok, source[..i], chunks, graphics, op);
        } else if accepted {
          GraphicsFollows(f, source[..i], chunks, graphics, op);
        }
        graphics := graphics + [op];
      }
    }
    assert source[..|source|] == source;
    var trailing := SplitSubmissionOperations(graphics, GRAPHICS_DRAWS, f, ok);
    if trailing.Err? {
      return Err(trailing.error);
    }
    ChunksConcat(f, chunks, trailing.value);
    return Ok(chunks + trailing.value);
  }
}
