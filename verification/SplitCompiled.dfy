/** Splitting and compiling together: the chunks of a stream, compiled one by one and run one after another, do
    what the stream compiled whole does. */
module SplitCompiled {
  import opened Wrappers
  import opened Arith
  import opened Images
  import opened Uploads
  import opened Painting
  import opened Splitter
  import opened AsyncSplit
  import opened Retry
  import opened Compile
  import opened CompileStream
  import opened CompiledWrites
  import opened CompiledActs
  import opened Acceptance
  import P = PixelMeaning
  import A = Acts
  import O = Operations

  /** The memory of one object after the copies of every chunk in turn, each with its own staged uploads. */
  function RunChunks(i: Input, chunks: seq<seq<O.Operation>>, target: nat, mem: seq<byte>): seq<byte>
    requires AllLower(i, chunks)
  {
    if chunks == [] then mem
    else
      assert chunks[|chunks| - 1] in chunks;
      var l := LowerStream(i, chunks[|chunks| - 1]).value;
      RunCopies(AllCommands(l), Staging(l.generated), target, RunChunks(i, chunks[..|chunks| - 1], target, mem))
  }

  /** The chunks do the work, in order, each with its own texture states. */
  ghost predicate RunsWork(i: Input, chunks: seq<seq<O.Operation>>, work: seq<O.Event>)
    requires AllLower(i, chunks)
    decreases |chunks|
  {
    if chunks == [] then work == []
    else
      assert chunks[|chunks| - 1] in chunks;
      var l := LowerStream(i, chunks[|chunks| - 1]).value;
      var acts := A.ActsFrom([], AllCommands(l));
      && |acts| <= |work|
      && RunsWork(i, chunks[..|chunks| - 1], work[..|work| - |acts|])
      && AllPerform(i, l.states, acts, work[|work| - |acts|..])
  }

  lemma {:induction false} ChunksWrite(i: Input, chunks: seq<seq<O.Operation>>, target: nat, mem: seq<byte>)
    requires AllLower(i, chunks) && IsMemory(i, target, mem)
    ensures O.ChunksMeaning(FormatsOf(i.resources), chunks).Some?
    ensures RunChunks(i, chunks, target, mem) == AllWritten(i, target, O.ChunksMeaning(FormatsOf(i.resources), chunks).value, mem)
  {
    if chunks != [] {
      var f, front, last := FormatsOf(i.resources), chunks[..|chunks| - 1], chunks[|chunks| - 1];
      ChunksWrite(i, front, target, mem);
      var before := O.ChunksMeaning(f, front).value;
      assert last in chunks;
      CompiledCopies(i, last, target, AllWritten(i, target, before, mem));
      WrittenConcat(i, target, before, O.Meaning(f, last).value, mem);
    }
  }

  lemma {:induction false} ChunksWork(i: Input, chunks: seq<seq<O.Operation>>)
    requires AllLower(i, chunks)
    ensures O.ChunksMeaning(FormatsOf(i.resources), chunks).Some?
    ensures RunsWork(i, chunks, WorkOf(O.ChunksMeaning(FormatsOf(i.resources), chunks).value))
  {
    if chunks != [] {
      var f, front, last := FormatsOf(i.resources), chunks[..|chunks| - 1], chunks[|chunks| - 1];
      ChunksWork(i, front);
      assert last in chunks;
      CompiledWork(i, last);
      var before, now := O.ChunksMeaning(f, front).value, O.Meaning(f, last).value;
      WorkConcat(before, now);
      assert (WorkOf(before) + WorkOf(now))[..|WorkOf(before)|] == WorkOf(before);
      assert (WorkOf(before) + WorkOf(now))[|WorkOf(before)|..] == WorkOf(now);
    }
  }

  /** Compiled and run one by one, the chunks copy into every object what the stream compiled whole does, and do
      the same work in the same order. */
  ghost predicate SameEffect(i: Input, source: seq<O.Operation>, chunks: seq<seq<O.Operation>>)
    requires LowerStream(i, source).Ok?
  {
    var l, meaning := LowerStream(i, source).value, O.Meaning(FormatsOf(i.resources), source);
    && AllLower(i, chunks) && meaning.Some? && RunsWork(i, chunks, WorkOf(meaning.value))
    && forall target, mem | IsMemory(i, target, mem) ::
         RunChunks(i, chunks, target, mem) == RunCopies(AllCommands(l), Staging(l.generated), target, mem)
  }

  lemma ChunksSameEffect(i: Input, source: seq<O.Operation>, chunks: seq<seq<O.Operation>>)
    requires LowerStream(i, source).Ok? && AllLower(i, chunks)
    requires O.ChunksMeaning(FormatsOf(i.resources), chunks) == O.Meaning(FormatsOf(i.resources), source)
    ensures SameEffect(i, source, chunks)
  {
    ChunksWork(i, chunks);
    forall target, mem | IsMemory(i, target, mem)
      ensures var l := LowerStream(i, source).value;
              RunChunks(i, chunks, target, mem) == RunCopies(AllCommands(l), Staging(l.generated), target, mem)
    {
      ChunksWrite(i, chunks, target, mem);
      CompiledCopies(i, source, target, mem);
    }
  }

  /** Splits a stream for a compile input.  What is lowered whole is lowered chunk by chunk, to the same effect. */
  method SplitForInput(i: Input, source: seq<O.Operation>) returns (r: Result<seq<seq<O.Operation>>, SubmitError>)
    ensures LowerStream(i, source).Ok? ==> r.Ok? && AllLower(i, r.value) && SameEffect(i, source, r.value)
  {
    r := SplitAsyncOperations(source, FormatsOf(i.resources), Compiler(i));
    if LowerStream(i, source).Ok? {
      LoweredIsFair(i, source);
      ChunksLower(i, r.value);
      ChunksSameEffect(i, source, r.value);
    }
  }

  /** Prepares a stream for a compile input.  When it is lowered whole, so is every chunk the loop accepts, however
      often it splits, and the one that stops it: lowering is never why.  All accepted, the effect is the same. */
  method PrepareForInput(i: Input, source: seq<O.Operation>, answer: (nat, seq<O.Operation>) -> Answer)
    returns (accepted: seq<seq<O.Operation>>, r: Result<nat, RetryError>)
    ensures LowerStream(i, source).Ok? ==> AllLower(i, accepted) && (r.Ok? ==> SameEffect(i, source, accepted))
    ensures LowerStream(i, source).Ok? && r.Err? ==> !r.error.SplitFailed? && LowerStream(i, r.error.chunk).Ok?
  {
    ghost var f, calls := FormatsOf(i.resources), [];
    accepted, r, calls := PrepareAll(source, answer, f, Compiler(i));
    if LowerStream(i, source).Ok? {
      LoweredIsFair(i, source);
      ChunksLower(i, accepted);
      if r.Ok? {
        ChunksSameEffect(i, source, accepted);
      } else {
        EveryChunkMeans(f, accepted + [r.error.chunk]);
        ChunkLowers(i, r.error.chunk);
      }
    }
  }

  /** Where a linear image keeps a pixel, from its description alone. */
  function PixelPlace(image: ImageMeta, x: nat, y: nat): nat
    requires image.planes != []
  {
    image.planes[0].offset + y * image.planes[0].stride + 4 * x
  }

  /** The byte is in row r of the rectangle. */
  predicate InAreaRow(image: ImageMeta, area: O.Rect, r: nat, at: nat)
    requires image.planes != []
  {
    PixelPlace(image, area.x, area.y + r) <= at < PixelPlace(image, area.x + area.width, area.y + r)
  }

  /** The byte is in no row of the rectangle. */
  predicate OutsideArea(image: ImageMeta, area: O.Rect, at: nat)
    requires image.planes != []
  {
    forall r | 0 <= r < area.height :: !InAreaRow(image, area, r, at)
  }

  /** Pixel x of row r of the write has the colour of its client texel. */
  ghost predicate ShowsTexel(image: ImageMeta, op: O.Operation, now: seq<byte>, r: nat, x: nat)
    requires op.WriteTexture? && image.planes != []
  {
    var place, texel := PixelPlace(image, op.area.x + x, op.area.y + r), r * op.bytesPerRow + TexelSize(image.format) * x;
    && Uploadable(image.format) && place + 4 <= |now| && texel + TexelSize(image.format) <= |op.data|
    && StoredColour(now, place) == ClientColour(image.format, op.data, texel)
  }

  /** The image shows the client's texels in the rectangle of the write, and is as it was everywhere else. */
  ghost predicate ShowsWrite(image: ImageMeta, op: O.Operation, mem: seq<byte>, now: seq<byte>)
    requires op.WriteTexture? && image.planes != []
  {
    && |now| == |mem|
    && (forall r: nat, x: nat | r < op.area.height && x < op.area.width :: ShowsTexel(image, op, now, r, x))
    && (forall at | 0 <= at < |mem| && OutsideArea(image, op.area, at) :: now[at] == mem[at])
  }

  /** Splitting an upload into strips, compiling each and running its bounded row copies, leaves exactly the colours
      of the whole write at the places the image's first plane gives its pixels, and nothing else. */
  lemma SplitUploadCompiled(i: Input, op: O.Operation, chunks: seq<seq<O.Operation>>, mem: seq<byte>)
    requires op.WriteTexture? && LowerStream(i, [op]).Ok? && SameEffect(i, [op], chunks) && IsMemory(i, op.destination, mem)
    ensures SurfaceFor(i, op.destination, CopyDst).Ok? && Present(SourceOf(CanvasFor(i, op.destination), op))
    ensures Painted(CanvasFor(i, op.destination), op.area, PixelRows(SourceOf(CanvasFor(i, op.destination), op)), mem,
                    RunChunks(i, chunks, op.destination, mem))
    ensures var image := Find(i.resources, op.destination).value.kind.image;
            image.planes != [] && ShowsWrite(image, op, mem, RunChunks(i, chunks, op.destination, mem))
  {
    P.SingleUpload(i, op);
    CompiledCopies(i, [op], op.destination, mem);
    UploadPaints(i, op, mem);
    PaintedShows(i, op, mem, RunChunks(i, chunks, op.destination, mem));
  }

  lemma CanvasPlace(i: Input, target: nat, x: nat, y: nat)
    requires SurfaceFor(i, target, CopyDst).Ok?
    ensures Find(i.resources, target).Ok? && Find(i.resources, target).value.kind.Image?
    ensures var image := Find(i.resources, target).value.kind.image;
            image.planes != [] && CanvasFor(i, target).format == image.format
            && PixelAt(CanvasFor(i, target), x, y) == PixelPlace(image, x, y)
  {
    RowsIsProduct(CanvasFor(i, target).stride, y);
  }

  lemma PaintedShows(i: Input, op: O.Operation, mem: seq<byte>, now: seq<byte>)
    requires op.WriteTexture? && WriteTextureError(i, op.destination, op.area, op.bytesPerRow, op.data).None?
    requires Present(SourceOf(CanvasFor(i, op.destination), op)) && IsMemory(i, op.destination, mem)
    requires Painted(CanvasFor(i, op.destination), op.area, PixelRows(SourceOf(CanvasFor(i, op.destination), op)), mem, now)
    ensures var image := Find(i.resources, op.destination).value.kind.image;
            image.planes != [] && ShowsWrite(image, op, mem, now)
  {
    var c, r := CanvasFor(i, op.destination), Find(i.resources, op.destination).value;
    CanvasPlace(i, op.destination, 0, 0);
    AreaInside(r, i.maxPitch, op.area, r.kind.image.format);
    forall y: nat, x: nat | y < op.area.height && x < op.area.width
      ensures ShowsTexel(r.kind.image, op, now, y, x)
    {
      PaintedColour(c, op.area, SourceOf(c, op), mem, now, x, y);
      CanvasPlace(i, op.destination, op.area.x + x, op.area.y + y);
    }
    forall at | 0 <= at < |mem| && OutsideArea(r.kind.image, op.area, at)
      ensures now[at] == mem[at]
    {
      OutsideStays(i, op, at);
    }
  }

  lemma OutsideStays(i: Input, op: O.Operation, at: nat)
    requires op.WriteTexture? && SurfaceFor(i, op.destination, CopyDst).Ok?
    requires var image := Find(i.resources, op.destination).value.kind.image; image.planes != [] && OutsideArea(image, op.area, at)
    ensures RowAt(CanvasFor(i, op.destination), op.area, op.area.height, at).None?
  {
    var found := RowAt(CanvasFor(i, op.destination), op.area, op.area.height, at);
    if found.Some? {
      CanvasPlace(i, op.destination, op.area.x, op.area.y + found.value);
      CanvasPlace(i, op.destination, op.area.x + op.area.width, op.area.y + found.value);
      assert !InAreaRow(Find(i.resources, op.destination).value.kind.image, op.area, found.value, at);
      assert false;
    }
  }

  lemma UploadPaints(i: Input, op: O.Operation, mem: seq<byte>)
    requires op.WriteTexture? && WriteTextureError(i, op.destination, op.area, op.bytesPerRow, op.data).None?
    requires O.TransferStep(FormatsOf(i.resources), O.IDLE, op).Ran? && IsMemory(i, op.destination, mem)
    ensures SurfaceFor(i, op.destination, CopyDst).Ok? && Present(SourceOf(CanvasFor(i, op.destination), op))
    ensures Painted(CanvasFor(i, op.destination), op.area, PixelRows(SourceOf(CanvasFor(i, op.destination), op)), mem,
                    AllWritten(i, op.destination, O.TransferStep(FormatsOf(i.resources), O.IDLE, op).events, mem))
  {
    var f, c, r := FormatsOf(i.resources), CanvasFor(i, op.destination), Find(i.resources, op.destination).value;
    FoundFormat(i.resources, op.destination);
    AreaInside(r, i.maxPitch, op.area, r.kind.image.format);
    RowsApply(i, op.destination, O.TransferStep(f, O.IDLE, op).events, mem);
    EventsArePokes(f, c, op, mem);
    RowsPaint(c, op.area, PixelRows(SourceOf(c, op)), mem);
  }
}
