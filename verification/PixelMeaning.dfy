/** Where uploaded pixels belong: at the addresses the image's own modifier gives them.  Uploads put them there
    exactly when the image is linear. */
module PixelMeaning {
  import opened Wrappers
  import opened Arith
  import opened Images
  import opened Layout
  import opened Uploads
  import opened Painting
  import opened Lowering
  import opened Compile
  import opened CompileStream
  import opened CompiledWrites
  import AsyncSplit
  import O = Operations

  /** Where the hardware keeps the pixels of a tiled image; nothing is assumed about it. */
  type Tiling = (nat, nat) -> nat

  predicate IsLinear(i: Input, target: nat) {
    var r := Find(i.resources, target);
    r.Ok? && (r.value.kind.Image? ==> r.value.kind.image.modifier == Linear)
  }

  /** Where a draw that samples the image finds a pixel. */
  function ReadAt(i: Input, tiling: Tiling, target: nat, x: nat, y: nat): nat
    requires SurfaceFor(i, target, CopyDst).Ok?
  {
    if IsLinear(i, target) then PixelAt(CanvasFor(i, target), x, y) else tiling(x, y)
  }

  /** Pixels x and after of row y written one by one, each at its own address. */
  function PokePixels(i: Input, tiling: Tiling, target: nat, x: nat, y: nat, bytes: seq<byte>, n: nat, mem: seq<byte>): (r: seq<byte>)
    requires SurfaceFor(i, target, CopyDst).Ok? && 4 * n <= |bytes|
    ensures |r| == |mem|
  {
    if n == 0 then mem
    else
      Poke(PokePixels(i, tiling, target, x, y, bytes, n - 1, mem), ReadAt(i, tiling, target, x + (n - 1), y), bytes[4 * (n - 1)..4 * n])
  }

  /** What an event means for the bytes of one object. */
  function Meant(i: Input, tiling: Tiling, target: nat, e: O.Event, mem: seq<byte>): (r: seq<byte>)
    ensures |r| == |mem|
  {
    if e.RowWritten? && e.destination == target && SurfaceFor(i, target, CopyDst).Ok? then
      var f := CanvasFor(i, target).format;
      if Uploadable(f) && RowSize(f, e.width) <= |e.texels|
      then PokePixels(i, tiling, target, e.x, e.y, ConvertRow(f, e.width, e.texels), e.width, mem) else mem
    else Written(i, target, e, mem)
  }

  function AllMeant(i: Input, tiling: Tiling, target: nat, es: seq<O.Event>, mem: seq<byte>): (r: seq<byte>)
    ensures |r| == |mem|
  {
    if es == [] then mem else Meant(i, tiling, target, es[|es| - 1], AllMeant(i, tiling, target, es[..|es| - 1], mem))
  }

  lemma {:induction false} MeantConcat(i: Input, tiling: Tiling, target: nat, a: seq<O.Event>, b: seq<O.Event>, mem: seq<byte>)
    ensures AllMeant(i, tiling, target, a + b, mem) == AllMeant(i, tiling, target, b, AllMeant(i, tiling, target, a, mem))
  {
    if b == [] {
      assert a + b == a;
    } else {
      assert (a + b)[..|a + b| - 1] == a + b[..|b| - 1];
      MeantConcat(i, tiling, target, a, b[..|b| - 1], mem);
    }
  }

  // ---- linear images ------------------------------------------------------------------------------------------------------

  /** In a linear image the pixels of a row are one run of bytes. */
  lemma {:induction false} LinearRow(i: Input, tiling: Tiling, target: nat, x: nat, y: nat, bytes: seq<byte>, n: nat, mem: seq<byte>)
    requires SurfaceFor(i, target, CopyDst).Ok? && IsLinear(i, target) && 4 * n <= |bytes|
    requires PixelAt(CanvasFor(i, target), x, y) + 4 * n <= |mem|
    ensures PokePixels(i, tiling, target, x, y, bytes, n, mem) == Poke(mem, PixelAt(CanvasFor(i, target), x, y), bytes[..4 * n])
  {
    var base := PixelAt(CanvasFor(i, target), x, y);
    if n == 0 {
      PokeNothing(mem, base);
    } else {
      LinearRow(i, tiling, target, x, y, bytes, n - 1, mem);
      NextPixel(mem, base, bytes, n - 1);
    }
  }

  lemma NextPixel(mem: seq<byte>, base: nat, bytes: seq<byte>, n: nat)
    requires 4 * (n + 1) <= |bytes| && base + 4 * (n + 1) <= |mem|
    ensures Poke(Poke(mem, base, bytes[..4 * n]), base + 4 * n, bytes[4 * n..4 * (n + 1)]) == Poke(mem, base, bytes[..4 * (n + 1)])
  {
    PokeTwice(mem, base, bytes[..4 * n], bytes[4 * n..4 * (n + 1)]);
    assert bytes[..4 * n] + bytes[4 * n..4 * (n + 1)] == bytes[..4 * (n + 1)];
  }

  /** The event's row, if it is one of the object's, lies in memory. */
  predicate RowInMemory(i: Input, target: nat, e: O.Event, size: nat) {
    e.RowWritten? && e.destination == target && SurfaceFor(i, target, CopyDst).Ok? ==>
      PixelAt(CanvasFor(i, target), e.x, e.y) + 4 * e.width <= size
  }

  lemma EventMeans(i: Input, tiling: Tiling, target: nat, e: O.Event, mem: seq<byte>)
    requires IsLinear(i, target) && RowInMemory(i, target, e, |mem|)
    ensures Meant(i, tiling, target, e, mem) == Written(i, target, e, mem)
  {
    if e.RowWritten? && e.destination == target && SurfaceFor(i, target, CopyDst).Ok? {
      var f := CanvasFor(i, target).format;
      if Uploadable(f) && RowSize(f, e.width) <= |e.texels| {
        var bytes := ConvertRow(f, e.width, e.texels);
        LinearRow(i, tiling, target, e.x, e.y, bytes, e.width, mem);
        assert bytes[..4 * e.width] == bytes;
      }
    }
  }

  lemma {:induction false} EventsMean(i: Input, tiling: Tiling, target: nat, es: seq<O.Event>, mem: seq<byte>)
    requires IsLinear(i, target) && forall e | e in es :: RowInMemory(i, target, e, |mem|)
    ensures AllMeant(i, tiling, target, es, mem) == AllWritten(i, target, es, mem)
  {
    if es != [] {
      var front := es[..|es| - 1];
      EventsMean(i, tiling, target, front, mem);
      EventMeans(i, tiling, target, es[|es| - 1], AllWritten(i, target, front, mem));
    }
  }

  // ---- every accepted row is in memory ----------------------------------------------------------------------------------------

  lemma UploadInMemory(i: Input, op: O.Operation, target: nat, size: nat, e: O.Event)
    requires op.WriteTexture? && WriteTextureError(i, op.destination, op.area, op.bytesPerRow, op.data).None?
    requires O.TransferStep(FormatsOf(i.resources), O.IDLE, op).Ran? && e in O.TransferStep(FormatsOf(i.resources), O.IDLE, op).events
    requires Find(i.resources, target).Ok? && size == Find(i.resources, target).value.size
    ensures RowInMemory(i, target, e, size)
  {
    if target == op.destination {
      var r := Find(i.resources, target).value;
      var es := O.TransferStep(FormatsOf(i.resources), O.IDLE, op).events;
      var k :| 0 <= k < |es| && es[k] == e;
      AreaInside(r, i.maxPitch, op.area, r.kind.image.format);
      RowFits(CanvasFor(i, target), op.area, size, k);
    }
  }

  lemma StepInMemory(i: Input, s: State, l: Lowered, op: O.Operation, target: nat, size: nat, e: O.Event)
    requires (l.active ==> l.sequence.Some?) && LowerOne(i, s, l, op).Ok? && O.Step(FormatsOf(i.resources), s.machine, op).Ran?
    requires e in O.Step(FormatsOf(i.resources), s.machine, op).events
    requires Find(i.resources, target).Ok? && size == Find(i.resources, target).value.size
    ensures RowInMemory(i, target, e, size)
  {
    if op.WriteTexture? {
      UploadInMemory(i, op, target, size, e);
    }
  }

  lemma {:induction false} RunInMemory(i: Input, ops: seq<O.Operation>, target: nat, size: nat, e: O.Event)
    requires LowerRun(i, ops).Ok? && e in O.Run(FormatsOf(i.resources), ops).events
    requires Find(i.resources, target).Ok? && size == Find(i.resources, target).value.size
    ensures RowInMemory(i, target, e, size)
  {
    var n, f := |ops| - 1, FormatsOf(i.resources);
    var s, l := LowerRun(i, ops[..n]).value.0, LowerRun(i, ops[..n]).value.1;
    AcceptedRuns(i, s, l, ops[n]);
    if e in O.Run(f, ops[..n]).events {
      RunInMemory(i, ops[..n], target, size, e);
    } else {
      StepInMemory(i, s, l, ops[n], target, size, e);
    }
  }

  /** The compiler is right about uploads to buffers and linear images: running the copies of a compiled stream
      leaves exactly what its byte and pixel writes mean. */
  lemma CompiledUploads(i: Input, ops: seq<O.Operation>, tiling: Tiling, target: nat, mem: seq<byte>)
    requires LowerStream(i, ops).Ok? && IsMemory(i, target, mem)
    ensures O.Meaning(FormatsOf(i.resources), ops).Some?
    ensures var l := LowerStream(i, ops).value;
            IsLinear(i, target) ==>
              RunCopies(AllCommands(l), Staging(l.generated), target, mem) ==
              AllMeant(i, tiling, target, O.Meaning(FormatsOf(i.resources), ops).value, mem)
  {
    CompiledCopies(i, ops, target, mem);
    if IsLinear(i, target) {
      var es := O.Meaning(FormatsOf(i.resources), ops).value;
      forall e | e in es
        ensures RowInMemory(i, target, e, |mem|)
      {
        RunInMemory(i, ops, target, |mem|, e);
      }
      EventsMean(i, tiling, target, es, mem);
    }
  }

  // ---- tiled images -----------------------------------------------------------------------------------------------------------

  /** An upload of one pixel. */
  function OnePixel(target: nat, x: nat, y: nat, texel: seq<byte>): O.Operation {
    O.WriteTexture(target, O.Rect(x, y, 1, 1), 4, texel)
  }

  /** Compiling the upload alone and running its copies does what the upload means. */
  ghost predicate UploadsRight(i: Input, tiling: Tiling, op: O.Operation)
    requires op.WriteTexture? && LowerStream(i, [op]).Ok?
  {
    var l := LowerStream(i, [op]).value;
    forall mem | IsMemory(i, op.destination, mem) ::
      RunCopies(AllCommands(l), Staging(l.generated), op.destination, mem) ==
      AllMeant(i, tiling, op.destination, O.Meaning(FormatsOf(i.resources), [op]).value, mem)
  }

  /** What one accepted upload is: its own validation passed, and its meaning is its rows. */
  lemma SingleUpload(i: Input, op: O.Operation)
    requires op.WriteTexture? && LowerStream(i, [op]).Ok?
    ensures WriteTextureError(i, op.destination, op.area, op.bytesPerRow, op.data).None?
    ensures O.TransferStep(FormatsOf(i.resources), O.IDLE, op).Ran?
    ensures O.Meaning(FormatsOf(i.resources), [op]) == Some(O.TransferStep(FormatsOf(i.resources), O.IDLE, op).events)
  {
    assert [op][..0] == [];
    assert LowerRun(i, [op][..0]) == Ok((State(O.IDLE, false), NOTHING_LOWERED));
    AcceptedRuns(i, State(O.IDLE, false), NOTHING_LOWERED, op);
    AsyncSplit.SingleTransfer(FormatsOf(i.resources), op);
  }

  /** The event of a one-pixel upload, and the bytes it converts to. */
  ghost predicate IsPixelEvent(i: Input, target: nat, x: nat, y: nat, e: O.Event, bytes: seq<byte>) {
    && SurfaceFor(i, target, CopyDst).Ok? && e.RowWritten? && e.destination == target && e.x == x && e.y == y && e.width == 1
    && Uploadable(CanvasFor(i, target).format) && RowSize(CanvasFor(i, target).format, 1) <= |e.texels|
    && bytes == ConvertRow(CanvasFor(i, target).format, 1, e.texels) && |bytes| == 4
  }

  lemma OnePixelRow(f: O.Formats, op: O.Operation) returns (e: O.Event)
    requires op.WriteTexture? && op.area.width == op.area.height == 1 && O.TransferStep(f, O.IDLE, op).Ran?
    ensures O.TransferStep(f, O.IDLE, op).events == [e]
    ensures e.RowWritten? && e.destination == op.destination && e.x == op.area.x && e.y == op.area.y && e.width == 1
    ensures |e.texels| == f[op.destination]
  {
    O.RowEventAt(op.destination, op.area, op.bytesPerRow, f[op.destination], op.data, 0);
    e := O.TransferStep(f, O.IDLE, op).events[0];
  }

  /** An accepted upload is of an uploadable format. */
  lemma UploadFormat(i: Input, op: O.Operation)
    requires op.WriteTexture? && WriteTextureError(i, op.destination, op.area, op.bytesPerRow, op.data).None?
    ensures SurfaceFor(i, op.destination, CopyDst).Ok? && Uploadable(CanvasFor(i, op.destination).format)
    ensures op.destination in FormatsOf(i.resources)
    ensures FormatsOf(i.resources)[op.destination] == RowSize(CanvasFor(i, op.destination).format, 1)
  {
    FoundFormat(i.resources, op.destination);
    RowSizeProduct(CanvasFor(i, op.destination).format, 1);
  }

  lemma OnePixelEvent(i: Input, target: nat, x: nat, y: nat, texel: seq<byte>) returns (e: O.Event, bytes: seq<byte>)
    requires LowerStream(i, [OnePixel(target, x, y, texel)]).Ok?
    ensures IsPixelEvent(i, target, x, y, e, bytes)
    ensures O.Meaning(FormatsOf(i.resources), [OnePixel(target, x, y, texel)]) == Some([e])
  {
    var op := OnePixel(target, x, y, texel);
    SingleUpload(i, op);
    UploadFormat(i, op);
    e := OnePixelRow(FormatsOf(i.resources), op);
    bytes := ConvertRow(CanvasFor(i, target).format, 1, e.texels);
  }

  lemma OnePixelFits(i: Input, target: nat, x: nat, y: nat, texel: seq<byte>)
    requires LowerStream(i, [OnePixel(target, x, y, texel)]).Ok?
    ensures SurfaceFor(i, target, CopyDst).Ok? && Find(i.resources, target).Ok?
    ensures PixelAt(CanvasFor(i, target), x, y) + 4 <= Find(i.resources, target).value.size
  {
    var op := OnePixel(target, x, y, texel);
    SingleUpload(i, op);
    var r := Find(i.resources, target).value;
    AreaInside(r, i.maxPitch, op.area, r.kind.image.format);
    RowFits(CanvasFor(i, target), op.area, r.size, 0);
  }

  lemma PixelEventPokes(i: Input, tiling: Tiling, target: nat, x: nat, y: nat, e: O.Event, bytes: seq<byte>, mem: seq<byte>)
    requires IsPixelEvent(i, target, x, y, e, bytes)
    ensures Written(i, target, e, mem) == Poke(mem, PixelAt(CanvasFor(i, target), x, y), bytes)
    ensures Meant(i, tiling, target, e, mem) == Poke(mem, ReadAt(i, tiling, target, x, y), bytes)
  {
    assert bytes[4 * 0..4 * 1] == bytes;
    assert PokePixels(i, tiling, target, x, y, bytes, 0, mem) == mem;
  }

  /** Writing four bytes at two places does the same to every memory exactly when the places are the same. */
  lemma PokesDiffer(a: nat, b: nat, bytes: seq<byte>, size: nat) returns (mem: seq<byte>)
    requires |bytes| == 4 && a + 4 <= size && a != b
    ensures |mem| == size && Poke(mem, a, bytes) != Poke(mem, b, bytes)
  {
    var other: byte := if bytes[0] == 0 then 1 else 0;
    mem := seq(size, _ => other);
    var at := if b < a && b + 4 <= size then b else a;
    PokeAt(mem, a, bytes, at);
    if b + 4 <= size {
      PokeAt(mem, b, bytes, at);
    }
  }

  /** An upload of a pixel is right exactly when the image's own address of the pixel is the linear one. */
  lemma PixelRightIff(i: Input, tiling: Tiling, target: nat, x: nat, y: nat, texel: seq<byte>)
    requires LowerStream(i, [OnePixel(target, x, y, texel)]).Ok?
    ensures SurfaceFor(i, target, CopyDst).Ok?
    ensures UploadsRight(i, tiling, OnePixel(target, x, y, texel)) <==>
            ReadAt(i, tiling, target, x, y) == PixelAt(CanvasFor(i, target), x, y)
  {
    var op := OnePixel(target, x, y, texel);
    var l := LowerStream(i, [op]).value;
    var e, bytes := OnePixelEvent(i, target, x, y, texel);
    OnePixelFits(i, target, x, y, texel);
    var a, b, size := PixelAt(CanvasFor(i, target), x, y), ReadAt(i, tiling, target, x, y), Find(i.resources, target).value.size;
    forall mem | IsMemory(i, target, mem)
      ensures RunCopies(AllCommands(l), Staging(l.generated), target, mem) == Poke(mem, a, bytes)
      ensures AllMeant(i, tiling, target, [e], mem) == Poke(mem, b, bytes)
    {
      CompiledCopies(i, [op], target, mem);
      OneEvent(i, tiling, target, e, mem);
      PixelEventPokes(i, tiling, target, x, y, e, bytes, mem);
    }
    if a != b {
      var mem := PokesDiffer(a, b, bytes, size);
      assert IsMemory(i, target, mem);
    }
  }

  lemma OneEvent(i: Input, tiling: Tiling, target: nat, e: O.Event, mem: seq<byte>)
    ensures AllWritten(i, target, [e], mem) == Written(i, target, e, mem)
    ensures AllMeant(i, tiling, target, [e], mem) == Meant(i, tiling, target, e, mem)
  {
    assert [e][..0] == [];
  }

  /** The promise fails for tiled images: wherever the tiling is not the linear order, the upload of a pixel is
      right exactly when the image is linear.  Nothing in validation looks at the modifier. */
  lemma UploadRightIffLinear(i: Input, tiling: Tiling, target: nat, x: nat, y: nat, texel: seq<byte>)
    requires LowerStream(i, [OnePixel(target, x, y, texel)]).Ok?
    requires SurfaceFor(i, target, CopyDst).Ok? ==> tiling(x, y) != PixelAt(CanvasFor(i, target), x, y)
    ensures UploadsRight(i, tiling, OnePixel(target, x, y, texel)) <==> IsLinear(i, target)
  {
    PixelRightIff(i, tiling, target, x, y, texel);
  }

  /** A tiled colour image of 64 by 2 pixels that may be copied to. */
  function TiledTarget(): Resource {
    Resource(7, 4096, Image(ImageMeta(None, None, Bgra8, Bgra8, 64, 2, {CopyDst, Sampled}, TiledColor, [Plane(0, 256, 4096)])))
  }

  /** Such an image passes validation, and its uploads are compiled. */
  lemma TiledUploadAccepted(i: Input)
    requires i.resources == [TiledTarget()] && i.maxWords > 0 && i.maxPitch > 0
    ensures LowerStream(i, [OnePixel(7, 0, 0, [1, 2, 3, 4])]).Ok? && !IsLinear(i, 7)
    ensures SurfaceFor(i, 7, CopyDst).Ok? && SurfaceFor(i, 7, CopyDst).value.tileMode == 3
  {
    TiledLayout(i.maxPitch);
    TiledTablesPass(i);
    assert Find(i.resources, 7) == Ok(TiledTarget());
    assert Rows(4, 0) == 0;
    AcceptedAlone(i, OnePixel(7, 0, 0, [1, 2, 3, 4]));
  }

  lemma TiledTablesPass(i: Input)
    requires i.resources == [TiledTarget()] && i.maxWords > 0 && i.maxPitch > 0
    ensures TablesError(i, |i.resources|).None?
  {
    TiledLayout(i.maxPitch);
    assert TablesError(i, 0).None?;
  }

  lemma AcceptedAlone(i: Input, op: O.Operation)
    requires op.WriteTexture? && TablesError(i, |i.resources|).None?
    requires WriteTextureError(i, op.destination, op.area, op.bytesPerRow, op.data).None?
    ensures LowerStream(i, [op]).Ok?
  {
    assert [op][..0] == [];
    assert LowerRun(i, [op][..0]) == Ok((State(O.IDLE, false), NOTHING_LOWERED));
  }

  lemma TiledLayout(maxPitch: nat)
    ensures LayoutError(4096, TiledTarget().kind.image, maxPitch).None?
  {
    RowsIsProduct(256, 16);
    assert TiledFor(64, 2) == Some(Tiled(256, 16, 4096));
  }
}
