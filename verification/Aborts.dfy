/** When compilation aborts: a colour conversion on an image without a second plane, and a stream that looks the
    image up for a use it has. */
module Aborts {
  import opened Wrappers
  import opened Operations
  import opened Draws
  import opened Images
  import opened Transfers
  import opened Lowering
  import opened Compile
  import opened CompileStream

  /** Looking the image up for the use reads a plane that is not there. */
  predicate LacksPlane(r: Resource, usage: Usage) {
    && r.kind.Image? && Samplable(r.kind.image, usage)
    && r.kind.image.conversion.Some? && r.kind.image.format != Nv12Format
  }

  /** Something can be rendered to. */
  ghost predicate HasTarget(i: Input) { exists id :: TargetFor(i, id, RenderAttachment).Ok? }

  /** An image of the table that some stream aborts on. */
  ghost predicate AbortsOn(i: Input, r: Resource) {
    || LacksPlane(r, CopyDst) || LacksPlane(r, CopySrc) || (LacksPlane(r, RenderAttachment) && r.kind.image.format == Bgra8)
    || (LacksPlane(r, Sampled) && HasTarget(i))
  }

  ghost predicate CanAbort(i: Input) { exists r | r in i.resources :: AbortsOn(i, r) }

  // ---- lookups ----------------------------------------------------------------------------------------------------------

  lemma LookupAborts(i: Input, id: nat, usage: Usage)
    ensures SurfaceFor(i, id, usage) == Err(Panic) ==> exists r | r in i.resources :: LacksPlane(r, usage)
    ensures TargetFor(i, id, usage) == Err(Panic) ==> exists r | r in i.resources :: LacksPlane(r, usage) && r.kind.image.format == Bgra8
  {
    var r := Find(i.resources, id);
    if r.Ok? {
      SurfacePanicsIff(r.value, usage, i.maxPitch);
    }
  }

  lemma DepthNeverAborts(i: Input, id: nat, target: Surface)
    ensures DepthFor(i, id, target) != Err(Panic)
  {
    var r := Find(i.resources, id);
    if r.Ok? {
      LayoutNeverPanics(r.value, i.maxPitch);
    }
  }

  /** A use that no image lacks a plane for never aborts. */
  lemma SafeUse(i: Input, id: nat, usage: Usage)
    requires !CanAbort(i) && (usage == Sampled ==> HasTarget(i))
    requires usage in {CopyDst, CopySrc, RenderAttachment, Sampled}
    ensures TargetFor(i, id, usage) != Err(Panic)
    ensures usage != RenderAttachment ==> SurfaceFor(i, id, usage) != Err(Panic)
  {
    LookupAborts(i, id, usage);
  }

  // ---- no operation of a safe table aborts ----------------------------------------------------------------------------------

  lemma BlitSafe(l: Lowered, source: Surface, sourceRect: Rect, destination: Surface, destinationRect: Rect, linear: bool, rotation: nat)
    ensures LowerBlit(l, source, sourceRect, destination, destinationRect, linear, rotation) != Err(Panic)
  {
  }

  lemma CopySafe(i: Input, l: Lowered, source: nat, sourceRect: Rect, destination: nat, destinationRect: Rect)
    requires !CanAbort(i)
    ensures LowerCopy(i, l, source, sourceRect, destination, destinationRect) != Err(Panic)
  {
    SafeUse(i, source, CopySrc);
    SafeUse(i, destination, CopyDst);
    var s, d := TargetFor(i, source, CopySrc), TargetFor(i, destination, CopyDst);
    if s.Ok? && d.Ok? {
      BlitSafe(l, s.value, sourceRect, d.value, destinationRect, false, 0);
    }
  }

  lemma ScaledBlitSafe(i: Input, l: Lowered, source: nat, sourceRect: Rect, destination: nat, destinationRect: Rect, linear: bool,
                       rotation: nat)
    requires !CanAbort(i)
    ensures LowerScaledBlit(i, l, source, sourceRect, destination, destinationRect, linear, rotation) != Err(Panic)
  {
    SafeUse(i, source, CopySrc);
    SafeUse(i, destination, CopyDst);
    var s, d := SurfaceFor(i, source, CopySrc), SurfaceFor(i, destination, CopyDst);
    if s.Ok? && d.Ok? {
      BlitSafe(l, s.value, sourceRect, d.value, destinationRect, linear, rotation);
    }
  }

  lemma TransferSafe(i: Input, l: Lowered, op: Operation)
    requires !CanAbort(i) && IsTransfer(op)
    ensures LowerTransfer(i, l, op) != Err(Panic)
  {
    match op
    case WriteBuffer(_, _, _) =>
    case WriteTexture(destination, _, _, _) => SafeUse(i, destination, CopyDst);
    case CopyTexture(source, sourceRect, destination, destinationRect) =>
      CopySafe(i, l, source, sourceRect, destination, destinationRect);
    case BlitTexture(source, sourceRect, destination, destinationRect, filter, flipX, flipY) =>
      ScaledBlitSafe(i, l, source, sourceRect, destination, destinationRect, filter != 0, Rotation(flipX, flipY));
  }

  lemma BeginSafe(i: Input, l: Lowered, pass: RenderPass)
    requires !CanAbort(i)
    ensures LowerBegin(i, l, pass) != Err(Panic)
    ensures LowerBegin(i, l, pass).Ok? ==> HasTarget(i)
  {
    SafeUse(i, pass.target, RenderAttachment);
    var target := TargetFor(i, pass.target, RenderAttachment);
    if target.Ok? && pass.depth.Some? {
      DepthNeverAborts(i, pass.depth.value.target, target.value);
    }
  }

  lemma DrawStateSafe(i: Input, pass: RenderPass, b: Bindings, p: Pipeline, call: DrawCall, vertexSize: nat)
    requires !CanAbort(i) && HasTarget(i) && b.vertex.Some? && b.uniforms.Some?
    ensures DrawStateWith(i, pass, b, p, call, vertexSize) != Err(Panic)
  {
    SafeUse(i, pass.target, RenderAttachment);
    TextureSafe(i, b, p);
    var target := TargetFor(i, pass.target, RenderAttachment);
    if target.Ok? && pass.depth.Some? {
      DepthNeverAborts(i, pass.depth.value.target, target.value);
    }
  }

  lemma TextureSafe(i: Input, b: Bindings, p: Pipeline)
    requires !CanAbort(i) && HasTarget(i)
    ensures TextureFor(i, b, p) != Err(Panic)
  {
    if b.texture.Some? {
      SafeUse(i, b.texture.value, Sampled);
    }
  }

  lemma DrawSafe(i: Input, s: State, l: Lowered, op: Operation)
    requires !CanAbort(i) && HasTarget(i) && IsDraw(op) && s.machine.pass.Some?
    ensures LowerDraw(i, s, l, op) != Err(Panic)
  {
    var b := s.machine.bound;
    if b.pipeline.Some? && b.vertex.Some? && b.uniforms.Some? && FindPipeline(i.pipelines, b.pipeline.value).Ok? {
      var p := FindPipeline(i.pipelines, b.pipeline.value).value;
      var call := CallOf(i, b, p, op);
      if call.Ok? {
        DrawStateSafe(i, s.machine.pass.value, b, p, call.value.0, call.value.1);
      }
    }
  }

  lemma BindSafe(i: Input, pass: RenderPass, op: Operation)
    requires !CanAbort(i) && HasTarget(i) && IsBinding(op)
    ensures BindError(i, pass, op) != Some(Panic)
  {
    SafeUse(i, pass.target, RenderAttachment);
    if op.SetTexture? {
      SafeUse(i, op.texture, Sampled);
    }
  }

  /** Passes are open only where there is something to render to. */
  lemma OneSafe(i: Input, s: State, l: Lowered, op: Operation)
    requires !CanAbort(i) && (s.machine.pass.Some? ==> HasTarget(i)) && (l.active ==> l.sequence.Some?)
    ensures LowerOne(i, s, l, op) != Err(Panic)
    ensures LowerOne(i, s, l, op).Ok? && LowerOne(i, s, l, op).value.0.machine.pass.Some? ==> HasTarget(i)
  {
    if IsTransfer(op) {
      TransferSafe(i, l, op);
    } else if op.BeginRenderPass? {
      BeginSafe(i, l, op.pass);
    } else if s.machine.pass.Some? {
      if IsDraw(op) {
        DrawSafe(i, s, l, op);
      } else if !op.EndRenderPass? {
        BindSafe(i, s.machine.pass.value, op);
      }
    }
  }

  lemma {:induction false} RunSafe(i: Input, ops: seq<Operation>)
    requires !CanAbort(i)
    ensures LowerRun(i, ops) != Err(Panic)
    ensures LowerRun(i, ops).Ok? && LowerRun(i, ops).value.0.machine.pass.Some? ==> HasTarget(i)
  {
    if ops != [] {
      var front := ops[..|ops| - 1];
      RunSafe(i, front);
      if LowerRun(i, front).Ok? {
        OneSafe(i, LowerRun(i, front).value.0, LowerRun(i, front).value.1, ops[|ops| - 1]);
      }
    }
  }

  // ---- some stream of an unsafe table does ------------------------------------------------------------------------------------

  /** In a table that passes, every resource is the one its identity finds, and every image has a layout. */
  lemma {:induction false} TableFinds(i: Input, n: nat, k: nat)
    requires k < n <= |i.resources| && TablesError(i, n).None?
    ensures var r := i.resources[k]; r.kind.Image? ==> LayoutError(r.size, r.kind.image, i.maxPitch).None?
    ensures forall j | 0 <= j < k :: i.resources[j].id != i.resources[k].id
  {
    if k < n - 1 {
      TableFinds(i, n - 1, k);
    }
  }

  lemma {:induction false} FindsFirst(rs: seq<Resource>, k: nat)
    requires k < |rs| && forall j | 0 <= j < k :: rs[j].id != rs[k].id
    ensures Find(rs, rs[k].id) == Ok(rs[k])
  {
    if k > 0 {
      assert rs[0].id != rs[k].id;
      FindsFirst(rs[1..], k - 1);
    }
  }

  lemma LookupFails(i: Input, r: Resource, usage: Usage)
    requires TablesError(i, |i.resources|).None? && r in i.resources && LacksPlane(r, usage)
    ensures SurfaceFor(i, r.id, usage) == Err(Panic)
    ensures r.kind.image.format == Bgra8 ==> TargetFor(i, r.id, usage) == Err(Panic)
  {
    var k :| 0 <= k < |i.resources| && i.resources[k] == r;
    TableFinds(i, |i.resources|, k);
    FindsFirst(i.resources, k);
    SurfacePanicsIff(r, usage, i.maxPitch);
  }

  const PIXEL := Rect(0, 0, 1, 1)

  /** A stream that looks the image up for a use it lacks a plane for. */
  ghost function WitnessFor(i: Input, r: Resource): seq<Operation>
    requires AbortsOn(i, r)
  {
    if LacksPlane(r, CopyDst) then [WriteTexture(r.id, PIXEL, 0, [])]
    else if LacksPlane(r, CopySrc) then [BlitTexture(r.id, PIXEL, r.id + 1, PIXEL, 0, false, false)]
    else if LacksPlane(r, RenderAttachment) && r.kind.image.format == Bgra8
    then [BeginRenderPass(RenderPass(r.id, PIXEL, Load, Store, None))]
    else
      var id :| TargetFor(i, id, RenderAttachment).Ok?;
      [BeginRenderPass(RenderPass(id, PIXEL, Load, Store, None)), SetTexture(r.id)]
  }

  lemma AloneAborts(i: Input, op: Operation)
    requires TablesError(i, |i.resources|).None? && LowerOne(i, State(IDLE, false), NOTHING_LOWERED, op) == Err(Panic)
    ensures LowerStream(i, [op]) == Err(Panic)
  {
    assert [op][..0] == [];
    assert LowerRun(i, [op][..0]) == Ok((State(IDLE, false), NOTHING_LOWERED));
  }

  lemma WriteAborts(i: Input, id: nat)
    requires TablesError(i, |i.resources|).None? && SurfaceFor(i, id, CopyDst) == Err(Panic)
    ensures LowerStream(i, [WriteTexture(id, PIXEL, 0, [])]) == Err(Panic)
  {
    AloneAborts(i, WriteTexture(id, PIXEL, 0, []));
  }

  lemma BlitAborts(i: Input, id: nat)
    requires TablesError(i, |i.resources|).None? && SurfaceFor(i, id, CopySrc) == Err(Panic)
    ensures LowerStream(i, [BlitTexture(id, PIXEL, id + 1, PIXEL, 0, false, false)]) == Err(Panic)
  {
    AloneAborts(i, BlitTexture(id, PIXEL, id + 1, PIXEL, 0, false, false));
  }

  lemma PassAborts(i: Input, id: nat)
    requires TablesError(i, |i.resources|).None? && TargetFor(i, id, RenderAttachment) == Err(Panic)
    ensures LowerStream(i, [BeginRenderPass(RenderPass(id, PIXEL, Load, Store, None))]) == Err(Panic)
  {
    AloneAborts(i, BeginRenderPass(RenderPass(id, PIXEL, Load, Store, None)));
  }

  lemma PassOpens(i: Input, id: nat)
    requires TargetFor(i, id, RenderAttachment).Ok?
    ensures var p := RenderPass(id, PIXEL, Load, Store, None);
            LowerRun(i, [BeginRenderPass(p)]) == Ok((State(Machine(Some(p), UNBOUND), false), NOTHING_LOWERED))
  {
    var p := RenderPass(id, PIXEL, Load, Store, None);
    assert [BeginRenderPass(p)][..0] == [];
    assert LowerRun(i, [BeginRenderPass(p)][..0]) == Ok((State(IDLE, false), NOTHING_LOWERED));
    assert LowerBegin(i, NOTHING_LOWERED, p) == Ok(NOTHING_LOWERED);
  }

  lemma SampledAborts(i: Input, id: nat, texture: nat)
    requires TablesError(i, |i.resources|).None? && TargetFor(i, id, RenderAttachment).Ok?
    requires SurfaceFor(i, texture, Sampled) == Err(Panic)
    ensures LowerStream(i, [BeginRenderPass(RenderPass(id, PIXEL, Load, Store, None)), SetTexture(texture)]) == Err(Panic)
  {
    PassOpens(i, id);
    var p := RenderPass(id, PIXEL, Load, Store, None);
    var ops := [BeginRenderPass(p), SetTexture(texture)];
    assert ops[..1] == [BeginRenderPass(p)];
    assert BindError(i, p, SetTexture(texture)) == Some(Panic);
    LastAborts(i, ops, State(Machine(Some(p), UNBOUND), false));
  }

  lemma LastAborts(i: Input, ops: seq<Operation>, s: State)
    requires TablesError(i, |i.resources|).None? && ops != [] && LowerRun(i, ops[..|ops| - 1]) == Ok((s, NOTHING_LOWERED))
    requires LowerOne(i, s, NOTHING_LOWERED, ops[|ops| - 1]) == Err(Panic)
    ensures LowerStream(i, ops) == Err(Panic)
  {
  }

  lemma WitnessAborts(i: Input, r: Resource)
    requires TablesError(i, |i.resources|).None? && r in i.resources && AbortsOn(i, r)
    ensures LowerStream(i, WitnessFor(i, r)) == Err(Panic)
  {
    if LacksPlane(r, CopyDst) {
      LookupFails(i, r, CopyDst);
      WriteAborts(i, r.id);
    } else if LacksPlane(r, CopySrc) {
      LookupFails(i, r, CopySrc);
      BlitAborts(i, r.id);
    } else if LacksPlane(r, RenderAttachment) && r.kind.image.format == Bgra8 {
      LookupFails(i, r, RenderAttachment);
      PassAborts(i, r.id);
    } else {
      LookupFails(i, r, Sampled);
      var id :| TargetFor(i, id, RenderAttachment).Ok? && WitnessFor(i, r)[0] == BeginRenderPass(RenderPass(id, PIXEL, Load, Store, None));
      SampledAborts(i, id, r.id);
    }
  }

  lemma {:induction false} TablesNeverAbort(i: Input, n: nat)
    requires n <= |i.resources|
    ensures TablesError(i, n) != Some(Panic)
  {
    if n > 0 {
      TablesNeverAbort(i, n - 1);
      LayoutNeverPanics(i.resources[n - 1], i.maxPitch);
    }
  }

  /** For a table that passes validation, some stream aborts compilation exactly when the table holds an image that
      can: one with a conversion but a single plane that may be copied, rendered to, or sampled where
      something can be rendered to.  Validation of the table looks at none of this. */
  lemma AbortsIff(i: Input)
    ensures (exists ops :: LowerStream(i, ops) == Err(Panic)) <==> TablesError(i, |i.resources|).None? && CanAbort(i)
  {
    TablesNeverAbort(i, |i.resources|);
    if TablesError(i, |i.resources|).None? {
      if CanAbort(i) {
        var r :| r in i.resources && AbortsOn(i, r);
        WitnessAborts(i, r);
      } else {
        forall ops
          ensures LowerStream(i, ops) != Err(Panic)
        {
          RunSafe(i, ops);
        }
      }
    }
  }

  /** A table whose conversions are all on biplanar images compiles every stream without an abort. */
  lemma BiplanarNeverAborts(i: Input, ops: seq<Operation>)
    requires forall r | r in i.resources && r.kind.Image? && r.kind.image.conversion.Some? :: r.kind.image.format == Nv12Format
    ensures LowerStream(i, ops) != Err(Panic)
  {
    assert !CanAbort(i);
    AbortsIff(i);
  }
}
