/** Which bindings are in force: those of the last set operation of each kind in the open pass.

    The pass machine, the compile loop and the splitter's replay all keep their bindings step by step; here what
    they keep is read off the stream itself. */
module InForce {
  import opened Wrappers
  import opened Operations
  import opened Splitter
  import opened Compile
  import opened CompileStream

  datatype Kind = PipelineKind | VertexKind | IndexKind | TextureKind | SamplerKind | UniformKind | ScissorKind | ViewportKind

  function KindOf(op: Operation): Option<Kind> {
    match op
    case SetPipeline(_) => Some(PipelineKind)
    case SetVertexBuffer(_, _) => Some(VertexKind)
    case SetIndexBuffer(_, _, _) => Some(IndexKind)
    case SetTexture(_) => Some(TextureKind)
    case SetSampler(_) => Some(SamplerKind)
    case SetUniforms(_) => Some(UniformKind)
    case SetScissor(_) => Some(ScissorKind)
    case SetViewport(_) => Some(ViewportKind)
    case _ => None
  }

  /** The bindings have the argument of the set operation. */
  predicate Carries(b: Bindings, op: Operation) {
    match op
    case SetPipeline(p) => b.pipeline == Some(p)
    case SetVertexBuffer(o, offset) => b.vertex == Some((o, offset))
    case SetIndexBuffer(o, offset, format) => b.index == Some((o, offset, format))
    case SetTexture(t) => b.texture == Some(t)
    case SetSampler(s) => b.sampler == Some(s)
    case SetUniforms(u) => b.uniforms == Some(u)
    case SetScissor(None) => b.scissor == None
    case SetScissor(Some(r)) => b.scissor == Some(r)
    case SetViewport(v) => b.viewport == Some(v)
    case _ => false
  }

  predicate Lacks(b: Bindings, kind: Kind) {
    match kind
    case PipelineKind => b.pipeline.None?
    case VertexKind => b.vertex.None?
    case IndexKind => b.index.None?
    case TextureKind => b.texture.None?
    case SamplerKind => b.sampler.None?
    case UniformKind => b.uniforms.None?
    case ScissorKind => b.scissor.None?
    case ViewportKind => b.viewport.None?
  }

  /** Operation j sets the kind, and nothing behind it sets it again or begins a pass. */
  predicate LastSet(ops: seq<Operation>, kind: Kind, j: nat) {
    && j < |ops| && KindOf(ops[j]) == Some(kind)
    && forall k | j < k < |ops| :: KindOf(ops[k]) != Some(kind) && !ops[k].BeginRenderPass?
  }

  /** Whatever sets the kind is followed by the beginning of a pass. */
  predicate UnsetSinceBegin(ops: seq<Operation>, kind: Kind) {
    forall k | 0 <= k < |ops| && KindOf(ops[k]) == Some(kind) :: exists b | k < b < |ops| :: ops[b].BeginRenderPass?
  }

  /** Each binding is that of the last set operation of its kind since the pass began, and none if there was none. */
  ghost predicate BoundBy(ops: seq<Operation>, b: Bindings) {
    && (forall kind, j: nat | LastSet(ops, kind, j) :: Carries(b, ops[j]))
    && (forall kind | UnsetSinceBegin(ops, kind) :: Lacks(b, kind))
  }

  /** The pass is that of the last beginning. */
  ghost predicate PassBy(ops: seq<Operation>, pass: RenderPass) {
    exists j :: IsLastBegin(ops, j) && ops[j].pass == pass
  }

  // ---- one operation more ------------------------------------------------------------------------------------------

  lemma BindCarries(b: Bindings, op: Operation)
    requires KindOf(op).Some?
    ensures Carries(Bind(b, op), op)
  {
  }

  lemma BindSpares(b: Bindings, op: Operation, other: Operation)
    requires KindOf(other).Some? && KindOf(op) != KindOf(other) && Carries(b, other)
    ensures Carries(Bind(b, op), other)
  {
  }

  lemma BindAdds(b: Bindings, op: Operation, kind: Kind)
    requires KindOf(op) != Some(kind) && Lacks(b, kind)
    ensures Lacks(Bind(b, op), kind)
  {
  }

  lemma UnsetFront(ops: seq<Operation>, kind: Kind)
    requires ops != [] && !ops[|ops| - 1].BeginRenderPass? && UnsetSinceBegin(ops, kind)
    ensures UnsetSinceBegin(ops[..|ops| - 1], kind) && KindOf(ops[|ops| - 1]) != Some(kind)
  {
    var front := ops[..|ops| - 1];
    forall k | 0 <= k < |front| && KindOf(front[k]) == Some(kind)
      ensures exists b | k < b < |front| :: front[b].BeginRenderPass?
    {
      var b :| k < b < |ops| && ops[b].BeginRenderPass?;
      assert front[b].BeginRenderPass?;
    }
  }

  /** Inside a pass, the next operation binds its own kind and no other. */
  lemma BoundNext(ops: seq<Operation>, b: Bindings)
    requires ops != [] && !ops[|ops| - 1].BeginRenderPass? && BoundBy(ops[..|ops| - 1], b)
    ensures BoundBy(ops, Bind(b, ops[|ops| - 1]))
  {
    var n, front := |ops| - 1, ops[..|ops| - 1];
    forall kind, j: nat | LastSet(ops, kind, j)
      ensures Carries(Bind(b, ops[n]), ops[j])
    {
      if j == n {
        BindCarries(b, ops[n]);
      } else {
        assert LastSet(front, kind, j);
        BindSpares(b, ops[n], ops[j]);
      }
    }
    forall kind | UnsetSinceBegin(ops, kind)
      ensures Lacks(Bind(b, ops[n]), kind)
    {
      UnsetFront(ops, kind);
      BindAdds(b, ops[n], kind);
    }
  }

  lemma BeginUnbinds(ops: seq<Operation>)
    requires ops != [] && ops[|ops| - 1].BeginRenderPass?
    ensures BoundBy(ops, UNBOUND)
  {
    assert forall kind, j: nat :: !LastSet(ops, kind, j);
  }

  /** The bindings of the pass machine are those in force, in the pass last begun. */
  lemma {:induction false} MachineInForce(f: Formats, ops: seq<Operation>)
    requires Run(f, ops).Ran? && Run(f, ops).state.pass.Some?
    ensures BoundBy(ops, Run(f, ops).state.bound) && PassBy(ops, Run(f, ops).state.pass.value)
  {
    var n := |ops| - 1;
    var op, front := ops[n], ops[..n];
    if op.BeginRenderPass? {
      BeginUnbinds(ops);
      assert IsLastBegin(ops, n);
    } else {
      MachineInForce(f, front);
      BoundNext(ops, Run(f, front).state.bound);
      var j :| IsLastBegin(front, j) && front[j].pass == Run(f, front).state.pass.value;
      assert IsLastBegin(ops, j);
    }
  }

  // ---- what draws, the compiler and the splitter see ----------------------------------------------------------------

  /** The event is that of draw j of the stream, with the bindings and attachments in force there. */
  ghost predicate DrawnAt(ops: seq<Operation>, j: nat, e: Event) {
    && j < |ops| && IsDraw(ops[j]) && e.Drawn? && e.call == ops[j] && BoundBy(ops[..j], e.bound)
    && exists k | 0 <= k < j ::
         && IsLastBegin(ops[..j], k) && e.target == ops[k].pass.target && e.area == ops[k].pass.area
         && e.depthTarget == DepthTarget(ops[k].pass)
  }

  lemma DrawnLast(f: Formats, ops: seq<Operation>, e: Event)
    requires Run(f, ops).Ran? && ops != [] && IsDraw(ops[|ops| - 1])
    requires e == Run(f, ops).events[|Run(f, ops).events| - 1]
    ensures DrawnAt(ops, |ops| - 1, e)
  {
    var front := ops[..|ops| - 1];
    MachineInForce(f, front);
    var k :| IsLastBegin(front, k) && front[k].pass == Run(f, front).state.pass.value;
    assert ops[k].pass == front[k].pass;
  }

  lemma DrawnBehind(ops: seq<Operation>, j: nat, e: Event)
    requires ops != [] && DrawnAt(ops[..|ops| - 1], j, e)
    ensures DrawnAt(ops, j, e)
  {
    var front := ops[..|ops| - 1];
    assert front[..j] == ops[..j];
    var k :| 0 <= k < j && IsLastBegin(front[..j], k) && e.target == front[k].pass.target && e.area == front[k].pass.area
             && e.depthTarget == DepthTarget(front[k].pass);
    assert ops[k] == front[k];
  }

  /** Every draw a stream means is one of its draw operations, with the bindings and attachments in force at it. */
  lemma {:induction false} DrawsInForce(f: Formats, ops: seq<Operation>, e: Event)
    requires Run(f, ops).Ran? && e in Run(f, ops).events && e.Drawn?
    ensures exists j :: DrawnAt(ops, j, e)
  {
    if ops != [] {
      var front, op := ops[..|ops| - 1], ops[|ops| - 1];
      if e in Run(f, front).events {
        DrawsInForce(f, front, e);
        var j :| DrawnAt(front, j, e);
        DrawnBehind(ops, j, e);
      } else {
        DrawnLast(f, ops, e);
      }
    }
  }

  /** The compile loop holds the bindings in force. */
  lemma CompilerInForce(i: Input, ops: seq<Operation>)
    requires LowerRun(i, ops).Ok? && LowerRun(i, ops).value.0.machine.pass.Some?
    ensures BoundBy(ops, LowerRun(i, ops).value.0.machine.bound) && PassBy(ops, LowerRun(i, ops).value.0.machine.pass.value)
  {
    MachineInForce(FormatsOf(i.resources), ops);
  }

  /** So does what the splitter would replay. */
  lemma ReplayInForce(f: Formats, done: seq<Operation>, chunks: seq<seq<Operation>>, current: seq<Operation>, pass: RenderPass,
                      replay: Bindings)
    requires Faithful(f, done, chunks, current, Some(pass), replay)
    ensures BoundBy(done, replay) && PassBy(done, pass)
  {
    MachineInForce(f, done);
  }
}
