/** Cutting an operation stream into bounded submissions without changing its meaning. */
module Splitter {
  import opened Wrappers
  import opened Operations
  import opened Sequences

  const MAX_TEXTURED_DRAWS_PER_SUBMIT := 512

  datatype SubmitError = UnsupportedState | UnsupportedUpload | SubmissionTooLarge

  // ---- draw limits --------------------------------------------------------------

  /** The texture bound at the end of a stream, tracked the way the splitter replays it. */
  function BoundTexture(ops: seq<Operation>): Option<ObjectId> {
    if ops == [] then None
    else
      var op := ops[|ops| - 1];
      if op.BeginRenderPass? || op.EndRenderPass? then None
      else if op.SetTexture? then Some(op.texture)
      else BoundTexture(ops[..|ops| - 1])
  }

  function DrawLimit(ops: seq<Operation>, maxDraws: nat): nat {
    if BoundTexture(ops).Some? && MAX_TEXTURED_DRAWS_PER_SUBMIT < maxDraws
    then MAX_TEXTURED_DRAWS_PER_SUBMIT else maxDraws
  }

  /** Every draw finds room: fewer than `maxDraws` draws before it, and fewer than 512 if it samples. */
  predicate WithinLimits(ops: seq<Operation>, maxDraws: nat) {
    if ops == [] then true
    else
      var front := ops[..|ops| - 1];
      && WithinLimits(front, maxDraws)
      && (IsDraw(ops[|ops| - 1]) ==> DrawCount(front) < DrawLimit(front, maxDraws))
  }

  lemma {:induction false} LimitBoundsDraws(ops: seq<Operation>, maxDraws: nat)
    requires WithinLimits(ops, maxDraws)
    ensures DrawCount(ops) <= maxDraws
  {
    if ops != [] {
      LimitBoundsDraws(ops[..|ops| - 1], maxDraws);
    }
  }

  lemma {:induction false} LimitsLoosen(ops: seq<Operation>, maxDraws: nat, more: nat)
    requires WithinLimits(ops, maxDraws) && maxDraws <= more
    ensures WithinLimits(ops, more)
  {
    if ops != [] {
      LimitsLoosen(ops[..|ops| - 1], maxDraws, more);
    }
  }

  lemma LimitsSnoc(ops: seq<Operation>, op: Operation, maxDraws: nat)
    ensures WithinLimits(ops + [op], maxDraws) ==
            (WithinLimits(ops, maxDraws) && (IsDraw(op) ==> DrawCount(ops) < DrawLimit(ops, maxDraws)))
    ensures BoundTexture(ops + [op]) ==
            if op.BeginRenderPass? || op.EndRenderPass? then None
            else if op.SetTexture? then Some(op.texture) else BoundTexture(ops)
  {
    assert (ops + [op])[..|ops|] == ops;
  }

  // ---- replay of the latest bindings ----------------------------------------------

  /** The set operation that restores the k-th binding, in replay order, when it is bound. */
  function ReplayOne(b: Bindings, k: nat): seq<Operation> {
    match k
    case 0 => if b.pipeline.Some? then [SetPipeline(b.pipeline.value)] else []
    case 1 => if b.vertex.Some? then [SetVertexBuffer(b.vertex.value.0, b.vertex.value.1)] else []
    case 2 => if b.index.Some? then [SetIndexBuffer(b.index.value.0, b.index.value.1, b.index.value.2)] else []
    case 3 => if b.texture.Some? then [SetTexture(b.texture.value)] else []
    case 4 => if b.sampler.Some? then [SetSampler(b.sampler.value)] else []
    case 5 => if b.uniforms.Some? then [SetUniforms(b.uniforms.value)] else []
    case 6 => if b.viewport.Some? then [SetViewport(b.viewport.value)] else []
    case _ => if b.scissor.Some? then [SetScissor(b.scissor)] else []
  }

  function ReplayUpTo(b: Bindings, k: nat): seq<Operation> {
    if k == 0 then [] else ReplayUpTo(b, k - 1) + ReplayOne(b, k - 1)
  }

  /** The set operations that restore `b` at the start of a continued pass. */
  function Replay(b: Bindings): seq<Operation> { ReplayUpTo(b, 8) }

  /** `b` with only its first k bindings, in replay order. */
  function Restored(b: Bindings, k: nat): Bindings {
    Bindings(
      if k > 0 then b.pipeline else None, if k > 1 then b.vertex else None,
      if k > 2 then b.index else None, if k > 3 then b.texture else None,
      if k > 4 then b.sampler else None, if k > 5 then b.uniforms else None,
      if k > 7 then b.scissor else None, if k > 6 then b.viewport else None)
  }

  predicate IsSet(op: Operation) {
    !IsTransfer(op) && !IsDraw(op) && !op.BeginRenderPass? && !op.EndRenderPass?
  }

  function BindAll(b: Bindings, ops: seq<Operation>): Bindings {
    if ops == [] then b else Bind(BindAll(b, ops[..|ops| - 1]), ops[|ops| - 1])
  }

  lemma BindSnoc(b: Bindings, ops: seq<Operation>, op: Operation)
    ensures BindAll(b, ops + [op]) == Bind(BindAll(b, ops), op)
  {
    assert (ops + [op])[..|ops|] == ops;
  }

  lemma ReplayOneRestores(b: Bindings, k: nat)
    requires k < 8
    ensures ReplayOne(b, k) == [] ==> Restored(b, k + 1) == Restored(b, k)
    ensures ReplayOne(b, k) != [] ==>
              var op := ReplayOne(b, k)[0];
              ReplayOne(b, k) == [op] && IsSet(op) && Bind(Restored(b, k), op) == Restored(b, k + 1)
  {
  }

  lemma {:induction false} ReplayRestores(b: Bindings, k: nat)
    requires k <= 8
    ensures forall op | op in ReplayUpTo(b, k) :: IsSet(op)
    ensures BindAll(UNBOUND, ReplayUpTo(b, k)) == Restored(b, k)
  {
    if k > 0 {
      ReplayRestores(b, k - 1);
      ReplayOneRestores(b, k - 1);
      ReplayExtends(ReplayUpTo(b, k - 1), ReplayOne(b, k - 1));
    }
  }

  lemma ReplayExtends(before: seq<Operation>, one: seq<Operation>)
    requires |one| <= 1
    ensures BindAll(UNBOUND, before + one) ==
            if one == [] then BindAll(UNBOUND, before) else Bind(BindAll(UNBOUND, before), one[0])
  {
    if one == [] {
      assert before + one == before;
    } else {
      BindSnoc(UNBOUND, before, one[0]);
      assert before + one == before + [one[0]];
    }
  }

  /** Set operations inside a pass only bind. */
  lemma {:induction false} RunSets(f: Formats, ops: seq<Operation>, sets: seq<Operation>)
    requires Run(f, ops).Ran? && Run(f, ops).state.pass.Some?
    requires forall op | op in sets :: IsSet(op)
    ensures Run(f, ops + sets) ==
            Ran(Machine(Run(f, ops).state.pass, BindAll(Run(f, ops).state.bound, sets)), Run(f, ops).events)
  {
    if sets == [] {
      assert ops + sets == ops;
    } else {
      var front, last := sets[..|sets| - 1], sets[|sets| - 1];
      assert last in sets;
      RunSets(f, ops, front);
      assert ops + sets == (ops + front) + [last];
      RunSnoc(f, ops + front, last);
      assert Run(f, ops).events + [] == Run(f, ops).events;
    }
  }

  lemma {:induction false} CountSets(ops: seq<Operation>, sets: seq<Operation>, b: Bindings, maxDraws: nat)
    requires forall op | op in sets :: IsSet(op)
    requires b.texture == BoundTexture(ops)
    ensures DrawCount(ops + sets) == DrawCount(ops)
    ensures BoundTexture(ops + sets) == BindAll(b, sets).texture
    ensures WithinLimits(ops, maxDraws) ==> WithinLimits(ops + sets, maxDraws)
  {
    if sets == [] {
      assert ops + sets == ops;
    } else {
      var front, last := sets[..|sets| - 1], sets[|sets| - 1];
      assert last in sets;
      CountSets(ops, front, b, maxDraws);
      assert ops + sets == (ops + front) + [last];
      DrawCountSnoc(ops + front, last);
      LimitsSnoc(ops + front, last, maxDraws);
    }
  }

  // ---- forcing the store of a pass that is about to be cut ----------------------------

  function Stored(p: RenderPass): RenderPass {
    p.(store := Store,
       depth := if p.depth.Some? then Some(p.depth.value.(store := Store)) else None)
  }

  function Loaded(p: RenderPass): RenderPass {
    p.(load := Load,
       depth := if p.depth.Some? then Some(p.depth.value.(load := DepthLoad)) else None)
  }

  /** Same attachments, area and load operations; only what is stored may differ. */
  predicate SameButStore(a: RenderPass, b: RenderPass) {
    Stored(a) == Stored(b)
  }

  predicate IsLastBegin(ops: seq<Operation>, k: int) {
    && 0 <= k < |ops| && ops[k].BeginRenderPass?
    && forall i | k < i < |ops| :: !ops[i].BeginRenderPass?
  }

  /** A pass's store operations have no effect before the pass ends. */
  lemma {:induction false} StoreDeferred(f: Formats, ops: seq<Operation>, k: nat, p: RenderPass)
    requires IsLastBegin(ops, k) && SameButStore(ops[k].pass, p)
    requires Run(f, ops).Ran? && Run(f, ops).state.pass.Some?
    ensures Run(f, ops).state.pass == Some(ops[k].pass)
    ensures Run(f, ops[k := BeginRenderPass(p)]) ==
            Ran(Run(f, ops).state.(pass := Some(p)), Run(f, ops).events)
  {
    var n := |ops| - 1;
    var changed := ops[k := BeginRenderPass(p)];
    if k == n {
      assert changed[..n] == ops[..n];
    } else {
      StoreDeferred(f, ops[..n], k, p);
      assert changed[..n] == ops[..n][k := BeginRenderPass(p)];
    }
  }

  /** Editing a pass descriptor changes neither draw counts nor texture bindings. */
  lemma {:induction false} PassEditKeepsCounts(ops: seq<Operation>, k: nat, p: RenderPass, maxDraws: nat)
    requires k < |ops| && ops[k].BeginRenderPass?
    ensures var changed := ops[k := BeginRenderPass(p)];
            && DrawCount(changed) == DrawCount(ops)
            && BoundTexture(changed) == BoundTexture(ops)
            && WithinLimits(changed, maxDraws) == WithinLimits(ops, maxDraws)
  {
    var n := |ops| - 1;
    var changed := ops[k := BeginRenderPass(p)];
    if k == n {
      assert changed[..n] == ops[..n];
    } else {
      PassEditKeepsCounts(ops[..n], k, p, maxDraws);
      assert changed[..n] == ops[..n][k := BeginRenderPass(p)];
    }
  }

  /** Finds the innermost open pass and makes it store its attachments. */
  method ForceActivePassStore(operations: seq<Operation>) returns (r: Result<seq<Operation>, SubmitError>)
    ensures r.Err? <==> forall op | op in operations :: !op.BeginRenderPass?
    ensures r.Err? ==> r.error == UnsupportedState
    ensures r.Ok? ==> exists k ::
                        && IsLastBegin(operations, k)
                        && r.value == operations[k := BeginRenderPass(Stored(operations[k].pass))]
  {
    var i := |operations|;
    while i > 0
      invariant 0 <= i <= |operations|
      invariant forall j | i <= j < |operations| :: !operations[j].BeginRenderPass?
    {
      i := i - 1;
      if operations[i].BeginRenderPass? {
        assert IsLastBegin(operations, i);
        assert operations[i] in operations;
        return Ok(operations[i := BeginRenderPass(Stored(operations[i].pass))]);
      }
    }
    return Err(UnsupportedState);
  }

  // ---- the splitter -------------------------------------------------------------------

  /** Work for the render engine alone. */
  predicate Rendering(ops: seq<Operation>) {
    forall op | op in ops :: !IsTransfer(op)
  }

  /** Splitting render work brings no transfer into it. */
  ghost predicate StaysRendering(done: seq<Operation>, chunks: seq<seq<Operation>>, current: seq<Operation>) {
    Rendering(done) ==> Rendering(current) && forall c | c in chunks :: Rendering(c)
  }

  lemma PushStays(done: seq<Operation>, chunks: seq<seq<Operation>>, current: seq<Operation>, op: Operation)
    requires StaysRendering(done, chunks, current)
    ensures StaysRendering(done + [op], chunks, current + [op])
  {
    if Rendering(done + [op]) {
      assert op in done + [op] && forall x | x in done :: x in done + [op];
    }
  }

  lemma CutStays(done: seq<Operation>, chunks: seq<seq<Operation>>, current: seq<Operation>, k: nat, pass: RenderPass,
                 again: RenderPass, replay: Bindings)
    requires StaysRendering(done, chunks, current) && k < |current|
    ensures StaysRendering(done, chunks + [current[k := BeginRenderPass(pass)] + [EndRenderPass]],
                           [BeginRenderPass(again)] + Replay(replay))
  {
    var cut, reopened := current[k := BeginRenderPass(pass)] + [EndRenderPass], [BeginRenderPass(again)] + Replay(replay);
    ReplayRestores(replay, 8);
    assert Rendering(reopened);
    if Rendering(current) {
      EditRenders(current, k, pass);
    }
  }

  lemma EditRenders(current: seq<Operation>, k: nat, pass: RenderPass)
    requires Rendering(current) && k < |current|
    ensures Rendering(current[k := BeginRenderPass(pass)] + [EndRenderPass])
  {
    var cut := current[k := BeginRenderPass(pass)] + [EndRenderPass];
    forall op | op in cut
      ensures !IsTransfer(op)
    {
      var j :| 0 <= j < |cut| && cut[j] == op;
      assert j != k && j < |current| ==> op == current[j];
    }
  }

  /** Whatever comes next found the chunk at its limit: as many draws as any chunk may hold or, if the chunk was cut inside
      a pass, as many as the texture bound at the cut allows. */
  predicate AtLimit(c: seq<Operation>, maxDraws: nat) {
    || DrawCount(c) >= maxDraws
    || (c != [] && c[|c| - 1] == EndRenderPass && DrawCount(c) >= DrawLimit(c[..|c| - 1], maxDraws))
  }

  /** Draws are conserved, every chunk respects its limits, every chunk but the last is full, and only the last may be
      free of draws. */
  ghost predicate SplitCounts(source: seq<Operation>, maxDraws: nat, chunks: seq<seq<Operation>>) {
    && TotalDraws(chunks) == DrawCount(source)
    && (forall c | c in chunks :: c != [] && WithinLimits(c, maxDraws))
    && (forall i | 0 <= i < |chunks| - 1 :: 0 < DrawCount(chunks[i]) && AtLimit(chunks[i], maxDraws))
    && (Rendering(source) ==> forall c | c in chunks :: Rendering(c))
  }

  ghost predicate Counted(
    done: seq<Operation>, chunks: seq<seq<Operation>>, current: seq<Operation>, maxDraws: nat)
  {
    && TotalDraws(chunks) + DrawCount(current) == DrawCount(done)
    && WithinLimits(current, maxDraws)
    && (forall c | c in chunks :: WithinLimits(c, maxDraws) && 0 < DrawCount(c) && AtLimit(c, maxDraws))
  }

  predicate SamePassUpToLoad(a: Option<RenderPass>, b: Option<RenderPass>) {
    (a.None? && b.None?) || (a.Some? && b.Some? && Loaded(a.value) == Loaded(b.value))
  }

  /** The chunks cut so far followed by the open one have done exactly what `done` has,
      and the open one has the same bindings and attachments in force. */
  ghost predicate Faithful(
    f: Formats, done: seq<Operation>, chunks: seq<seq<Operation>>, current: seq<Operation>,
    pass: Option<RenderPass>, replay: Bindings)
  {
    var whole, part, before := Run(f, done), Run(f, current), ChunksMeaning(f, chunks);
    && whole.Ran? && part.Ran? && before.Some?
    && whole.events == before.value + part.events
    && whole.state == Machine(pass, replay)
    && part.state.bound == replay
    && SamePassUpToLoad(part.state.pass, pass)
  }

  function PassAfter(pass: Option<RenderPass>, op: Operation): Option<RenderPass> {
    if op.BeginRenderPass? then Some(op.pass) else if op.EndRenderPass? then None else pass
  }

  function ReplayAfter(replay: Bindings, op: Operation): Bindings {
    if op.BeginRenderPass? || op.EndRenderPass? then UNBOUND else Bind(replay, op)
  }

  lemma StepAgrees(f: Formats, a: Machine, b: Machine, op: Operation)
    requires a.bound == b.bound && SamePassUpToLoad(a.pass, b.pass) && Step(f, b, op).Ran?
    ensures Step(f, a, op).Ran? && Step(f, a, op).events == Step(f, b, op).events
    ensures Step(f, b, op).state == Machine(PassAfter(b.pass, op), ReplayAfter(b.bound, op))
    ensures Step(f, a, op).state.bound == Step(f, b, op).state.bound
    ensures SamePassUpToLoad(Step(f, a, op).state.pass, Step(f, b, op).state.pass)
  {
  }

  lemma PushFaithful(
    f: Formats, done: seq<Operation>, chunks: seq<seq<Operation>>, current: seq<Operation>,
    pass: Option<RenderPass>, replay: Bindings, op: Operation)
    requires Faithful(f, done, chunks, current, pass, replay) && Run(f, done + [op]).Ran?
    ensures Faithful(f, done + [op], chunks, current + [op], PassAfter(pass, op), ReplayAfter(replay, op))
  {
    RunSnoc(f, done, op);
    RunSnoc(f, current, op);
    StepAgrees(f, Run(f, current).state, Run(f, done).state, op);
    Assoc(ChunksMeaning(f, chunks).value, Run(f, current).events, Step(f, Run(f, done).state, op).events);
  }

  lemma PushCounted(
    done: seq<Operation>, chunks: seq<seq<Operation>>, current: seq<Operation>, maxDraws: nat, op: Operation)
    requires Counted(done, chunks, current, maxDraws)
    requires IsDraw(op) ==> DrawCount(current) < DrawLimit(current, maxDraws)
    ensures Counted(done + [op], chunks, current + [op], maxDraws)
  {
    DrawCountSnoc(done, op);
    DrawCountSnoc(current, op);
    LimitsSnoc(current, op, maxDraws);
  }

  /** Between passes a chunk can simply be closed. */
  lemma CutIdle(
    f: Formats, done: seq<Operation>, chunks: seq<seq<Operation>>, current: seq<Operation>,
    pass: Option<RenderPass>, replay: Bindings)
    requires Faithful(f, done, chunks, current, pass, replay) && pass.None?
    ensures Faithful(f, done, chunks + [current], [], pass, replay)
  {
    ChunksSnoc(f, chunks, current);
    IdleIsUnbound(f, done);
  }

  /** Inside a pass the cut part stores, and its continuation loads and replays. */
  lemma CutInPass(
    f: Formats, done: seq<Operation>, chunks: seq<seq<Operation>>, current: seq<Operation>,
    pass: RenderPass, replay: Bindings, k: nat)
    requires Faithful(f, done, chunks, current, Some(pass), replay)
    requires IsLastBegin(current, k)
    ensures var stored := current[k := BeginRenderPass(Stored(current[k].pass))];
            Faithful(f, done, chunks + [stored + [EndRenderPass]],
                     [BeginRenderPass(Loaded(pass))] + Replay(replay), Some(pass), replay)
  {
    var stored := current[k := BeginRenderPass(Stored(current[k].pass))];
    CutMeans(f, current, stored, k);
    ChunksSnoc(f, chunks, stored + [EndRenderPass]);
    ReopenRuns(f, Loaded(pass), replay);
    ThenNothing(ChunksMeaning(f, chunks).value + Run(f, current).events);
  }

  /** Storing instead of discarding at the end of a cut chunk leaves its events as they are. */
  lemma CutMeans(f: Formats, current: seq<Operation>, stored: seq<Operation>, k: nat)
    requires Run(f, current).Ran? && Run(f, current).state.pass.Some? && IsLastBegin(current, k)
    requires stored == current[k := BeginRenderPass(Stored(current[k].pass))]
    ensures Meaning(f, stored + [EndRenderPass]) == Some(Run(f, current).events)
  {
    var p := Stored(current[k].pass);
    StoreDeferred(f, current, k, p);
    RunSnoc(f, stored, EndRenderPass);
    assert EndEvents(p) == [];
    ThenNothing(Run(f, current).events);
  }

  lemma ThenNothing<T>(s: seq<T>)
    ensures s + [] == s
  {
  }

  /** A reopened pass is where the cut one was, and has done nothing. */
  lemma ReopenRuns(f: Formats, pass: RenderPass, replay: Bindings)
    requires BeginEvents(pass) == []
    ensures Run(f, [BeginRenderPass(pass)] + Replay(replay)) == Ran(Machine(Some(pass), replay), [])
  {
    var reopened := [BeginRenderPass(pass)];
    assert reopened[..0] == [];
    assert Run(f, reopened) == Ran(Machine(Some(pass), UNBOUND), []);
    ReplayRestores(replay, 8);
    RunSets(f, reopened, Replay(replay));
  }

  /** The chunk cut off keeps its draws, and is at its limit if the cut one was. */
  lemma CutAtLimit(current: seq<Operation>, stored: seq<Operation>, maxDraws: nat, k: nat)
    requires WithinLimits(current, maxDraws) && DrawLimit(current, maxDraws) <= DrawCount(current)
    requires k < |current| && current[k].BeginRenderPass? && stored == current[k := BeginRenderPass(Stored(current[k].pass))]
    ensures DrawCount(stored + [EndRenderPass]) == DrawCount(current) && WithinLimits(stored + [EndRenderPass], maxDraws)
    ensures AtLimit(stored + [EndRenderPass], maxDraws)
  {
    PassEditKeepsCounts(current, k, Stored(current[k].pass), maxDraws);
    DrawCountSnoc(stored, EndRenderPass);
    LimitsSnoc(stored, EndRenderPass, maxDraws);
    assert (stored + [EndRenderPass])[..|stored|] == stored;
  }

  lemma ReopenedCounts(pass: RenderPass, replay: Bindings, maxDraws: nat)
    ensures var reopened := [BeginRenderPass(pass)] + Replay(replay);
            DrawCount(reopened) == 0 && WithinLimits(reopened, maxDraws) && BoundTexture(reopened) == replay.texture
  {
    var reopened := [BeginRenderPass(pass)];
    DrawCountSnoc([], reopened[0]);
    LimitsSnoc([], reopened[0], maxDraws);
    assert [] + reopened == reopened;
    ReplayRestores(replay, 8);
    CountSets(reopened, Replay(replay), UNBOUND, maxDraws);
  }

  lemma CutCounted(
    done: seq<Operation>, chunks: seq<seq<Operation>>, current: seq<Operation>, replay: Bindings,
    maxDraws: nat, pass: RenderPass, k: nat)
    requires Counted(done, chunks, current, maxDraws) && 0 < DrawCount(current) && DrawLimit(current, maxDraws) <= DrawCount(current)
    requires k < |current| && current[k].BeginRenderPass?
    ensures var stored := current[k := BeginRenderPass(Stored(current[k].pass))];
            var reopened := [BeginRenderPass(Loaded(pass))] + Replay(replay);
            && Counted(done, chunks + [stored + [EndRenderPass]], reopened, maxDraws)
            && DrawCount(reopened) == 0 && BoundTexture(reopened) == replay.texture
  {
    var stored := current[k := BeginRenderPass(Stored(current[k].pass))];
    CutAtLimit(current, stored, maxDraws, k);
    ChunksSnoc(map[], chunks, stored + [EndRenderPass]);
    ReopenedCounts(Loaded(pass), replay, maxDraws);
  }

  lemma {:induction false} PrefixRuns(f: Formats, ops: seq<Operation>, i: nat)
    requires i <= |ops| && Run(f, ops).Ran?
    ensures Run(f, ops[..i]).Ran?
    decreases |ops|
  {
    if i < |ops| {
      var front := ops[..|ops| - 1];
      PrefixRuns(f, front, i);
      assert front[..i] == ops[..i];
    } else {
      assert ops[..i] == ops;
    }
  }

  // ---- what a compiler accepts ------------------------------------------------------------------

  /** Whether an operation is accepted where the pass machine stands. */
  type Judge = (Machine, Operation) -> bool

  predicate SameAttachments(a: Option<RenderPass>, b: Option<RenderPass>) {
    (a.None? && b.None?) || (a.Some? && b.Some? && Loaded(Stored(a.value)) == Loaded(Stored(b.value)))
  }

  /** The judge does not care how attachments are loaded and stored, except that it may refuse a clear, nor what
      else is bound when something is; and it lets every pass end. */
  ghost predicate Tolerant(ok: Judge) {
    && (forall m: Machine, n: Machine, op: Operation | ok(m, op) && n.bound == m.bound && SameAttachments(m.pass, n.pass) :: ok(n, op))
    && (forall m, p | ok(m, BeginRenderPass(p)) :: ok(m, BeginRenderPass(Stored(p))))
    && (forall m, p | ok(m, BeginRenderPass(p)) :: ok(m, BeginRenderPass(Loaded(p))))
    && (forall m: Machine | m.pass.Some? :: ok(m, EndRenderPass))
    && (forall m: Machine, n: Machine, op: Operation | IsSet(op) && ok(m, op) && n.pass == m.pass :: ok(n, op))
  }

  /** Every operation is accepted where the stream has come to. */
  ghost predicate AllOk(f: Formats, ok: Judge, ops: seq<Operation>) {
    ops == [] ||
    (&& AllOk(f, ok, ops[..|ops| - 1]) && Run(f, ops[..|ops| - 1]).Ran?
     && ok(Run(f, ops[..|ops| - 1]).state, ops[|ops| - 1]))
  }

  lemma AllOkSnoc(f: Formats, ok: Judge, ops: seq<Operation>, op: Operation)
    ensures AllOk(f, ok, ops + [op]) == (AllOk(f, ok, ops) && Run(f, ops).Ran? && ok(Run(f, ops).state, op))
  {
    assert (ops + [op])[..|ops|] == ops;
  }

  lemma {:induction false} AllOkPrefix(f: Formats, ok: Judge, ops: seq<Operation>, i: nat)
    requires i <= |ops| && AllOk(f, ok, ops)
    ensures AllOk(f, ok, ops[..i])
    decreases |ops|
  {
    if i < |ops| {
      var front := ops[..|ops| - 1];
      AllOkPrefix(f, ok, front, i);
      assert front[..i] == ops[..i];
    } else {
      assert ops[..i] == ops;
    }
  }

  /** Everything a replay would issue is accepted in the pass. */
  ghost predicate ReplayOk(ok: Judge, pass: RenderPass, replay: Bindings) {
    forall k | 0 <= k < 8 && ReplayOne(replay, k) != [] :: ok(Machine(Some(pass), UNBOUND), ReplayOne(replay, k)[0])
  }

  /** The chunks so far and the open one are accepted, and so is whatever a cut would issue. */
  ghost predicate Fine(f: Formats, ok: Judge, chunks: seq<seq<Operation>>, current: seq<Operation>, pass: Option<RenderPass>,
                       replay: Bindings) {
    && (forall c | c in chunks :: AllOk(f, ok, c)) && AllOk(f, ok, current)
    && (pass.Some? ==> ok(IDLE, BeginRenderPass(pass.value)) && ReplayOk(ok, pass.value, replay))
  }

  lemma ReplayBinds(b: Bindings, op: Operation, k: nat)
    requires IsSet(op) && k < 8
    ensures ReplayOne(Bind(b, op), k) in {ReplayOne(b, k), [op], []}
  {
  }

  lemma BindsOk(ok: Judge, pass: RenderPass, replay: Bindings, op: Operation)
    requires ReplayOk(ok, pass, replay) && IsSet(op) && ok(Machine(Some(pass), UNBOUND), op)
    ensures ReplayOk(ok, pass, Bind(replay, op))
  {
    forall k | 0 <= k < 8 && ReplayOne(Bind(replay, op), k) != []
      ensures ok(Machine(Some(pass), UNBOUND), ReplayOne(Bind(replay, op), k)[0])
    {
      ReplayBinds(replay, op, k);
    }
  }

  lemma ElsewhereOk(ok: Judge, m: Machine, n: Machine, op: Operation)
    requires Tolerant(ok) && ok(m, op) && n.bound == m.bound && SameAttachments(m.pass, n.pass)
    ensures ok(n, op)
  {
  }

  lemma SetsOk(ok: Judge, m: Machine, n: Machine, op: Operation)
    requires Tolerant(ok) && IsSet(op) && ok(m, op) && n.pass == m.pass
    ensures ok(n, op)
  {
  }

  lemma PushFine(
    f: Formats, ok: Judge, done: seq<Operation>, chunks: seq<seq<Operation>>, current: seq<Operation>,
    pass: Option<RenderPass>, replay: Bindings, op: Operation)
    requires Tolerant(ok) && Faithful(f, done, chunks, current, pass, replay) && Fine(f, ok, chunks, current, pass, replay)
    requires AllOk(f, ok, done + [op]) && Run(f, done + [op]).Ran?
    ensures Fine(f, ok, chunks, current + [op], PassAfter(pass, op), ReplayAfter(replay, op))
  {
    AllOkSnoc(f, ok, done, op);
    RunSnoc(f, done, op);
    IdleIsUnbound(f, done);
    NextOk(f, ok, Run(f, done).state, current, op);
    PassFine(f, ok, pass, replay, op);
  }

  lemma NextOk(f: Formats, ok: Judge, m: Machine, current: seq<Operation>, op: Operation)
    requires Tolerant(ok) && ok(m, op) && AllOk(f, ok, current) && Run(f, current).Ran?
    requires Run(f, current).state.bound == m.bound && SameAttachments(m.pass, Run(f, current).state.pass)
    ensures AllOk(f, ok, current + [op])
  {
    AllOkSnoc(f, ok, current, op);
    ElsewhereOk(ok, m, Run(f, current).state, op);
  }

  lemma PassFine(f: Formats, ok: Judge, pass: Option<RenderPass>, replay: Bindings, op: Operation)
    requires Tolerant(ok) && ok(Machine(pass, replay), op) && Step(f, Machine(pass, replay), op).Ran?
    requires if pass.Some? then ok(IDLE, BeginRenderPass(pass.value)) && ReplayOk(ok, pass.value, replay) else replay == UNBOUND
    ensures var after := PassAfter(pass, op);
            after.Some? ==> ok(IDLE, BeginRenderPass(after.value)) && ReplayOk(ok, after.value, ReplayAfter(replay, op))
  {
    if op.BeginRenderPass? {
      NothingReplayed(ok, op.pass);
    } else if IsSet(op) {
      SetsOk(ok, Machine(pass, replay), Machine(pass, UNBOUND), op);
      BindsOk(ok, pass.value, replay, op);
    }
  }

  lemma NothingReplayed(ok: Judge, pass: RenderPass)
    ensures ReplayOk(ok, pass, UNBOUND)
  {
  }

  lemma CloseFine(f: Formats, ok: Judge, chunks: seq<seq<Operation>>, current: seq<Operation>, pass: Option<RenderPass>, replay: Bindings)
    requires Fine(f, ok, chunks, current, pass, replay)
    ensures Fine(f, ok, chunks + [current], [], pass, replay)
  {
  }

  /** A pass that stores is accepted where one that does not was. */
  lemma {:induction false} StoredOk(f: Formats, ok: Judge, ops: seq<Operation>, k: nat)
    requires Tolerant(ok) && AllOk(f, ok, ops) && IsLastBegin(ops, k) && Run(f, ops).Ran? && Run(f, ops).state.pass.Some?
    ensures AllOk(f, ok, ops[k := BeginRenderPass(Stored(ops[k].pass))])
  {
    var n, p := |ops| - 1, Stored(ops[k].pass);
    var changed, front := ops[k := BeginRenderPass(p)], ops[..n];
    if k == n {
      assert changed[..n] == front;
    } else {
      StoredOk(f, ok, front, k);
      StoreDeferred(f, front, k, p);
      assert changed[..n] == front[k := BeginRenderPass(p)];
      ElsewhereOk(ok, Run(f, front).state, Run(f, changed[..n]).state, ops[n]);
    }
  }

  lemma {:induction false} ReplayedOk(f: Formats, ok: Judge, pass: RenderPass, replay: Bindings, k: nat)
    requires Tolerant(ok) && ok(IDLE, BeginRenderPass(pass)) && ReplayOk(ok, pass, replay) && k <= 8 && BeginEvents(pass) == []
    ensures AllOk(f, ok, [BeginRenderPass(pass)] + ReplayUpTo(replay, k))
    ensures Run(f, [BeginRenderPass(pass)] + ReplayUpTo(replay, k)) == Ran(Machine(Some(pass), Restored(replay, k)), [])
  {
    var reopened := [BeginRenderPass(pass)];
    assert reopened[..0] == [];
    assert Run(f, reopened) == Ran(Machine(Some(pass), UNBOUND), []);
    ReplayRestores(replay, k);
    RunSets(f, reopened, ReplayUpTo(replay, k));
    if k == 0 {
      assert reopened + ReplayUpTo(replay, 0) == reopened;
    } else {
      ReplayedOk(f, ok, pass, replay, k - 1);
      OneReplayed(f, ok, pass, replay, k - 1);
    }
  }

  lemma OneReplayed(f: Formats, ok: Judge, pass: RenderPass, replay: Bindings, k: nat)
    requires Tolerant(ok) && ReplayOk(ok, pass, replay) && k < 8
    requires AllOk(f, ok, [BeginRenderPass(pass)] + ReplayUpTo(replay, k))
    requires Run(f, [BeginRenderPass(pass)] + ReplayUpTo(replay, k)) == Ran(Machine(Some(pass), Restored(replay, k)), [])
    ensures AllOk(f, ok, [BeginRenderPass(pass)] + ReplayUpTo(replay, k + 1))
  {
    var before, one := [BeginRenderPass(pass)] + ReplayUpTo(replay, k), ReplayOne(replay, k);
    Assoc([BeginRenderPass(pass)], ReplayUpTo(replay, k), one);
    ReplayOneRestores(replay, k);
    if one == [] {
      assert before + one == before;
    } else {
      SetsOk(ok, Machine(Some(pass), UNBOUND), Machine(Some(pass), Restored(replay, k)), one[0]);
      AllOkSnoc(f, ok, before, one[0]);
    }
  }

  lemma CutFine(
    f: Formats, ok: Judge, done: seq<Operation>, chunks: seq<seq<Operation>>, current: seq<Operation>,
    pass: RenderPass, replay: Bindings, k: nat)
    requires Tolerant(ok) && Faithful(f, done, chunks, current, Some(pass), replay)
    requires Fine(f, ok, chunks, current, Some(pass), replay) && IsLastBegin(current, k)
    ensures var stored := current[k := BeginRenderPass(Stored(current[k].pass))];
            Fine(f, ok, chunks + [stored + [EndRenderPass]], [BeginRenderPass(Loaded(pass))] + Replay(replay), Some(pass), replay)
  {
    var stored := current[k := BeginRenderPass(Stored(current[k].pass))];
    StoredOk(f, ok, current, k);
    StoreDeferred(f, current, k, Stored(current[k].pass));
    AllOkSnoc(f, ok, stored, EndRenderPass);
    LoadedReplays(ok, pass, replay);
    ReplayedOk(f, ok, Loaded(pass), replay, 8);
  }

  lemma LoadedReplays(ok: Judge, pass: RenderPass, replay: Bindings)
    requires Tolerant(ok) && ReplayOk(ok, pass, replay)
    ensures ReplayOk(ok, Loaded(pass), replay)
  {
    forall k | 0 <= k < 8 && ReplayOne(replay, k) != []
      ensures ok(Machine(Some(Loaded(pass)), UNBOUND), ReplayOne(replay, k)[0])
    {
      ElsewhereOk(ok, Machine(Some(pass), UNBOUND), Machine(Some(Loaded(pass)), UNBOUND), ReplayOne(replay, k)[0]);
    }
  }

  /** The splitter's loop state. */
  datatype Splitting = Splitting(
    chunks: seq<seq<Operation>>, current: seq<Operation>, pass: Option<RenderPass>, replay: Bindings, draws: nat)

  ghost predicate Tracks(f: Formats, done: seq<Operation>, s: Splitting, maxDraws: nat) {
    && s.draws == DrawCount(s.current)
    && s.replay.texture == BoundTexture(s.current)
    && Counted(done, s.chunks, s.current, maxDraws) && StaysRendering(done, s.chunks, s.current)
    && (Run(f, done).Ran? ==> Faithful(f, done, s.chunks, s.current, s.pass, s.replay))
  }

  /** A full chunk can be closed. */
  lemma CloseCounted(done: seq<Operation>, chunks: seq<seq<Operation>>, current: seq<Operation>, maxDraws: nat)
    requires Counted(done, chunks, current, maxDraws) && 0 < DrawCount(current) && maxDraws <= DrawCount(current)
    ensures Counted(done, chunks + [current], [], maxDraws)
  {
    ChunksSnoc(map[], chunks, current);
  }

  /** What is known before a pass is opened: between passes, if the stream is to run at all. */
  ghost predicate Ready(f: Formats, done: seq<Operation>, s: Splitting, maxDraws: nat, op: Operation) {
    && s.draws == DrawCount(s.current)
    && Counted(done, s.chunks, s.current, maxDraws) && StaysRendering(done, s.chunks, s.current)
    && (Run(f, done + [op]).Ran? ==> Faithful(f, done, s.chunks, s.current, s.pass, s.replay))
  }

  lemma CloseReady(f: Formats, done: seq<Operation>, s: Splitting, maxDraws: nat, pass: RenderPass)
    requires Tracks(f, done, s, maxDraws) && 0 < s.draws && maxDraws <= s.draws
    ensures Ready(f, done, s.(chunks := s.chunks + [s.current], current := [], draws := 0), maxDraws, BeginRenderPass(pass))
  {
    RunSnoc(f, done, BeginRenderPass(pass));
    CloseCounted(done, s.chunks, s.current, maxDraws);
    if Run(f, done + [BeginRenderPass(pass)]).Ran? {
      CutIdle(f, done, s.chunks, s.current, s.pass, s.replay);
    }
  }

  lemma OpenTracks(f: Formats, done: seq<Operation>, s: Splitting, maxDraws: nat, pass: RenderPass)
    requires Ready(f, done, s, maxDraws, BeginRenderPass(pass))
    ensures Tracks(f, done + [BeginRenderPass(pass)],
                   s.(current := s.current + [BeginRenderPass(pass)], pass := Some(pass), replay := UNBOUND), maxDraws)
  {
    var op := BeginRenderPass(pass);
    LimitsSnoc(s.current, op, maxDraws);
    DrawCountSnoc(s.current, op);
    PushCounted(done, s.chunks, s.current, maxDraws, op);
    PushStays(done, s.chunks, s.current, op);
    if Run(f, done + [op]).Ran? {
      PushFaithful(f, done, s.chunks, s.current, s.pass, s.replay, op);
    }
  }

  /** What a tolerant judge accepts of the stream so far, it accepts of its split. */
  ghost predicate StillFine(f: Formats, ok: Judge, done: seq<Operation>, s: Splitting) {
    Tolerant(ok) && AllOk(f, ok, done) && Run(f, done).Ran? ==> Fine(f, ok, s.chunks, s.current, s.pass, s.replay)
  }

  lemma OpenFine(f: Formats, ok: Judge, done: seq<Operation>, s: Splitting, t: Splitting, maxDraws: nat, pass: RenderPass)
    requires Tracks(f, done, s, maxDraws) && StillFine(f, ok, done, s) && Ready(f, done, t, maxDraws, BeginRenderPass(pass))
    requires t == s || t == s.(chunks := s.chunks + [s.current], current := [], draws := 0)
    ensures StillFine(f, ok, done + [BeginRenderPass(pass)],
                      t.(current := t.current + [BeginRenderPass(pass)], pass := Some(pass), replay := UNBOUND))
  {
    var op := BeginRenderPass(pass);
    AllOkSnoc(f, ok, done, op);
    if Tolerant(ok) && AllOk(f, ok, done + [op]) && Run(f, done + [op]).Ran? {
      CloseFine(f, ok, s.chunks, s.current, s.pass, s.replay);
      PushFine(f, ok, done, t.chunks, t.current, t.pass, t.replay, op);
    }
  }

  lemma NextFine(f: Formats, ok: Judge, done: seq<Operation>, s: Splitting, maxDraws: nat, op: Operation)
    requires Tracks(f, done, s, maxDraws) && StillFine(f, ok, done, s)
    ensures StillFine(f, ok, done + [op],
                      s.(current := s.current + [op], pass := PassAfter(s.pass, op), replay := ReplayAfter(s.replay, op),
                         draws := s.draws + if IsDraw(op) then 1 else 0))
  {
    AllOkSnoc(f, ok, done, op);
    if Tolerant(ok) && AllOk(f, ok, done + [op]) && Run(f, done + [op]).Ran? {
      PushFine(f, ok, done, s.chunks, s.current, s.pass, s.replay, op);
    }
  }

  /** A new pass starts a new chunk once the open one is full. */
  method MakeRoomForPass(s: Splitting, maxDraws: nat, pass: RenderPass, ghost f: Formats, ghost ok: Judge, ghost done: seq<Operation>)
    returns (t: Splitting)
    requires maxDraws > 0 && Tracks(f, done, s, maxDraws) && StillFine(f, ok, done, s)
    ensures Tracks(f, done + [BeginRenderPass(pass)], t, maxDraws) && StillFine(f, ok, done + [BeginRenderPass(pass)], t)
  {
    RunSnoc(f, done, BeginRenderPass(pass));
    t := s;
    if s.draws >= maxDraws && s.current != [] {
      CloseReady(f, done, s, maxDraws, pass);
      t := t.(chunks := s.chunks + [s.current], current := [], draws := 0);
    }
    OpenTracks(f, done, t, maxDraws, pass);
    OpenFine(f, ok, done, s, t, maxDraws, pass);
    t := t.(current := t.current + [BeginRenderPass(pass)], pass := Some(pass), replay := UNBOUND);
  }

  /** A draw that finds the open chunk full cuts the pass and continues it in a new chunk. */
  method MakeRoomForDraw(s: Splitting, maxDraws: nat, ghost f: Formats, ghost ok: Judge, ghost done: seq<Operation>)
    returns (r: Result<Splitting, SubmitError>)
    requires maxDraws > 0 && Tracks(f, done, s, maxDraws) && StillFine(f, ok, done, s)
    ensures r.Ok? ==> Tracks(f, done, r.value, maxDraws) && r.value.draws < DrawLimit(r.value.current, maxDraws)
    ensures r.Ok? ==> StillFine(f, ok, done, r.value)
    ensures Run(f, done).Ran? && Run(f, done).state.pass.Some? ==> r.Ok?
  {
    var drawLimit := if s.replay.texture.Some? && MAX_TEXTURED_DRAWS_PER_SUBMIT < maxDraws
      then MAX_TEXTURED_DRAWS_PER_SUBMIT else maxDraws;
    if s.draws < drawLimit {
      return Ok(s);
    }
    if s.pass.None? {
      return Err(UnsupportedState);
    }
    if Run(f, done).Ran? {
      OpenPassHasBegin(f, s.current);
    }
    var forced := ForceActivePassStore(s.current);
    if forced.Err? {
      return Err(forced.error);
    }
    ghost var k :| && IsLastBegin(s.current, k)
                   && forced.value == s.current[k := BeginRenderPass(Stored(s.current[k].pass))];
    if Run(f, done).Ran? {
      CutInPass(f, done, s.chunks, s.current, s.pass.value, s.replay, k);
    }
    CutCounted(done, s.chunks, s.current, s.replay, maxDraws, s.pass.value, k);
    CutStays(done, s.chunks, s.current, k, Stored(s.current[k].pass), Loaded(s.pass.value), s.replay);
    if Tolerant(ok) && AllOk(f, ok, done) && Run(f, done).Ran? {
      CutFine(f, ok, done, s.chunks, s.current, s.pass.value, s.replay, k);
    }
    return Ok(s.(chunks := s.chunks + [forced.value + [EndRenderPass]],
                 current := [BeginRenderPass(Loaded(s.pass.value))] + Replay(s.replay),
                 draws := 0));
  }

  lemma {:induction false} OpenPassHasBegin(f: Formats, ops: seq<Operation>)
    requires Run(f, ops).Ran? && Run(f, ops).state.pass.Some?
    ensures exists op :: op in ops && op.BeginRenderPass?
  {
    var last := ops[|ops| - 1];
    if last.BeginRenderPass? {
      assert last in ops;
    } else {
      OpenPassHasBegin(f, ops[..|ops| - 1]);
    }
  }

  lemma PushTracks(f: Formats, done: seq<Operation>, s: Splitting, maxDraws: nat, op: Operation)
    requires Tracks(f, done, s, maxDraws) && !op.BeginRenderPass?
    requires IsDraw(op) ==> s.draws < DrawLimit(s.current, maxDraws)
    ensures Tracks(f, done + [op],
                   s.(current := s.current + [op], pass := PassAfter(s.pass, op), replay := ReplayAfter(s.replay, op),
                      draws := s.draws + if IsDraw(op) then 1 else 0), maxDraws)
  {
    RunSnoc(f, done, op);
    LimitsSnoc(s.current, op, maxDraws);
    DrawCountSnoc(s.current, op);
    PushCounted(done, s.chunks, s.current, maxDraws, op);
    PushStays(done, s.chunks, s.current, op);
    if Run(f, done + [op]).Ran? {
      PushFaithful(f, done, s.chunks, s.current, s.pass, s.replay, op);
    }
  }

  /** Splits a stream into chunks of at most `maxDraws` draws that mean the same, one after another, and that a
      tolerant judge accepts if it accepts the stream. */
  method SplitSubmissionOperations(source: seq<Operation>, maxDraws: nat, ghost f: Formats, ghost ok: Judge)
    returns (r: Result<seq<seq<Operation>>, SubmitError>)
    ensures maxDraws == 0 ==> r == Err(UnsupportedState)
    ensures r.Ok? ==> SplitCounts(source, maxDraws, r.value)
    ensures maxDraws > 0 && Meaning(f, source).Some? ==>
              r.Ok? && ChunksMeaning(f, r.value) == Meaning(f, source)
    ensures r.Ok? && Tolerant(ok) && AllOk(f, ok, source) && Run(f, source).Ran? ==> forall c | c in r.value :: AllOk(f, ok, c)
  {
    if maxDraws == 0 {
      return Err(UnsupportedState);
    }
    var s := Splitting([], [], None, UNBOUND, 0);
    for i := 0 to |source|
      invariant Tracks(f, source[..i], s, maxDraws) && StillFine(f, ok, source[..i], s)
    {
      var op := source[i];
      assert source[..i + 1] == source[..i] + [op];
      if op.BeginRenderPass? {
        s := MakeRoomForPass(s, maxDraws, op.pass, f, ok, source[..i]);
      } else {
        if IsDraw(op) {
          var roomy := MakeRoomForDraw(s, maxDraws, f, ok, source[..i]);
          if roomy.Err? {
            DrawNeedsPass(f, source, i);
            return Err(roomy.error);
          }
          s := roomy.value;
        }
        PushTracks(f, source[..i], s, maxDraws, op);
        NextFine(f, ok, source[..i], s, maxDraws, op);
        s := s.(current := s.current + [op], pass := PassAfter(s.pass, op), replay := ReplayAfter(s.replay, op),
                draws := s.draws + if IsDraw(op) then 1 else 0);
      }
    }
    assert source[..|source|] == source;
    FinishSplit(f, source, s, maxDraws);
    return Ok(if s.current != [] then s.chunks + [s.current] else s.chunks);
  }

  lemma DrawNeedsPass(f: Formats, source: seq<Operation>, i: nat)
    requires i < |source| && IsDraw(source[i])
    ensures Run(f, source).Ran? ==> Run(f, source[..i]).Ran? && Run(f, source[..i]).state.pass.Some?
  {
    if Run(f, source).Ran? {
      PrefixRuns(f, source, i);
      PrefixRuns(f, source, i + 1);
      assert source[..i + 1] == source[..i] + [source[i]];
      RunSnoc(f, source[..i], source[i]);
    }
  }

  lemma FinishSplit(f: Formats, source: seq<Operation>, s: Splitting, maxDraws: nat)
    requires Tracks(f, source, s, maxDraws)
    ensures var chunks := if s.current != [] then s.chunks + [s.current] else s.chunks;
            && SplitCounts(source, maxDraws, chunks)
            && (Meaning(f, source).Some? ==> ChunksMeaning(f, chunks) == Meaning(f, source))
  {
    ChunksSnoc(f, s.chunks, s.current);
    if Meaning(f, source).Some? {
      FinishFaithful(f, source, s.chunks, s.current, s.pass, s.replay);
    }
  }

  lemma FinishFaithful(
    f: Formats, source: seq<Operation>, chunks: seq<seq<Operation>>, current: seq<Operation>,
    pass: Option<RenderPass>, replay: Bindings)
    requires Faithful(f, source, chunks, current, pass, replay) && Meaning(f, source).Some?
    ensures ChunksMeaning(f, if current != [] then chunks + [current] else chunks) == Meaning(f, source)
  {
    if current == [] {
      assert ChunksMeaning(f, chunks).value + [] == ChunksMeaning(f, chunks).value;
    } else {
      ChunksSnoc(f, chunks, current);
    }
  }
}
