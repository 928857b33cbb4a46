/** The compiler from end to end: what it returns can be parsed, stays inside every object, and can
    always be translated to the submit wire. */
module CompileStream {
  import opened Wrappers
  import opened Arith
  import opened WireFormat
  import opened Sequences
  import opened Operations
  import opened Accesses
  import opened Stream
  import opened Commands
  import opened Descriptors
  import opened Images
  import opened Bounds
  import opened Lowering
  import opened Compile
  import opened Emitters
  import T = WireTranslation

  datatype Output = Output(compiled: T.Compiled, generated: seq<GeneratedObject>)

  /** Why the input tables are refused, or None. */
  function TablesError(i: Input, n: nat): Option<CompileError>
    requires n <= |i.resources|
  {
    if n == 0 then (if i.maxWords == 0 || i.maxPitch == 0 then Some(InvalidResource) else None)
    else
      var earlier, r := TablesError(i, n - 1), i.resources[n - 1];
      if earlier.Some? then earlier
      else if r.size == 0 || exists k | 0 <= k < n - 1 :: i.resources[k].id == r.id then Some(InvalidIdentity)
      else if r.kind.Image? then LayoutError(r.size, r.kind.image, i.maxPitch)
      else None
  }

  lemma {:induction false} TablesNeverRefuseBatch(i: Input, n: nat)
    requires n <= |i.resources|
    ensures TablesError(i, n) != Some(BatchState)
  {
    if n > 0 {
      TablesNeverRefuseBatch(i, n - 1);
    }
  }

  /** All commands in stream order: the filled texture states and their barrier, then the operations. */
  function AllCommands(l: Lowered): seq<Command> {
    if l.states == [] then l.commands else Prologue(l.states) + Barrier() + l.commands
  }

  lemma LowerConcat(a: seq<Command>, b: seq<Command>)
    ensures LowerAll(a + b) == LowerAll(a) + LowerAll(b)
  {
  }

  lemma AllLowered(l: Lowered)
    ensures LowerAll(AllCommands(l)) == Joined(Prologue(l.states), l.commands)
  {
    if l.states != [] {
      LowerConcat(Prologue(l.states), Barrier());
      LowerConcat(Prologue(l.states) + Barrier(), l.commands);
      assert |Prologue(l.states)| > 0;
    }
  }

  lemma AllCommandsInside(w: World, l: Lowered)
    requires Good(w, l)
    ensures AllInside(ObjectsOf(w, l), AllCommands(l))
  {
    var o := ObjectsOf(w, l);
    assert AllInside(o, Barrier());
    InsideConcat(o, Prologue(l.states), Barrier());
    InsideConcat(o, Prologue(l.states) + Barrier(), l.commands);
  }

  /** What every returned stream satisfies. */
  ghost predicate WellFormed(o: Objects, c: T.Compiled, ps: seq<Packet>, budget: u32) {
    && StreamOf(c, ps, budget)
    && (forall k | 0 <= k < |c.fixups| :: FixupInside(o, c.fixups[k]))
    && (forall k | 0 <= k < |c.accesses| :: RecordInside(o, c.accesses[k]))
    && T.Sound(o.shaders, c)
  }

  lemma FinishedIsWellFormed(w: World, l: Lowered, c: T.Compiled, ps: seq<Packet>, budget: u32)
    requires Good(w, l) && ps == LowerAll(AllCommands(l)) && StreamOf(c, ps, budget)
    ensures WellFormed(ObjectsOf(w, l), c, ps, budget)
  {
    var o := ObjectsOf(w, l);
    AllCommandsInside(w, l);
    StreamInside(o, AllCommands(l));
    FixupsInside(o, Flatten(ps));
    RecordsInside(o, c.accesses, c.fixups);
    InsideIsSound(o, c);
  }

  lemma AllTaken(l: Lowered)
    ensures AllAcceptable(AllCommands(l)) == (AllAcceptable(Prologue(l.states)) && AllAcceptable(l.commands))
  {
    if l.states == [] {
      assert Prologue(l.states) == [];
    } else {
      BarrierLowers();
      AcceptableConcat(Prologue(l.states), Barrier());
      AcceptableConcat(Prologue(l.states) + Barrier(), l.commands);
    }
  }

  lemma AcceptableConcat(a: seq<Command>, b: seq<Command>)
    ensures AllAcceptable(a + b) == (AllAcceptable(a) && AllAcceptable(b))
  {
    if AllAcceptable(a + b) {
      assert forall i | 0 <= i < |a| :: a[i] == (a + b)[i];
      assert forall i | 0 <= i < |b| :: b[i] == (a + b)[|a| + i];
    }
  }

  method EmitAll(w: World, l: Lowered, maxWords: u32) returns (r: Result<T.Compiled, CompileError>)
    requires Good(w, l)
    ensures r.Ok? <==> Emittable(AllCommands(l), maxWords)
    ensures r.Ok? ==> WellFormed(ObjectsOf(w, l), r.value, LowerAll(AllCommands(l)), maxWords)
    ensures r.Err? ==> r.error in {CommandBudgetExceeded, Overflow, InvalidPm4}
  {
    AllLowered(l);
    AllTaken(l);
    r := EmitStreams(Prologue(l.states), l.commands, maxWords);
    if r.Ok? {
      FinishedIsWellFormed(w, l, r.value, LowerAll(AllCommands(l)), maxWords);
    }
  }

  /** The compile loop over a stream.  The emitter's own batch checks never refuse, everything lowered
      is good, and an accepted stream has a meaning in the reference semantics. */
  function LowerRun(i: Input, ops: seq<Operation>): (r: Result<(State, Lowered), CompileError>)
    ensures r != Err(BatchState)
    ensures r.Ok? ==> Good(WorldOf(i), r.value.1) && InTouch(r.value.0, r.value.1)
    ensures r.Ok? ==>
              && Operations.Run(FormatsOf(i.resources), ops).Ran?
              && Operations.Run(FormatsOf(i.resources), ops).state == r.value.0.machine
  {
    if ops == [] then Ok((State(IDLE, false), NOTHING_LOWERED))
    else
      var n := |ops| - 1;
      var before := LowerRun(i, ops[..n]);
      if before.Err? then before
      else
        LowerOneRuns(i, ops, before.value.0, before.value.1);
        LowerOne(i, before.value.0, before.value.1, ops[n])
  }

  lemma LowerOneRuns(i: Input, ops: seq<Operation>, s: State, l: Lowered)
    requires ops != [] && Good(WorldOf(i), l) && InTouch(s, l)
    requires Operations.Run(FormatsOf(i.resources), ops[..|ops| - 1]).Ran?
    requires Operations.Run(FormatsOf(i.resources), ops[..|ops| - 1]).state == s.machine
    ensures var f, next := FormatsOf(i.resources), LowerOne(i, s, l, ops[|ops| - 1]);
            && next != Err(BatchState)
            && (next.Ok? ==>
                  && Good(WorldOf(i), next.value.1) && InTouch(next.value.0, next.value.1)
                  && Operations.Run(f, ops).Ran? && Operations.Run(f, ops).state == next.value.0.machine)
  {
    var op := ops[|ops| - 1];
    LowerOneKeeps(i, s, l, op);
    if LowerOne(i, s, l, op).Ok? {
      AcceptedRuns(i, s, l, op);
      RunLast(FormatsOf(i.resources), ops, s.machine, LowerOne(i, s, l, op).value.0.machine);
    }
  }

  lemma RunLast(f: Formats, ops: seq<Operation>, before: Machine, after: Machine)
    requires ops != [] && Operations.Run(f, ops[..|ops| - 1]).Ran? && Operations.Run(f, ops[..|ops| - 1]).state == before
    requires Step(f, before, ops[|ops| - 1]).Ran? && Step(f, before, ops[|ops| - 1]).state == after
    ensures Operations.Run(f, ops).Ran? && Operations.Run(f, ops).state == after
  {
    var n := |ops| - 1;
    RunSnoc(f, ops[..n], ops[n]);
    assert ops == ops[..n] + [ops[n]];
  }

  /** A refused prefix refuses the stream, with the same error. */
  lemma {:induction false} RefusedPrefix(i: Input, ops: seq<Operation>, k: nat)
    requires k <= |ops| && LowerRun(i, ops[..k]).Err?
    ensures LowerRun(i, ops) == LowerRun(i, ops[..k])
  {
    if k == |ops| {
      assert ops[..k] == ops;
    } else {
      var front := ops[..|ops| - 1];
      assert front[..k] == ops[..k];
      RefusedPrefix(i, front, k);
    }
  }

  /** What is to be emitted for a whole input, or why it is refused. */
  function LowerStream(i: Input, ops: seq<Operation>): Result<Lowered, CompileError> {
    var error := TablesError(i, |i.resources|);
    if error.Some? then Err(error.value)
    else
      var run := LowerRun(i, ops);
      if run.Err? then Err(run.error)
      else if run.value.0.machine.pass.Some? then Err(InvalidState)
      else Ok(run.value.1)
  }

  /** The compile loop: one operation after another, until one is refused. */
  method LowerOperations(i: Input, ops: seq<Operation>) returns (r: Result<(State, Lowered), CompileError>)
    ensures r == LowerRun(i, ops)
  {
    var s, l := State(IDLE, false), NOTHING_LOWERED;
    for k := 0 to |ops|
      invariant LowerRun(i, ops[..k]) == Ok((s, l))
    {
      TakeTake(ops, k);
      var next := LowerOne(i, s, l, ops[k]);
      if next.Err? {
        RefusedPrefix(i, ops, k + 1);
        return Err(next.error);
      }
      s, l := next.value.0, next.value.1;
    }
    assert ops[..|ops|] == ops;
    r := Ok((s, l));
  }

  /** Compiles a stream.  It is accepted exactly when every operation is and its commands fit the budget;
      then the result is the packets of those commands and is well formed, and the reference semantics
      gives the stream a meaning; the emitter's own batch checks never refuse. */
  method CompileOperations(i: Input, ops: seq<Operation>) returns (r: Result<Output, CompileError>)
    ensures r.Ok? <==> LowerStream(i, ops).Ok? && Emittable(AllCommands(LowerStream(i, ops).value), i.maxWords)
    ensures LowerStream(i, ops).Err? ==> r == Err(LowerStream(i, ops).error)
    ensures LowerStream(i, ops).Ok? && r.Err? ==> r.error in {CommandBudgetExceeded, Overflow, InvalidPm4}
    ensures r != Err(BatchState)
    ensures r.Ok? ==> Meaning(FormatsOf(i.resources), ops).Some?
    ensures r.Ok? ==>
              && r.value.generated == LowerStream(i, ops).value.generated
              && WellFormed(Objects(Sizes(i.resources), SizesOf(r.value.generated), i.enc.tables.sizes), r.value.compiled,
                            LowerAll(AllCommands(LowerStream(i, ops).value)), i.maxWords)
  {
    TablesNeverRefuseBatch(i, |i.resources|);
    var error := TablesError(i, |i.resources|);
    if error.Some? {
      return Err(error.value);
    }
    var run := LowerOperations(i, ops);
    if run.Err? {
      return Err(run.error);
    }
    var (s, l) := run.value;
    if s.machine.pass.Some? {
      return Err(InvalidState);
    }
    var compiled := EmitAll(WorldOf(i), l, i.maxWords);
    if compiled.Err? {
      return Err(compiled.error);
    }
    r := Ok(Output(compiled.value, l.generated));
  }

  /** Bindings that give every object its whole size, with a non-zero token. */
  ghost predicate BoundFully(o: Objects, bs: seq<T.Bound>) {
    forall target: ObjectRef | !target.CanonicalShader? && SizeOf(o, target) > 0 ::
      && T.FirstBound(bs, target).Some?
      && var b := T.FirstBound(bs, target).value; b.token != 0 && SizeOf(o, target) <= b.size && b.allocation + b.size < U64_LIMIT
  }

  /** Whenever the count-only check accepts a compiled stream, translation to the wire succeeds with exactly
      that length. */
  method TranslateCompiled(i: Input, out: Output, bindings: seq<T.Bound>, ghost ps: seq<Packet>)
    returns (r: Result<seq<byte>, T.Error>)
    requires WellFormed(Objects(Sizes(i.resources), SizesOf(out.generated), i.enc.tables.sizes), out.compiled, ps, i.maxWords)
    requires BoundFully(Objects(Sizes(i.resources), SizesOf(out.generated), i.enc.tables.sizes), bindings)
    ensures T.Preflight(out.compiled).Ok? ==> r.Ok? && |r.value| == T.Preflight(out.compiled).value
  {
    ghost var o := Objects(Sizes(i.resources), SizesOf(out.generated), i.enc.tables.sizes);
    BindingsAreComplete(o, out.compiled, ps, i.maxWords, bindings);
    ghost var s;
    r, s := T.Translate(i.enc.tables.sizes, out.compiled, bindings);
  }

  lemma BindingsAreComplete(o: Objects, c: T.Compiled, ps: seq<Packet>, budget: u32, bs: seq<T.Bound>)
    requires WellFormed(o, c, ps, budget) && BoundFully(o, bs)
    ensures T.Complete(bs, c.accesses)
  {
    forall k | 0 <= k < |c.accesses|
      ensures T.Holdable(bs, c.accesses[k])
    {
      assert RecordInside(o, c.accesses[k]);
    }
  }
}
