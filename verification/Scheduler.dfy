/** The bounded scheduler itself, proved to take only steps of the dispatch model, and to make
    progress exactly when it says so. */
module Scheduler {
  import opened Wrappers
  import opened DispatchModel
  import opened DispatchOrder
  import opened Sequences

  datatype Answer = Yes | No | Error(error: Error)
  datatype SubmitAnswer = Sent | Busy | Refused(error: Error)
  datatype Attempt = Went | Held | Broke(error: Error)
  datatype Admission = Admitted | QueueBusy | TooLarge | AlreadyFailed(error: Error)

  // ---- counting progress ------------------------------------------------------------------------

  predicate IsProgress(s: Step) { s.Observe? || s.Retire? || s.Accept? }

  function ProgressCount(steps: seq<Step>): nat {
    if steps == [] then 0
    else ProgressCount(steps[..|steps| - 1]) + if IsProgress(steps[|steps| - 1]) then 1 else 0
  }

  lemma ProgressSnoc(steps: seq<Step>, s: Step)
    ensures ProgressCount(steps + [s]) == ProgressCount(steps) + if IsProgress(s) then 1 else 0
  {
    assert (steps + [s])[..|steps|] == steps;
  }

  /** What is left to do: two for each unsubmitted chunk, one for each receipt and each job. */
  function Measure(jobs: seq<Job>): int {
    2 * Unsubmitted(jobs) + |InFlight(jobs)| + |jobs|
  }

  predicate IsWorkerStep(s: Step) { !s.Admit? && !s.Fail? }

  /** Each progress step removes exactly one unit of work; the others leave the queue alone. */
  lemma StepMeasure(w: World, s: Step)
    requires Enabled(w, s) && IsWorkerStep(s)
    ensures Measure(Apply(w, s).q.jobs) == Measure(w.q.jobs) - if IsProgress(s) then 1 else 0
    ensures !IsProgress(s) ==> Apply(w, s).q == w.q
  {
    match s
    case Observe(j, i) =>
      ReplaceJob(w.q.jobs, j, w.q.jobs[j].(receipts := Remove(w.q.jobs[j].receipts, i)));
    case Retire =>
      PopJob(w.q.jobs);
    case Accept =>
      var j := NextJob(w.q.jobs, 0);
      ReplaceJob(w.q.jobs, j, Advanced(w.q.jobs[j], |w.q.accepted|));
    case GpuCompletes(_, _) =>
    case Stage(_) =>
  }

  /** Over a whole stretch of worker steps the measure falls by the number of progress steps. */
  lemma {:induction false} RunMeasure(w: World, steps: seq<Step>)
    requires IsRun(w, steps) && forall s | s in steps :: IsWorkerStep(s)
    ensures Measure(After(w, steps).q.jobs) == Measure(w.q.jobs) - ProgressCount(steps)
    ensures ProgressCount(steps) == 0 ==> After(w, steps).q == w.q
  {
    if steps != [] {
      var front, s := steps[..|steps| - 1], steps[|steps| - 1];
      RunMeasure(w, front);
      assert s in steps;
      StepMeasure(After(w, front), s);
    }
  }

  /** The worker has gone from w0 to w by `steps`, and `progressed` says whether it did anything. */
  ghost predicate Worked(w0: World, steps: seq<Step>, w: World, progressed: bool) {
    && IsRun(w0, steps) && After(w0, steps) == w
    && (forall s | s in steps :: IsWorkerStep(s))
    && progressed == (ProgressCount(steps) > 0)
  }

  lemma WorkedMore(w0: World, steps: seq<Step>, w: World, progressed: bool, s: Step)
    requires Worked(w0, steps, w, progressed) && Enabled(w, s) && IsWorkerStep(s)
    ensures Worked(w0, steps + [s], Apply(w, s), progressed || IsProgress(s))
  {
    RunSnoc(w0, steps, s);
    ProgressSnoc(steps, s);
  }

  lemma NextJobIs(jobs: seq<Job>, j: nat, i: nat)
    requires i <= j < |jobs| && jobs[j].next < |jobs[j].chunks| && AllSent(jobs, j)
    ensures NextJob(jobs, i) == j
  {
  }

  /** The first n jobs have nothing left to submit. */
  predicate AllSent(jobs: seq<Job>, n: nat)
    requires n <= |jobs|
  {
    forall i | 0 <= i < n :: jobs[i].next >= |jobs[i].chunks|
  }

  lemma AllSentNext(jobs: seq<Job>, j: nat)
    requires j < |jobs| && AllSent(jobs, j) && jobs[j].next >= |jobs[j].chunks|
    ensures AllSent(jobs, j + 1)
  {
  }

  lemma AllSentBefore(jobs: seq<Job>, j: nat, job: Job)
    requires j < |jobs| && AllSent(jobs, j)
    ensures AllSent(jobs[j := job], j)
  {
  }

  lemma InFlightNext(jobs: seq<Job>, j: nat)
    requires j < |jobs|
    ensures |InFlight(jobs[..j + 1])| == |InFlight(jobs[..j])| + |jobs[j].receipts|
  {
    TakeTake(jobs, j);
  }

  // ---- answers ------------------------------------------------------------------------------------

  /** What an answer that is not a yes leaves on record: its error, if it is one. */
  function Refusal(a: Answer): seq<Option<Error>> {
    match a
    case Yes => []
    case No => [None]
    case Error(e) => [Some(e)]
  }

  function SubmitRefusal(a: SubmitAnswer): seq<Option<Error>> {
    match a
    case Sent => []
    case Busy => [None]
    case Refused(e) => [Some(e)]
  }

  /** The refusals since `before` are an error exactly when `error` is one: it is the last of them, and
      the only error among them. */
  ghost predicate Heard(before: seq<Option<Error>>, now: seq<Option<Error>>, error: Option<Error>) {
    && before <= now
    && (error.Some? ==> |before| < |now| && now[|now| - 1] == error)
    && forall i | |before| <= i < |now| - (if error.Some? then 1 else 0) :: now[i].None?
  }

  function AttemptRefusal(a: Attempt): seq<Option<Error>> {
    match a
    case Went => []
    case Held => [None]
    case Broke(e) => [Some(e)]
  }

  lemma HeardOn(a: seq<Option<Error>>, b: seq<Option<Error>>, c: seq<Option<Error>>, error: Option<Error>)
    requires Heard(a, b, None) && Heard(b, c, error)
    ensures Heard(a, c, error)
  {
    assert forall i | |a| <= i < |b| :: c[i] == b[i];
  }

  // ---- the transport -------------------------------------------------------------------------------

  /** A transport over a GPU that works on its own.  Its answers are arbitrary, except that it never
      reports unfinished work as finished. */
  class Transport {
    var accepted: seq<Chunk>
    var log: seq<(nat, Outcome)>
    var executed: set<nat>
    var memory: Memory
    ghost var refusals: seq<Option<Error>>   // every answer so far that was not a yes

    constructor (initial: Buffers)
      ensures accepted == [] && log == [] && executed == {} && memory == Start(initial).memory
    {
      accepted, log, executed, refusals := [], [], {}, [];
      memory := Memory(initial, initial, map[], map[]);
    }

    /** The GPU completes any accepted chunks it likes before the next answer is given. */
    method Elapse(ghost w0: World, ghost before: seq<Step>, ghost q: Queue, ghost progressed: bool)
      returns (ghost steps: seq<Step>)
      requires Worked(w0, before, World(q, executed, memory), progressed) && q.accepted == accepted
      modifies this`executed, this`memory
      ensures Worked(w0, steps, World(q, executed, memory), progressed)
    {
      steps := before;
      var rounds: nat := *;
      while rounds > 0
        invariant Worked(w0, steps, World(q, executed, memory), progressed)
      {
        var k: nat, scribble: Bytes := *, *;
        if k < |accepted| && accepted[k].Commands? && k !in executed {
          WorkedMore(w0, steps, World(q, executed, memory), progressed, GpuCompletes(k, scribble));
          steps := steps + [GpuCompletes(k, scribble)];
          var a := accepted[k].arena;
          executed := executed + {k};
          memory := memory.(arenas := memory.arenas[a := ArenaBytes(memory, a) + scribble]);
        }
        rounds := rounds - 1;
      }
    }

    method Poll(k: nat) returns (a: Answer)
      modifies this`refusals
      ensures a.Yes? ==> k in executed
      ensures refusals == old(refusals) + Refusal(a)
    {
      a := *;
      if a.Yes? && k !in executed {
        a := No;
      }
      refusals := refusals + Refusal(a);
    }

    method Ready(c: Chunk) returns (a: Answer)
      modifies this`refusals
      ensures a.Yes? ==> ArenaReady(memory, executed, c)
      ensures refusals == old(refusals) + Refusal(a)
    {
      a := *;
      if a.Yes? && !ArenaReady(memory, executed, c) {
        a := No;
      }
      refusals := refusals + Refusal(a);
    }

    /** Uploads are written first; the chunk may still be turned away with them in place. */
    method Submit(c: Chunk) returns (a: SubmitAnswer, ghost staged: nat)
      modifies this
      ensures unchanged(this`log) && refusals == old(refusals) + SubmitRefusal(a)
      ensures a.Sent? ==>
                && accepted == old(accepted) + [c]
                && executed == (if c.Commands? then old(executed) else old(executed) + {old(|accepted|)})
                && memory == Received(old(memory), c, old(|accepted|))
      ensures !a.Sent? ==>
                && unchanged(this`accepted) && unchanged(this`executed)
                && if c.Commands? then
                     staged <= |c.uploads| && memory == Staged(old(memory), c.arena, c.uploads[..staged])
                   else memory == old(memory)
    {
      staged := 0;
      a := *;
      if a.Sent? {
        memory := Received(memory, c, |accepted|);
        if !c.Commands? {
          executed := executed + {|accepted|};
        }
        accepted := accepted + [c];
      } else if c.Commands? {
        var count := |c.uploads|;
        if a.Refused? {
          count :| 0 <= count <= |c.uploads|;
        }
        staged := count;
        memory := Staged(memory, c.arena, c.uploads[..count]);
      }
      refusals := refusals + SubmitRefusal(a);
    }

    method Complete(signal: nat, outcome: Outcome)
      modifies this`log
      ensures log == old(log) + [(signal, outcome)]
    {
      log := log + [(signal, outcome)];
    }
  }

  // ---- the scheduler ---------------------------------------------------------------------------------

  class Scheduler {
    var jobs: seq<Job>
    var bytes: int
    var failure: Option<Error>
    ghost var admitted: seq<seq<Chunk>>
    var signals: nat

    ghost function Queue(t: Transport): Queue
      reads this, t
    {
      DispatchModel.Queue(jobs, bytes, failure, admitted, t.accepted, t.log)
    }

    ghost function World(t: Transport): World
      reads this, t
    {
      DispatchModel.World(Queue(t), t.executed, t.memory)
    }

    ghost predicate Valid()
      reads this
    {
      && |jobs| <= MAX_SUBMISSIONS && |InFlight(jobs)| <= MAX_NATIVE_IN_FLIGHT
      && bytes == QueuedBytes(jobs) && signals == |admitted|
      && forall i | 0 <= i < |jobs| :: jobs[i].next <= |jobs[i].chunks|
    }

    constructor ()
      ensures Valid() && jobs == [] && bytes == 0 && failure.None? && admitted == [] && signals == 0
    {
      jobs, bytes, failure, admitted, signals := [], 0, None, [], 0;
    }

    /** Admission takes a whole job or nothing, and performs no transport operation. */
    method Enqueue(t: Transport, chunks: seq<Chunk>) returns (r: Admission)
      requires Valid()
      modifies this
      ensures Valid()
      ensures r.Admitted? <==> MayAdmit(old(Queue(t)), chunks)
      ensures r.Admitted? ==> World(t) == Apply(old(World(t)), Admit(chunks))
      ensures !r.Admitted? ==> World(t) == old(World(t))
      ensures r.AlreadyFailed? <==> failure.Some?
      ensures r.AlreadyFailed? ==> failure == Some(r.error)
      ensures r.TooLarge? <==> failure.None? && TotalSize(chunks) > MAX_PENDING_BYTES
    {
      if failure.Some? {
        return AlreadyFailed(failure.value);
      }
      var size := TotalSize(chunks);
      if size > MAX_PENDING_BYTES {
        return TooLarge;
      }
      if |jobs| == MAX_SUBMISSIONS || bytes + size > MAX_PENDING_BYTES {
        return QueueBusy;
      }
      AppendJob(jobs, Job(signals, chunks, 0, [], size));
      jobs := jobs + [Job(signals, chunks, 0, [], size)];
      bytes := bytes + size;
      admitted := admitted + [chunks];
      signals := signals + 1;
      return Admitted;
    }

    /** Poisons the queue: every queued job is told the error, in order. */
    method FailAll(t: Transport, e: Error)
      requires Valid()
      modifies this, t`log
      ensures Valid()
      ensures World(t) == Apply(old(World(t)), Fail(e))
    {
      failure := Some(e);
      ghost var all, log0 := Failures(jobs, e), t.log;
      var i := 0;
      while i < |jobs|
        invariant 0 <= i <= |jobs| && jobs == old(jobs) && failure == Some(e) && signals == old(signals)
        invariant admitted == old(admitted)
        invariant t.log == log0 + all[..i]
      {
        t.Complete(jobs[i].id, Failed(e));
        i := i + 1;
      }
      assert all[..|jobs|] == all;
      jobs := [];
      bytes := 0;
    }

    /** Looks at every receipt of one job, dropping those that completed: each one left was refused. */
    method PollJob(t: Transport, j: nat, ghost w0: World, ghost before: seq<Step>, p: bool)
      returns (error: Option<Error>, progressed: bool, ghost steps: seq<Step>)
      requires Valid() && Worked(w0, before, World(t), p) && j < |jobs|
      modifies this`jobs, t`executed, t`memory, t`refusals
      ensures Valid() && Worked(w0, steps, World(t), progressed)
      ensures |jobs| == old(|jobs|) && jobs == old(jobs)[j := jobs[j]]
      ensures Heard(old(t.refusals), t.refusals, error)
      ensures error.None? ==> |t.refusals| == old(|t.refusals|) + |jobs[j].receipts|
    {
      error, progressed, steps := None, p, before;
      var index := 0;
      while index < |jobs[j].receipts|
        invariant Valid() && Worked(w0, steps, World(t), progressed)
        invariant |jobs| == old(|jobs|) && jobs == old(jobs)[j := jobs[j]]
        invariant 0 <= index <= |jobs[j].receipts|
        invariant Heard(old(t.refusals), t.refusals, None) && |t.refusals| == old(|t.refusals|) + index
        decreases |jobs[j].receipts| - index
      {
        steps := t.Elapse(w0, steps, Queue(t), progressed);
        var answer := t.Poll(jobs[j].receipts[index]);
        match answer {
          case Yes =>
            WorkedMore(w0, steps, World(t), progressed, Observe(j, index));
            steps, progressed := steps + [Observe(j, index)], true;
            DropReceipt(j, index);
          case No =>
            index := index + 1;
          case Error(e) =>
            error := Some(e);
            return;
        }
      }
    }

    method DropReceipt(j: nat, index: nat)
      requires Valid() && j < |jobs| && index < |jobs[j].receipts|
      modifies this`jobs
      ensures Valid() && jobs == old(jobs)[j := old(jobs)[j].(receipts := Remove(old(jobs)[j].receipts, index))]
    {
      var job := jobs[j].(receipts := Remove(jobs[j].receipts, index));
      ReplaceJob(jobs, j, job);
      jobs := jobs[j := job];
    }

    /** Polls every receipt of every job: a later completion must not hide behind a pending one. */
    method PollAll(t: Transport, ghost w0: World, ghost before: seq<Step>, p: bool)
      returns (error: Option<Error>, progressed: bool, ghost steps: seq<Step>)
      requires Valid() && Worked(w0, before, World(t), p)
      modifies this`jobs, t`executed, t`memory, t`refusals
      ensures Valid() && Worked(w0, steps, World(t), progressed)
      ensures Heard(old(t.refusals), t.refusals, error)
      ensures error.None? ==> |t.refusals| == old(|t.refusals|) + |InFlight(jobs)|
    {
      error, progressed, steps := None, p, before;
      var j := 0;
      while j < |jobs|
        invariant 0 <= j <= |jobs| && error.None?
        invariant Valid() && Worked(w0, steps, World(t), progressed)
        invariant Heard(old(t.refusals), t.refusals, None)
        invariant |t.refusals| == old(|t.refusals|) + |InFlight(jobs[..j])|
        decreases |jobs| - j
      {
        ghost var front, heard := jobs[..j], t.refusals;
        error, progressed, steps := PollJob(t, j, w0, steps, progressed);
        assert jobs[..j] == front;
        HeardOn(old(t.refusals), heard, t.refusals, error);
        if error.Some? {
          return;
        }
        InFlightNext(jobs, j);
        j := j + 1;
      }
      assert jobs[..|jobs|] == jobs;
    }

    /** Completes finished jobs from the front only; a later fence cannot certify its prefix. */
    method RetireFinished(t: Transport, ghost w0: World, ghost before: seq<Step>, p: bool)
      returns (progressed: bool, ghost steps: seq<Step>)
      requires Valid() && Worked(w0, before, World(t), p)
      modifies this`jobs, this`bytes, t`log
      ensures Valid() && Worked(w0, steps, World(t), progressed)
      ensures jobs != [] ==> jobs[0].next < |jobs[0].chunks| || jobs[0].receipts != []
      ensures old(InFlight(jobs)) == [] ==> InFlight(jobs) == []
    {
      progressed, steps := p, before;
      while jobs != [] && jobs[0].next == |jobs[0].chunks| && jobs[0].receipts == []
        invariant Valid() && Worked(w0, steps, World(t), progressed)
        invariant old(InFlight(jobs)) == [] ==> InFlight(jobs) == []
        decreases |jobs|
      {
        WorkedMore(w0, steps, World(t), progressed, Retire);
        steps, progressed := steps + [Retire], true;
        RetireFront(t);
      }
    }

    method RetireFront(t: Transport)
      requires Valid() && MayRetire(Queue(t))
      modifies this`jobs, this`bytes, t`log
      ensures Valid() && World(t) == Apply(old(World(t)), Retire)
      ensures |jobs| < old(|jobs|) && InFlight(jobs) == old(InFlight(jobs))
    {
      var job := jobs[0];
      PopJob(jobs);
      jobs := jobs[1..];
      bytes := bytes - job.bytes;
      t.Complete(job.id, Completed);
    }

    method RecordSent(j: nat, k: nat)
      requires Valid() && j < |jobs| && jobs[j].next < |jobs[j].chunks| && |InFlight(jobs)| < MAX_NATIVE_IN_FLIGHT
      modifies this`jobs
      ensures Valid() && jobs == old(jobs)[j := Advanced(old(jobs)[j], k)]
      ensures |InFlight(jobs)| == old(|InFlight(jobs)|) + 1
    {
      ReplaceJob(jobs, j, Advanced(jobs[j], k));
      jobs := jobs[j := Advanced(jobs[j], k)];
    }

    /** Tries to submit the next chunk, which is the j-th job's.  A refusal leaves it next. */
    method SubmitNext(t: Transport, j: nat, ghost w0: World, ghost before: seq<Step>, p: bool)
      returns (a: Attempt, progressed: bool, ghost steps: seq<Step>)
      requires Valid() && Worked(w0, before, World(t), p)
      requires j < |jobs| && NextJob(jobs, 0) == j && MaySend(Queue(t))
      modifies this`jobs, t
      ensures Valid() && Worked(w0, steps, World(t), progressed)
      ensures t.refusals == old(t.refusals) + AttemptRefusal(a)
      ensures a.Went? ==>
                && jobs == old(jobs)[j := Advanced(old(jobs)[j], old(|t.accepted|))]
                && progressed && |InFlight(jobs)| == old(|InFlight(jobs)|) + 1
      ensures !a.Went? ==> jobs == old(jobs) && progressed == p
    {
      progressed := p;
      steps := t.Elapse(w0, before, Queue(t), p);
      var chunk := jobs[j].chunks[jobs[j].next];
      var ready := t.Ready(chunk);
      match ready {
        case No => a := Held;
        case Error(e) => a := Broke(e);
        case Yes => a, progressed, steps := Send(t, j, w0, steps, p);
      }
    }

    /** Submits the next chunk, whose arena is free. */
    method Send(t: Transport, j: nat, ghost w0: World, ghost before: seq<Step>, p: bool)
      returns (a: Attempt, progressed: bool, ghost steps: seq<Step>)
      requires Valid() && Worked(w0, before, World(t), p)
      requires j < |jobs| && NextJob(jobs, 0) == j && MaySubmit(World(t))
      modifies this`jobs, t
      ensures Valid() && Worked(w0, steps, World(t), progressed)
      ensures t.refusals == old(t.refusals) + AttemptRefusal(a)
      ensures a.Went? ==>
                && jobs == old(jobs)[j := Advanced(old(jobs)[j], old(|t.accepted|))]
                && progressed && |InFlight(jobs)| == old(|InFlight(jobs)|) + 1
      ensures !a.Went? ==> jobs == old(jobs) && progressed == p
    {
      progressed, steps := p, before;
      var chunk := jobs[j].chunks[jobs[j].next];
      ghost var w := World(t);
      var sent, staged := t.Submit(chunk);
      if sent.Sent? {
        WorkedMore(w0, steps, w, p, Accept);
        steps, progressed := steps + [Accept], true;
        RecordSent(j, |t.accepted| - 1);
        assert World(t) == Apply(w, Accept);
        return Went, progressed, steps;
      }
      if chunk.Commands? {
        WorkedMore(w0, steps, w, p, Stage(staged));
        steps := steps + [Stage(staged)];
        assert World(t) == Apply(w, Stage(staged));
      }
      return if sent.Busy? then Held else Broke(sent.error), progressed, steps;
    }

    /** Submits chunks in admission order until the transport refuses one, or none may be sent. */
    method SubmitReady(t: Transport, ghost w0: World, ghost before: seq<Step>, p: bool)
      returns (error: Option<Error>, progressed: bool, ghost steps: seq<Step>)
      requires Valid() && Worked(w0, before, World(t), p)
      modifies this`jobs, t
      ensures Valid() && Worked(w0, steps, World(t), progressed)
      ensures Heard(old(t.refusals), t.refusals, error)
      ensures t.refusals == old(t.refusals) ==> !MaySend(Queue(t))
      ensures progressed || (!p && jobs == old(jobs))
    {
      error, progressed, steps := None, p, before;
      var inFlight := |InFlight(jobs)|;
      var j := 0;
      while j < |jobs|
        invariant 0 <= j <= |jobs|
        invariant Valid() && Worked(w0, steps, World(t), progressed)
        invariant AllSent(jobs, j)
        invariant inFlight == |InFlight(jobs)| && t.refusals == old(t.refusals)
        invariant progressed || (!p && jobs == old(jobs))
        decreases |jobs| - j, if j < |jobs| then |jobs[j].chunks| - jobs[j].next else 0
      {
        if jobs[j].next == |jobs[j].chunks| {
          AllSentNext(jobs, j);
          j := j + 1;
        } else {
          NextJobIs(jobs, j, 0);
          AllSentBefore(jobs, j, Advanced(jobs[j], |t.accepted|));
          var chunk := jobs[j].chunks[jobs[j].next];
          if inFlight == MAX_NATIVE_IN_FLIGHT || (inFlight != 0 && RequiresIdle(chunk)) {
            return;
          }
          var attempt;
          attempt, progressed, steps := SubmitNext(t, j, w0, steps, progressed);
          match attempt {
            case Held =>
              return;
            case Broke(e) =>
              error := Some(e);
              return;
            case Went =>
              inFlight := inFlight + 1;
          }
        }
      }
    }

    /** Observe, retire, submit; stops at the first error. */
    method Round(t: Transport, ghost w0: World)
      returns (error: Option<Error>, progressed: bool, ghost steps: seq<Step>)
      requires Valid() && w0 == World(t)
      modifies this`jobs, this`bytes, t
      ensures Valid() && Worked(w0, steps, World(t), progressed)
      ensures Heard(old(t.refusals), t.refusals, error)
      ensures t.refusals == old(t.refusals) ==> !MaySend(Queue(t)) && (old(jobs) != [] ==> progressed)
    {
      error, progressed, steps := PollAll(t, w0, [], false);
      if error.Some? {
        return;
      }
      ghost var heard := t.refusals;
      progressed, steps := RetireFinished(t, w0, steps, progressed);
      WorkedMeasure(w0, steps, World(t), progressed);
      FrontIsNext(jobs);
      error, progressed, steps := SubmitReady(t, w0, steps, progressed);
      HeardOn(old(t.refusals), heard, t.refusals, error);
    }

    /** One round of the worker.  It reports progress exactly when it made some: otherwise the queue is
        as it was, and unless the queue failed the work left has shrunk.  It fails exactly when the
        transport answers with an error, and with that error.  If the transport answers yes to
        everything, a queue with work in it progresses, and nothing that may be sent is left. */
    method Advance(t: Transport) returns (progressed: bool, ghost steps: seq<Step>, ghost failed: bool)
      requires Valid()
      modifies this, t
      ensures Valid()
      ensures IsRun(old(World(t)), steps) && After(old(World(t)), steps) == World(t)
      ensures failed ==> progressed && failure.Some? && jobs == []
      ensures !failed ==> failure == old(failure)
      ensures Heard(old(t.refusals), t.refusals, if failed then failure else None)
      ensures !progressed ==> Queue(t) == old(Queue(t))
      ensures progressed && !failed ==> Measure(jobs) < old(Measure(jobs))
      ensures t.refusals == old(t.refusals) ==> !MaySend(Queue(t)) && (old(jobs) != [] ==> progressed)
    {
      ghost var w0 := World(t);
      var error;
      error, progressed, steps := Round(t, w0);
      WorkedMeasure(w0, steps, World(t), progressed);
      failed := false;
      if error.Some? {
        RunSnoc(w0, steps, Fail(error.value));
        steps := steps + [Fail(error.value)];
        failed, progressed := true, true;
        FailAll(t, error.value);
      }
    }
  }

  /** With nothing in flight, a front job that is not finished has a chunk to send. */
  lemma FrontIsNext(jobs: seq<Job>)
    ensures InFlight(jobs) == [] && jobs != [] && jobs[0].next < |jobs[0].chunks| ==> NextJob(jobs, 0) == 0
    ensures InFlight(jobs) == [] && jobs != [] ==> jobs[0].receipts == []
  {
    if jobs != [] {
      PopJob(jobs);
    }
  }

  lemma WorkedMeasure(w0: World, steps: seq<Step>, w: World, progressed: bool)
    requires Worked(w0, steps, w, progressed)
    ensures !progressed ==> w.q == w0.q
    ensures progressed ==> Measure(w.q.jobs) < Measure(w0.q.jobs)
    ensures w.q.failure == w0.q.failure
  {
    RunMeasure(w0, steps);
    KeepsFailure(w0, steps);
  }

  lemma {:induction false} KeepsFailure(w: World, steps: seq<Step>)
    requires IsRun(w, steps) && forall s | s in steps :: IsWorkerStep(s)
    ensures After(w, steps).q.failure == w.q.failure
  {
    if steps != [] {
      KeepsFailure(w, steps[..|steps| - 1]);
      assert steps[|steps| - 1] in steps;
    }
  }

  // ---- the dispatcher ----------------------------------------------------------------------------------

  /** What happens to a shared scheduler, one holder of its lock at a time. */
  datatype Request = Enqueue(chunks: seq<Chunk>) | Round | Break(error: Error)

  /** However admissions, rounds of the worker and failures outside it interleave, the scheduler and its
      transport together make one run of the model from its start.  What holds in every run therefore
      holds here. */
  method Serve(initial: Buffers, requests: seq<Request>) returns (s: Scheduler, t: Transport, ghost steps: seq<Step>)
    ensures s.Valid() && IsRun(Start(initial), steps) && After(Start(initial), steps) == s.World(t)
    ensures t.accepted <= Flatten(s.admitted) && InOrderSignals(s.World(t))
    ensures (forall r | r in requests :: !r.Break?) && (forall e | e in t.refusals :: e.None?) ==> s.failure.None?
  {
    s := new Scheduler();
    t := new Transport(initial);
    steps := [];
    for i := 0 to |requests|
      invariant s.Valid() && IsRun(Start(initial), steps) && After(Start(initial), steps) == s.World(t)
      invariant s.failure.Some? ==> (exists r | r in requests :: r.Break?) || exists e | e in t.refusals :: e.Some?
    {
      ghost var w, heard := s.World(t), t.refusals;
      match requests[i] {
        case Enqueue(chunks) =>
          var r := s.Enqueue(t, chunks);
          if r.Admitted? {
            RunSnoc(Start(initial), steps, Admit(chunks));
            steps := steps + [Admit(chunks)];
          }
        case Round =>
          var progressed;
          ghost var more, failed;
          progressed, more, failed := s.Advance(t);
          RunConcat(Start(initial), steps, more);
          steps := steps + more;
          assert forall e | e in heard :: e in t.refusals;
        case Break(e) =>
          s.FailAll(t, e);
          RunSnoc(Start(initial), steps, Fail(e));
          steps := steps + [Fail(e)];
          assert requests[i] in requests;
      }
    }
    AcceptedInAdmissionOrder(initial, steps);
    OutcomesAreOrdered(initial, steps);
  }
}
