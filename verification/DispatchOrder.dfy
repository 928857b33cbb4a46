/** Admission order, bounds and outcomes in every run of the dispatcher. */
module DispatchOrder {
  import opened Wrappers
  import opened DispatchModel
  import opened Sequences

  function Sent(job: Job): seq<Chunk> {
    if job.next <= |job.chunks| then job.chunks[..job.next] else job.chunks
  }

  /** The chunks of queued jobs that have been accepted. */
  function Submitted(jobs: seq<Job>): seq<Chunk> {
    if jobs == [] then [] else Submitted(jobs[..|jobs| - 1]) + Sent(jobs[|jobs| - 1])
  }

  /** No job has accepted chunks while an earlier one still has chunks to submit. */
  predicate InOrder(jobs: seq<Job>) {
    forall i, j | 0 <= i < j < |jobs| :: jobs[j].next > 0 ==> jobs[i].next == |jobs[i].chunks|
  }

  /** Each chunk a job has had accepted, numbered from `base`, was executed or is still awaited by it. */
  predicate JobTracked(job: Job, base: nat, executed: set<nat>) {
    forall k | base <= k < base + |Sent(job)| :: k in executed || k in job.receipts
  }

  predicate Tracked(jobs: seq<Job>, base: nat, executed: set<nat>) {
    if jobs == [] then true
    else
      var front := jobs[..|jobs| - 1];
      Tracked(front, base, executed) && JobTracked(jobs[|jobs| - 1], base + |Submitted(front)|, executed)
  }

  predicate Executed(executed: set<nat>, n: nat) {
    forall k | 0 <= k < n :: k in executed
  }

  predicate JobsMatch(q: Queue) {
    && |q.log| + |q.jobs| == |q.admitted|
    && forall i | 0 <= i < |q.jobs| ::
         var job := q.jobs[i];
         && job.id == |q.log| + i && job.chunks == q.admitted[|q.log| + i]
         && job.next <= |job.chunks| && job.bytes == TotalSize(job.chunks)
  }

  predicate AllCompleted(log: seq<(nat, Outcome)>) {
    forall i | 0 <= i < |log| :: log[i] == (i, Completed)
  }

  predicate Bounded(q: Queue) {
    && |q.jobs| <= MAX_SUBMISSIONS
    && q.bytes == QueuedBytes(q.jobs) <= MAX_PENDING_BYTES
    && |InFlight(q.jobs)| <= MAX_NATIVE_IN_FLIGHT
  }

  /** The chunks of the first n jobs admitted. */
  function FirstJobs(q: Queue, n: nat): seq<Chunk>
    requires n <= |q.admitted|
  {
    Flatten(q.admitted[..n])
  }

  predicate Queued(q: Queue) {
    q.failure.None? && JobsMatch(q) && AllCompleted(q.log) && InOrder(q.jobs)
  }

  predicate LogMatches(q: Queue) {
    |q.log| <= |q.admitted| && q.accepted == FirstJobs(q, |q.log|) + Submitted(q.jobs)
  }

  predicate Watched(q: Queue, executed: set<nat>) {
    && |q.log| <= |q.admitted|
    && Executed(executed, |FirstJobs(q, |q.log|)|)
    && Tracked(q.jobs, |FirstJobs(q, |q.log|)|, executed)
  }

  predicate Healthy(q: Queue, executed: set<nat>) {
    Queued(q) && Bounded(q) && LogMatches(q) && Watched(q, executed)
  }

  /** After a failure: the first r jobs completed, and all the others failed with one error. */
  predicate FailedAt(q: Queue, executed: set<nat>, r: nat, e: Error) {
    && r <= |q.admitted| == |q.log|
    && (forall i | 0 <= i < r :: q.log[i] == (i, Completed))
    && (forall i | r <= i < |q.log| :: q.log[i] == (i, Failed(e)))
    && q.accepted <= Flatten(q.admitted)
    && |FirstJobs(q, r)| <= |q.accepted|
    && Executed(executed, |FirstJobs(q, r)|)
  }

  ghost predicate Poisoned(q: Queue, executed: set<nat>) {
    && q.failure.Some? && q.jobs == [] && q.bytes == 0
    && exists r: nat, e: Error :: FailedAt(q, executed, r, e)
  }

  ghost predicate Orderly(w: World) { Healthy(w.q, w.executed) || Poisoned(w.q, w.executed) }

  // ---- the queue's sums under its updates -----------------------------------------------------

  /** Replacing one job changes each sum by that job's share alone. */
  lemma {:induction false} ReplaceJob(jobs: seq<Job>, j: nat, x: Job)
    requires j < |jobs|
    ensures |InFlight(jobs[j := x])| == |InFlight(jobs)| - |jobs[j].receipts| + |x.receipts|
    ensures QueuedBytes(jobs[j := x]) == QueuedBytes(jobs) - jobs[j].bytes + x.bytes
    ensures Unsubmitted(jobs[j := x]) ==
            Unsubmitted(jobs) - (|jobs[j].chunks| - jobs[j].next) + (|x.chunks| - x.next)
  {
    var n := |jobs| - 1;
    if j == n {
      assert jobs[j := x][..n] == jobs[..n];
    } else {
      ReplaceJob(jobs[..n], j, x);
      assert jobs[j := x][..n] == jobs[..n][j := x];
    }
  }

  lemma AppendJob(jobs: seq<Job>, x: Job)
    ensures InFlight(jobs + [x]) == InFlight(jobs) + x.receipts
    ensures QueuedBytes(jobs + [x]) == QueuedBytes(jobs) + x.bytes
    ensures Unsubmitted(jobs + [x]) == Unsubmitted(jobs) + |x.chunks| - x.next
  {
    assert (jobs + [x])[..|jobs|] == jobs;
  }

  lemma {:induction false} PopJob(jobs: seq<Job>)
    requires jobs != []
    ensures InFlight(jobs) == jobs[0].receipts + InFlight(jobs[1..])
    ensures QueuedBytes(jobs) == jobs[0].bytes + QueuedBytes(jobs[1..])
    ensures Unsubmitted(jobs) == |jobs[0].chunks| - jobs[0].next + Unsubmitted(jobs[1..])
  {
    var n := |jobs| - 1;
    if n > 0 {
      PopJob(jobs[..n]);
      assert jobs[1..][..n - 1] == jobs[..n][1..];
      assert jobs[1..][n - 1] == jobs[n];
    } else {
      assert jobs[..0] == [] && jobs[1..] == [];
    }
  }

  lemma {:induction false} SubmittedKeeps(jobs: seq<Job>, j: nat, x: Job)
    requires j < |jobs| && Sent(x) == Sent(jobs[j])
    ensures Submitted(jobs[j := x]) == Submitted(jobs)
  {
    var n := |jobs| - 1;
    if j == n {
      assert jobs[j := x][..n] == jobs[..n];
    } else {
      SubmittedKeeps(jobs[..n], j, x);
      assert jobs[j := x][..n] == jobs[..n][j := x];
    }
  }

  lemma SubmittedOne(jobs: seq<Job>, x: Job)
    ensures Submitted(jobs + [x]) == Submitted(jobs) + Sent(x)
  {
    assert (jobs + [x])[..|jobs|] == jobs;
  }

  lemma {:induction false} SubmittedPop(jobs: seq<Job>)
    requires jobs != []
    ensures Submitted(jobs) == Sent(jobs[0]) + Submitted(jobs[1..])
  {
    var n := |jobs| - 1;
    if n > 0 {
      var middle := jobs[..n][1..];
      calc {
        Submitted(jobs);
        Submitted(jobs[..n]) + Sent(jobs[n]);
        { SubmittedPop(jobs[..n]); }
        (Sent(jobs[0]) + Submitted(middle)) + Sent(jobs[n]);
        { Assoc(Sent(jobs[0]), Submitted(middle), Sent(jobs[n])); }
        Sent(jobs[0]) + (Submitted(middle) + Sent(jobs[n]));
        { SubmittedOne(middle, jobs[n]); }
        Sent(jobs[0]) + Submitted(middle + [jobs[n]]);
        { TailSnoc(jobs); }
        Sent(jobs[0]) + Submitted(jobs[1..]);
      }
    } else {
      OnlySubmitted(jobs);
    }
  }

  lemma OnlySubmitted(jobs: seq<Job>)
    requires |jobs| == 1
    ensures Submitted(jobs) == Sent(jobs[0]) + Submitted(jobs[1..])
  {
    assert jobs[..0] == [] && jobs[1..] == [];
  }

  lemma {:induction false} SubmittedNothing(jobs: seq<Job>, j: nat)
    requires j <= |jobs| && forall i | j <= i < |jobs| :: jobs[i].next == 0
    ensures Submitted(jobs) == Submitted(jobs[..j])
    decreases |jobs|
  {
    if j < |jobs| {
      SubmittedNothing(jobs[..|jobs| - 1], j);
      assert jobs[..|jobs| - 1][..j] == jobs[..j];
    } else {
      assert jobs[..j] == jobs;
    }
  }

  /** Fully or partly, what has been submitted is a prefix of the queued work. */
  lemma {:induction false} SubmittedIsPrefix(jobs: seq<Job>, lists: seq<seq<Chunk>>)
    requires |lists| == |jobs| && InOrder(jobs)
    requires forall i | 0 <= i < |jobs| :: jobs[i].chunks == lists[i]
    ensures Submitted(jobs) <= Flatten(lists)
  {
    if jobs != [] {
      var n := |jobs| - 1;
      SubmittedIsPrefix(jobs[..n], lists[..n]);
      LastList(lists);
      if jobs[n].next > 0 {
        AllSubmitted(jobs[..n], lists[..n]);
        PrefixBehind(Flatten(lists[..n]), Sent(jobs[n]), lists[n]);
      }
    }
  }

  lemma LastList(lists: seq<seq<Chunk>>)
    requires lists != []
    ensures Flatten(lists) == Flatten(lists[..|lists| - 1]) + lists[|lists| - 1]
  {
    assert lists == lists[..|lists| - 1] + [lists[|lists| - 1]];
    FlattenSnoc(lists[..|lists| - 1], lists[|lists| - 1]);
  }

  lemma {:induction false} AllSubmitted(jobs: seq<Job>, lists: seq<seq<Chunk>>)
    requires |lists| == |jobs|
    requires forall i | 0 <= i < |jobs| :: jobs[i].chunks == lists[i] && jobs[i].next == |jobs[i].chunks|
    ensures Submitted(jobs) == Flatten(lists)
  {
    if jobs != [] {
      var n := |jobs| - 1;
      AllSubmitted(jobs[..n], lists[..n]);
      LastList(lists);
      assert jobs[n].chunks[..jobs[n].next] == jobs[n].chunks;
    }
  }

  lemma {:induction false} TrackedMore(jobs: seq<Job>, base: nat, a: set<nat>, b: set<nat>)
    requires Tracked(jobs, base, a) && a <= b
    ensures Tracked(jobs, base, b)
  {
    if jobs != [] {
      TrackedMore(jobs[..|jobs| - 1], base, a, b);
    }
  }

  lemma TrackedOne(jobs: seq<Job>, x: Job, base: nat, executed: set<nat>)
    requires Tracked(jobs, base, executed) && JobTracked(x, base + |Submitted(jobs)|, executed)
    ensures Tracked(jobs + [x], base, executed)
  {
    assert (jobs + [x])[..|jobs|] == jobs;
  }

  lemma {:induction false} TrackedPop(jobs: seq<Job>, base: nat, executed: set<nat>)
    requires jobs != [] && Tracked(jobs, base, executed)
    ensures JobTracked(jobs[0], base, executed)
    ensures Tracked(jobs[1..], base + |Sent(jobs[0])|, executed)
  {
    var n := |jobs| - 1;
    if n > 0 {
      TrackedPop(jobs[..n], base, executed);
      SubmittedPop(jobs[..n]);
      TailSnoc(jobs);
      TrackedOne(jobs[..n][1..], jobs[n], base + |Sent(jobs[0])|, executed);
    } else {
      assert jobs[..0] == [] && jobs[1..] == [];
    }
  }

  /** A job may give up receipts of executed chunks. */
  lemma {:induction false} TrackedReplace(jobs: seq<Job>, j: nat, x: Job, base: nat, executed: set<nat>)
    requires j < |jobs| && Tracked(jobs, base, executed) && Sent(x) == Sent(jobs[j])
    requires forall k | k in jobs[j].receipts :: k in x.receipts || k in executed
    ensures Tracked(jobs[j := x], base, executed)
  {
    var n := |jobs| - 1;
    if j == n {
      assert jobs[j := x][..n] == jobs[..n];
    } else {
      TrackedReplace(jobs[..n], j, x, base, executed);
      SubmittedKeeps(jobs[..n], j, x);
      assert jobs[j := x][..n] == jobs[..n][j := x];
    }
  }

  lemma {:induction false} TrackedIdle(jobs: seq<Job>, j: nat, base: nat, executed: set<nat>)
    requires j <= |jobs| && forall i | j <= i < |jobs| :: jobs[i].next == 0
    ensures Tracked(jobs, base, executed) == Tracked(jobs[..j], base, executed)
    decreases |jobs|
  {
    if j < |jobs| {
      TrackedIdle(jobs[..|jobs| - 1], j, base, executed);
      assert jobs[..|jobs| - 1][..j] == jobs[..j];
    } else {
      assert jobs[..j] == jobs;
    }
  }

  // ---- every step keeps the invariant ------------------------------------------------------------

  // Each step is treated one part of the invariant at a time.

  lemma AdmitKeepsQueue(q: Queue, chunks: seq<Chunk>)
    requires Queued(q) && MayAdmit(q, chunks)
    ensures Queued(Admitted(q, chunks))
  {
  }

  function NewJob(q: Queue, chunks: seq<Chunk>): Job { Job(|q.admitted|, chunks, 0, [], TotalSize(chunks)) }

  lemma AdmitKeepsBounds(q: Queue, chunks: seq<Chunk>)
    requires Bounded(q) && MayAdmit(q, chunks)
    ensures Bounded(Admitted(q, chunks))
  {
    AppendJob(q.jobs, NewJob(q, chunks));
  }

  lemma AdmitKeepsFirst(q: Queue, chunks: seq<Chunk>)
    requires |q.log| <= |q.admitted|
    ensures FirstJobs(Admitted(q, chunks), |q.log|) == FirstJobs(q, |q.log|)
  {
    assert (q.admitted + [chunks])[..|q.log|] == q.admitted[..|q.log|];
  }

  lemma AdmitKeepsRest(q: Queue, executed: set<nat>, chunks: seq<Chunk>)
    requires Healthy(q, executed) && MayAdmit(q, chunks)
    ensures var q' := Admitted(q, chunks); Bounded(q') && LogMatches(q') && Watched(q', executed)
  {
    AdmitKeepsBounds(q, chunks);
    AdmitKeepsFirst(q, chunks);
    SubmittedOne(q.jobs, NewJob(q, chunks));
    assert Submitted(q.jobs) + [] == Submitted(q.jobs);
    TrackedOne(q.jobs, NewJob(q, chunks), |FirstJobs(q, |q.log|)|, executed);
  }

  lemma ObserveKeepsQueue(q: Queue, j: nat, i: nat)
    requires Queued(q) && j < |q.jobs| && i < |q.jobs[j].receipts|
    ensures Queued(Observed(q, j, i))
  {
  }

  lemma ObserveKeepsBounds(q: Queue, j: nat, i: nat)
    requires Bounded(q) && j < |q.jobs| && i < |q.jobs[j].receipts|
    ensures Bounded(Observed(q, j, i))
  {
    ReplaceJob(q.jobs, j, q.jobs[j].(receipts := Remove(q.jobs[j].receipts, i)));
  }

  lemma ObserveKeepsRest(q: Queue, executed: set<nat>, j: nat, i: nat)
    requires LogMatches(q) && Watched(q, executed) && MayObserve(q, j, i, executed)
    ensures LogMatches(Observed(q, j, i)) && Watched(Observed(q, j, i), executed)
  {
    var x := q.jobs[j].(receipts := Remove(q.jobs[j].receipts, i));
    SubmittedKeeps(q.jobs, j, x);
    TrackedReplace(q.jobs, j, x, |FirstJobs(q, |q.log|)|, executed);
  }

  lemma RetireKeepsQueue(q: Queue)
    requires Queued(q) && MayRetire(q)
    ensures Queued(Retired(q))
  {
  }

  lemma RetireKeepsBounds(q: Queue)
    requires Bounded(q) && MayRetire(q)
    ensures Bounded(Retired(q))
  {
    PopJob(q.jobs);
  }

  lemma RetireGrows(q: Queue)
    requires JobsMatch(q) && MayRetire(q)
    ensures Sent(q.jobs[0]) == q.jobs[0].chunks
    ensures FirstJobs(Retired(q), |q.log| + 1) == FirstJobs(q, |q.log|) + q.jobs[0].chunks
  {
    var n := |q.log|;
    assert q.admitted[..n + 1] == q.admitted[..n] + [q.jobs[0].chunks];
    FlattenSnoc(q.admitted[..n], q.jobs[0].chunks);
  }

  lemma RetireKeepsLog(q: Queue)
    requires JobsMatch(q) && LogMatches(q) && MayRetire(q)
    ensures LogMatches(Retired(q))
  {
    RetireGrows(q);
    SubmittedPop(q.jobs);
    assert Sent(q.jobs[0]) == q.jobs[0].chunks;
    Assoc(FirstJobs(q, |q.log|), Sent(q.jobs[0]), Submitted(q.jobs[1..]));
  }

  lemma RetireKeepsWatch(q: Queue, executed: set<nat>)
    requires JobsMatch(q) && Watched(q, executed) && MayRetire(q)
    ensures Watched(Retired(q), executed)
  {
    RetireGrows(q);
    TrackedPop(q.jobs, |FirstJobs(q, |q.log|)|, executed);
  }

  lemma RetireKeepsRest(q: Queue, executed: set<nat>)
    requires JobsMatch(q) && LogMatches(q) && Watched(q, executed) && MayRetire(q)
    ensures LogMatches(Retired(q)) && Watched(Retired(q), executed)
  {
    RetireKeepsLog(q);
    RetireKeepsWatch(q, executed);
  }

  lemma NextJobShape(jobs: seq<Job>)
    requires InOrder(jobs) && NextJob(jobs, 0) < |jobs|
    requires forall i | 0 <= i < |jobs| :: jobs[i].next <= |jobs[i].chunks|
    ensures forall i | NextJob(jobs, 0) < i < |jobs| :: jobs[i].next == 0
    ensures forall i | 0 <= i < NextJob(jobs, 0) :: jobs[i].next == |jobs[i].chunks|
  {
  }

  lemma SubmitOne(jobs: seq<Job>, j: nat, k: nat)
    requires j < |jobs| && jobs[j].next < |jobs[j].chunks|
    requires forall i | j < i < |jobs| :: jobs[i].next == 0
    ensures Submitted(jobs) == Submitted(jobs[..j]) + Sent(jobs[j])
    ensures Submitted(jobs[j := Advanced(jobs[j], k)]) == Submitted(jobs) + [jobs[j].chunks[jobs[j].next]]
  {
    var x := Advanced(jobs[j], k);
    SubmittedUpTo(jobs, j);
    SubmittedUpTo(jobs[j := x], j);
    assert jobs[j := x][..j] == jobs[..j];
    SentOneMore(jobs[j], k);
  }

  lemma SubmittedUpTo(jobs: seq<Job>, j: nat)
    requires j < |jobs| && forall i | j < i < |jobs| :: jobs[i].next == 0
    ensures Submitted(jobs) == Submitted(jobs[..j]) + Sent(jobs[j])
  {
    var upTo := jobs[..j + 1];
    calc {
      Submitted(jobs);
      { SubmittedNothing(jobs, j + 1); }
      Submitted(upTo);
      Submitted(upTo[..j]) + Sent(upTo[j]);
      { TakeTake(jobs, j); }
      Submitted(jobs[..j]) + Sent(jobs[j]);
    }
  }

  lemma SentOneMore(job: Job, k: nat)
    requires job.next < |job.chunks|
    ensures Sent(Advanced(job, k)) == Sent(job) + [job.chunks[job.next]]
  {
  }

  lemma TrackOne(jobs: seq<Job>, j: nat, k: nat, base: nat, executed: set<nat>, executed': set<nat>)
    requires j < |jobs| && jobs[j].next < |jobs[j].chunks|
    requires forall i | j < i < |jobs| :: jobs[i].next == 0
    requires Tracked(jobs, base, executed) && executed <= executed'
    requires k == base + |Submitted(jobs[..j])| + jobs[j].next
    ensures Tracked(jobs[j := Advanced(jobs[j], k)], base, executed')
  {
    var x := Advanced(jobs[j], k);
    TrackedIdle(jobs, j + 1, base, executed);
    TrackedIdle(jobs[j := x], j + 1, base, executed');
    assert jobs[..j + 1][..j] == jobs[..j];
    assert jobs[j := x][..j + 1] == jobs[..j] + [x];
    TrackedMore(jobs[..j], base, executed, executed');
    AdvancedTracked(jobs[j], k, base + |Submitted(jobs[..j])|, executed, executed');
    TrackedOne(jobs[..j], x, base, executed');
  }

  lemma AdvancedTracked(job: Job, k: nat, first: nat, executed: set<nat>, executed': set<nat>)
    requires job.next < |job.chunks| && JobTracked(job, first, executed) && executed <= executed'
    requires k == first + job.next
    ensures JobTracked(Advanced(job, k), first, executed')
  {
  }

  lemma AcceptKeepsQueue(q: Queue)
    requires Queued(q) && HasNext(q)
    ensures Queued(Accepted(q))
  {
    NextJobShape(q.jobs);
  }

  lemma AcceptKeepsBounds(q: Queue)
    requires Bounded(q) && MaySend(q)
    ensures Bounded(Accepted(q))
  {
    var j := NextJob(q.jobs, 0);
    ReplaceJob(q.jobs, j, Advanced(q.jobs[j], |q.accepted|));
  }

  lemma AcceptKeepsRest(q: Queue, executed: set<nat>, executed': set<nat>)
    requires Queued(q) && LogMatches(q) && Watched(q, executed) && HasNext(q) && executed <= executed'
    ensures LogMatches(Accepted(q)) && Watched(Accepted(q), executed')
  {
    var j, k := NextJob(q.jobs, 0), |q.accepted|;
    NextJobShape(q.jobs);
    SubmitOne(q.jobs, j, k);
    TrackOne(q.jobs, j, k, |FirstJobs(q, |q.log|)|, executed, executed');
  }

  lemma HealthyPrefix(q: Queue, executed: set<nat>)
    requires Healthy(q, executed)
    ensures q.accepted <= Flatten(q.admitted)
  {
    QueuePrefix(q);
  }

  lemma QueuePrefix(q: Queue)
    requires JobsMatch(q) && InOrder(q.jobs) && LogMatches(q)
    ensures q.accepted <= Flatten(q.admitted)
  {
    var n := |q.log|;
    var rest := q.admitted[n..];
    SubmittedIsPrefix(q.jobs, rest);
    PrefixBehind(FirstJobs(q, n), Submitted(q.jobs), Flatten(rest));
    FlattenCut(q.admitted, n);
  }

  lemma FailKeeps(q: Queue, executed: set<nat>, e: Error)
    requires Healthy(q, executed) || Poisoned(q, executed)
    ensures Poisoned(FailedWith(q, e), executed)
  {
    if Healthy(q, executed) {
      HealthyFails(q, executed, e);
    } else {
      var r: nat, e0: Error :| FailedAt(q, executed, r, e0);
      assert q.log + [] == q.log;
      assert FailedAt(FailedWith(q, e), executed, r, e0);
    }
  }

  lemma HealthyFails(q: Queue, executed: set<nat>, e: Error)
    requires Healthy(q, executed)
    ensures FailedAt(FailedWith(q, e), executed, |q.log|, e)
  {
    HealthyPrefix(q, executed);
  }

  lemma MoreExecuted(q: Queue, executed: set<nat>, executed': set<nat>)
    requires executed <= executed'
    ensures Healthy(q, executed) ==> Healthy(q, executed')
    ensures Poisoned(q, executed) ==> Poisoned(q, executed')
  {
    if Healthy(q, executed) {
      TrackedMore(q.jobs, |FirstJobs(q, |q.log|)|, executed, executed');
    }
    if Poisoned(q, executed) {
      var r: nat, e: Error :| FailedAt(q, executed, r, e);
      assert FailedAt(q, executed', r, e);
    }
  }

  /** A poisoned queue stays exactly as it is, whatever happens. */
  lemma PoisonedKeeps(w: World, s: Step)
    requires Poisoned(w.q, w.executed) && Enabled(w, s)
    ensures Poisoned(Apply(w, s).q, Apply(w, s).executed)
    ensures var q' := Apply(w, s).q;
            q'.accepted == w.q.accepted && q'.admitted == w.q.admitted && q'.log == w.q.log
    ensures Apply(w, s).memory.buffers == w.memory.buffers
  {
    MoreExecuted(w.q, w.executed, Apply(w, s).executed);
    if s.Fail? {
      FailKeeps(w.q, w.executed, s.error);
      assert w.q.log + [] == w.q.log;
    }
  }

  lemma StepKeepsHealth(w: World, s: Step)
    requires Healthy(w.q, w.executed) && Enabled(w, s) && !s.Fail?
    ensures Healthy(Apply(w, s).q, Apply(w, s).executed)
  {
    match s
    case Admit(chunks) =>
      AdmitKeepsQueue(w.q, chunks);
      AdmitKeepsRest(w.q, w.executed, chunks);
    case GpuCompletes(k, _) =>
      MoreExecuted(w.q, w.executed, w.executed + {k});
    case Observe(j, i) =>
      ObserveKeepsQueue(w.q, j, i);
      ObserveKeepsBounds(w.q, j, i);
      ObserveKeepsRest(w.q, w.executed, j, i);
    case Retire =>
      RetireKeepsQueue(w.q);
      RetireKeepsBounds(w.q);
      RetireKeepsRest(w.q, w.executed);
    case Stage(_) =>
    case Accept =>
      AcceptKeepsQueue(w.q);
      AcceptKeepsBounds(w.q);
      AcceptKeepsRest(w.q, w.executed, Apply(w, s).executed);
  }

  lemma StepKeepsOrder(w: World, s: Step)
    requires Orderly(w) && Enabled(w, s)
    ensures Orderly(Apply(w, s))
  {
    if s.Fail? {
      FailKeeps(w.q, w.executed, s.error);
    } else if Healthy(w.q, w.executed) {
      StepKeepsHealth(w, s);
    } else {
      PoisonedKeeps(w, s);
    }
  }

  lemma {:induction false} RunKeepsOrder(w: World, steps: seq<Step>)
    requires Orderly(w) && IsRun(w, steps)
    ensures Orderly(After(w, steps))
  {
    if steps != [] {
      RunKeepsOrder(w, steps[..|steps| - 1]);
      StepKeepsOrder(After(w, steps[..|steps| - 1]), steps[|steps| - 1]);
    }
  }

  lemma AlwaysOrderly(m: Buffers, steps: seq<Step>)
    requires IsRun(Start(m), steps)
    ensures Orderly(After(Start(m), steps))
  {
    assert Healthy(Start(m).q, {});
    RunKeepsOrder(Start(m), steps);
  }

  // ---- what holds in every run from the start ------------------------------------------------------

  /** Accepted chunks are a prefix of the admitted ones: nothing is replayed, skipped or overtaken;
      and the queue, its receipts and its bytes stay within their limits. */
  lemma AcceptedInAdmissionOrder(m: Buffers, steps: seq<Step>)
    requires IsRun(Start(m), steps)
    ensures var q := After(Start(m), steps).q;
            && q.accepted <= Flatten(q.admitted)
            && |q.jobs| <= 16 && |InFlight(q.jobs)| <= 16
            && q.bytes == QueuedBytes(q.jobs) && 0 <= q.bytes <= 64 * 1024 * 1024
  {
    AlwaysOrderly(m, steps);
    var w := After(Start(m), steps);
    if Healthy(w.q, w.executed) {
      HealthyPrefix(w.q, w.executed);
    }
  }

  /** The outcome a job's signal has been given so far. */
  function OutcomeOf(q: Queue, id: nat): Option<Outcome> {
    if id < |q.log| then Some(q.log[id].1) else None
  }

  /** Every chunk of every job up to and including the i-th has been executed. */
  predicate ExecutedUpTo(q: Queue, executed: set<nat>, i: nat)
    requires i < |q.admitted|
  {
    Executed(executed, |FirstJobs(q, i + 1)|)
  }

  predicate AllFailed(q: Queue, r: nat, e: Error) {
    forall i | r <= i < |q.admitted| :: OutcomeOf(q, i) == Some(Failed(e))
  }

  /** r jobs completed with all their work done; the others are all pending or all failed alike. */
  ghost predicate Split(q: Queue, executed: set<nat>, r: nat) {
    && r <= |q.log| <= |q.admitted|
    && (forall i | 0 <= i < r :: OutcomeOf(q, i) == Some(Completed) && ExecutedUpTo(q, executed, i))
    && (q.failure.None? ==> forall i | r <= i < |q.admitted| :: OutcomeOf(q, i) == None)
    && (q.failure.Some? ==> exists e: Error :: AllFailed(q, r, e))
  }

  /** Outcomes in admission order are a run of successes, then all pending or all failed alike; each
      signal is told once; success means that every chunk up to and including that job's has been
      executed. */
  lemma OutcomesAreOrdered(m: Buffers, steps: seq<Step>)
    requires IsRun(Start(m), steps)
    ensures InOrderSignals(After(Start(m), steps))
  {
    AlwaysOrderly(m, steps);
    OrderlySignals(After(Start(m), steps));
  }

  ghost predicate InOrderSignals(w: World) {
    && (forall i | 0 <= i < |w.q.log| :: w.q.log[i].0 == i)
    && exists r: nat :: Split(w.q, w.executed, r)
  }

  lemma OrderlySignals(w: World)
    requires Orderly(w)
    ensures InOrderSignals(w)
  {
    var r := FindSplit(w.q, w.executed);
  }

  lemma FindSplit(q: Queue, executed: set<nat>) returns (r: nat)
    requires Healthy(q, executed) || Poisoned(q, executed)
    ensures Split(q, executed, r) && forall i | 0 <= i < |q.log| :: q.log[i].0 == i
  {
    if Healthy(q, executed) {
      r := |q.log|;
      CompletedAreExecuted(q, executed, r);
    } else {
      var k: nat, e: Error :| FailedAt(q, executed, k, e);
      r := k;
      FailedSplits(q, executed, k, e);
    }
  }

  lemma FailedSplits(q: Queue, executed: set<nat>, r: nat, e: Error)
    requires FailedAt(q, executed, r, e) && q.failure.Some?
    ensures Split(q, executed, r)
  {
    CompletedAreExecuted(q, executed, r);
    assert AllFailed(q, r, e);
  }

  lemma CompletedAreExecuted(q: Queue, executed: set<nat>, r: nat)
    requires r <= |q.admitted| && Executed(executed, |FirstJobs(q, r)|)
    ensures forall i | 0 <= i < r :: ExecutedUpTo(q, executed, i)
  {
    forall i | 0 <= i < r
      ensures ExecutedUpTo(q, executed, i)
    {
      FlattenConcat(q.admitted[..i + 1], q.admitted[i + 1..r]);
      assert q.admitted[..r] == q.admitted[..i + 1] + q.admitted[i + 1..r];
    }
  }

  /** Waiting for the last signal covers everything admitted before it. */
  lemma LastSignalCoversAll(m: Buffers, steps: seq<Step>)
    requires IsRun(Start(m), steps)
    requires After(Start(m), steps).q.admitted != []
    requires var q := After(Start(m), steps).q; OutcomeOf(q, |q.admitted| - 1) == Some(Completed)
    ensures var w := After(Start(m), steps);
            && Executed(w.executed, |Flatten(w.q.admitted)|)
            && w.q.accepted == Flatten(w.q.admitted)
            && forall i | 0 <= i < |w.q.admitted| :: OutcomeOf(w.q, i) == Some(Completed)
  {
    AlwaysOrderly(m, steps);
    CoversAll(After(Start(m), steps).q, After(Start(m), steps).executed);
  }

  lemma CoversAll(q: Queue, executed: set<nat>)
    requires Healthy(q, executed) || Poisoned(q, executed)
    requires q.admitted != [] && OutcomeOf(q, |q.admitted| - 1) == Some(Completed)
    ensures Executed(executed, |Flatten(q.admitted)|) && q.accepted == Flatten(q.admitted)
    ensures forall i | 0 <= i < |q.admitted| :: OutcomeOf(q, i) == Some(Completed)
  {
    if Healthy(q, executed) {
      CoversAllHealthy(q, executed);
    } else {
      CoversAllPoisoned(q, executed);
    }
  }

  lemma CoversAllHealthy(q: Queue, executed: set<nat>)
    requires Healthy(q, executed) && |q.log| == |q.admitted|
    ensures Executed(executed, |Flatten(q.admitted)|) && q.accepted == Flatten(q.admitted)
  {
    assert q.admitted[..|q.log|] == q.admitted && q.jobs == [];
    assert Flatten(q.admitted) + [] == Flatten(q.admitted);
  }

  lemma CoversAllPoisoned(q: Queue, executed: set<nat>)
    requires Poisoned(q, executed) && q.admitted != [] && OutcomeOf(q, |q.admitted| - 1) == Some(Completed)
    ensures Executed(executed, |Flatten(q.admitted)|) && q.accepted == Flatten(q.admitted)
    ensures forall i | 0 <= i < |q.admitted| :: OutcomeOf(q, i) == Some(Completed)
  {
    var r: nat, e: Error :| FailedAt(q, executed, r, e);
    assert r == |q.admitted|;
    assert q.admitted[..r] == q.admitted;
  }

  /** Once poisoned, nothing more is admitted, accepted or told, and no buffer is written. */
  lemma {:induction false} PoisonIsFinal(w: World, steps: seq<Step>)
    requires Poisoned(w.q, w.executed) && IsRun(w, steps)
    ensures var w' := After(w, steps);
            && w'.q.accepted == w.q.accepted && w'.q.admitted == w.q.admitted && w'.q.log == w.q.log
            && w'.memory.buffers == w.memory.buffers && Poisoned(w'.q, w'.executed)
  {
    if steps != [] {
      PoisonIsFinal(w, steps[..|steps| - 1]);
      PoisonedKeeps(After(w, steps[..|steps| - 1]), steps[|steps| - 1]);
    }
  }

  /** In any run, whatever follows the first failure changes nothing that was admitted, accepted or told,
      and every admitted job has been told its outcome. */
  lemma FailureIsFinal(m: Buffers, before: seq<Step>, steps: seq<Step>)
    requires IsRun(Start(m), before) && After(Start(m), before).q.failure.Some? && IsRun(After(Start(m), before), steps)
    ensures var q, q' := After(Start(m), before).q, After(After(Start(m), before), steps).q;
            && q'.failure.Some? && q'.jobs == q.jobs == [] && |q.log| == |q.admitted|
            && q'.accepted == q.accepted && q'.admitted == q.admitted && q'.log == q.log
    ensures After(After(Start(m), before), steps).memory.buffers == After(Start(m), before).memory.buffers
  {
    AlwaysOrderly(m, before);
    PoisonIsFinal(After(Start(m), before), steps);
  }
}
