/** The ordered native dispatcher as a transition system.

    A world holds the queue, what has been admitted and accepted so far, what each job's signal
    was told, and the memory that the CPU and the GPU share.  The GPU completes accepted chunks
    whenever it likes and in any order; a transport may refuse, stall or fail at any point. */
module DispatchModel {
  import opened Wrappers
  import opened Sequences

  const MAX_SUBMISSIONS := 16
  const MAX_PENDING_BYTES := 64 * 1024 * 1024
  const MAX_NATIVE_IN_FLIGHT := 16

  type ArenaId = nat
  type BufferId = nat
  type Error = nat
  type Bytes = map<nat, byte>
  type Buffers = map<(BufferId, nat), byte>

  datatype Upload = Upload(offset: nat, bytes: seq<byte>)

  datatype Chunk =
    | Commands(length: nat, arena: ArenaId, uploads: seq<Upload>)
    | BufferWrite(buffer: BufferId, offset: nat, data: seq<byte>)
    | Barrier

  /** A chunk the worker performs itself, once the GPU is idle. */
  predicate RequiresIdle(c: Chunk) { !c.Commands? }

  function UploadSize(uploads: seq<Upload>): nat {
    if uploads == [] then 0 else UploadSize(uploads[..|uploads| - 1]) + |uploads[|uploads| - 1].bytes|
  }

  function Size(c: Chunk): nat {
    match c
    case Commands(length, _, uploads) => length + UploadSize(uploads)
    case BufferWrite(_, _, data) => |data|
    case Barrier => 0
  }

  function TotalSize(chunks: seq<Chunk>): nat {
    if chunks == [] then 0 else TotalSize(chunks[..|chunks| - 1]) + Size(chunks[|chunks| - 1])
  }

  /** `id` names the job's signal; a receipt names the accepted chunk it tracks. */
  datatype Job = Job(id: nat, chunks: seq<Chunk>, next: nat, receipts: seq<nat>, bytes: nat)

  datatype Outcome = Completed | Failed(error: Error)

  /** The scheduler, and the history it leaves behind: every admitted job's chunks, the accepted
      chunks, and what each signal was told. */
  datatype Queue = Queue(
    jobs: seq<Job>, bytes: int, failure: Option<Error>,
    admitted: seq<seq<Chunk>>, accepted: seq<Chunk>, log: seq<(nat, Outcome)>)

  /** Mapped buffers, upload arenas, and the accepted chunk that last used each arena. */
  datatype Memory = Memory(initial: Buffers, buffers: Buffers, arenas: map<ArenaId, Bytes>, users: map<ArenaId, nat>)

  /** `executed` holds the accepted chunks that have taken effect. */
  datatype World = World(q: Queue, executed: set<nat>, memory: Memory)

  function Start(initial: Buffers): World {
    World(Queue([], 0, None, [], [], []), {}, Memory(initial, initial, map[], map[]))
  }

  // ---- the queue --------------------------------------------------------------------------

  function InFlight(jobs: seq<Job>): seq<nat> {
    if jobs == [] then [] else InFlight(jobs[..|jobs| - 1]) + jobs[|jobs| - 1].receipts
  }

  function QueuedBytes(jobs: seq<Job>): nat {
    if jobs == [] then 0 else QueuedBytes(jobs[..|jobs| - 1]) + jobs[|jobs| - 1].bytes
  }

  function Unsubmitted(jobs: seq<Job>): int {
    if jobs == [] then 0
    else Unsubmitted(jobs[..|jobs| - 1]) + |jobs[|jobs| - 1].chunks| - jobs[|jobs| - 1].next
  }

  /** The first job with work left to submit from position i on; the queue's length if none. */
  function NextJob(jobs: seq<Job>, i: nat): (j: nat)
    requires i <= |jobs|
    ensures i <= j <= |jobs|
    ensures j < |jobs| ==> jobs[j].next < |jobs[j].chunks|
    ensures forall k | i <= k < j :: jobs[k].next >= |jobs[k].chunks|
    decreases |jobs| - i
  {
    if i == |jobs| || jobs[i].next < |jobs[i].chunks| then i else NextJob(jobs, i + 1)
  }

  predicate HasNext(q: Queue) { NextJob(q.jobs, 0) < |q.jobs| }

  function NextChunk(q: Queue): Chunk
    requires HasNext(q)
  {
    var job := q.jobs[NextJob(q.jobs, 0)];
    job.chunks[job.next]
  }

  // ---- memory -----------------------------------------------------------------------------

  function WriteBytes(m: Bytes, offset: nat, bytes: seq<byte>): Bytes {
    if bytes == [] then m
    else
      var n := |bytes| - 1;
      WriteBytes(m, offset, bytes[..n])[offset + n := bytes[n]]
  }

  function WriteUploads(m: Bytes, uploads: seq<Upload>): Bytes {
    if uploads == [] then m
    else
      var last := uploads[|uploads| - 1];
      WriteBytes(WriteUploads(m, uploads[..|uploads| - 1]), last.offset, last.bytes)
  }

  function WriteRange(m: Buffers, buffer: BufferId, offset: nat, data: seq<byte>): Buffers {
    if data == [] then m
    else
      var n := |data| - 1;
      WriteRange(m, buffer, offset, data[..n])[(buffer, offset + n) := data[n]]
  }

  function WriteBuffer(m: Buffers, c: Chunk): Buffers {
    if c.BufferWrite? then WriteRange(m, c.buffer, c.offset, c.data) else m
  }

  /** Mapped buffers after the CPU writes among `chunks`, performed in order. */
  function SerialBuffers(m: Buffers, chunks: seq<Chunk>): Buffers {
    if chunks == [] then m
    else WriteBuffer(SerialBuffers(m, chunks[..|chunks| - 1]), chunks[|chunks| - 1])
  }

  function ArenaBytes(m: Memory, a: ArenaId): Bytes {
    if a in m.arenas then m.arenas[a] else map[]
  }

  // ---- steps --------------------------------------------------------------------------------

  datatype Step =
    | Admit(chunks: seq<Chunk>)
    | GpuCompletes(k: nat, scribble: Bytes)   // the GPU runs chunk k, writing its own arena at will
    | Observe(j: nat, i: nat)                 // the i-th receipt of the j-th job was seen complete
    | Retire                                  // the front job has nothing left
    | Stage(count: nat)                       // uploads written, but the submit was refused
    | Accept                                  // the next chunk was accepted
    | Fail(error: Error)

  predicate MayAdmit(q: Queue, chunks: seq<Chunk>) {
    && q.failure.None? && |q.jobs| < MAX_SUBMISSIONS
    && q.bytes + TotalSize(chunks) <= MAX_PENDING_BYTES
  }

  predicate MayObserve(q: Queue, j: nat, i: nat, executed: set<nat>) {
    j < |q.jobs| && i < |q.jobs[j].receipts| && q.jobs[j].receipts[i] in executed
  }

  predicate MayRetire(q: Queue) {
    |q.jobs| > 0 && q.jobs[0].next == |q.jobs[0].chunks| && q.jobs[0].receipts == []
  }

  /** Room for one more chunk in flight, and none at all in flight when the CPU is to write. */
  predicate MaySend(q: Queue) {
    && HasNext(q)
    && |InFlight(q.jobs)| < MAX_NATIVE_IN_FLIGHT
    && (RequiresIdle(NextChunk(q)) ==> |InFlight(q.jobs)| == 0)
  }

  /** The arena of a chunk is free: its last user has completed. */
  predicate ArenaReady(m: Memory, executed: set<nat>, c: Chunk) {
    c.Commands? && c.arena in m.users ==> m.users[c.arena] in executed
  }

  predicate MaySubmit(w: World) {
    MaySend(w.q) && ArenaReady(w.memory, w.executed, NextChunk(w.q))
  }

  predicate Enabled(w: World, s: Step) {
    match s
    case Admit(chunks) => MayAdmit(w.q, chunks)
    case GpuCompletes(k, _) => k < |w.q.accepted| && w.q.accepted[k].Commands? && k !in w.executed
    case Observe(j, i) => MayObserve(w.q, j, i, w.executed)
    case Retire => MayRetire(w.q)
    case Stage(count) => MaySubmit(w) && NextChunk(w.q).Commands? && count <= |NextChunk(w.q).uploads|
    case Accept => MaySubmit(w)
    case Fail(_) => true
  }

  function Remove<T>(s: seq<T>, i: nat): seq<T>
    requires i < |s|
  {
    s[..i] + s[i + 1..]
  }

  function Admitted(q: Queue, chunks: seq<Chunk>): Queue {
    q.(jobs := q.jobs + [Job(|q.admitted|, chunks, 0, [], TotalSize(chunks))],
       bytes := q.bytes + TotalSize(chunks),
       admitted := q.admitted + [chunks])
  }

  function Observed(q: Queue, j: nat, i: nat): Queue
    requires j < |q.jobs| && i < |q.jobs[j].receipts|
  {
    q.(jobs := q.jobs[j := q.jobs[j].(receipts := Remove(q.jobs[j].receipts, i))])
  }

  function Retired(q: Queue): Queue
    requires |q.jobs| > 0
  {
    q.(jobs := q.jobs[1..], bytes := q.bytes - q.jobs[0].bytes, log := q.log + [(q.jobs[0].id, Completed)])
  }

  function Advanced(job: Job, k: nat): Job {
    job.(next := job.next + 1, receipts := job.receipts + [k])
  }

  function Accepted(q: Queue): Queue
    requires HasNext(q)
  {
    var j := NextJob(q.jobs, 0);
    q.(jobs := q.jobs[j := Advanced(q.jobs[j], |q.accepted|)], accepted := q.accepted + [NextChunk(q)])
  }

  function Failures(jobs: seq<Job>, e: Error): seq<(nat, Outcome)> {
    seq(|jobs|, i requires 0 <= i < |jobs| => (jobs[i].id, Failed(e)))
  }

  function FailedWith(q: Queue, e: Error): Queue {
    q.(jobs := [], bytes := 0, failure := Some(e), log := q.log + Failures(q.jobs, e))
  }

  /** Uploads land in the arena before the GPU can see the chunk. */
  function Staged(m: Memory, a: ArenaId, uploads: seq<Upload>): Memory {
    m.(arenas := m.arenas[a := WriteUploads(ArenaBytes(m, a), uploads)])
  }

  /** Accepting chunk k: the CPU performs its own, the GPU gets the rest with their uploads. */
  function Received(m: Memory, c: Chunk, k: nat): Memory {
    if c.Commands? then Staged(m, c.arena, c.uploads).(users := m.users[c.arena := k])
    else m.(buffers := WriteBuffer(m.buffers, c))
  }

  function Apply(w: World, s: Step): World
    requires Enabled(w, s)
  {
    match s
    case Admit(chunks) => w.(q := Admitted(w.q, chunks))
    case GpuCompletes(k, scribble) =>
      var a := w.q.accepted[k].arena;
      w.(executed := w.executed + {k},
         memory := w.memory.(arenas := w.memory.arenas[a := ArenaBytes(w.memory, a) + scribble]))
    case Observe(j, i) => w.(q := Observed(w.q, j, i))
    case Retire => w.(q := Retired(w.q))
    case Stage(count) =>
      var c := NextChunk(w.q);
      w.(memory := Staged(w.memory, c.arena, c.uploads[..count]))
    case Accept =>
      var c, k := NextChunk(w.q), |w.q.accepted|;
      World(Accepted(w.q), if c.Commands? then w.executed else w.executed + {k}, Received(w.memory, c, k))
    case Fail(e) => w.(q := FailedWith(w.q, e))
  }

  // ---- runs -----------------------------------------------------------------------------------

  predicate IsRun(w: World, steps: seq<Step>)
    decreases |steps|, 0
  {
    steps == [] ||
    (IsRun(w, steps[..|steps| - 1]) && Enabled(After(w, steps[..|steps| - 1]), steps[|steps| - 1]))
  }

  /** The world at the end of a run. */
  function After(w: World, steps: seq<Step>): World
    requires IsRun(w, steps)
    decreases |steps|, 1
  {
    if steps == [] then w
    else Apply(After(w, steps[..|steps| - 1]), steps[|steps| - 1])
  }

  lemma RunSnoc(w: World, steps: seq<Step>, s: Step)
    requires IsRun(w, steps) && Enabled(After(w, steps), s)
    ensures IsRun(w, steps + [s]) && After(w, steps + [s]) == Apply(After(w, steps), s)
  {
    assert (steps + [s])[..|steps|] == steps;
  }

  /** Runs follow one another. */
  lemma {:induction false} RunConcat(w: World, a: seq<Step>, b: seq<Step>)
    requires IsRun(w, a) && IsRun(After(w, a), b)
    ensures IsRun(w, a + b) && After(w, a + b) == After(After(w, a), b)
  {
    if b == [] {
      assert a + b == a;
    } else {
      var front, last := b[..|b| - 1], b[|b| - 1];
      RunConcat(w, a, front);
      SnocConcat(a, b);
      RunSnoc(w, a + front, last);
    }
  }
}
