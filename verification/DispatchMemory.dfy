/** What a chunk can see of memory between its acceptance and its execution. */
module DispatchMemory {
  import opened Wrappers
  import opened DispatchModel
  import opened Sequences
  import opened DispatchOrder

  predicate UploadCovers(u: Upload, at: nat) { u.offset <= at < u.offset + |u.bytes| }

  /** No upload behind the j-th covers the byte. */
  predicate Uncovered(uploads: seq<Upload>, j: nat, at: nat) {
    forall k | j < k < |uploads| :: !UploadCovers(uploads[k], at)
  }

  /** The arena holds every byte of every upload at its own place, unless a later upload of the chunk covers it. */
  ghost predicate UploadsIntact(m: Bytes, uploads: seq<Upload>) {
    forall j: nat, at: nat | j < |uploads| && UploadCovers(uploads[j], at) && Uncovered(uploads, j, at) ::
      at in m && m[at] == uploads[j].bytes[at - uploads[j].offset]
  }

  /** The chunk is a CPU write that covers the byte of a mapped buffer. */
  predicate Hits(c: Chunk, key: (BufferId, nat)) {
    c.BufferWrite? && c.buffer == key.0 && c.offset <= key.1 < c.offset + |c.data|
  }

  predicate LastHit(chunks: seq<Chunk>, key: (BufferId, nat), j: nat) {
    j < |chunks| && Hits(chunks[j], key) && forall k | j < k < |chunks| :: !Hits(chunks[k], key)
  }

  predicate NeverHit(chunks: seq<Chunk>, key: (BufferId, nat)) {
    forall k | 0 <= k < |chunks| :: !Hits(chunks[k], key)
  }

  /** Every byte of the mapped buffers is that of the last write that covers it, or the initial one. */
  ghost predicate HoldsLastWrites(initial: Buffers, chunks: seq<Chunk>, now: Buffers) {
    && (forall key: (BufferId, nat), j: nat | LastHit(chunks, key, j) :: key in now && now[key] == chunks[j].data[key.1 - chunks[j].offset])
    && (forall key: (BufferId, nat) | NeverHit(chunks, key) :: (key in now <==> key in initial) && (key in now ==> now[key] == initial[key]))
  }

  /** Chunk k would find every CPU write accepted before it and none after, and its own uploads. */
  ghost predicate Sees(accepted: seq<Chunk>, m: Memory, k: nat)
    requires k < |accepted|
  {
    var c := accepted[k];
    && c.Commands?
    && m.buffers == SerialBuffers(m.initial, accepted[..k])
    && c.arena in m.users && m.users[c.arena] == k
    && UploadsIntact(ArenaBytes(m, c.arena), c.uploads)
  }

  ghost predicate Coherent(accepted: seq<Chunk>, executed: set<nat>, m: Memory) {
    && m.buffers == SerialBuffers(m.initial, accepted)
    && forall k | 0 <= k < |accepted| && k !in executed :: Sees(accepted, m, k)
  }

  // ---- uploads ----------------------------------------------------------------------------------

  lemma {:induction false} WrittenByte(m: Bytes, offset: nat, bytes: seq<byte>, at: nat)
    ensures offset <= at < offset + |bytes| ==>
              at in WriteBytes(m, offset, bytes) && WriteBytes(m, offset, bytes)[at] == bytes[at - offset]
    ensures !(offset <= at < offset + |bytes|) ==>
              && (at in WriteBytes(m, offset, bytes) <==> at in m)
              && (at in m ==> WriteBytes(m, offset, bytes)[at] == m[at])
  {
    if bytes != [] {
      WrittenByte(m, offset, bytes[..|bytes| - 1], at);
    }
  }

  lemma UncoveredFront(uploads: seq<Upload>, j: nat, at: nat)
    requires j < |uploads| && Uncovered(uploads, j, at)
    ensures j < |uploads| - 1 ==> Uncovered(uploads[..|uploads| - 1], j, at) && !UploadCovers(uploads[|uploads| - 1], at)
  {
  }

  /** Whatever an arena held before, writing the uploads makes them intact. */
  lemma {:induction false} UploadsLand(m: Bytes, uploads: seq<Upload>)
    ensures UploadsIntact(WriteUploads(m, uploads), uploads)
  {
    if uploads != [] {
      var front, last := uploads[..|uploads| - 1], uploads[|uploads| - 1];
      UploadsLand(m, front);
      forall j: nat, at: nat | j < |uploads| && UploadCovers(uploads[j], at) && Uncovered(uploads, j, at)
        ensures at in WriteUploads(m, uploads) && WriteUploads(m, uploads)[at] == uploads[j].bytes[at - uploads[j].offset]
      {
        UncoveredFront(uploads, j, at);
        WrittenByte(WriteUploads(m, front), last.offset, last.bytes, at);
      }
    }
  }

  // ---- mapped buffers ---------------------------------------------------------------------------

  lemma {:induction false} RangeByte(m: Buffers, buffer: BufferId, offset: nat, data: seq<byte>, key: (BufferId, nat))
    ensures key.0 == buffer && offset <= key.1 < offset + |data| ==>
              key in WriteRange(m, buffer, offset, data) && WriteRange(m, buffer, offset, data)[key] == data[key.1 - offset]
    ensures !(key.0 == buffer && offset <= key.1 < offset + |data|) ==>
              && (key in WriteRange(m, buffer, offset, data) <==> key in m)
              && (key in m ==> WriteRange(m, buffer, offset, data)[key] == m[key])
  {
    if data != [] {
      RangeByte(m, buffer, offset, data[..|data| - 1], key);
    }
  }

  lemma ChunkByte(m: Buffers, c: Chunk, key: (BufferId, nat))
    ensures Hits(c, key) ==> key in WriteBuffer(m, c) && WriteBuffer(m, c)[key] == c.data[key.1 - c.offset]
    ensures !Hits(c, key) ==> (key in WriteBuffer(m, c) <==> key in m) && (key in m ==> WriteBuffer(m, c)[key] == m[key])
  {
    if c.BufferWrite? {
      RangeByte(m, c.buffer, c.offset, c.data, key);
    }
  }

  /** Performing the CPU writes in order leaves the last one at every byte. */
  lemma {:induction false} SerialHolds(m: Buffers, chunks: seq<Chunk>)
    ensures HoldsLastWrites(m, chunks, SerialBuffers(m, chunks))
  {
    if chunks != [] {
      var front, last := chunks[..|chunks| - 1], chunks[|chunks| - 1];
      SerialHolds(m, front);
      forall key: (BufferId, nat), j: nat | LastHit(chunks, key, j)
        ensures key in SerialBuffers(m, chunks) && SerialBuffers(m, chunks)[key] == chunks[j].data[key.1 - chunks[j].offset]
      {
        ChunkByte(SerialBuffers(m, front), last, key);
        assert j < |front| ==> LastHit(front, key, j);
      }
      forall key: (BufferId, nat) | NeverHit(chunks, key)
        ensures (key in SerialBuffers(m, chunks) <==> key in m) && (key in m ==> SerialBuffers(m, chunks)[key] == m[key])
      {
        ChunkByte(SerialBuffers(m, front), last, key);
        assert NeverHit(front, key);
      }
    }
  }

  lemma SerialSnoc(m: Buffers, chunks: seq<Chunk>, c: Chunk)
    ensures SerialBuffers(m, chunks + [c]) == WriteBuffer(SerialBuffers(m, chunks), c)
  {
    assert (chunks + [c])[..|chunks|] == chunks;
  }

  // ---- an empty set of receipts means an idle GPU ---------------------------------------------------

  lemma {:induction false} NothingAwaited(jobs: seq<Job>, base: nat, executed: set<nat>)
    requires Tracked(jobs, base, executed) && InFlight(jobs) == []
    ensures forall k | base <= k < base + |Submitted(jobs)| :: k in executed
  {
    if jobs != [] {
      NothingAwaited(jobs[..|jobs| - 1], base, executed);
      assert jobs[|jobs| - 1].receipts == [];
    }
  }

  lemma IdleMeansExecuted(q: Queue, executed: set<nat>)
    requires Healthy(q, executed) && InFlight(q.jobs) == []
    ensures forall k | 0 <= k < |q.accepted| :: k in executed
  {
    NothingAwaited(q.jobs, |FirstJobs(q, |q.log|)|, executed);
  }

  // ---- steps that touch memory ------------------------------------------------------------------------

  /** Writing one arena leaves every other arena's user undisturbed. */
  lemma OtherArenasKeep(accepted: seq<Chunk>, executed: set<nat>, m: Memory, a: ArenaId, bytes: Bytes, k: nat)
    requires Coherent(accepted, executed, m) && k < |accepted| && k !in executed
    requires accepted[k].Commands? ==> accepted[k].arena != a
    ensures Sees(accepted, m.(arenas := m.arenas[a := bytes]), k)
  {
    assert Sees(accepted, m, k);
  }

  lemma StageKeeps(accepted: seq<Chunk>, executed: set<nat>, m: Memory, c: Chunk, uploads: seq<Upload>)
    requires Coherent(accepted, executed, m) && c.Commands? && ArenaReady(m, executed, c)
    ensures Coherent(accepted, executed, Staged(m, c.arena, uploads))
  {
    forall k | 0 <= k < |accepted| && k !in executed
      ensures Sees(accepted, Staged(m, c.arena, uploads), k)
    {
      assert Sees(accepted, m, k);
      OtherArenasKeep(accepted, executed, m, c.arena, WriteUploads(ArenaBytes(m, c.arena), uploads), k);
    }
  }

  lemma CompleteKeeps(accepted: seq<Chunk>, executed: set<nat>, m: Memory, done: nat, scribble: Bytes)
    requires Coherent(accepted, executed, m) && done < |accepted| && accepted[done].Commands? && done !in executed
    ensures var a := accepted[done].arena;
            Coherent(accepted, executed + {done}, m.(arenas := m.arenas[a := ArenaBytes(m, a) + scribble]))
  {
    var a := accepted[done].arena;
    assert Sees(accepted, m, done);
    forall k | 0 <= k < |accepted| && k !in executed + {done}
      ensures Sees(accepted, m.(arenas := m.arenas[a := ArenaBytes(m, a) + scribble]), k)
    {
      assert Sees(accepted, m, k);
      OtherArenasKeep(accepted, executed, m, a, ArenaBytes(m, a) + scribble, k);
    }
  }

  /** An accepted chunk goes on seeing what it saw when another is accepted behind it. */
  lemma StillSees(accepted: seq<Chunk>, m: Memory, n: Memory, c: Chunk, k: nat)
    requires k < |accepted| && Sees(accepted, m, k) && n.initial == m.initial && n.buffers == m.buffers
    requires accepted[k].arena in n.users && n.users[accepted[k].arena] == k
    requires ArenaBytes(n, accepted[k].arena) == ArenaBytes(m, accepted[k].arena)
    ensures Sees(accepted + [c], n, k)
  {
    assert (accepted + [c])[..k] == accepted[..k];
  }

  lemma NewSees(accepted: seq<Chunk>, m: Memory, c: Chunk)
    requires c.Commands? && m.buffers == SerialBuffers(m.initial, accepted)
    ensures Sees(accepted + [c], Received(m, c, |accepted|), |accepted|)
  {
    UploadsLand(ArenaBytes(m, c.arena), c.uploads);
    assert (accepted + [c])[..|accepted|] == accepted;
  }

  lemma CommandsKeep(accepted: seq<Chunk>, executed: set<nat>, m: Memory, c: Chunk)
    requires Coherent(accepted, executed, m) && c.Commands? && ArenaReady(m, executed, c)
    ensures Coherent(accepted + [c], executed, Received(m, c, |accepted|))
  {
    SerialSnoc(m.initial, accepted, c);
    NewSees(accepted, m, c);
    forall k | 0 <= k < |accepted| && k !in executed
      ensures Sees(accepted + [c], Received(m, c, |accepted|), k)
    {
      assert Sees(accepted, m, k);
      StillSees(accepted, m, Received(m, c, |accepted|), c, k);
    }
  }

  lemma CpuKeeps(accepted: seq<Chunk>, executed: set<nat>, m: Memory, c: Chunk)
    requires Coherent(accepted, executed, m) && !c.Commands?
    requires forall k | 0 <= k < |accepted| :: k in executed
    ensures Coherent(accepted + [c], executed + {|accepted|}, Received(m, c, |accepted|))
  {
    SerialSnoc(m.initial, accepted, c);
  }

  lemma StepKeepsMemory(w: World, s: Step)
    requires Orderly(w) && Coherent(w.q.accepted, w.executed, w.memory) && Enabled(w, s)
    ensures var w' := Apply(w, s); Coherent(w'.q.accepted, w'.executed, w'.memory)
  {
    match s
    case GpuCompletes(k, scribble) =>
      CompleteKeeps(w.q.accepted, w.executed, w.memory, k, scribble);
    case Stage(count) =>
      var c := NextChunk(w.q);
      StageKeeps(w.q.accepted, w.executed, w.memory, c, c.uploads[..count]);
    case Accept =>
      var c := NextChunk(w.q);
      if c.Commands? {
        CommandsKeep(w.q.accepted, w.executed, w.memory, c);
      } else {
        IdleMeansExecuted(w.q, w.executed);
        CpuKeeps(w.q.accepted, w.executed, w.memory, c);
      }
    case _ =>
  }

  lemma {:induction false} RunKeepsMemory(w: World, steps: seq<Step>)
    requires Orderly(w) && Coherent(w.q.accepted, w.executed, w.memory) && IsRun(w, steps)
    ensures var w' := After(w, steps); Coherent(w'.q.accepted, w'.executed, w'.memory)
    ensures After(w, steps).memory.initial == w.memory.initial
  {
    if steps != [] {
      var front := steps[..|steps| - 1];
      RunKeepsMemory(w, front);
      RunKeepsOrder(w, front);
      StepKeepsMemory(After(w, front), steps[|steps| - 1]);
    }
  }

  lemma {:induction false} SerialPrefix(m: Buffers, a: seq<Chunk>, b: seq<Chunk>, k: nat)
    requires a <= b && k <= |a|
    ensures SerialBuffers(m, a[..k]) == SerialBuffers(m, b[..k])
  {
    assert a[..k] == b[..k];
  }

  /** Serial view: in every run, at every moment between a command chunk's acceptance and its
      execution, every byte of the mapped buffers is that of the last write admitted before it, and every
      byte of its own uploads is in its place in its arena.  The GPU may therefore run it at any such moment, in any order with the others. */
  lemma ChunksSeeSerialMemory(m: Buffers, steps: seq<Step>, k: nat)
    requires IsRun(Start(m), steps)
    requires var w := After(Start(m), steps); k < |w.q.accepted| && k !in w.executed
    ensures var w := After(Start(m), steps);
            var all, c := Flatten(w.q.admitted), w.q.accepted[k];
            && k < |all| && all[k] == c && c.Commands?
            && w.memory.buffers == SerialBuffers(m, all[..k]) && HoldsLastWrites(m, all[..k], w.memory.buffers)
            && UploadsIntact(ArenaBytes(w.memory, c.arena), c.uploads)
  {
    AlwaysOrderly(m, steps);
    assert Coherent([], {}, Start(m).memory);
    assert Healthy(Start(m).q, {});
    RunKeepsMemory(Start(m), steps);
    AcceptedInAdmissionOrder(m, steps);
    var w := After(Start(m), steps);
    assert Sees(w.q.accepted, w.memory, k);
    SerialPrefix(m, w.q.accepted, Flatten(w.q.admitted), k);
    SerialHolds(m, Flatten(w.q.admitted)[..k]);
  }
}
