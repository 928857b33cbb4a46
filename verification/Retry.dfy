/** The bisecting retry loop: chunks that turn out too large are split again until they fit. */
module Retry {
  import opened Wrappers
  import opened Arith
  import opened Operations
  import opened Splitter
  import opened AsyncSplit

  const MAX_LOGICAL_BYTES := 64 * 1024 * 1024

  /** What preparing a chunk may answer; nothing is assumed about when it answers what. */
  datatype Answer = Prepared(bytes: nat) | TooLarge | Refused(code: nat)

  datatype RetryError =
    | SplitFailed(error: SubmitError)
    | Rejected(code: nat, call: nat, chunk: seq<Operation>)
    | Unsplittable(call: nat, chunk: seq<Operation>)
    | TotalTooLarge(call: nat, chunk: seq<Operation>)

  // ---- the pending stack, top last ----------------------------------------------------------

  function Reversed<T>(s: seq<T>): seq<T> {
    if s == [] then [] else [s[|s| - 1]] + Reversed(s[..|s| - 1])
  }

  lemma {:induction false} ReversedConcat<T>(a: seq<T>, b: seq<T>)
    ensures Reversed(a + b) == Reversed(b) + Reversed(a)
  {
    if b == [] {
      assert a + b == a;
    } else {
      ReversedConcat(a, b[..|b| - 1]);
      assert (a + b)[..|a + b| - 1] == a + b[..|b| - 1];
    }
  }

  lemma {:induction false} ReversedTwice<T>(s: seq<T>)
    ensures Reversed(Reversed(s)) == s
  {
    if s != [] {
      var front, last := s[..|s| - 1], [s[|s| - 1]];
      ReversedTwice(front);
      ReversedConcat(last, Reversed(front));
      assert last[..0] == [];
      assert Reversed(last) == last + Reversed(last[..0]) == last;
    }
  }

  // ---- termination: 2 * draws^2 + 1 per pending chunk --------------------------------------------

  function Cost(chunk: seq<Operation>): nat {
    2 * DrawCount(chunk) * DrawCount(chunk) + 1
  }

  function TotalCost(chunks: seq<seq<Operation>>): nat {
    if chunks == [] then 0 else TotalCost(chunks[..|chunks| - 1]) + Cost(chunks[|chunks| - 1])
  }

  lemma {:induction false} TotalCostConcat(a: seq<seq<Operation>>, b: seq<seq<Operation>>)
    ensures TotalCost(a + b) == TotalCost(a) + TotalCost(b)
  {
    if b == [] {
      assert a + b == a;
    } else {
      TotalCostConcat(a, b[..|b| - 1]);
      assert (a + b)[..|a + b| - 1] == a + b[..|b| - 1];
    }
  }

  lemma {:induction false} TotalCostReversed(s: seq<seq<Operation>>)
    ensures TotalCost(Reversed(s)) == TotalCost(s)
  {
    if s != [] {
      TotalCostReversed(s[..|s| - 1]);
      TotalCostConcat([s[|s| - 1]], Reversed(s[..|s| - 1]));
      assert [s[|s| - 1]][..0] == [];
    }
  }

  lemma PieceCost(limit: nat, t: nat, d: nat)
    requires d <= limit
    ensures 2 * limit * t + 2 * d * d <= 2 * limit * (t + d)
  {
    assert d * d <= limit * d;
    assert 2 * limit * (t + d) == 2 * limit * t + 2 * limit * d;
  }

  lemma HalvedCost(d: nat, limit: nat, pieces: nat)
    requires d >= 2 && limit == d / 2 && pieces <= d + 1
    ensures 2 * limit * d + pieces < 2 * d * d + 1
  {
    assert (2 * limit) * d <= d * d;
    assert 2 * d <= d * d;
  }

  /** Pieces of at most `limit` draws each cost at most `2 * limit` per draw and one per piece. */
  lemma {:induction false} PiecesCost(pieces: seq<seq<Operation>>, limit: nat)
    requires forall i | 0 <= i < |pieces| :: DrawCount(pieces[i]) <= limit
    ensures TotalCost(pieces) <= 2 * limit * TotalDraws(pieces) + |pieces|
  {
    if pieces != [] {
      var front := pieces[..|pieces| - 1];
      PiecesCost(front, limit);
      PieceCost(limit, TotalDraws(front), DrawCount(pieces[|pieces| - 1]));
    }
  }

  lemma {:induction false} PiecesHaveDraws(pieces: seq<seq<Operation>>)
    requires forall i | 0 <= i < |pieces| :: 0 < DrawCount(pieces[i])
    ensures |pieces| <= TotalDraws(pieces)
  {
    if pieces != [] {
      PiecesHaveDraws(pieces[..|pieces| - 1]);
    }
  }

  /** Halving a chunk of two or more draws yields at least two pieces and lowers the cost. */
  lemma SplitLowersCost(chunk: seq<Operation>, pieces: seq<seq<Operation>>)
    requires DrawCount(chunk) >= 2 && SplitCounts(chunk, DrawCount(chunk) / 2, pieces)
    ensures |pieces| >= 2
    ensures TotalCost(pieces) < Cost(chunk)
  {
    var d := DrawCount(chunk);
    forall i | 0 <= i < |pieces|
      ensures DrawCount(pieces[i]) <= d / 2
    {
      assert pieces[i] in pieces;
      LimitBoundsDraws(pieces[i], d / 2);
    }
    PiecesCost(pieces, d / 2);
    PiecesHaveDraws(pieces[..|pieces| - 1]);
    HalvedCost(d, d / 2, |pieces|);
  }

  // ---- meaning of what is accepted and still pending ----------------------------------------------

  /** Everything accepted, then everything pending, still means the source. */
  ghost predicate Preserved(f: Formats, events: seq<Event>, accepted: seq<seq<Operation>>, pending: seq<seq<Operation>>) {
    && ChunksMeaning(f, accepted).Some? && ChunksMeaning(f, Reversed(pending)).Some?
    && events == ChunksMeaning(f, accepted).value + ChunksMeaning(f, Reversed(pending)).value
  }

  lemma PopMeaning(f: Formats, pending: seq<seq<Operation>>)
    requires pending != [] && ChunksMeaning(f, Reversed(pending)).Some?
    ensures var top, rest := pending[|pending| - 1], pending[..|pending| - 1];
            && Meaning(f, top).Some? && ChunksMeaning(f, Reversed(rest)).Some?
            && ChunksMeaning(f, Reversed(pending)).value ==
               Meaning(f, top).value + ChunksMeaning(f, Reversed(rest)).value
  {
    ChunksOne(f, pending[|pending| - 1]);
    ChunksConcat(f, [pending[|pending| - 1]], Reversed(pending[..|pending| - 1]));
  }

  lemma AcceptPreserves(f: Formats, events: seq<Event>, accepted: seq<seq<Operation>>, pending: seq<seq<Operation>>)
    requires pending != [] && Preserved(f, events, accepted, pending)
    ensures Preserved(f, events, accepted + [pending[|pending| - 1]], pending[..|pending| - 1])
  {
    var top, rest := pending[|pending| - 1], pending[..|pending| - 1];
    PopMeaning(f, pending);
    ChunksSnoc(f, accepted, top);
    var a, b, c := ChunksMeaning(f, accepted).value, Meaning(f, top).value, ChunksMeaning(f, Reversed(rest)).value;
    assert a + (b + c) == (a + b) + c;
  }

  lemma SplitPreserves(f: Formats, events: seq<Event>, accepted: seq<seq<Operation>>, pending: seq<seq<Operation>>,
                       pieces: seq<seq<Operation>>)
    requires pending != [] && Preserved(f, events, accepted, pending)
    requires ChunksMeaning(f, pieces) == Meaning(f, pending[|pending| - 1])
    ensures Preserved(f, events, accepted, pending[..|pending| - 1] + Reversed(pieces))
  {
    var rest := pending[..|pending| - 1];
    PopMeaning(f, pending);
    ReversedConcat(rest, Reversed(pieces));
    ReversedTwice(pieces);
    ChunksConcat(f, pieces, Reversed(rest));
  }

  /** Each chunk was prepared by the call of the same index. */
  ghost predicate AllPrepared(answer: (nat, seq<Operation>) -> Answer, calls: seq<nat>, chunks: seq<seq<Operation>>) {
    |calls| == |chunks| && forall i | 0 <= i < |chunks| :: answer(calls[i], chunks[i]).Prepared?
  }

  predicate Rising(calls: seq<nat>) {
    forall i | 0 < i < |calls| :: calls[i - 1] < calls[i]
  }

  /** What the prepared chunks cost together. */
  ghost function PreparedBytes(answer: (nat, seq<Operation>) -> Answer, calls: seq<nat>, chunks: seq<seq<Operation>>): nat
    requires AllPrepared(answer, calls, chunks)
  {
    if chunks == [] then 0
    else
      var n := |chunks| - 1;
      PreparedBytes(answer, calls[..n], chunks[..n]) + answer(calls[n], chunks[n]).bytes
  }

  lemma PreparedNext(answer: (nat, seq<Operation>) -> Answer, calls: seq<nat>, chunks: seq<seq<Operation>>, call: nat,
                     chunk: seq<Operation>)
    requires AllPrepared(answer, calls, chunks) && answer(call, chunk).Prepared?
    ensures AllPrepared(answer, calls + [call], chunks + [chunk])
    ensures PreparedBytes(answer, calls + [call], chunks + [chunk])
         == PreparedBytes(answer, calls, chunks) + answer(call, chunk).bytes
  {
    assert (calls + [call])[..|calls|] == calls && (chunks + [chunk])[..|chunks|] == chunks;
  }

  /** What the loop keeps for a source that has a meaning. */
  ghost predicate OnTrack(f: Formats, source: seq<Operation>, accepted: seq<seq<Operation>>, pending: seq<seq<Operation>>) {
    Meaning(f, source).Some? ==> Preserved(f, Meaning(f, source).value, accepted, pending)
  }

  /** What has been accepted is the beginning of the source, and all of it once nothing is pending. */
  ghost predicate Begins(f: Formats, source: seq<Operation>, accepted: seq<seq<Operation>>, complete: bool) {
    Meaning(f, source).Some? ==>
      && ChunksMeaning(f, accepted).Some?
      && ChunksMeaning(f, accepted).value <= Meaning(f, source).value
      && (complete ==> ChunksMeaning(f, accepted) == Meaning(f, source))
  }

  lemma TrackBegins(f: Formats, source: seq<Operation>, accepted: seq<seq<Operation>>, pending: seq<seq<Operation>>)
    requires OnTrack(f, source, accepted, pending)
    ensures Begins(f, source, accepted, pending == [])
  {
    if Meaning(f, source).Some? && pending == [] {
      var all := ChunksMeaning(f, accepted).value;
      assert all + [] == all;
    }
  }

  lemma AcceptTop(f: Formats, source: seq<Operation>, accepted: seq<seq<Operation>>, pending: seq<seq<Operation>>)
    requires pending != [] && OnTrack(f, source, accepted, pending)
    ensures OnTrack(f, source, accepted + [pending[|pending| - 1]], pending[..|pending| - 1])
    ensures TotalCost(pending[..|pending| - 1]) < TotalCost(pending)
  {
    if Meaning(f, source).Some? {
      AcceptPreserves(f, Meaning(f, source).value, accepted, pending);
    }
  }

  /** The halves of bounded render work are bounded render work. */
  lemma HalvesBounded(chunk: seq<Operation>, maxDraws: nat, pieces: seq<seq<Operation>>)
    requires Bounded(chunk) && DrawCount(chunk) >= 2 && maxDraws <= DrawCount(chunk) && SplitCounts(chunk, maxDraws, pieces)
    ensures AllBounded(pieces)
  {
    TransfersDrawNothing(chunk);
    LimitBoundsDraws(chunk, GRAPHICS_DRAWS);
    forall c | c in pieces
      ensures Bounded(c)
    {
      LimitsLoosen(c, maxDraws, GRAPHICS_DRAWS);
    }
  }

  lemma TransfersDrawNothing(chunk: seq<Operation>)
    ensures |chunk| == 1 && IsTransfer(chunk[0]) ==> DrawCount(chunk) == 0
  {
    if |chunk| == 1 && IsTransfer(chunk[0]) {
      SingleTransferCounts(chunk[0]);
      assert chunk == [chunk[0]];
    }
  }

  predicate AllBounded(chunks: seq<seq<Operation>>) {
    forall c | c in chunks :: Bounded(c)
  }

  lemma {:induction false} ReversedBounded(chunks: seq<seq<Operation>>)
    requires AllBounded(chunks)
    ensures AllBounded(Reversed(chunks))
  {
    if chunks != [] {
      ReversedBounded(chunks[..|chunks| - 1]);
    }
  }

  lemma {:induction false} ReversedOk(f: Formats, ok: Judge, chunks: seq<seq<Operation>>)
    requires AllChunksOk(f, ok, chunks)
    ensures AllChunksOk(f, ok, Reversed(chunks))
  {
    if chunks != [] {
      ReversedOk(f, ok, chunks[..|chunks| - 1]);
    }
  }

  /** Replaces the top chunk by its halves.  The source's give-up branch for fewer than two pieces is
      never taken. */
  method SplitTop(pending: seq<seq<Operation>>, ghost f: Formats, ghost ok: Judge, ghost source: seq<Operation>,
                  ghost accepted: seq<seq<Operation>>)
    returns (r: Result<seq<seq<Operation>>, SubmitError>)
    requires pending != [] && DrawCount(pending[|pending| - 1]) >= 2 && OnTrack(f, source, accepted, pending)
    requires AllBounded(pending)
    ensures r.Ok? ==> OnTrack(f, source, accepted, r.value) && TotalCost(r.value) < TotalCost(pending) && AllBounded(r.value)
    ensures r.Ok? && Fair(f, ok, source) && AllChunksOk(f, ok, pending) ==> AllChunksOk(f, ok, r.value)
    ensures Meaning(f, source).Some? ==> r.Ok?
  {
    var top, rest := pending[|pending| - 1], pending[..|pending| - 1];
    var retry := SplitSubmissionOperations(top, Max(DrawCount(top) / 2, 1), f, ok);
    if Meaning(f, source).Some? {
      PopMeaning(f, pending);
      SplitPreserves(f, Meaning(f, source).value, accepted, pending, retry.value);
    }
    if retry.Err? {
      return Err(retry.error);
    }
    SplitLowersCost(top, retry.value);
    assert |retry.value| >= 2;
    TotalCostConcat(rest, Reversed(retry.value));
    TotalCostReversed(retry.value);
    HalvesBounded(top, Max(DrawCount(top) / 2, 1), retry.value);
    ReversedBounded(retry.value);
    if Fair(f, ok, source) && AllChunksOk(f, ok, pending) {
      assert AllChunksOk(f, ok, retry.value);
      ReversedOk(f, ok, retry.value);
    }
    return Ok(rest + Reversed(retry.value));
  }

  /** Why the loop stopped: an error names the chunk that follows what was accepted, in a later call, and
      that call's answer.  A source with a meaning can always be split. */
  ghost predicate Explained(f: Formats, source: seq<Operation>, answer: (nat, seq<Operation>) -> Answer,
                            accepted: seq<seq<Operation>>, calls: seq<nat>, e: RetryError)
    requires AllPrepared(answer, calls, accepted)
  {
    if e.SplitFailed? then Meaning(f, source).None?
    else
      && Begins(f, source, accepted + [e.chunk], false) && Rising(calls + [e.call])
      && match e
         case Rejected(code, call, chunk) => answer(call, chunk) == Refused(code)
         case Unsplittable(call, chunk) => answer(call, chunk).TooLarge? && DrawCount(chunk) <= 1
         case TotalTooLarge(call, chunk) =>
           && answer(call, chunk).Prepared?
           && PreparedBytes(answer, calls, accepted) + answer(call, chunk).bytes > MAX_LOGICAL_BYTES
  }

  /** The top of the stack follows what was accepted. */
  lemma TopFollows(f: Formats, source: seq<Operation>, accepted: seq<seq<Operation>>, pending: seq<seq<Operation>>)
    requires pending != [] && OnTrack(f, source, accepted, pending)
    ensures Begins(f, source, accepted, false) && Begins(f, source, accepted + [pending[|pending| - 1]], false)
  {
    TrackBegins(f, source, accepted, pending);
    AcceptTop(f, source, accepted, pending);
    TrackBegins(f, source, accepted + [pending[|pending| - 1]], pending[..|pending| - 1]);
  }

  lemma RisingNext(calls: seq<nat>, call: nat)
    requires Rising(calls) && (calls != [] ==> calls[|calls| - 1] < call)
    ensures Rising(calls + [call])
  {
  }

  /** What the preparation has done so far, before a call. */
  ghost predicate Booked(answer: (nat, seq<Operation>) -> Answer, accepted: seq<seq<Operation>>, calls: seq<nat>, bytes: nat,
                         call: nat) {
    && AllPrepared(answer, calls, accepted) && AllBounded(accepted)
    && bytes == PreparedBytes(answer, calls, accepted) <= MAX_LOGICAL_BYTES
    && Rising(calls + [call])
  }

  lemma BookNext(answer: (nat, seq<Operation>) -> Answer, accepted: seq<seq<Operation>>, calls: seq<nat>, bytes: nat, call: nat,
                 chunk: seq<Operation>)
    requires Booked(answer, accepted, calls, bytes, call) && answer(call, chunk).Prepared? && Bounded(chunk)
    requires bytes + answer(call, chunk).bytes <= MAX_LOGICAL_BYTES
    ensures Booked(answer, accepted + [chunk], calls + [call], bytes + answer(call, chunk).bytes, call + 1)
  {
    PreparedNext(answer, calls, accepted, call, chunk);
    RisingNext(calls + [call], call + 1);
  }

  lemma CallLater(calls: seq<nat>, call: nat)
    requires Rising(calls + [call])
    ensures Rising(calls) && Rising(calls + [call + 1])
  {
    assert forall i | 0 <= i < |calls| :: calls[i] == (calls + [call])[i];
    if calls != [] {
      assert (calls + [call])[|calls|] == call;
    }
    RisingNext(calls, call + 1);
  }

  /** Prepares every chunk of a stream, splitting those that do not fit.  Whatever the preparation
      answers, the loop ends; what it accepted so far is a prefix of the source's meaning, and all of
      it on success.  Everything accepted is bounded, and every error is explained.  Whatever a fair judge
      accepts of the source it accepts of every chunk, also of the one that stopped the loop. */
  method PrepareAll(source: seq<Operation>, answer: (nat, seq<Operation>) -> Answer, ghost f: Formats, ghost ok: Judge)
    returns (accepted: seq<seq<Operation>>, r: Result<nat, RetryError>, ghost calls: seq<nat>)
    ensures AllPrepared(answer, calls, accepted) && AllBounded(accepted) && Rising(calls)
    ensures Begins(f, source, accepted, r.Ok?)
    ensures Fair(f, ok, source) ==> AllChunksOk(f, ok, accepted)
    ensures r.Err? && !r.error.SplitFailed? ==> Bounded(r.error.chunk) && (Fair(f, ok, source) ==> AllOk(f, ok, r.error.chunk))
    ensures r.Ok? ==> r.value == PreparedBytes(answer, calls, accepted) <= MAX_LOGICAL_BYTES
    ensures r.Err? ==> Explained(f, source, answer, accepted, calls, r.error)
  {
    accepted, calls := [], [];
    var first := SplitAsyncOperations(source, f, ok);
    if first.Err? {
      return [], Err(SplitFailed(first.error)), [];
    }
    var pending := Reversed(first.value);
    ReversedTwice(first.value);
    ReversedBounded(first.value);
    if Fair(f, ok, source) {
      ReversedOk(f, ok, first.value);
    }
    var bytes, call := 0, 0;
    while pending != []
      invariant Booked(answer, accepted, calls, bytes, call)
      invariant OnTrack(f, source, accepted, pending) && AllBounded(pending)
      invariant Fair(f, ok, source) ==> AllChunksOk(f, ok, pending) && AllChunksOk(f, ok, accepted)
      decreases TotalCost(pending)
    {
      TopFollows(f, source, accepted, pending);
      CallLater(calls, call);
      var top := pending[|pending| - 1];
      var result := answer(call, top);
      match result {
        case Prepared(size) =>
          if bytes + size > MAX_LOGICAL_BYTES {
            return accepted, Err(TotalTooLarge(call, top)), calls;
          }
          AcceptTop(f, source, accepted, pending);
          BookNext(answer, accepted, calls, bytes, call, top);
          bytes := bytes + size;
          accepted, calls := accepted + [top], calls + [call];
          pending := pending[..|pending| - 1];
        case Refused(code) =>
          return accepted, Err(Rejected(code, call, top)), calls;
        case TooLarge =>
          if DrawCount(top) <= 1 {
            return accepted, Err(Unsplittable(call, top)), calls;
          }
          var retry := SplitTop(pending, f, ok, source, accepted);
          if retry.Err? {
            return accepted, Err(SplitFailed(retry.error)), calls;
          }
          pending := retry.value;
      }
      call := call + 1;
    }
    TrackBegins(f, source, accepted, pending);
    CallLater(calls, call);
    return accepted, Ok(bytes), calls;
  }
}
