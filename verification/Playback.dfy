/** Recovering played periods from a ring position, and the period queue. */
module Playback {
  import opened Wrappers
  import opened Arith

  const USIZE_MAX := 0xffff_ffff_ffff_ffff
  const PCM_BYTES_PER_SECOND := 192_000
  const NANOS_PER_SECOND := 1_000_000_000

  function Saturate(x: nat): nat { Min(x, USIZE_MAX) }

  lemma Saturated(x: nat)
    requires x <= USIZE_MAX
    ensures Saturate(x) == x
  {
  }

  // ---- division ---------------------------------------------------------------------------------------------------

  function Quotient(n: nat, d: nat): nat
    requires d > 0
  {
    n / d
  }

  lemma QuotientIs(n: nat, d: nat, k: nat)
    requires d > 0 && d * k <= n < d * k + d
    ensures n / d == k && n % d == n - d * k
  {
    var q := n / d;
    assert n == d * q + n % d;
    assert d * (k - q) == d * k - d * q;
    Apart(d, k - q);
  }

  lemma Apart(d: int, x: int)
    requires d > 0
    ensures x >= 1 ==> d * x >= d
    ensures x <= -1 ==> d * x <= -d
  {
  }

  /** Whole multiples come out of a quotient, and do not change a remainder. */
  lemma WholeMultiple(q: nat, x: nat, d: nat)
    requires d > 0
    ensures (d * q + x) / d == q + x / d && (d * q + x) % d == x % d
  {
    assert x == d * (x / d) + x % d;
    assert d * (q + x / d) == d * q + d * (x / d);
    QuotientIs(d * q + x, d, q + x / d);
  }

  // ---- the ring position ------------------------------------------------------------------------------------------

  /** The offset of a DMA address in the ring, if it lies there. */
  function RingOffset(base: nat, bufferBytes: nat, current: nat): Option<nat> {
    if current < base || current - base >= bufferBytes then None else Some(current - base)
  }

  function ExpectedAdvance(elapsed: nat): nat { Saturate(elapsed * PCM_BYTES_PER_SECOND / NANOS_PER_SECOND) }

  function ModuloAdvance(last: nat, current: nat, bufferBytes: nat): nat
    requires last < bufferBytes
  {
    if current >= last then current - last else bufferBytes - last + current
  }

  /** The revolution count closest to the expected advance. */
  function Revolutions(expected: nat, moduloAdvance: nat, bufferBytes: nat): nat
    requires bufferBytes > 0
  {
    if expected > moduloAdvance then Quotient(Saturate(expected - moduloAdvance + bufferBytes / 2), bufferBytes) else 0
  }

  function Advanced(last: nat, current: nat, bufferBytes: nat, expected: nat): nat
    requires last < bufferBytes
  {
    var moduloAdvance := ModuloAdvance(last, current, bufferBytes);
    Saturate(moduloAdvance + Saturate(Revolutions(expected, moduloAdvance, bufferBytes) * bufferBytes))
  }

  function CompletedPeriods(last: nat, current: nat, bufferBytes: nat, periodBytes: nat, elapsed: nat): nat {
    if bufferBytes == 0 || periodBytes == 0 || last >= bufferBytes || current >= bufferBytes then 0
    else Quotient(Saturate(last % periodBytes + Advanced(last, current, bufferBytes, ExpectedAdvance(elapsed))), periodBytes)
  }

  /** The estimate is less than half a ring above the true advance, and no more than half a ring below it
      unless no whole revolution was lost. */
  predicate CloseEnough(expected: nat, advance: nat, bufferBytes: nat) {
    && (advance < bufferBytes || advance <= expected + bufferBytes / 2)
    && expected < advance + (bufferBytes - bufferBytes / 2)
  }

  lemma ModuloOfAdvance(position: nat, advance: nat, bufferBytes: nat)
    requires bufferBytes > 0
    ensures ModuloAdvance(position % bufferBytes, (position + advance) % bufferBytes, bufferBytes) == advance % bufferBytes
  {
    var last, m := position % bufferBytes, advance % bufferBytes;
    var q := position / bufferBytes + advance / bufferBytes;
    assert position == bufferBytes * (position / bufferBytes) + last;
    assert advance == bufferBytes * (advance / bufferBytes) + m;
    assert bufferBytes * q == bufferBytes * (position / bufferBytes) + bufferBytes * (advance / bufferBytes);
    WholeMultiple(q, last + m, bufferBytes);
    if last + m < bufferBytes {
      QuotientIs(last + m, bufferBytes, 0);
    } else {
      QuotientIs(last + m, bufferBytes, 1);
    }
  }

  lemma QuotientIff(n: nat, d: nat, k: nat)
    requires d > 0
    ensures n / d == k <==> d * k <= n < d * k + d
  {
    if d * k <= n < d * k + d {
      QuotientIs(n, d, k);
    }
  }

  /** Rounding to the nearest revolution; `whole` is the bytes of the r revolutions really made. */
  lemma NearestRevolution(expected: nat, m: nat, r: nat, bufferBytes: nat, whole: nat)
    requires bufferBytes > 0 && expected + bufferBytes <= USIZE_MAX && m < bufferBytes
    requires whole == bufferBytes * r && (r == 0 <==> whole == 0) && (r > 0 ==> whole >= bufferBytes)
    ensures Revolutions(expected, m, bufferBytes) == r <==> CloseEnough(expected, whole + m, bufferBytes)
  {
    if expected > m {
      QuotientIff(expected - m + bufferBytes / 2, bufferBytes, r);
    }
  }

  /** The revolutions of the true advance are selected exactly when the estimate is close enough. */
  lemma RevolutionsExact(expected: nat, advance: nat, bufferBytes: nat)
    requires bufferBytes > 0 && expected + bufferBytes <= USIZE_MAX
    ensures Revolutions(expected, advance % bufferBytes, bufferBytes) == advance / bufferBytes
            <==> CloseEnough(expected, advance, bufferBytes)
  {
    var m, r, whole := Decompose(advance, bufferBytes);
    NearestRevolution(expected, m, r, bufferBytes, whole);
  }

  lemma Decompose(advance: nat, bufferBytes: nat) returns (m: nat, r: nat, whole: nat)
    requires bufferBytes > 0
    ensures m == advance % bufferBytes && r == advance / bufferBytes && m < bufferBytes
    ensures whole == bufferBytes * r == r * bufferBytes && whole + m == advance
    ensures (r == 0 <==> whole == 0) && (r > 0 ==> whole >= bufferBytes)
  {
    m, r := advance % bufferBytes, advance / bufferBytes;
    whole := bufferBytes * r;
    Apart(bufferBytes, r);
  }

  /** The bytes played since the last observation are recovered exactly when the estimate is close enough. */
  lemma AdvanceRecovered(position: nat, advance: nat, bufferBytes: nat, expected: nat)
    requires bufferBytes > 0 && expected + bufferBytes <= USIZE_MAX && advance <= USIZE_MAX
    ensures Advanced(position % bufferBytes, (position + advance) % bufferBytes, bufferBytes, expected) == advance
            <==> CloseEnough(expected, advance, bufferBytes)
  {
    ModuloOfAdvance(position, advance, bufferBytes);
    RevolutionsExact(expected, advance, bufferBytes);
    var m, r, whole := Decompose(advance, bufferBytes);
    var chosen := Revolutions(expected, m, bufferBytes);
    var bytes := ChosenBytes(expected, m, bufferBytes);
    Saturated(bytes);
    Saturated(bytes + m);
    SameMultiple(bufferBytes, chosen, r);
  }

  /** The chosen revolutions never overshoot the estimate by more than half a ring. */
  lemma ChosenBytes(expected: nat, m: nat, bufferBytes: nat) returns (bytes: nat)
    requires bufferBytes > 0 && expected + bufferBytes <= USIZE_MAX && m < bufferBytes
    ensures bytes == Revolutions(expected, m, bufferBytes) * bufferBytes && bytes + m <= USIZE_MAX
  {
    var chosen := Revolutions(expected, m, bufferBytes);
    bytes := chosen * bufferBytes;
    if expected > m {
      Saturated(expected - m + bufferBytes / 2);
      QuotientBelow(expected - m + bufferBytes / 2, bufferBytes, chosen);
    }
  }

  lemma QuotientBelow(n: nat, d: nat, q: nat)
    requires d > 0 && q == Quotient(n, d)
    ensures q * d <= n
  {
    assert n == d * (n / d) + n % d;
  }

  lemma SameMultiple(d: nat, a: nat, b: nat)
    requires d > 0
    ensures a * d == b * d <==> a == b
  {
    Apart(d, a - b);
    assert a * d - b * d == d * (a - b);
  }

  /** Positions in the ring and absolute positions agree modulo a period that divides the ring. */
  lemma PeriodPhase(position: nat, bufferBytes: nat, periodBytes: nat)
    requires periodBytes > 0 && bufferBytes > 0 && bufferBytes % periodBytes == 0
    ensures position % bufferBytes % periodBytes == position % periodBytes
  {
    var c, q, x := bufferBytes / periodBytes, position / bufferBytes, position % bufferBytes;
    assert bufferBytes == periodBytes * c;
    assert position == bufferBytes * q + x;
    assert bufferBytes * q == periodBytes * (c * q);
    WholeMultiple(c * q, x, periodBytes);
  }

  /** One observation reports exactly the period boundaries crossed since the last. */
  lemma PeriodsCrossed(position: nat, advance: nat, bufferBytes: nat, periodBytes: nat, elapsed: nat)
    requires periodBytes > 0 && bufferBytes > 0 && bufferBytes % periodBytes == 0
    requires CloseEnough(ExpectedAdvance(elapsed), advance, bufferBytes)
    requires ExpectedAdvance(elapsed) + bufferBytes <= USIZE_MAX && advance + periodBytes <= USIZE_MAX
    ensures CompletedPeriods(position % bufferBytes, (position + advance) % bufferBytes, bufferBytes, periodBytes, elapsed)
         == (position + advance) / periodBytes - position / periodBytes
  {
    AdvanceRecovered(position, advance, bufferBytes, ExpectedAdvance(elapsed));
    PeriodPhase(position, bufferBytes, periodBytes);
    BoundariesCrossed(position, advance, periodBytes);
  }

  lemma BoundariesCrossed(position: nat, advance: nat, periodBytes: nat)
    requires periodBytes > 0
    ensures (position % periodBytes + advance) / periodBytes == (position + advance) / periodBytes - position / periodBytes
  {
    var q, phase := position / periodBytes, position % periodBytes;
    assert position == periodBytes * q + phase;
    WholeMultiple(q, phase + advance, periodBytes);
  }

  // ---- runs of observations ------------------------------------------------------------------------------------------

  datatype Observation = Observation(advance: nat, elapsed: nat)

  function Played(position: nat, run: seq<Observation>): nat {
    if run == [] then position else Played(position, run[..|run| - 1]) + run[|run| - 1].advance
  }

  /** Completions reported over a run that starts at an absolute position. */
  function TotalCompleted(position: nat, run: seq<Observation>, bufferBytes: nat, periodBytes: nat): nat
    requires bufferBytes > 0
  {
    if run == [] then 0
    else
      var front, last := run[..|run| - 1], run[|run| - 1];
      var at := Played(position, front);
      TotalCompleted(position, front, bufferBytes, periodBytes)
      + CompletedPeriods(at % bufferBytes, (at + last.advance) % bufferBytes, bufferBytes, periodBytes, last.elapsed)
  }

  /** Each elapsed-time estimate is within half a ring of what was really played. */
  predicate Timely(o: Observation, bufferBytes: nat, periodBytes: nat) {
    && CloseEnough(ExpectedAdvance(o.elapsed), o.advance, bufferBytes)
    && ExpectedAdvance(o.elapsed) + bufferBytes <= USIZE_MAX && o.advance + periodBytes <= USIZE_MAX
  }

  /** No drift: over any run, across any number of wraps and lost revolutions, the completions reported are
      exactly the whole periods played. */
  lemma {:induction false} CompletionsNeverDrift(position: nat, run: seq<Observation>, bufferBytes: nat, periodBytes: nat)
    requires periodBytes > 0 && bufferBytes > 0 && bufferBytes % periodBytes == 0
    requires forall i | 0 <= i < |run| :: Timely(run[i], bufferBytes, periodBytes)
    ensures TotalCompleted(position, run, bufferBytes, periodBytes)
         == Played(position, run) / periodBytes - position / periodBytes
  {
    if run != [] {
      CompletionsNeverDrift(position, run[..|run| - 1], bufferBytes, periodBytes);
      OneMore(position, run, bufferBytes, periodBytes);
    }
  }

  /** The last observation of a run adds exactly the boundaries it crossed. */
  lemma OneMore(position: nat, run: seq<Observation>, bufferBytes: nat, periodBytes: nat)
    requires periodBytes > 0 && bufferBytes > 0 && bufferBytes % periodBytes == 0
    requires run != [] && Timely(run[|run| - 1], bufferBytes, periodBytes)
    ensures TotalCompleted(position, run, bufferBytes, periodBytes) - TotalCompleted(position, run[..|run| - 1], bufferBytes, periodBytes)
         == Played(position, run) / periodBytes - Played(position, run[..|run| - 1]) / periodBytes
  {
    var last := run[|run| - 1];
    PeriodsCrossed(Played(position, run[..|run| - 1]), last.advance, bufferBytes, periodBytes, last.elapsed);
  }

  /** When the period does not divide the ring, a wrap loses the phase.  Here a ring of 320 frames with periods
      of 256 frames, which the driver accepts, plays 192 frames in the four milliseconds they take: they cross
      a period boundary that is never reported. */
  lemma UnevenRingDrifts()
    ensures Configurable(1280, 1024) && Timely(Observation(768, 4_000_000), 1280, 1024)
    ensures TotalCompleted(1280, [Observation(768, 4_000_000)], 1280, 1024) == 0
    ensures Played(1280, [Observation(768, 4_000_000)]) / 1024 - 1280 / 1024 == 1
  {
    FourMilliseconds();
    WrapLosesPhase(1280, 1024, 4_000_000);
  }

  lemma FourMilliseconds()
    ensures ExpectedAdvance(4_000_000) == 768
  {
  }

  /** The rings and periods of four-byte frames that the driver advertises and programs. */
  predicate Configurable(bufferBytes: nat, periodBytes: nat) {
    && bufferBytes % 4 == 0 && periodBytes % 4 == 0
    && 256 <= bufferBytes / 4 <= 65_536 && 64 <= periodBytes / 4 <= 8_192
  }

  /** At a wrap of any ring that its period does not divide, the next boundary is crossed unreported. */
  lemma WrapLosesPhase(bufferBytes: nat, periodBytes: nat, elapsed: nat)
    requires 0 < periodBytes <= bufferBytes && bufferBytes + periodBytes <= USIZE_MAX && bufferBytes % periodBytes != 0
    requires Timely(Observation(periodBytes - bufferBytes % periodBytes, elapsed), bufferBytes, periodBytes)
    ensures var o := Observation(periodBytes - bufferBytes % periodBytes, elapsed);
            && TotalCompleted(bufferBytes, [o], bufferBytes, periodBytes) == 0
            && Played(bufferBytes, [o]) / periodBytes - bufferBytes / periodBytes == 1
  {
    var advance := periodBytes - bufferBytes % periodBytes;
    FirstBytesReportNothing(advance, bufferBytes, periodBytes, elapsed);
    OneObservation(bufferBytes, Observation(advance, elapsed), bufferBytes, periodBytes);
    NextBoundary(bufferBytes, periodBytes, advance);
  }

  lemma OneObservation(position: nat, o: Observation, bufferBytes: nat, periodBytes: nat)
    requires bufferBytes > 0
    ensures Played(position, [o]) == position + o.advance
    ensures TotalCompleted(position, [o], bufferBytes, periodBytes)
         == CompletedPeriods(position % bufferBytes, (position + o.advance) % bufferBytes, bufferBytes, periodBytes, o.elapsed)
  {
    var run := [o];
    assert run[..0] == [] && Played(position, run[..0]) == position;
    assert TotalCompleted(position, run[..0], bufferBytes, periodBytes) == 0;
  }

  /** A period longer than the ring is never reported complete. */
  lemma LongPeriodIsLost(bufferBytes: nat, periodBytes: nat) returns (o: Observation)
    requires 0 < bufferBytes < periodBytes && bufferBytes + periodBytes <= USIZE_MAX
    ensures Timely(o, bufferBytes, periodBytes) && TotalCompleted(periodBytes - 1, [o], bufferBytes, periodBytes) == 0
    ensures Played(periodBytes - 1, [o]) / periodBytes - (periodBytes - 1) / periodBytes == 1
  {
    o := TimelyByte(bufferBytes, periodBytes);
    OneObservation(periodBytes - 1, o, bufferBytes, periodBytes);
    AdvanceRecovered(periodBytes - 1, 1, bufferBytes, ExpectedAdvance(o.elapsed));
    OneByteTooFew((periodBytes - 1) % bufferBytes, periodBytes % bufferBytes, bufferBytes, periodBytes, o.elapsed);
    LastByte(periodBytes);
  }

  lemma TimelyByte(bufferBytes: nat, periodBytes: nat) returns (o: Observation)
    requires 0 < bufferBytes < periodBytes && bufferBytes + periodBytes <= USIZE_MAX
    ensures o.advance == 1 && Timely(o, bufferBytes, periodBytes)
  {
    o := Observation(1, if bufferBytes == 1 then 5209 else 0);
    assert ExpectedAdvance(5209) == 1 && ExpectedAdvance(0) == 0;
  }

  lemma LastByte(periodBytes: nat)
    requires periodBytes > 0
    ensures (periodBytes - 1) / periodBytes == 0 && periodBytes / periodBytes == 1
  {
    QuotientIs(periodBytes - 1, periodBytes, 0);
    QuotientIs(periodBytes, periodBytes, 1);
  }

  lemma OneByteTooFew(last: nat, current: nat, bufferBytes: nat, periodBytes: nat, elapsed: nat)
    requires last < bufferBytes < periodBytes <= USIZE_MAX
    requires Advanced(last, current, bufferBytes, ExpectedAdvance(elapsed)) == 1
    ensures CompletedPeriods(last, current, bufferBytes, periodBytes, elapsed) == 0
  {
    QuotientIs(last, periodBytes, 0);
    QuotientIs(last + 1, periodBytes, 0);
    Saturated(last + 1);
  }

  lemma FirstBytesReportNothing(advance: nat, bufferBytes: nat, periodBytes: nat, elapsed: nat)
    requires 0 < advance < periodBytes <= bufferBytes <= USIZE_MAX && Timely(Observation(advance, elapsed), bufferBytes, periodBytes)
    ensures CompletedPeriods(bufferBytes % bufferBytes, (bufferBytes + advance) % bufferBytes, bufferBytes, periodBytes, elapsed) == 0
  {
    AdvanceRecovered(bufferBytes, advance, bufferBytes, ExpectedAdvance(elapsed));
    QuotientIs(bufferBytes, bufferBytes, 1);
    QuotientIs(bufferBytes + advance, bufferBytes, 1);
    QuotientIs(0, periodBytes, 0);
    QuotientIs(advance, periodBytes, 0);
    Saturated(advance);
  }

  lemma NextBoundary(position: nat, periodBytes: nat, advance: nat)
    requires periodBytes > 0 && advance == periodBytes - position % periodBytes
    ensures (position + advance) / periodBytes - position / periodBytes == 1
  {
    BoundariesCrossed(position, advance, periodBytes);
    QuotientIs(periodBytes, periodBytes, 1);
  }

  predicate AllTimely(run: seq<Observation>, bufferBytes: nat, periodBytes: nat) {
    forall i | 0 <= i < |run| :: Timely(run[i], bufferBytes, periodBytes)
  }

  predicate Reported(position: nat, run: seq<Observation>, bufferBytes: nat, periodBytes: nat)
    requires bufferBytes > 0 && periodBytes > 0
  {
    TotalCompleted(position, run, bufferBytes, periodBytes) == Played(position, run) / periodBytes - position / periodBytes
  }

  /** A ring never drifts exactly when the period divides it. */
  lemma NeverDriftsIff(bufferBytes: nat, periodBytes: nat)
    requires 0 < periodBytes && 0 < bufferBytes && bufferBytes + periodBytes <= USIZE_MAX
    ensures (forall position: nat, run | AllTimely(run, bufferBytes, periodBytes) :: Reported(position, run, bufferBytes, periodBytes))
            <==> bufferBytes % periodBytes == 0
  {
    if bufferBytes % periodBytes == 0 {
      forall position: nat, run | AllTimely(run, bufferBytes, periodBytes)
        ensures Reported(position, run, bufferBytes, periodBytes)
      {
        CompletionsNeverDrift(position, run, bufferBytes, periodBytes);
      }
    } else if bufferBytes < periodBytes {
      var o := LongPeriodIsLost(bufferBytes, periodBytes);
      assert AllTimely([o], bufferBytes, periodBytes) && !Reported(periodBytes - 1, [o], bufferBytes, periodBytes);
    } else {
      var run := [Observation(periodBytes - bufferBytes % periodBytes, 0)];
      assert ExpectedAdvance(0) == 0;
      WrapLosesPhase(bufferBytes, periodBytes, 0);
      assert AllTimely(run, bufferBytes, periodBytes) && !Reported(bufferBytes, run, bufferBytes, periodBytes);
    }
  }

  // ---- the period queue ------------------------------------------------------------------------------------------------

  class Stream {
    const bufferBytes: nat
    const periodBytes: nat
    const dmaAddress: nat
    var lastOffset: nat
    var lastPosition: nat
    var queued: nat
    var running: bool
    var faultCompletions: nat
    ghost var submitted: nat
    ghost var completed: nat
    ghost var played: nat     // bytes played between the start and the last observation taken

    ghost predicate Valid()
      reads this
    {
      && periodBytes > 0 && queued <= bufferBytes / periodBytes && (lastOffset < bufferBytes || lastOffset == 0)
      && (running ==> submitted == completed + queued)
    }

    /** Completions are exactly the periods played. */
    ghost predicate InStep()
      reads this
      requires Valid()
    {
      bufferBytes > 0 && lastOffset == played % bufferBytes && completed == played / periodBytes
    }

    constructor (bufferBytes: nat, periodBytes: nat, dmaAddress: nat)
      requires periodBytes > 0
      ensures Valid() && !running && queued == 0 && faultCompletions == 0
      ensures this.bufferBytes == bufferBytes && this.periodBytes == periodBytes
    {
      this.bufferBytes, this.periodBytes, this.dmaAddress := bufferBytes, periodBytes, dmaAddress;
      lastOffset, lastPosition, queued, running, faultCompletions := 0, 0, 0, false, 0;
      submitted, completed, played := 0, 0, 0;
    }

    /** Playback starts at the beginning of the ring, and only with something queued. */
    method Start(now: nat) returns (ok: bool)
      requires Valid()
      modifies this
      ensures Valid() && queued == old(queued)
      ensures ok <==> old(running) || old(queued) > 0
      ensures running <==> ok
      ensures !old(running) && ok ==>
                && lastOffset == 0 && lastPosition == now && faultCompletions == 0 && submitted == queued
                && completed == 0 && played == 0 && InStep()
      ensures old(running) ==>
                && submitted == old(submitted) && completed == old(completed) && played == old(played)
                && lastOffset == old(lastOffset) && lastPosition == old(lastPosition)
    {
      if running {
        return true;
      }
      if queued == 0 {
        return false;
      }
      faultCompletions, lastOffset, lastPosition, running := 0, 0, now, true;
      submitted, completed, played := queued, 0, 0;
      assert queued > 0 && 0 / periodBytes == 0;
      ok := true;
    }

    method Stop()
      requires Valid()
      modifies this
      ensures Valid() && !running && queued == 0 && faultCompletions == 0
    {
      running, queued, lastPosition, faultCompletions := false, 0, 0, 0;
    }

    /** A fault stops the stream and will be reported as one completion more than were queued, which the
        consumer must take for an underrun. */
    method HandleStreamError()
      requires Valid()
      modifies this
      ensures Valid() && !running && queued == 0 && faultCompletions == old(queued) + 1
    {
      faultCompletions := queued + 1;
      running, queued := false, 0;
    }

    /** Queues one period; refused when it is malformed or the ring is full. */
    method SubmitPeriod(byteOffset: nat, byteLength: nat) returns (ok: bool)
      requires Valid()
      modifies this
      ensures Valid()
      ensures ok <==> byteLength == periodBytes && byteOffset + byteLength <= bufferBytes && byteOffset % periodBytes == 0
                      && old(queued) < bufferBytes / periodBytes
      ensures queued == old(queued) + (if ok then 1 else 0) && submitted == old(submitted) + (if ok then 1 else 0)
      ensures running == old(running) && completed == old(completed) && played == old(played)
      ensures lastOffset == old(lastOffset) && lastPosition == old(lastPosition)
      ensures faultCompletions == old(faultCompletions)
    {
      if byteLength != periodBytes || byteOffset + byteLength > bufferBytes || byteOffset % periodBytes != 0 {
        return false;
      }
      var capacity := bufferBytes / periodBytes;
      if capacity == 0 || queued >= capacity {
        return false;
      }
      queued := queued + 1;
      submitted := submitted + 1;
      ok := true;
    }

    function Elapsed(now: nat): nat
      reads this
    {
      if now < lastPosition then 0 else now - lastPosition
    }

    /** An observation that tells the truth: the DMA has advanced so many bytes since the last one taken,
        and the clock is within half a ring of that. */
    ghost predicate Truthful(now: nat, current: nat, advance: nat)
      reads this
    {
      && bufferBytes > 0 && current == dmaAddress + (played + advance) % bufferBytes
      && Timely(Observation(advance, Elapsed(now)), bufferBytes, periodBytes)
    }

    /** Takes one observation.  Reported periods leave the queue one for one; reporting more than are queued
        is an underrun, which empties the queue and stops the stream.  If the period divides the ring,
        truthful observations keep the completions in step with what was played. */
    method ProcessCompletions(now: nat, current: nat, ghost advance: nat) returns (count: nat)
      requires Valid()
      modifies this
      ensures Valid() && submitted == old(submitted) && faultCompletions == 0
      ensures old(faultCompletions) != 0 ==> count == old(faultCompletions) && queued == old(queued) && running == old(running)
      ensures old(faultCompletions) == 0 && old(running) ==>
                match RingOffset(dmaAddress, bufferBytes, current)
                case None => count == 0 && lastOffset == old(lastOffset)
                case Some(offset) =>
                  && lastOffset == offset
                  && count == CompletedPeriods(old(lastOffset), offset, bufferBytes, periodBytes, old(Elapsed(now)))
      ensures old(faultCompletions) == 0 && old(running) ==>
                && completed == old(completed) + count && queued == (if running then old(queued) - count else 0)
                && (running <==> count <= old(queued))
      ensures old(faultCompletions) == 0 && !old(running) ==> count == 0 && !running && queued == old(queued)
      ensures if old(faultCompletions) == 0 && old(running) && RingOffset(dmaAddress, bufferBytes, current).Some?
              then lastPosition == now && played == old(played) + advance
              else lastPosition == old(lastPosition) && played == old(played) && completed == old(completed)
                   && lastOffset == old(lastOffset)
      ensures bufferBytes % periodBytes == 0 && old(InStep() && Truthful(now, current, advance)) ==> InStep()
    {
      var forced := faultCompletions;
      faultCompletions := 0;
      if forced != 0 {
        return forced;
      }
      if !running {
        return 0;
      }
      var offset := RingOffset(dmaAddress, bufferBytes, current);
      if offset.None? {
        return 0;
      }
      if bufferBytes % periodBytes == 0 && InStep() && Truthful(now, current, advance) {
        PeriodsCrossed(played, advance, bufferBytes, periodBytes, Elapsed(now));
      }
      count := CompletedPeriods(lastOffset, offset.value, bufferBytes, periodBytes, Elapsed(now));
      lastOffset, lastPosition := offset.value, now;
      completed, played := completed + count, played + advance;
      if count > queued {
        queued := 0;
        running := false;
      } else {
        queued := queued - count;
      }
    }
  }

  // ---- a whole playback ------------------------------------------------------------------------------------------------

  datatype Event = Submit(byteOffset: nat, byteLength: nat) | Observe(now: nat, current: nat, advance: nat)

  /** Observations from a position and a time on, all truthful. */
  predicate AllTruthful(events: seq<Event>, at: nat, since: nat, dmaAddress: nat, bufferBytes: nat, periodBytes: nat)
    requires bufferBytes > 0
  {
    events == [] ||
    (&& Truth(events[0], at, since, dmaAddress, bufferBytes, periodBytes)
     && match events[0]
        case Submit(_, _) => AllTruthful(events[1..], at, since, dmaAddress, bufferBytes, periodBytes)
        case Observe(now, _, advance) => AllTruthful(events[1..], at + advance, now, dmaAddress, bufferBytes, periodBytes))
  }

  function TotalAdvance(events: seq<Event>): nat {
    if events == [] then 0 else TotalAdvance(events[1..]) + if events[0].Observe? then events[0].advance else 0
  }

  /** What a playback that never loses count would have on its books. */
  datatype Account = Account(queued: nat, submitted: nat, played: nat, running: bool)

  /** The whole periods that end while `advance` more bytes are played. */
  function Ended(played: nat, advance: nat, periodBytes: nat): nat
    requires periodBytes > 0
  {
    BoundariesCrossed(played, advance, periodBytes);
    (played + advance) / periodBytes - played / periodBytes
  }

  /** A well-formed period is taken while there is room; played periods leave the queue; playing more than
      was queued stops it. */
  function Ideal(a: Account, e: Event, bufferBytes: nat, periodBytes: nat): Account
    requires periodBytes > 0
  {
    if !a.running then a
    else match e
      case Submit(offset, length) =>
        if length == periodBytes && offset + length <= bufferBytes && offset % periodBytes == 0 && a.queued < bufferBytes / periodBytes
        then a.(queued := a.queued + 1, submitted := a.submitted + 1) else a
      case Observe(_, _, advance) =>
        var count := Ended(a.played, advance, periodBytes);
        if count > a.queued then Account(0, a.submitted, a.played + advance, false)
        else a.(queued := a.queued - count, played := a.played + advance)
  }

  function IdealAll(a: Account, events: seq<Event>, bufferBytes: nat, periodBytes: nat): Account
    requires periodBytes > 0
    decreases |events|
  {
    if events == [] then a else IdealAll(Ideal(a, events[0], bufferBytes, periodBytes), events[1..], bufferBytes, periodBytes)
  }

  lemma {:induction false} StoppedStays(a: Account, events: seq<Event>, bufferBytes: nat, periodBytes: nat)
    requires periodBytes > 0 && !a.running
    ensures IdealAll(a, events, bufferBytes, periodBytes) == a
  {
    if events != [] {
      StoppedStays(a, events[1..], bufferBytes, periodBytes);
    }
  }

  ghost function Books(s: Stream): Account
    reads s
  {
    Account(s.queued, s.submitted, s.played, s.running)
  }

  predicate Truth(e: Event, at: nat, since: nat, dmaAddress: nat, bufferBytes: nat, periodBytes: nat)
    requires bufferBytes > 0
  {
    e.Observe? ==>
      && e.current == dmaAddress + (at + e.advance) % bufferBytes
      && Timely(Observation(e.advance, if e.now < since then 0 else e.now - since), bufferBytes, periodBytes)
  }

  /** One submission or truthful observation does to a running stream what it does to the ideal account. */
  method Handle(s: Stream, e: Event)
    requires s.Valid() && s.running && s.InStep() && s.faultCompletions == 0 && s.bufferBytes % s.periodBytes == 0
    requires Truth(e, s.played, s.lastPosition, s.dmaAddress, s.bufferBytes, s.periodBytes)
    modifies s
    ensures s.Valid() && s.InStep() && s.faultCompletions == 0
    ensures Books(s) == Ideal(old(Books(s)), e, s.bufferBytes, s.periodBytes)
    ensures s.lastPosition == if e.Observe? then e.now else old(s.lastPosition)
    ensures s.played == old(s.played) + if e.Observe? then e.advance else 0
    ensures !s.running ==> s.completed > s.submitted && s.queued == 0
  {
    match e {
      case Submit(offset, length) =>
        var ok := s.SubmitPeriod(offset, length);
      case Observe(now, current, advance) =>
        var count := s.ProcessCompletions(now, current, advance);
    }
  }

  /** From the start of playback, through any submissions and truthful observations, the queue, the accepted
      submissions and the bytes played are exactly those of the ideal account, and the completions are exactly
      the periods played; the stream stops only when more has been played than was submitted. */
  method Play(s: Stream, now: nat, events: seq<Event>)
    requires s.Valid() && !s.running && s.queued > 0 && s.bufferBytes > 0 && s.bufferBytes % s.periodBytes == 0
    requires AllTruthful(events, 0, now, s.dmaAddress, s.bufferBytes, s.periodBytes)
    modifies s
    ensures s.Valid() && s.completed == s.played / s.periodBytes
    ensures Books(s) == IdealAll(Account(old(s.queued), old(s.queued), 0, true), events, s.bufferBytes, s.periodBytes)
    ensures s.running ==> s.played == TotalAdvance(events) && s.queued == s.submitted - s.completed
    ensures !s.running ==> s.completed > s.submitted && s.queued == 0
  {
    var ok := s.Start(now);
    var i := 0;
    ghost var all := IdealAll(Books(s), events, s.bufferBytes, s.periodBytes);
    assert events[0..] == events;
    while i < |events| && s.running
      invariant 0 <= i <= |events| && s.Valid() && s.InStep() && s.faultCompletions == 0
      invariant AllTruthful(events[i..], s.played, s.lastPosition, s.dmaAddress, s.bufferBytes, s.periodBytes)
      invariant s.played + TotalAdvance(events[i..]) == TotalAdvance(events)
      invariant !s.running ==> s.completed > s.submitted && s.queued == 0
      invariant IdealAll(Books(s), events[i..], s.bufferBytes, s.periodBytes) == all
    {
      ghost var rest := events[i..];
      assert rest[0] == events[i] && rest[1..] == events[i + 1..];
      Handle(s, events[i]);
      i := i + 1;
    }
    if !s.running {
      StoppedStays(Books(s), events[i..], s.bufferBytes, s.periodBytes);
    }
  }
}
