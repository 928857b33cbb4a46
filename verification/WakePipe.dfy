/** The coalesced wake byte between submitting threads and the queue worker.

    Publishing work (admitting a job, or closing the queue) is followed by a notification: swap the
    flag, and write one byte only if it was clear.  The worker polls the pipe without blocking, reads
    the byte and clears the flag if there was one, looks at the queue, and sleeps on the pipe if it
    found nothing to do.  Steps of different threads interleave arbitrarily. */
module WakePipe {
  type Thread = nat

  /** Where the worker is in its loop. */
  datatype Worker = Polling | Reading | Clearing | Looking | Sleeping | Exited

  /** `unseen` holds the publications the worker has not looked at yet; `notifying` the threads that
      have published and not yet swapped the flag, `writing` those that won the swap and still owe
      the byte. */
  datatype State = State(
    signalled: bool, pipe: nat, unseen: set<Thread>, notifying: set<Thread>, writing: set<Thread>, worker: Worker)

  const INITIAL := State(false, 0, {}, {}, {}, Polling)

  datatype Step =
    | Publish(thread: Thread)
    | Swap(thread: Thread)
    | Write(thread: Thread)
    | PollPipe
    | ReadByte
    | ClearFlag
    | Look(again: bool, exits: bool)   // sees everything published, then loops, sleeps or exits
    | WakeUp                           // the pipe, a fence or a timeout ends the sleep

  predicate Enabled(s: State, step: Step) {
    match step
    case Publish(t) => t !in s.notifying && t !in s.writing
    case Swap(t) => t in s.notifying
    case Write(t) => t in s.writing
    case PollPipe => s.worker.Polling?
    case ReadByte => s.worker.Reading? && s.pipe > 0
    case ClearFlag => s.worker.Clearing?
    case Look(_, _) => s.worker.Looking?
    case WakeUp => s.worker.Sleeping?
  }

  function Apply(s: State, step: Step): State
    requires Enabled(s, step)
  {
    match step
    case Publish(t) => s.(unseen := s.unseen + {t}, notifying := s.notifying + {t})
    case Swap(t) =>
      var left := s.(notifying := s.notifying - {t}, signalled := true);
      if s.signalled then left else left.(writing := s.writing + {t})
    case Write(t) => s.(writing := s.writing - {t}, pipe := s.pipe + 1)
    case PollPipe => s.(worker := if s.pipe > 0 then Reading else Looking)
    case ReadByte => s.(pipe := s.pipe - 1, worker := Clearing)
    case ClearFlag => s.(signalled := false, worker := Looking)
    case Look(again, exits) => s.(unseen := {}, worker := if exits then Exited else if again then Polling else Sleeping)
    case WakeUp => s.(worker := Polling)
  }

  ghost predicate IsRun(steps: seq<Step>)
    decreases |steps|, 0
  {
    steps == [] || (IsRun(steps[..|steps| - 1]) && Enabled(After(steps[..|steps| - 1]), steps[|steps| - 1]))
  }

  ghost function After(steps: seq<Step>): State
    requires IsRun(steps)
    decreases |steps|, 1
  {
    if steps == [] then INITIAL else Apply(After(steps[..|steps| - 1]), steps[|steps| - 1])
  }

  function One(b: bool): nat { if b then 1 else 0 }

  /** The raised flag is always accounted for exactly once: by the byte in the pipe, by the thread
      that owes it, or by the worker that has read it and not cleared the flag yet.  An unseen
      publication still has a notifier before its swap, a raised flag, or a worker about to look. */
  predicate Accounted(s: State) {
    && s.pipe + |s.writing| + One(s.worker.Clearing?) == One(s.signalled)
    && (s.worker.Reading? ==> s.pipe > 0)
    && (s.unseen != {} ==> s.notifying != {} || s.signalled || s.worker.Looking? || s.worker.Exited?)
  }

  lemma StepKeepsAccount(s: State, step: Step)
    requires Accounted(s) && Enabled(s, step)
    ensures Accounted(Apply(s, step))
  {
    if step.Swap? && !s.signalled {
      assert s.writing == {};
      assert s.writing + {step.thread} == {step.thread};
    }
    if step.Write? {
      assert |s.writing - {step.thread}| == |s.writing| - 1;
    }
  }

  lemma {:induction false} RunKeepsAccount(steps: seq<Step>)
    requires IsRun(steps)
    ensures Accounted(After(steps))
  {
    if steps != [] {
      RunKeepsAccount(steps[..|steps| - 1]);
      StepKeepsAccount(After(steps[..|steps| - 1]), steps[|steps| - 1]);
    }
  }

  /** No lost wake: if the worker sleeps on an empty pipe while something published is unseen, some
      thread is still in the middle of notifying; and once none is, the byte is there.  The pipe
      never holds more than one byte, so a notifier can never block on it. */
  lemma NoLostWake(steps: seq<Step>)
    requires IsRun(steps)
    ensures var s := After(steps);
            && s.pipe <= 1 && |s.writing| <= 1
            && (s.worker.Sleeping? && s.unseen != {} && s.pipe == 0 ==> s.notifying != {} || s.writing != {})
            && (s.worker.Sleeping? && s.unseen != {} && s.notifying == {} && s.writing == {} ==> s.pipe == 1)
  {
    RunKeepsAccount(steps);
  }

  /** The worker's read never blocks: it reads only after seeing the byte that it alone consumes. */
  lemma ReadNeverBlocks(steps: seq<Step>)
    requires IsRun(steps) && After(steps).worker.Reading?
    ensures Enabled(After(steps), ReadByte)
  {
    RunKeepsAccount(steps);
  }
}
