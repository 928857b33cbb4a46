/** What the engines of the GPU are told to do: each draw and each two-dimensional operation of a command
    stream, with the state it sees. */
module Acts {
  import opened Wrappers
  import opened Sequences
  import opened Commands
  import opened DrawDelta
  import opened Transfers

  /** An engine packet: its operands, and the state in force at it. */
  datatype Act = Act(opcode: nat, state: iset<(Key, Value)>, fields: seq<Field>)

  predicate IsAct(c: Command) { c.Run? && (c.opcode == CP_DRAW_INDX_OFFSET || c.opcode == BLIT) }

  /** The acts of `cs` behind `p`, in order. */
  ghost function ActsFrom(p: seq<Command>, cs: seq<Command>): seq<Act> {
    if cs == [] then []
    else
      var front, last := cs[..|cs| - 1], cs[|cs| - 1];
      ActsFrom(p, front) + if IsAct(last) then [Act(last.opcode, StateAfter(p + front), last.fields)] else []
  }

  lemma ActsSnoc(p: seq<Command>, cs: seq<Command>, c: Command)
    ensures ActsFrom(p, cs + [c]) == ActsFrom(p, cs) + if IsAct(c) then [Act(c.opcode, StateAfter(p + cs), c.fields)] else []
  {
    assert (cs + [c])[..|cs|] == cs;
  }

  lemma {:induction false} ActsConcat(p: seq<Command>, a: seq<Command>, b: seq<Command>)
    ensures ActsFrom(p, a + b) == ActsFrom(p, a) + ActsFrom(p + a, b)
  {
    if b == [] {
      assert a + b == a;
    } else {
      var front, last := b[..|b| - 1], b[|b| - 1];
      var tail := if IsAct(last) then [Act(last.opcode, StateAfter(p + (a + front)), last.fields)] else [];
      calc {
        ActsFrom(p, a + b);
        { SnocConcat(a, b); ActsSnoc(p, a + front, last); }
        ActsFrom(p, a + front) + tail;
        { ActsConcat(p, a, front); Assoc(ActsFrom(p, a), ActsFrom(p + a, front), tail); }
        ActsFrom(p, a) + (ActsFrom(p + a, front) + tail);
        { Assoc(p, a, front); }
        ActsFrom(p, a) + ActsFrom(p + a, b);
      }
    }
  }

  ghost predicate NoActs(cs: seq<Command>) {
    forall k | 0 <= k < |cs| :: !IsAct(cs[k])
  }

  lemma {:induction false} ActsNone(p: seq<Command>, cs: seq<Command>)
    requires NoActs(cs)
    ensures ActsFrom(p, cs) == []
  {
    if cs != [] {
      ActsNone(p, cs[..|cs| - 1]);
    }
  }

  /** Acts in the middle of commands that are none. */
  lemma ActsBetween(p: seq<Command>, a: seq<Command>, b: seq<Command>, c: seq<Command>)
    requires NoActs(a) && NoActs(c)
    ensures ActsFrom(p, a + b + c) == ActsFrom(p + a, b)
  {
    ActsConcat(p, a + b, c);
    ActsConcat(p, a, b);
    ActsNone(p, a);
    ActsNone(p + (a + b), c);
  }

  /** At the act, whatever `own` sets has the value that `own` gives it. */
  ghost predicate Shows(a: Act, own: seq<Command>, call: Command) {
    && call.Run? && a.opcode == call.opcode && a.fields == call.fields
    && forall k, v | Final(own, k).Some? :: (k, v) in a.state <==> Final(own, k) == Some(v)
  }

  lemma StateShows(p: seq<Command>, own: seq<Command>, seen: seq<Command>, call: Command)
    requires call.Run? && Agree(seen, p + own)
    ensures Shows(Act(call.opcode, StateAfter(seen), call.fields), own, call)
  {
    forall k, v | Final(own, k).Some?
      ensures (k, v) in StateAfter(seen) <==> Final(own, k) == Some(v)
    {
      FinalConcat(p, own, k);
    }
  }

  lemma RunsSetNothing(cs: seq<Command>, c: Command)
    requires c.Run?
    ensures Agree(cs + [c], cs)
  {
    assert (cs + [c])[..|cs|] == cs;
  }

  function BlitCall(): Command { Run(BLIT, [Val(3)]) }

  /** A state and the packet that runs it: one act, which sees that state. */
  lemma OneBlit(p: seq<Command>, s: seq<Command>) returns (a: Act)
    requires NoActs(s)
    ensures ActsFrom(p, s + RunBlit()) == [a] && Shows(a, s + RunBlit(), BlitCall())
  {
    var wait := Run(WAIT_FOR_IDLE, []);
    var before := s + [wait];
    var through := before + [BlitCall()];
    assert s + RunBlit() == through + [wait];
    a := Act(BLIT, StateAfter(p + before), [Val(3)]);
    ActsNone(p, s);
    ActsSnoc(p, s, wait);
    ActsSnoc(p, before, BlitCall());
    ActsSnoc(p, through, wait);
    RunsSetNothing(s, wait);
    RunsSetNothing(before, BlitCall());
    RunsSetNothing(through, wait);
    AgreeBehind(p, s + RunBlit(), before);
    StateShows(p, s + RunBlit(), p + before, BlitCall());
  }

  lemma AgreeBehind(p: seq<Command>, a: seq<Command>, b: seq<Command>)
    requires Agree(a, b)
    ensures Agree(p + b, p + a)
  {
    forall k
      ensures Final(p + b, k) == Final(p + a, k)
    {
      FinalConcat(p, a, k);
      FinalConcat(p, b, k);
    }
  }
}
