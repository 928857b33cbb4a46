/** The emitter: words, fixups and the access table grow in step, and finish into one stream. */
module Emitters {
  import opened Wrappers
  import opened Arith
  import opened WireFormat
  import opened Sequences
  import opened Accesses
  import opened Authority
  import opened Pm4
  import opened Stream
  import opened Commands
  import opened WireTranslation
  import opened Images
  import W = SubmitWire

  /** One stream under construction. */
  ghost predicate Emits(words: seq<u32>, fixups: seq<Fixup>, cs: seq<Code>) {
    |cs| <= 0x1_0000_0000 && words == Words(cs) && fixups == Fixups(cs, 0)
  }

  /** An access can be recorded unless its end overflows; programs are never recorded. */
  predicate Recordable(ref: Address) {
    ref.target.CanonicalShader? || ref.offset + ref.size < U64_LIMIT
  }

  predicate AllRecordable(p: Packet) { RecordableUpTo(p, |p|) }

  predicate RecordableUpTo(p: Packet, n: nat)
    requires n <= |p|
  {
    forall i | 0 <= i < n && p[i].Low? :: Recordable(p[i].ref)
  }

  lemma RecordableNext(p: Packet, n: nat)
    requires n < |p| && RecordableUpTo(p, n) && (p[n].Low? ==> Recordable(p[n].ref))
    ensures RecordableUpTo(p, n + 1)
  {
  }

  /** A packet the emitter takes if there is room for it. */
  predicate Acceptable(p: Packet)
    requires HeadFirst(p)
  {
    Representable(p[0].header) && AllRecordable(p)
  }

  /** All commands can be emitted, and fit in a budget. */
  predicate Emittable(cs: seq<Command>, budget: nat) {
    AllAcceptable(cs) && |Flatten(LowerAll(cs))| <= budget
  }

  predicate AllAcceptable(cs: seq<Command>) {
    forall i | 0 <= i < |cs| :: Takes(cs[i])
  }

  predicate Takes(c: Command) {
    HeadFirst(Lower(c)) && Acceptable(Lower(c))
  }

  /** The words are exactly the packets and parse as them; the placeholders are sorted, disjoint and
      each inside one payload; and the accesses are exactly those the fixups need. */
  ghost predicate StreamOf(c: Compiled, ps: seq<Packet>, budget: u32) {
    && |Flatten(ps)| <= budget && AllWhole(ps) && c.words == Words(Flatten(ps))
    && Parse(c.words) == Ok(Reading(ps, 0))
    && c.fixups == Fixups(Flatten(ps), 0) && FixupsPlaced(c.words, c.fixups)
    && (forall i | 0 <= i < |c.fixups| :: InPayload(ps, 0, c.fixups[i]))
    && Authorizes(c.accesses, c.fixups, [])
  }

  class Emitter {
    const maxWords: u32
    var words: seq<u32>
    var fixups: seq<Fixup>
    var textureWords: seq<u32>
    var textureFixups: seq<Fixup>
    var accesses: seq<Range>
    ghost var packets: seq<Packet>
    ghost var prologue: seq<Packet>

    ghost predicate Authorized()
      reads this
    {
      Authorizes(accesses, fixups, textureFixups) && |words| + |textureWords| <= maxWords
    }

    ghost predicate Valid()
      reads this
    {
      && Authorized()
      && AllWhole(packets) && Emits(words, fixups, Flatten(packets))
      && AllWhole(prologue) && Emits(textureWords, textureFixups, Flatten(prologue))
    }

    constructor (maxWords: u32)
      ensures Valid() && packets == [] && prologue == [] && this.maxWords == maxWords
    {
      this.maxWords := maxWords;
      words, fixups, textureWords, textureFixups, accesses, packets, prologue := [], [], [], [], [], [], [];
    }

    method PushWord(word: u32) returns (error: Option<CompileError>)
      requires Authorized()
      modifies `words
      ensures error.None? <==> |old(words)| + |textureWords| + 1 <= maxWords
      ensures error.None? ==> Authorized() && words == old(words) + [word]
      ensures error.Some? ==> error.value == CommandBudgetExceeded && words == old(words)
    {
      if |words| + |textureWords| + 1 > maxWords {
        return Some(CommandBudgetExceeded);
      }
      words := words + [word];
      error := None;
    }

    /** Leaves a placeholder, remembers the fixup, and records the access it needs. */
    method AddressWords(ref: Address) returns (error: Option<CompileError>)
      requires Authorized()
      modifies `words, `fixups, `accesses
      ensures error == Some(CommandBudgetExceeded) <==> |old(words)| + |textureWords| + 2 > maxWords
      ensures error == Some(Overflow) <==> |old(words)| + |textureWords| + 2 <= maxWords && !Recordable(ref)
      ensures error.Some? ==> error.value in {CommandBudgetExceeded, Overflow}
      ensures error.None? ==>
                && Authorized() && words == old(words) + [Bits(Low(ref)), Bits(High(ref))]
                && |old(words)| < 0x1_0000_0000
                && fixups == old(fixups) + [FixupAt(ref, |old(words)|)]
    {
      if |words| + |textureWords| + 2 > maxWords {
        return Some(CommandBudgetExceeded);
      }
      var f := FixupAt(ref, |words|);
      var now := RecordAccess(accesses, ref.target, ref.offset, ref.size, ref.access);
      if now.None? {
        return Some(Overflow);
      }
      AuthorizesGrows(accesses, now.value, fixups, textureFixups, f);
      words := words + [Bits(Low(ref)), Bits(High(ref))];
      fixups := fixups + [f];
      accesses := now.value;
      error := None;
    }

    /** Emits the payload of a packet whose header is in place. */
    method EmitPayload(p: Packet, ghost before: seq<Code>) returns (error: Option<CompileError>)
      requires Shaped(p) && Authorized() && Emits(words, fixups, before + p[..1])
      modifies `words, `fixups, `accesses
      ensures error.None? <==> AllRecordable(p) && |before| + |p| + |textureWords| <= maxWords
      ensures error.None? ==> Authorized() && Emits(words, fixups, before + p)
      ensures error.Some? ==> error.value == CommandBudgetExceeded || (error.value == Overflow && !AllRecordable(p))
    {
      error := None;
      var i := 1;
      while i < |p|
        invariant 1 <= i <= |p| && (i < |p| ==> !p[i].High?) && error.None?
        invariant Authorized() && Emits(words, fixups, before + p[..i])
        invariant RecordableUpTo(p, i)
      {
        Grow(before, p, i);
        if p[i].Word? {
          error := PushWord(p[i].value);
          if error.Some? {
            return;
          }
          RecordableNext(p, i);
          i := i + 1;
        } else {
          assert p[i].Low? && p[i + 1] == High(p[i].ref);
          error := AddressWords(p[i].ref);
          if error.Some? {
            return;
          }
          RecordableNext(p, i);
          RecordableNext(p, i + 1);
          Grow(before, p, i + 1);
          i := i + 2;
        }
      }
      assert p[..i] == p;
    }

    /** Emits one packet, dword by dword; a header that cannot be encoded is refused. */
    method EmitPacket(p: Packet) returns (error: Option<CompileError>)
      requires Valid() && Shaped(p) && (Representable(p[0].header) ==> Whole(p))
      modifies `words, `fixups, `accesses, `packets
      ensures error.None? <==> Acceptable(p) && |old(words)| + |p| + |textureWords| <= maxWords
      ensures error.None? ==> Valid() && packets == old(packets) + [p] && |words| == |old(words)| + |p|
      ensures error == Some(InvalidPm4) <==> !Representable(p[0].header)
      ensures error.Some? ==>
                error.value in {CommandBudgetExceeded, InvalidPm4} || (error.value == Overflow && !AllRecordable(p))
    {
      if !Representable(p[0].header) {
        return Some(InvalidPm4);
      }
      ghost var before := Flatten(packets);
      error := PushWord(p[0].word);
      if error.Some? {
        return;
      }
      Grow(before, p, 0);
      assert before + p[..0] == before;
      error := EmitPayload(p, before);
      if error.None? {
        FlattenSnoc(packets, p);
        WholeConcat(packets, [p]);
        packets := packets + [p];
      }
    }

    /** Emits commands in order: all of them, exactly when all can be emitted and fit. */
    method Emit(cs: seq<Command>) returns (error: Option<CompileError>)
      requires Valid()
      modifies `words, `fixups, `accesses, `packets
      ensures error.None? <==> Emittable(cs, maxWords - |old(words)| - |textureWords|)
      ensures error.None? ==> Valid() && packets == old(packets) + LowerAll(cs)
      ensures error.Some? ==> error.value in {CommandBudgetExceeded, Overflow, InvalidPm4}
    {
      error := None;
      DwordsLowered(cs, |cs|);
      ghost var lowered := LowerAll(cs);
      for i := 0 to |cs|
        invariant error.None? && Valid() && packets == old(packets) + lowered[..i]
        invariant |words| == |old(words)| + Dwords(cs, i)
        invariant AllAcceptable(cs[..i])
      {
        DwordsGrow(cs, i + 1, |cs|);
        error := EmitCommand(cs[i]);
        if error.Some? {
          return;
        }
        PrefixGrows(old(packets), lowered, i);
        TakesNext(cs, i);
      }
      assert lowered[..|cs|] == lowered && cs[..|cs|] == cs;
    }

    method EmitCommand(c: Command) returns (error: Option<CompileError>)
      requires Valid()
      modifies `words, `fixups, `accesses, `packets
      ensures error.None? <==> Takes(c) && |old(words)| + |Lower(c)| + |textureWords| <= maxWords
      ensures error.None? ==> Valid() && packets == old(packets) + [Lower(c)] && |words| == |old(words)| + |Lower(c)|
      ensures error.Some? ==> error.value in {CommandBudgetExceeded, Overflow, InvalidPm4}
    {
      LowerShaped(c);
      error := EmitPacket(Lower(c));
    }

    /** Exchanges the main stream with the prologue. */
    method Swap()
      requires Valid()
      modifies `words, `fixups, `textureWords, `textureFixups, `packets, `prologue
      ensures Valid() && packets == old(prologue) && prologue == old(packets)
      ensures words == old(textureWords) && textureWords == old(words)
    {
      AuthorizesSwap(accesses, fixups, textureFixups);
      words, textureWords := textureWords, words;
      fixups, textureFixups := textureFixups, fixups;
      packets, prologue := prologue, packets;
    }

    /** Emits commands into the prologue, leaving the main stream where it was. */
    method EmitPrologue(cs: seq<Command>) returns (error: Option<CompileError>)
      requires Valid()
      modifies this
      ensures error.None? <==> Emittable(cs, maxWords - old(|words|) - old(|textureWords|))
      ensures error.None? ==>
                && Valid() && packets == old(packets) && prologue == old(prologue) + LowerAll(cs)
                && words == old(words)
      ensures error.Some? ==> error.value in {CommandBudgetExceeded, Overflow, InvalidPm4}
    {
      Swap();
      error := Emit(cs);
      if error.None? {
        Swap();
      }
    }

    /** The stream as it is returned: the prologue, its barrier, and the main packets. */
    ghost function Finished(): seq<Packet>
      reads this
    {
      if prologue == [] then packets else (prologue + LowerAll(Barrier())) + packets
    }

    /** Prepends the prologue and checks every fixup.  The result parses as exactly the packets emitted,
        has sorted disjoint placeholders each inside one payload, and grants exactly the accesses its
        fixups need; the final checks never fail. */
    method Finish() returns (r: Result<Compiled, CompileError>)
      requires Valid()
      modifies this
      ensures r.Err? <==> |Flatten(old(Finished()))| > maxWords
      ensures r.Err? ==> r.error == CommandBudgetExceeded
      ensures r.Ok? ==> StreamOf(r.value, old(Finished()), maxWords)
    {
      if textureWords != [] {
        var error := Prepend();
        if error.Some? {
          return Err(error.value);
        }
      } else {
        PacketsHaveWords(prologue);
        AuthorizesMerged(accesses, textureFixups, fixups, []);
        assert fixups + [] == fixups;
      }
      StreamFacts(packets);
      var error := CheckFixups(words, fixups);
      r := match error
        case Some(e) => Err(e)
        case None => Ok(Compiled(words, fixups, accesses));
    }

    method Prepend() returns (error: Option<CompileError>)
      requires Valid() && textureWords != []
      modifies this
      ensures old(prologue) != []
      ensures error.Some? <==> |Flatten(old(Finished()))| > maxWords
      ensures error.Some? ==> error.value == CommandBudgetExceeded
      ensures error.None? ==>
                && packets == old(Finished()) && AllWhole(packets) && Emits(words, fixups, Flatten(packets))
                && |words| <= maxWords && Authorizes(accesses, fixups, [])
    {
      FinishedLength(prologue, packets);
      Swap();
      error := EmitBarrier();
      if error.None? {
        AppendRest();
      }
    }

    /** Appends the other stream behind this one, its fixups moved. */
    method AppendRest()
      requires Valid()
      modifies `words, `fixups, `packets
      ensures packets == old(packets) + prologue && AllWhole(packets) && Emits(words, fixups, Flatten(packets))
      ensures |words| <= maxWords && Authorizes(accesses, fixups, [])
    {
      var prefix := |words|;
      JoinedStream(packets, prologue);
      var moved := ShiftAll(textureFixups, prefix);
      AuthorizesSwap(accesses, fixups, textureFixups);
      AuthorizesMerged(accesses, textureFixups, fixups, moved);
      words := words + textureWords;
      fixups := fixups + moved;
      packets := packets + prologue;
    }

    method EmitBarrier() returns (error: Option<CompileError>)
      requires Valid()
      modifies `words, `fixups, `accesses, `packets
      ensures error.None? <==> old(|words|) + 3 + |textureWords| <= maxWords
      ensures error.None? ==> Valid() && packets == old(packets) + LowerAll(Barrier())
      ensures error.Some? ==> error.value == CommandBudgetExceeded
    {
      var first, second := BarrierPackets();
      error := EmitPacket(first);
      if error.Some? {
        return;
      }
      error := EmitPacket(second);
      Assoc(old(packets), [first], [second]);
    }
  }

  /** One cache invalidation and a wait order the descriptor writes before the first draw. */
  function Barrier(): (cs: seq<Command>)
    ensures |cs| == 2
  {
    [Run(EVENT_WRITE, [Val(0x31)]), Run(WAIT_FOR_IDLE, [])]
  }

  /** Main packets behind those of a prologue and its barrier. */
  function Joined(front: seq<Command>, main: seq<Command>): seq<Packet> {
    if front == [] then LowerAll(main) else (LowerAll(front) + LowerAll(Barrier())) + LowerAll(main)
  }

  lemma JoinedLength(front: seq<Command>, main: seq<Command>)
    ensures |Flatten(LowerAll(front))| + |Flatten(LowerAll(main))| <= |Flatten(Joined(front, main))|
  {
    if front == [] {
      assert LowerAll(front) == [];
    } else {
      FinishedLength(LowerAll(front), LowerAll(main));
    }
  }

  /** Emits a prologue and the main commands, and finishes the stream. */
  method EmitStreams(front: seq<Command>, main: seq<Command>, maxWords: u32) returns (r: Result<Compiled, CompileError>)
    ensures r.Ok? <==> AllAcceptable(front) && AllAcceptable(main) && |Flatten(Joined(front, main))| <= maxWords
    ensures r.Ok? ==> StreamOf(r.value, Joined(front, main), maxWords)
    ensures r.Err? ==> r.error in {CommandBudgetExceeded, Overflow, InvalidPm4}
  {
    JoinedLength(front, main);
    var emitter := new Emitter(maxWords);
    var error := emitter.EmitPrologue(front);
    if error.Some? {
      return Err(error.value);
    }
    assert [] + LowerAll(front) == LowerAll(front);
    error := emitter.Emit(main);
    if error.Some? {
      return Err(error.value);
    }
    assert [] + LowerAll(main) == LowerAll(main);
    r := emitter.Finish();
  }

  lemma FinishedLength(prologue: seq<Packet>, packets: seq<Packet>)
    ensures |Flatten((prologue + LowerAll(Barrier())) + packets)| == |Flatten(prologue)| + 3 + |Flatten(packets)|
  {
    BarrierLowers();
    FlattenConcat(prologue + LowerAll(Barrier()), packets);
    FlattenConcat(prologue, LowerAll(Barrier()));
  }

  lemma TakesNext(cs: seq<Command>, i: nat)
    requires i < |cs| && AllAcceptable(cs[..i]) && Takes(cs[i])
    ensures AllAcceptable(cs[..i + 1])
  {
    var next := cs[..i + 1];
    forall k | 0 <= k < |next|
      ensures Takes(next[k])
    {
      if k < i {
        assert next[k] == cs[..i][k];
      }
    }
  }

  /** The dwords of the first n commands. */
  function Dwords(cs: seq<Command>, n: nat): nat
    requires n <= |cs|
  {
    if n == 0 then 0 else Dwords(cs, n - 1) + |Lower(cs[n - 1])|
  }

  lemma {:induction false} DwordsGrow(cs: seq<Command>, n: nat, m: nat)
    requires n <= m <= |cs|
    ensures Dwords(cs, n) <= Dwords(cs, m)
    decreases m
  {
    if n < m {
      DwordsGrow(cs, n, m - 1);
    }
  }

  lemma {:induction false} DwordsLowered(cs: seq<Command>, n: nat)
    requires n <= |cs|
    ensures Dwords(cs, n) == |Flatten(LowerAll(cs[..n]))|
    ensures n == |cs| ==> Dwords(cs, n) == |Flatten(LowerAll(cs))|
  {
    if n > 0 {
      DwordsLowered(cs, n - 1);
      assert LowerAll(cs[..n]) == LowerAll(cs[..n - 1]) + [Lower(cs[n - 1])];
      FlattenSnoc(LowerAll(cs[..n - 1]), Lower(cs[n - 1]));
    }
    assert n == |cs| ==> cs[..n] == cs;
  }

  /** One stream behind another: the words follow, and the fixups move. */
  lemma JoinedStream(front: seq<Packet>, back: seq<Packet>)
    requires AllWhole(front) && AllWhole(back) && |Flatten(front)| + |Flatten(back)| <= 0x1_0000_0000
    ensures AllWhole(front + back) && Flatten(front + back) == Flatten(front) + Flatten(back)
    ensures Words(Flatten(front + back)) == Words(Flatten(front)) + Words(Flatten(back))
    ensures EndBy(Fixups(Flatten(back), 0), 0x1_0000_0000 - |Flatten(front)|)
    ensures Fixups(Flatten(front + back), 0) ==
            Fixups(Flatten(front), 0) + Shifted(Fixups(Flatten(back), 0), |Flatten(front)|)
  {
    FlattenConcat(front, back);
    WholeConcat(front, back);
    JoinedCodes(Flatten(front), Flatten(back));
  }

  lemma JoinedCodes(a: seq<Code>, b: seq<Code>)
    requires |a| + |b| <= 0x1_0000_0000
    ensures Words(a + b) == Words(a) + Words(b)
    ensures EndBy(Fixups(b, 0), 0x1_0000_0000 - |a|)
    ensures Fixups(a + b, 0) == Fixups(a, 0) + Shifted(Fixups(b, 0), |a|)
  {
    WordsConcat(a, b);
    FixupsConcat(a, b, 0);
    FixupsShift(b, 0, |a|);
  }

  /** Every fixup `prefix` words further on. */
  method ShiftAll(fs: seq<Fixup>, prefix: nat) returns (moved: seq<Fixup>)
    requires EndBy(fs, 0x1_0000_0000 - prefix)
    ensures moved == Shifted(fs, prefix)
  {
    moved := [];
    for i := 0 to |fs|
      invariant moved == Shifted(fs, prefix)[..i]
    {
      moved := moved + [fs[i].(wordOffset := fs[i].wordOffset + prefix)];
    }
  }

  /** The final check accepts exactly the fixups that are sorted, disjoint and on placeholders. */
  method CheckFixups(words: seq<u32>, fixups: seq<Fixup>) returns (error: Option<CompileError>)
    requires |words| < 0x1_0000_0000
    ensures error.None? <==> FixupsPlaced(words, fixups)
  {
    var previousEnd := 0;
    for i := 0 to |fixups|
      invariant previousEnd == if i == 0 then 0 else fixups[i - 1].wordOffset + 2
      invariant FixupsPlaced(words, fixups[..i])
    {
      var start := fixups[i].wordOffset;
      assert i > 0 ==> fixups[..i + 1][i - 1] == fixups[i - 1];
      if previousEnd > start {
        return Some(InvalidPm4);
      }
      if start + 2 > |words| || !W.PlaceholderValid(fixups[i].encoding, words[start], words[start + 1]) {
        assert !PlacedAt(words, fixups[i]);
        return Some(InvalidPm4);
      }
      previousEnd := start + 2;
    }
    assert fixups[..|fixups|] == fixups;
    error := None;
  }

  method BarrierPackets() returns (first: Packet, second: Packet)
    ensures LowerAll(Barrier()) == [first] + [second]
    ensures Whole(first) && Whole(second) && AllRecordable(first) && AllRecordable(second)
    ensures |first| == 2 && |second| == 1
  {
    first, second := Lower(Barrier()[0]), Lower(Barrier()[1]);
    LowerShaped(Barrier()[0]);
    LowerShaped(Barrier()[1]);
    assert Expand([Val(0x31)]) == [Word(0x31)] + Expand([Val(0x31)][1..]);
  }

  lemma BarrierLowers()
    ensures |Flatten(LowerAll(Barrier()))| == 3 && AllAcceptable(Barrier())
  {
    var cs := Barrier();
    LowerShaped(cs[0]);
    LowerShaped(cs[1]);
    assert Expand([Val(0x31)]) == [Word(0x31)] + Expand([Val(0x31)][1..]);
    assert Dwords(cs, 0) == 0 && Dwords(cs, 1) == |Lower(cs[0])| && Dwords(cs, 2) == Dwords(cs, 1) + |Lower(cs[1])|;
    DwordsLowered(cs, 2);
  }

  lemma {:induction false} PacketsHaveWords(ps: seq<Packet>)
    requires AllWhole(ps)
    ensures |Flatten(ps)| >= |ps|
  {
    if ps != [] {
      PacketsHaveWords(ps[1..]);
    }
  }

  /** What holds of every stream of whole packets. */
  lemma StreamFacts(ps: seq<Packet>)
    requires AllWhole(ps) && |Flatten(ps)| <= 0x1_0000_0000
    ensures Parse(Words(Flatten(ps))) == Ok(Reading(ps, 0))
    ensures FixupsPlaced(Words(Flatten(ps)), Fixups(Flatten(ps), 0))
    ensures forall i | 0 <= i < |Fixups(Flatten(ps), 0)| :: InPayload(ps, 0, Fixups(Flatten(ps), 0)[i])
  {
    ParseEmitted(ps);
    StreamPaired(ps);
    StreamPlaced(Flatten(ps));
    FixupsAreAddresses(Flatten(ps));
    forall i | 0 <= i < |Fixups(Flatten(ps), 0)|
      ensures InPayload(ps, 0, Fixups(Flatten(ps), 0)[i])
    {
      AddressInPayload(ps, 0, Fixups(Flatten(ps), 0)[i]);
    }
  }

  lemma PrefixGrows<T>(before: seq<T>, p: seq<T>, i: nat)
    requires i < |p|
    ensures before + p[..i + 1] == (before + p[..i]) + [p[i]]
  {
    calc {
      before + p[..i + 1];
      { assert p[..i + 1] == p[..i] + [p[i]]; }
      before + (p[..i] + [p[i]]);
      { Assoc(before, p[..i], [p[i]]); }
      (before + p[..i]) + [p[i]];
    }
  }

  /** One more dword of the packet. */
  lemma Grow(before: seq<Code>, p: Packet, i: nat)
    requires i < |p| && |before| + i < 0x1_0000_0000
    ensures Words(before + p[..i + 1]) == Words(before + p[..i]) + [Bits(p[i])]
    ensures Fixups(before + p[..i + 1], 0) ==
            Fixups(before + p[..i], 0) + if p[i].Low? then [FixupAt(p[i].ref, |before| + i)] else []
  {
    PrefixGrows(before, p, i);
    var cs := before + p[..i];
    WordsSnoc(cs, p[i]);
    FixupsSnoc(cs, p[i], 0);
  }
}
