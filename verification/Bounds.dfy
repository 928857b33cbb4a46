/** Every address a command carries lies inside the object it names. */
module Bounds {
  import opened Sequences
  import opened ShaderPack
  import opened Accesses
  import opened Authority
  import opened Stream
  import opened Commands
  import opened WireTranslation
  import W = SubmitWire

  /** The sizes of every object a stream can name. */
  datatype Objects = Objects(external: map<nat, nat>, generated: seq<nat>, shaders: ShaderSizes)

  predicate AddressInside(o: Objects, r: Address) {
    match r.target
    case External(id) => id in o.external && 0 < r.size && r.offset + r.size <= o.external[id]
    case Generated(id) => id < |o.generated| && 0 < r.size && r.offset + r.size <= o.generated[id]
    case CanonicalShader(variant) => r == Address(r.target, 0, o.shaders[variant], READ, W.GpuVa64)
  }

  predicate FieldsInside(o: Objects, fs: seq<Field>) {
    forall i | 0 <= i < |fs| && fs[i].Ref? :: AddressInside(o, fs[i].ref)
  }

  predicate Inside(o: Objects, c: Command) { FieldsInside(o, Payload(c)) }

  predicate AllInside(o: Objects, cs: seq<Command>) {
    forall i | 0 <= i < |cs| :: Inside(o, cs[i])
  }

  /** Objects are only ever added. */
  predicate Extends(now: Objects, was: Objects) {
    now.external == was.external && now.shaders == was.shaders && was.generated <= now.generated
  }

  lemma InsideStays(was: Objects, now: Objects, cs: seq<Command>)
    requires Extends(now, was) && AllInside(was, cs)
    ensures AllInside(now, cs)
  {
    forall i | 0 <= i < |cs|
      ensures Inside(now, cs[i])
    {
      assert Inside(was, cs[i]);
      var fs := Payload(cs[i]);
      forall j | 0 <= j < |fs| && fs[j].Ref?
        ensures AddressInside(now, fs[j].ref)
      {
        assert AddressInside(was, fs[j].ref);
      }
    }
  }

  lemma InsideConcat(o: Objects, a: seq<Command>, b: seq<Command>)
    requires AllInside(o, a) && AllInside(o, b)
    ensures AllInside(o, a + b)
  {
  }

  // ---- from commands to fixups -----------------------------------------------------------------------------------

  ghost predicate CodesInside(o: Objects, cs: seq<Code>) {
    forall i | 0 <= i < |cs| && cs[i].Low? :: AddressInside(o, cs[i].ref)
  }

  lemma {:induction false} ExpandInside(o: Objects, fs: seq<Field>)
    requires FieldsInside(o, fs)
    ensures CodesInside(o, Expand(fs))
  {
    if fs != [] {
      assert FieldsInside(o, fs[1..]);
      ExpandInside(o, fs[1..]);
      var head, tail := FieldCodes(fs[0]), Expand(fs[1..]);
      assert CodesInside(o, head);
      CodesConcatInside(o, head, tail);
    }
  }

  lemma CodesConcatInside(o: Objects, a: seq<Code>, b: seq<Code>)
    requires CodesInside(o, a) && CodesInside(o, b)
    ensures CodesInside(o, a + b)
  {
    forall i | 0 <= i < |a + b| && (a + b)[i].Low?
      ensures AddressInside(o, (a + b)[i].ref)
    {
      if i < |a| {
        assert a[i].Low?;
      } else {
        assert b[i - |a|].Low?;
      }
    }
  }

  lemma LowerInside(o: Objects, c: Command)
    requires Inside(o, c)
    ensures CodesInside(o, Lower(c))
  {
    ExpandInside(o, Payload(c));
    CodesConcatInside(o, [HeadOf(HeaderOf(c))], Expand(Payload(c)));
  }

  lemma {:induction false} StreamInside(o: Objects, cs: seq<Command>)
    requires AllInside(o, cs)
    ensures CodesInside(o, Flatten(LowerAll(cs)))
  {
    if cs != [] {
      assert Inside(o, cs[0]);
      assert AllInside(o, cs[1..]);
      LowerInside(o, cs[0]);
      StreamInside(o, cs[1..]);
      assert LowerAll(cs)[0] == Lower(cs[0]) && LowerAll(cs)[1..] == LowerAll(cs[1..]);
      CodesConcatInside(o, Lower(cs[0]), Flatten(LowerAll(cs[1..])));
    }
  }

  function SizeOf(o: Objects, target: ObjectRef): nat {
    match target
    case External(id) => if id in o.external then o.external[id] else 0
    case Generated(id) => if id < |o.generated| then o.generated[id] else 0
    case CanonicalShader(variant) => o.shaders[variant]
  }

  /** A fixup inside its object; a shader fixup names the whole program. */
  ghost predicate FixupInside(o: Objects, f: Fixup) {
    && 0 < f.required && f.End() <= SizeOf(o, f.target)
    && (f.target.CanonicalShader? ==> f.offset == 0 && f.required == o.shaders[f.target.variant] && f.access == READ
                                      && f.encoding.GpuVa64?)
  }

  lemma FixupsInside(o: Objects, cs: seq<Code>)
    requires CodesInside(o, cs) && |cs| <= 0x1_0000_0000
    ensures forall i | 0 <= i < |Fixups(cs, 0)| :: FixupInside(o, Fixups(cs, 0)[i])
  {
    FixupsAreAddresses(cs);
    forall i | 0 <= i < |Fixups(cs, 0)|
      ensures FixupInside(o, Fixups(cs, 0)[i])
    {
      var f := Fixups(cs, 0)[i];
      assert AddressInside(o, cs[f.wordOffset].ref);
    }
  }

  /** A record of real bytes of an external or generated object. */
  ghost predicate RecordInside(o: Objects, r: Range) {
    r.size > 0 && r.End() <= SizeOf(o, r.target) && !r.target.CanonicalShader?
  }

  /** Access records authorised by fixups inside their objects are inside theirs, and not empty. */
  lemma RecordsInside(o: Objects, accesses: seq<Range>, fs: seq<Fixup>)
    requires Authorizes(accesses, fs, []) && forall i | 0 <= i < |fs| :: FixupInside(o, fs[i])
    ensures NoneEmpty(accesses)
    ensures forall i | 0 <= i < |accesses| :: RecordInside(o, accesses[i])
  {
    assert AllNeedSome(fs, []);
    forall target, a, at: nat | Covers(accesses, target, a, at)
      ensures at < SizeOf(o, target) && !target.CanonicalShader?
    {
      assert Needed(fs, [], target, a, at);
      var f :| f in fs && !f.target.CanonicalShader? && RangeOf(f).Holds(target, a, at);
      assert FixupInside(o, f);
    }
    CoverageBoundsEnds(accesses, target => SizeOf(o, target));
    forall i | 0 <= i < |accesses|
      ensures RecordInside(o, accesses[i])
    {
      assert accesses[i].Holds(accesses[i].target, accesses[i].access, accesses[i].offset);
      assert Covers(accesses, accesses[i].target, accesses[i].access, accesses[i].offset);
    }
  }

  /** A finished stream with every address inside its object can always be translated to the wire. */
  lemma InsideIsSound(o: Objects, c: Compiled)
    requires Authorizes(c.accesses, c.fixups, []) && FixupsPlaced(c.words, c.fixups)
    requires forall i | 0 <= i < |c.fixups| :: FixupInside(o, c.fixups[i])
    ensures Sound(o.shaders, c)
  {
    RecordsInside(o, c.accesses, c.fixups);
    forall i | 0 <= i < |c.fixups|
      ensures FixupSound(o.shaders, c.accesses, c.fixups[i])
    {
      assert c.fixups[i] in c.fixups;
      assert Enclosed(c.accesses, c.fixups[i]);
    }
  }
}
