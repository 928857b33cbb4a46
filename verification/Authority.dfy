/** The access table grants exactly what the fixups need. */
module Authority {
  import opened Accesses
  import opened Stream

  function RangeOf(f: Fixup): Range { Range(f.target, f.offset, f.required, f.access) }

  /** Shader programs are resolved by the kernel and need no record. */
  ghost predicate Enclosed(accesses: seq<Range>, f: Fixup) {
    f.target.CanonicalShader? || InOne(accesses, f.target, f.access, f.offset, f.End())
  }

  ghost predicate Needed(fs: seq<Fixup>, gs: seq<Fixup>, o: ObjectRef, a: Access, at: nat) {
    exists f | f in fs || f in gs :: !f.target.CanonicalShader? && RangeOf(f).Holds(o, a, at)
  }

  /** Every fixup lies in one record. */
  ghost predicate AllEnclosed(accesses: seq<Range>, fs: seq<Fixup>, gs: seq<Fixup>) {
    forall f | f in fs || f in gs :: Enclosed(accesses, f)
  }

  /** The records cover exactly the bytes some fixup needs. */
  ghost predicate Exact(accesses: seq<Range>, fs: seq<Fixup>, gs: seq<Fixup>) {
    forall o, a, at :: Covers(accesses, o, a, at) <==> Needed(fs, gs, o, a, at)
  }

  ghost predicate AllNeedSome(fs: seq<Fixup>, gs: seq<Fixup>) {
    forall f | f in fs || f in gs :: f.required > 0
  }

  /** The records of the fixups of both streams. */
  ghost predicate Authorizes(accesses: seq<Range>, fs: seq<Fixup>, gs: seq<Fixup>) {
    && AllFit(accesses) && Separated(accesses) && AllEnclosed(accesses, fs, gs) && Exact(accesses, fs, gs)
    && (AllNeedSome(fs, gs) ==> NoneEmpty(accesses))
  }

  /** What recording one more range established. */
  ghost predicate Recorded(was: seq<Range>, f: Fixup, now: seq<Range>) {
    && KeepsEnclosed(was, now)
    && if f.target.CanonicalShader? then now == was
       else SameCoverage(was, RangeOf(f), now) && InOne(now, f.target, f.access, f.offset, f.End())
  }

  lemma NeededGrows(fs: seq<Fixup>, gs: seq<Fixup>, f: Fixup, o: ObjectRef, a: Access, at: nat)
    ensures Needed(fs + [f], gs, o, a, at) <==>
            Needed(fs, gs, o, a, at) || (!f.target.CanonicalShader? && RangeOf(f).Holds(o, a, at))
  {
    if Needed(fs, gs, o, a, at) {
      var g :| (g in fs || g in gs) && !g.target.CanonicalShader? && RangeOf(g).Holds(o, a, at);
      assert g in fs + [f] || g in gs;
    }
    if !f.target.CanonicalShader? && RangeOf(f).Holds(o, a, at) {
      assert f in fs + [f];
    }
  }

  lemma ExactGrows(was: seq<Range>, now: seq<Range>, fs: seq<Fixup>, gs: seq<Fixup>, f: Fixup)
    requires Exact(was, fs, gs) && Recorded(was, f, now)
    ensures Exact(now, fs + [f], gs)
  {
    forall o, a, at
      ensures Covers(now, o, a, at) <==> Needed(fs + [f], gs, o, a, at)
    {
      NeededGrows(fs, gs, f, o, a, at);
    }
  }

  lemma EnclosedGrows(was: seq<Range>, now: seq<Range>, fs: seq<Fixup>, gs: seq<Fixup>, f: Fixup)
    requires AllEnclosed(was, fs, gs) && Recorded(was, f, now)
    ensures AllEnclosed(now, fs + [f], gs)
  {
    forall g | g in fs + [f] || g in gs
      ensures Enclosed(now, g)
    {
      assert g == f || Enclosed(was, g);
    }
  }

  /** Recording the range of a new fixup keeps the table exact. */
  lemma AuthorizesGrows(was: seq<Range>, now: seq<Range>, fs: seq<Fixup>, gs: seq<Fixup>, f: Fixup)
    requires Authorizes(was, fs, gs) && Recorded(was, f, now)
    requires AllFit(now) && Separated(now) && (NoneEmpty(was) && f.required > 0 ==> NoneEmpty(now))
    ensures Authorizes(now, fs + [f], gs)
  {
    ExactGrows(was, now, fs, gs, f);
    EnclosedGrows(was, now, fs, gs, f);
    if AllNeedSome(fs + [f], gs) {
      assert f in fs + [f];
      assert forall g | g in fs :: g in fs + [f];
      assert AllNeedSome(fs, gs);
    }
  }

  lemma AuthorizesSwap(accesses: seq<Range>, fs: seq<Fixup>, gs: seq<Fixup>)
    requires Authorizes(accesses, fs, gs)
    ensures Authorizes(accesses, gs, fs)
  {
    forall o, a, at
      ensures Covers(accesses, o, a, at) <==> Needed(gs, fs, o, a, at)
    {
    }
  }

  ghost predicate HasRange(fs: seq<Fixup>, gs: seq<Fixup>, r: Range) {
    exists f | f in fs || f in gs :: RangeOf(f) == r
  }

  /** Fixups that need no more ranges are enclosed in no more records. */
  lemma RangesDecide(accesses: seq<Range>, fs: seq<Fixup>, gs: seq<Fixup>, hs: seq<Fixup>)
    requires forall r | HasRange(hs, [], r) :: HasRange(fs, gs, r)
    ensures forall o, a, at | Needed(hs, [], o, a, at) :: Needed(fs, gs, o, a, at)
    ensures AllEnclosed(accesses, fs, gs) ==> AllEnclosed(accesses, hs, [])
  {
    forall o, a, at | Needed(hs, [], o, a, at)
      ensures Needed(fs, gs, o, a, at)
    {
      var h :| h in hs && !h.target.CanonicalShader? && RangeOf(h).Holds(o, a, at);
      assert HasRange(hs, [], RangeOf(h));
      var f :| (f in fs || f in gs) && RangeOf(f) == RangeOf(h);
      assert RangeOf(f).Holds(o, a, at);
    }
    if AllEnclosed(accesses, fs, gs) {
      forall h | h in hs
        ensures Enclosed(accesses, h)
      {
        assert HasRange(hs, [], RangeOf(h));
        var f :| (f in fs || f in gs) && RangeOf(f) == RangeOf(h);
        assert Enclosed(accesses, f) && RangeOf(f).target == RangeOf(h).target;
      }
    }
  }

  lemma RangesNeeded(fs: seq<Fixup>, gs: seq<Fixup>, hs: seq<Fixup>)
    requires forall r | HasRange(fs, gs, r) :: HasRange(hs, [], r)
    ensures forall o, a, at | Needed(fs, gs, o, a, at) :: Needed(hs, [], o, a, at)
    ensures AllNeedSome(hs, []) ==> AllNeedSome(fs, gs)
  {
    forall o, a, at | Needed(fs, gs, o, a, at)
      ensures Needed(hs, [], o, a, at)
    {
      var f :| (f in fs || f in gs) && !f.target.CanonicalShader? && RangeOf(f).Holds(o, a, at);
      assert HasRange(fs, gs, RangeOf(f));
      var h :| h in hs && RangeOf(h) == RangeOf(f);
      assert RangeOf(h).Holds(o, a, at);
    }
    if AllNeedSome(hs, []) {
      forall f | f in fs || f in gs
        ensures f.required > 0
      {
        assert HasRange(fs, gs, RangeOf(f));
        var h :| h in hs && RangeOf(h) == RangeOf(f);
        assert RangeOf(h).size == f.required;
      }
    }
  }

  /** Moving fixups within the stream does not change what they need. */
  lemma AuthorizesMerged(accesses: seq<Range>, fs: seq<Fixup>, gs: seq<Fixup>, moved: seq<Fixup>)
    requires Authorizes(accesses, fs, gs) && |moved| == |fs|
    requires forall i | 0 <= i < |fs| :: RangeOf(moved[i]) == RangeOf(fs[i])
    ensures Authorizes(accesses, gs + moved, [])
  {
    forall r | HasRange(fs, gs, r)
      ensures HasRange(gs + moved, [], r)
    {
      var f :| (f in fs || f in gs) && RangeOf(f) == r;
      if f in gs {
        assert f in gs + moved;
      } else {
        var i :| 0 <= i < |fs| && fs[i] == f;
        assert (gs + moved)[|gs| + i] == moved[i] && moved[i] in gs + moved;
      }
    }
    forall r | HasRange(gs + moved, [], r)
      ensures HasRange(fs, gs, r)
    {
      var f :| f in gs + moved && RangeOf(f) == r;
      if f !in gs {
        var i :| 0 <= i < |moved| && moved[i] == f;
        assert fs[i] in fs;
      }
    }
    RangesDecide(accesses, fs, gs, gs + moved);
    RangesNeeded(fs, gs, gs + moved);
  }
}
