/** Objects named by relocatable command streams, and the table of merged access ranges. */
module Accesses {
  import opened Wrappers
  import opened Arith
  import opened ShaderPack

  /** READ is 1, WRITE is 2; every access in use has at least one bit. */
  type Access = x: int | 1 <= x <= 3 witness 1
  const READ: Access := 1
  const WRITE: Access := 2

  datatype ObjectRef = External(id: nat) | Generated(id: nat) | CanonicalShader(variant: Variant)

  datatype Range = Range(target: ObjectRef, offset: nat, size: nat, access: Access) {
    function End(): nat { offset + size }

    predicate Same(o: ObjectRef, a: Access) { target == o && access == a }

    /** The closed intervals meet: the ranges overlap or are adjacent. */
    predicate Touches(that: Range) {
      Same(that.target, that.access) && offset <= that.End() && that.offset <= End()
    }

    predicate Holds(o: ObjectRef, a: Access, at: nat) { Same(o, a) && offset <= at < End() }

    predicate Encloses(o: ObjectRef, a: Access, lo: nat, hi: nat) { Same(o, a) && offset <= lo && hi <= End() }
  }

  /** No two records of one object and access overlap or are adjacent. */
  ghost predicate Separated(rs: seq<Range>) {
    forall i, j | 0 <= i < j < |rs| :: !rs[i].Touches(rs[j])
  }

  ghost predicate Covers(rs: seq<Range>, o: ObjectRef, a: Access, at: nat) {
    exists i | 0 <= i < |rs| :: rs[i].Holds(o, a, at)
  }

  /** One record encloses the whole of lo..hi. */
  ghost predicate InOne(rs: seq<Range>, o: ObjectRef, a: Access, lo: nat, hi: nat) {
    exists i | 0 <= i < |rs| :: rs[i].Encloses(o, a, lo, hi)
  }

  ghost predicate AllFit(rs: seq<Range>) {
    forall i | 0 <= i < |rs| :: rs[i].End() < U64_LIMIT
  }

  ghost predicate NoneEmpty(rs: seq<Range>) {
    forall i | 0 <= i < |rs| :: rs[i].size > 0
  }

  /** The table `now` covers what `was` and the range `extra` cover, byte for byte. */
  ghost predicate SameCoverage(was: seq<Range>, extra: Range, now: seq<Range>) {
    forall o, a, at :: Covers(now, o, a, at) <==> Covers(was, o, a, at) || extra.Holds(o, a, at)
  }

  /** Whatever one record of `was` encloses, one record of `now` still encloses. */
  ghost predicate KeepsEnclosed(was: seq<Range>, now: seq<Range>) {
    forall o, a, lo, hi | InOne(was, o, a, lo, hi) :: InOne(now, o, a, lo, hi)
  }

  // ---- removing one record while merging ---------------------------------------------------------------

  function Without(rs: seq<Range>, i: nat): seq<Range>
    requires i < |rs|
  {
    rs[..i] + rs[i + 1..]
  }

  function Hull(a: Range, b: Range): Range {
    var offset := if a.offset <= b.offset then a.offset else b.offset;
    var end := if a.End() >= b.End() then a.End() else b.End();
    Range(a.target, offset, end - offset, a.access)
  }

  lemma CoversAppend(rs: seq<Range>, m: Range, o: ObjectRef, a: Access, at: nat)
    ensures Covers(rs + [m], o, a, at) <==> Covers(rs, o, a, at) || m.Holds(o, a, at)
  {
    if m.Holds(o, a, at) {
      assert (rs + [m])[|rs|].Holds(o, a, at);
    }
    if Covers(rs, o, a, at) {
      var i :| 0 <= i < |rs| && rs[i].Holds(o, a, at);
      assert (rs + [m])[i].Holds(o, a, at);
    }
  }

  lemma CoversWithout(rs: seq<Range>, i: nat, o: ObjectRef, a: Access, at: nat)
    requires i < |rs|
    ensures Covers(rs, o, a, at) <==> Covers(Without(rs, i), o, a, at) || rs[i].Holds(o, a, at)
  {
    var w := Without(rs, i);
    if Covers(rs, o, a, at) && !rs[i].Holds(o, a, at) {
      var k :| 0 <= k < |rs| && rs[k].Holds(o, a, at);
      assert w[if k < i then k else k - 1] == rs[k];
    }
    if Covers(w, o, a, at) {
      var k :| 0 <= k < |w| && w[k].Holds(o, a, at);
      assert rs[if k < i then k else k + 1] == w[k];
    }
  }

  lemma MergeKeepsCoverage(was: seq<Range>, extra: Range, rs: seq<Range>, i: nat, m: Range)
    requires i < |rs| && rs[i].Touches(m)
    requires SameCoverage(was, extra, rs + [m])
    ensures SameCoverage(was, extra, Without(rs, i) + [Hull(m, rs[i])])
  {
    forall o, a, at
      ensures Covers(Without(rs, i) + [Hull(m, rs[i])], o, a, at) <==> Covers(was, o, a, at) || extra.Holds(o, a, at)
    {
      CoversAppend(rs, m, o, a, at);
      CoversAppend(Without(rs, i), Hull(m, rs[i]), o, a, at);
      CoversWithout(rs, i, o, a, at);
    }
  }

  lemma MergeKeepsEnclosed(was: seq<Range>, rs: seq<Range>, i: nat, m: Range)
    requires i < |rs| && rs[i].Touches(m)
    requires KeepsEnclosed(was, rs + [m])
    ensures KeepsEnclosed(was, Without(rs, i) + [Hull(m, rs[i])])
  {
    var before, after := rs + [m], Without(rs, i) + [Hull(m, rs[i])];
    forall o, a, lo, hi | InOne(was, o, a, lo, hi)
      ensures InOne(after, o, a, lo, hi)
    {
      var k :| 0 <= k < |before| && before[k].Encloses(o, a, lo, hi);
      if k == i || k == |rs| {
        assert after[|after| - 1].Encloses(o, a, lo, hi);
      } else {
        assert after[if k < i then k else k - 1] == before[k];
      }
    }
  }

  /** A record that touches neither of two touching ranges does not touch their hull. */
  lemma HullTouchesNothingNew(r: Range, a: Range, b: Range)
    requires a.Touches(b) && !r.Touches(a) && !r.Touches(b)
    ensures !r.Touches(Hull(a, b))
  {
  }

  /** One pass suffices: records already found apart stay apart from the grown range. */
  lemma MergeStaysApart(rs: seq<Range>, i: nat, m: Range)
    requires i < |rs| && Separated(rs) && m.Touches(rs[i]) && forall k | 0 <= k < i :: !rs[k].Touches(m)
    ensures Separated(Without(rs, i)) && forall k | 0 <= k < i :: !Without(rs, i)[k].Touches(Hull(m, rs[i]))
  {
    forall k | 0 <= k < i
      ensures !Without(rs, i)[k].Touches(Hull(m, rs[i]))
    {
      HullTouchesNothingNew(rs[k], m, rs[i]);
    }
  }

  /** Adds a range to the table in one pass, absorbing every record it comes to touch. */
  method RecordAccess(accesses: seq<Range>, target: ObjectRef, offset: nat, size: nat, access: Access)
    returns (r: Option<seq<Range>>)
    ensures target.CanonicalShader? ==> r == Some(accesses)
    ensures !target.CanonicalShader? && AllFit(accesses) ==> (r.Some? <==> offset + size < U64_LIMIT)
    ensures r.Some? && AllFit(accesses) ==> AllFit(r.value)
    ensures r.Some? && Separated(accesses) ==> Separated(r.value)
    ensures r.Some? && NoneEmpty(accesses) && size > 0 ==> NoneEmpty(r.value)
    ensures r.Some? ==> KeepsEnclosed(accesses, r.value)
    ensures r.Some? && !target.CanonicalShader? ==>
              && SameCoverage(accesses, Range(target, offset, size, access), r.value)
              && InOne(r.value, target, access, offset, offset + size)
    ensures r.Some? ==> |r.value| <= |accesses| + 1
  {
    if target.CanonicalShader? {
      return Some(accesses);
    }
    var extra := Range(target, offset, size, access);
    if extra.End() >= U64_LIMIT {
      return None;
    }
    var rs, merged, index := accesses, extra, 0;
    forall o, a, at
      ensures Covers(rs + [merged], o, a, at) <==> Covers(accesses, o, a, at) || extra.Holds(o, a, at)
    {
      CoversAppend(rs, merged, o, a, at);
    }
    EnclosedAppend(accesses, merged);
    while index < |rs|
      invariant index <= |rs| <= |accesses|
      invariant merged.Encloses(target, access, offset, offset + size) && merged.End() < U64_LIMIT
      invariant AllFit(accesses) ==> AllFit(rs)
      invariant NoneEmpty(accesses) && size > 0 ==> NoneEmpty(rs)
      invariant Separated(accesses) ==> Separated(rs) && forall k | 0 <= k < index :: !rs[k].Touches(merged)
      invariant SameCoverage(accesses, extra, rs + [merged])
      invariant KeepsEnclosed(accesses, rs + [merged])
      decreases |rs| - index
    {
      var existing := rs[index];
      if existing.End() >= U64_LIMIT {
        return None;
      }
      if existing.Touches(merged) {
        MergeKeepsCoverage(accesses, extra, rs, index, merged);
        MergeKeepsEnclosed(accesses, rs, index, merged);
        if Separated(accesses) {
          MergeStaysApart(rs, index, merged);
        }
        merged := Hull(merged, existing);
        rs := Without(rs, index);
      } else {
        index := index + 1;
      }
    }
    assert (rs + [merged])[|rs|].Encloses(target, access, offset, offset + size);
    r := Some(rs + [merged]);
  }

  lemma EnclosedAppend(rs: seq<Range>, m: Range)
    ensures KeepsEnclosed(rs, rs + [m])
  {
    forall o, a, lo, hi | InOne(rs, o, a, lo, hi)
      ensures InOne(rs + [m], o, a, lo, hi)
    {
      var i :| 0 <= i < |rs| && rs[i].Encloses(o, a, lo, hi);
      assert (rs + [m])[i] == rs[i];
    }
  }

  /** Records that cover only bytes below each object's size end below it. */
  lemma CoverageBoundsEnds(rs: seq<Range>, size: ObjectRef -> nat)
    requires NoneEmpty(rs)
    requires forall o, a, at: nat | Covers(rs, o, a, at) :: at < size(o)
    ensures forall i | 0 <= i < |rs| :: rs[i].End() <= size(rs[i].target)
  {
    forall i | 0 <= i < |rs|
      ensures rs[i].End() <= size(rs[i].target)
    {
      assert rs[i].Holds(rs[i].target, rs[i].access, rs[i].End() - 1);
      assert Covers(rs, rs[i].target, rs[i].access, rs[i].End() - 1);
    }
  }
}
