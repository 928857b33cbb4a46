/** Chunks of a sequence laid end to end. */
module Sequences {
  function Flatten<T>(chunks: seq<seq<T>>): seq<T> {
    if chunks == [] then [] else chunks[0] + Flatten(chunks[1..])
  }

  lemma Assoc<T>(x: seq<T>, y: seq<T>, z: seq<T>)
    ensures (x + y) + z == x + (y + z)
  {
  }

  lemma {:induction false} FlattenConcat<T>(a: seq<seq<T>>, b: seq<seq<T>>)
    ensures Flatten(a + b) == Flatten(a) + Flatten(b)
  {
    if a == [] {
      assert a + b == b;
    } else {
      calc {
        Flatten(a + b);
        { assert (a + b)[0] == a[0] && (a + b)[1..] == a[1..] + b; }
        a[0] + Flatten(a[1..] + b);
        { FlattenConcat(a[1..], b); }
        a[0] + (Flatten(a[1..]) + Flatten(b));
        { Assoc(a[0], Flatten(a[1..]), Flatten(b)); }
        Flatten(a) + Flatten(b);
      }
    }
  }

  lemma FlattenSnoc<T>(chunks: seq<seq<T>>, last: seq<T>)
    ensures Flatten(chunks + [last]) == Flatten(chunks) + last
  {
    FlattenConcat(chunks, [last]);
    assert Flatten([last]) == last + Flatten([last][1..]) == last;
  }

  lemma FlattenCut<T>(chunks: seq<seq<T>>, n: nat)
    requires n <= |chunks|
    ensures Flatten(chunks) == Flatten(chunks[..n]) + Flatten(chunks[n..])
  {
    var front, back := chunks[..n], chunks[n..];
    calc {
      Flatten(chunks);
      { assert chunks == front + back; }
      Flatten(front + back);
      { FlattenConcat(front, back); }
      Flatten(front) + Flatten(back);
    }
  }

  lemma SnocConcat<T>(a: seq<T>, b: seq<T>)
    requires b != []
    ensures a + b == (a + b[..|b| - 1]) + [b[|b| - 1]]
  {
    assert b == b[..|b| - 1] + [b[|b| - 1]];
    Assoc(a, b[..|b| - 1], [b[|b| - 1]]);
  }

  lemma TailSnoc<T>(s: seq<T>)
    requires |s| >= 2
    ensures s[1..] == s[..|s| - 1][1..] + [s[|s| - 1]]
  {
  }

  /** The sequences correspond, element by element. */
  ghost predicate Pairwise<A, B>(related: (A, B) -> bool, a: seq<A>, b: seq<B>) {
    |a| == |b| && forall k | 0 <= k < |a| :: related(a[k], b[k])
  }

  lemma PairwiseConcat<A, B>(related: (A, B) -> bool, a: seq<A>, x: seq<B>, b: seq<A>, y: seq<B>)
    requires Pairwise(related, a, x) && Pairwise(related, b, y)
    ensures Pairwise(related, a + b, x + y)
  {
    var s, t := a + b, x + y;
    forall k | 0 <= k < |s|
      ensures related(s[k], t[k])
    {
      if k < |a| {
        assert s[k] == a[k] && t[k] == x[k];
      } else {
        assert s[k] == b[k - |a|] && t[k] == y[k - |a|];
      }
    }
  }

  lemma SliceByPoints<T>(a: seq<T>, b: seq<T>, from: nat)
    requires from + |a| <= |b| && forall i | 0 <= i < |a| :: a[i] == b[from + i]
    ensures a == b[from..from + |a|]
  {
  }

  lemma TakeTake<T>(s: seq<T>, n: nat)
    requires n < |s|
    ensures s[..n + 1][..n] == s[..n] && s[..n + 1][n] == s[n]
  {
  }

  /** A prefix is the whole, or a prefix of all but the last. */
  lemma TakeLess<T>(s: seq<T>, n: nat)
    requires n <= |s|
    ensures if n == |s| then s[..n] == s else s[..|s| - 1][..n] == s[..n]
  {
  }

  lemma CutTail<T>(s: seq<T>, from: nat, to: nat)
    requires from <= to <= |s|
    ensures s[from..to] + s[to..] == s[from..]
  {
  }

  lemma SliceOfSlice<T>(s: seq<T>, first: nat, end: nat, from: nat, to: nat)
    requires first <= end <= |s| && from <= to && first + to <= end
    ensures s[first..end][from..to] == s[first + from..first + to]
  {
    var a, b := s[first..end][from..to], s[first + from..first + to];
    assert |a| == |b|;
    forall i | 0 <= i < |a|
      ensures a[i] == b[i]
    {
      assert a[i] == s[first..end][from + i] == s[first + from + i];
    }
  }

  lemma PrefixBehind<T>(front: seq<T>, a: seq<T>, b: seq<T>)
    requires a <= b
    ensures front + a <= front + b
  {
  }
}
