/** A texture strip never exceeds the submit wire's table limits. */
module StripLimits {
  import opened Wrappers
  import opened Arith
  import opened WireFormat
  import opened Sequences
  import opened Accesses
  import opened Authority
  import opened Stream
  import opened Commands
  import opened Uploads
  import opened Painting
  import A = AsyncSplit
  import O = Operations
  import W = SubmitWire

  function CopyCount(dwords: nat): nat { (dwords + 127) / 128 }

  /** The stream of a list of commands. */
  function StreamOf(cs: seq<Command>): seq<Code> { Flatten(LowerAll(cs)) }

  lemma StreamConcat(a: seq<Command>, b: seq<Command>)
    ensures StreamOf(a + b) == StreamOf(a) + StreamOf(b)
  {
    assert LowerAll(a + b) == LowerAll(a) + LowerAll(b);
    FlattenConcat(LowerAll(a), LowerAll(b));
  }

  lemma StreamOne(c: Command)
    ensures StreamOf([c]) == Lower(c)
  {
    assert LowerAll([c]) == [Lower(c)];
    assert Flatten([Lower(c)]) == Lower(c) + Flatten([Lower(c)][1..]) == Lower(c);
  }

  // ---- one copy ----------------------------------------------------------------------------------------------------

  function From(id: nat, from: u64, dwords: nat): Address
    requires dwords <= MAX_COPY_DWORDS
  {
    Address(Generated(id), from, 4 * dwords, READ, W.GpuVa64)
  }

  function Into(target: nat, to: u64, dwords: nat): Address
    requires dwords <= MAX_COPY_DWORDS
  {
    Address(External(target), to, 4 * dwords, WRITE, W.GpuVa64)
  }

  lemma CopyCodes(id: nat, from: u64, target: nat, to: u64, n: nat)
    requires n <= MAX_COPY_DWORDS
    ensures var p, s, d := Lower(MemCopy(id, from, target, to, n)), From(id, from, n), Into(target, to, n);
            |p| == 6 && p[0].Head? && p[1..] == [Word(n), Low(s), High(s), Low(d), High(d)]
    ensures |Lower(Run(WAIT_MEM_WRITES, []))| == 1 && Lower(Run(WAIT_MEM_WRITES, []))[0].Head?
  {
    var s, d := From(id, from, n), Into(target, to, n);
    var fs := [Val(n), Ref(s), Ref(d)];
    assert fs[1..] == [Ref(s), Ref(d)] && [Ref(s), Ref(d)][1..] == [Ref(d)] && [Ref(d)][1..] == [];
    assert Expand([Ref(d)]) == [Low(d), High(d)] + Expand([]);
    assert Expand([Ref(s), Ref(d)]) == [Low(s), High(s)] + Expand([Ref(d)]);
    assert Expand(fs) == [Word(n)] + Expand([Ref(s), Ref(d)]);
  }

  lemma FixupsOfSix(h: Code, w: Code, s: Address, d: Address, base: nat)
    requires h.Head? && w.Word? && base + 6 <= 0x1_0000_0000
    ensures Fixups([h, w, Low(s), High(s), Low(d), High(d)], base) == [FixupAt(s, base + 2), FixupAt(d, base + 4)]
  {
    FixupsSnoc([], h, base);
    assert [] + [h] == [h];
    FixupsSnoc([h], w, base);
    assert [h] + [w] == [h, w];
    FixupsSnoc([h, w], Low(s), base);
    assert [h, w] + [Low(s)] == [h, w, Low(s)];
    FixupsSnoc([h, w, Low(s)], High(s), base);
    assert [h, w, Low(s)] + [High(s)] == [h, w, Low(s), High(s)];
    FixupsSnoc([h, w, Low(s), High(s)], Low(d), base);
    assert [h, w, Low(s), High(s)] + [Low(d)] == [h, w, Low(s), High(s), Low(d)];
    FixupsSnoc([h, w, Low(s), High(s), Low(d)], High(d), base);
    assert [h, w, Low(s), High(s), Low(d)] + [High(d)] == [h, w, Low(s), High(s), Low(d), High(d)];
  }

  /** One copy and its barrier: two fixups in seven dwords. */
  lemma CopyFixups(id: nat, from: u64, target: nat, to: u64, n: nat, base: nat)
    requires n <= MAX_COPY_DWORDS && base + 7 <= 0x1_0000_0000
    ensures var cs := StreamOf([MemCopy(id, from, target, to, n)] + [Run(WAIT_MEM_WRITES, [])]);
            |cs| == 7 && Fixups(cs, base) == [FixupAt(From(id, from, n), base + 2), FixupAt(Into(target, to, n), base + 4)]
  {
    var copy, wait := MemCopy(id, from, target, to, n), Run(WAIT_MEM_WRITES, []);
    StreamConcat([copy], [wait]);
    StreamOne(copy);
    StreamOne(wait);
    CopyCodes(id, from, target, to, n);
    var p, q := Lower(copy), Lower(wait);
    FixupsOfSix(p[0], Word(n), From(id, from, n), Into(target, to, n), base);
    assert p == [p[0]] + p[1..];
    assert p == [p[0], Word(n), Low(From(id, from, n)), High(From(id, from, n)), Low(Into(target, to, n)), High(Into(target, to, n))];
    FixupsConcat(p, q, base);
    FixupsSnoc([], q[0], base + 6);
    assert [] + [q[0]] == q;
  }

  // ---- one row -----------------------------------------------------------------------------------------------------

  /** The bytes a row's copies need: a piece of the staging object, and a piece of the image. */
  predicate RowNeeds(id: nat, from: nat, target: nat, to: nat, dwords: nat, o: ObjectRef, a: Access, at: nat) {
    || (o == Generated(id) && a == READ && from <= at < from + 4 * dwords)
    || (o == External(target) && a == WRITE && to <= at < to + 4 * dwords)
  }

  ghost predicate NeedsRow(fs: seq<Fixup>, id: nat, from: nat, target: nat, to: nat, dwords: nat) {
    forall o, a, at :: Needed(fs, [], o, a, at) <==> RowNeeds(id, from, target, to, dwords, o, a, at)
  }

  lemma NeededConcat(fs: seq<Fixup>, gs: seq<Fixup>, o: ObjectRef, a: Access, at: nat)
    ensures Needed(fs + gs, [], o, a, at) <==> Needed(fs, [], o, a, at) || Needed(gs, [], o, a, at)
  {
    if Needed(fs, [], o, a, at) {
      var f :| f in fs && !f.target.CanonicalShader? && RangeOf(f).Holds(o, a, at);
      assert f in fs + gs;
    }
    if Needed(gs, [], o, a, at) {
      var f :| f in gs && !f.target.CanonicalShader? && RangeOf(f).Holds(o, a, at);
      assert f in fs + gs;
    }
  }

  lemma NeededPair(f: Fixup, g: Fixup, o: ObjectRef, a: Access, at: nat)
    requires !f.target.CanonicalShader? && !g.target.CanonicalShader?
    ensures Needed([f, g], [], o, a, at) <==> RangeOf(f).Holds(o, a, at) || RangeOf(g).Holds(o, a, at)
  {
    assert f in [f, g] && g in [f, g];
  }

  lemma CopyNeeds(id: nat, from: u64, target: nat, to: u64, n: nat, base: nat)
    requires n <= MAX_COPY_DWORDS && base + 7 <= 0x1_0000_0000
    ensures NeedsRow([FixupAt(From(id, from, n), base + 2), FixupAt(Into(target, to, n), base + 4)], id, from, target, to, n)
  {
    var f, g := FixupAt(From(id, from, n), base + 2), FixupAt(Into(target, to, n), base + 4);
    forall o, a, at
      ensures Needed([f, g], [], o, a, at) <==> RowNeeds(id, from, target, to, n, o, a, at)
    {
      NeededPair(f, g, o, a, at);
    }
  }

  lemma NeedsJoin(fs: seq<Fixup>, gs: seq<Fixup>, id: nat, from: nat, target: nat, to: nat, n: nat, m: nat)
    requires NeedsRow(fs, id, from, target, to, n) && NeedsRow(gs, id, from + 4 * n, target, to + 4 * n, m)
    ensures NeedsRow(fs + gs, id, from, target, to, n + m)
  {
    forall o, a, at
      ensures Needed(fs + gs, [], o, a, at) <==> RowNeeds(id, from, target, to, n + m, o, a, at)
    {
      NeededConcat(fs, gs, o, a, at);
    }
  }

  /** What is known of a row's stream: its length, its number of fixups, and the bytes they need. */
  ghost predicate RowStream(cs: seq<Code>, base: nat, id: nat, from: nat, target: nat, to: nat, dwords: nat) {
    && |cs| == 7 * CopyCount(dwords) && base + |cs| <= 0x1_0000_0000
    && |Fixups(cs, base)| == 2 * CopyCount(dwords)
    && NeedsRow(Fixups(cs, base), id, from, target, to, dwords)
  }

  lemma CountStep(n: nat, dwords: nat)
    requires 0 < n <= 128 && n <= dwords && (n == 128 || n == dwords)
    ensures CopyCount(dwords) == 1 + CopyCount(dwords - n)
  {
  }

  lemma RowStreamJoin(all: seq<Code>, first: seq<Code>, rest: seq<Code>, base: nat, id: nat, from: nat, target: nat, to: nat,
                      n: nat, dwords: nat)
    requires 0 < n <= 128 && n <= dwords && (n == 128 || n == dwords) && all == first + rest
    requires |first| == 7 && base + 7 <= 0x1_0000_0000 && |Fixups(first, base)| == 2
    requires NeedsRow(Fixups(first, base), id, from, target, to, n)
    requires RowStream(rest, base + 7, id, from + 4 * n, target, to + 4 * n, dwords - n)
    ensures RowStream(all, base, id, from, target, to, dwords)
  {
    CountStep(n, dwords);
    FixupsConcat(first, rest, base);
    NeedsJoin(Fixups(first, base), Fixups(rest, base + 7), id, from, target, to, n, dwords - n);
  }

  lemma NoStream(base: nat, id: nat, from: nat, target: nat, to: nat)
    requires base <= 0x1_0000_0000
    ensures RowStream(StreamOf([]), base, id, from, target, to, 0)
  {
    assert LowerAll([]) == [];
  }

  lemma RowSplits(id: nat, from: nat, target: nat, to: nat, dwords: nat)
    requires CopyFits(from, to, dwords) && dwords > 0
    ensures var n := Min(dwords, MAX_COPY_DWORDS);
            && CopyFits(from + 4 * n, to + 4 * n, dwords - n)
            && StreamOf(CopyRow(id, from, target, to, dwords)) ==
               StreamOf([MemCopy(id, from, target, to, n)] + [Run(WAIT_MEM_WRITES, [])])
               + StreamOf(CopyRow(id, from + 4 * n, target, to + 4 * n, dwords - n))
  {
    var n := Min(dwords, MAX_COPY_DWORDS);
    var copy, wait := [MemCopy(id, from, target, to, n)], [Run(WAIT_MEM_WRITES, [])];
    var rest := CopyRow(id, from + 4 * n, target, to + 4 * n, dwords - n);
    Assoc(copy, wait, rest);
    StreamConcat(copy + wait, rest);
  }

  lemma FirstStream(id: nat, from: u64, target: nat, to: u64, n: nat, base: nat, first: seq<Code>)
    requires n <= MAX_COPY_DWORDS && base + 7 <= 0x1_0000_0000
    requires first == StreamOf([MemCopy(id, from, target, to, n)] + [Run(WAIT_MEM_WRITES, [])])
    ensures |first| == 7 && |Fixups(first, base)| == 2 && NeedsRow(Fixups(first, base), id, from, target, to, n)
  {
    CopyFixups(id, from, target, to, n, base);
    CopyNeeds(id, from, target, to, n, base);
  }

  /** The stream of a row's first copy, and of the rest. */
  lemma RowParts(id: nat, from: nat, target: nat, to: nat, dwords: nat, base: nat, cs: seq<Code>)
    returns (first: seq<Code>, rest: seq<Code>)
    requires CopyFits(from, to, dwords) && base + 7 * CopyCount(dwords) <= 0x1_0000_0000 && dwords > 0
    requires cs == StreamOf(CopyRow(id, from, target, to, dwords))
    ensures var n := Min(dwords, MAX_COPY_DWORDS);
            && CopyFits(from + 4 * n, to + 4 * n, dwords - n) && CopyCount(dwords) == 1 + CopyCount(dwords - n)
            && cs == first + rest && rest == StreamOf(CopyRow(id, from + 4 * n, target, to + 4 * n, dwords - n))
            && |first| == 7 && |Fixups(first, base)| == 2 && NeedsRow(Fixups(first, base), id, from, target, to, n)
  {
    var n := Min(dwords, MAX_COPY_DWORDS);
    CountStep(n, dwords);
    RowSplits(id, from, target, to, dwords);
    first := StreamOf([MemCopy(id, from, target, to, n)] + [Run(WAIT_MEM_WRITES, [])]);
    rest := StreamOf(CopyRow(id, from + 4 * n, target, to + 4 * n, dwords - n));
    FirstStream(id, from, target, to, n, base, first);
  }

  lemma {:induction false} RowFixups(id: nat, from: nat, target: nat, to: nat, dwords: nat, base: nat, cs: seq<Code>)
    requires CopyFits(from, to, dwords) && base + 7 * CopyCount(dwords) <= 0x1_0000_0000
    requires cs == StreamOf(CopyRow(id, from, target, to, dwords))
    ensures RowStream(cs, base, id, from, target, to, dwords)
    decreases dwords
  {
    if dwords == 0 {
      NoStream(base, id, from, target, to);
    } else {
      var n := Min(dwords, MAX_COPY_DWORDS);
      var first, rest := RowParts(id, from, target, to, dwords, base, cs);
      RowFixups(id, from + 4 * n, target, to + 4 * n, dwords - n, base + 7, rest);
      RowStreamJoin(cs, first, rest, base, id, from, target, to, n, dwords);
    }
  }

  // ---- one strip ---------------------------------------------------------------------------------------------------

  /** The bytes the copies of the first n rows need. */
  predicate StripNeeds(id: nat, c: Canvas, area: O.Rect, n: nat, o: ObjectRef, a: Access, at: nat) {
    || (o == Generated(id) && a == READ && at < Rows(4 * area.width, n))
    || (o == External(c.target) && a == WRITE && RowAt(c, area, n, at).Some?)
  }

  ghost predicate NeedsStrip(fs: seq<Fixup>, id: nat, c: Canvas, area: O.Rect, n: nat) {
    forall o, a, at :: Needed(fs, [], o, a, at) <==> StripNeeds(id, c, area, n, o, a, at)
  }

  ghost predicate StripStream(cs: seq<Code>, id: nat, c: Canvas, area: O.Rect, n: nat) {
    && |cs| == Rows(7 * CopyCount(area.width), n) <= 0x1_0000_0000
    && |Fixups(cs, 0)| == Rows(2 * CopyCount(area.width), n)
    && NeedsStrip(Fixups(cs, 0), id, c, area, n)
  }

  lemma StripNeedsStep(fs: seq<Fixup>, gs: seq<Fixup>, id: nat, c: Canvas, area: O.Rect, n: nat)
    requires NeedsStrip(fs, id, c, area, n)
    requires NeedsRow(gs, id, Rows(4 * area.width, n), c.target, PixelAt(c, area.x, area.y + n), area.width)
    ensures NeedsStrip(fs + gs, id, c, area, n + 1)
  {
    forall o, a, at
      ensures Needed(fs + gs, [], o, a, at) <==> StripNeeds(id, c, area, n + 1, o, a, at)
    {
      NeededConcat(fs, gs, o, a, at);
      assert RowAt(c, area, n + 1, at).Some? <==> InRow(c, area, n, at) || RowAt(c, area, n, at).Some?;
    }
  }

  lemma StripStreamStep(all: seq<Code>, front: seq<Code>, row: seq<Code>, id: nat, c: Canvas, area: O.Rect, n: nat)
    requires n > 0 && StripStream(front, id, c, area, n - 1) && all == front + row
    requires RowStream(row, |front|, id, Rows(4 * area.width, n - 1), c.target, PixelAt(c, area.x, area.y + (n - 1)), area.width)
    ensures StripStream(all, id, c, area, n)
  {
    FixupsConcat(front, row, 0);
    StripNeedsStep(Fixups(front, 0), Fixups(row, |front|), id, c, area, n - 1);
  }

  lemma {:induction false} StripFixups(id: nat, c: Canvas, area: O.Rect, size: nat, n: nat, cs: seq<Code>)
    requires StripFits(c, area, size) && n <= area.height && Rows(7 * CopyCount(area.width), n) <= 0x1_0000_0000
    requires cs == StreamOf(CopyRows(id, c, area, size, n))
    ensures StripStream(cs, id, c, area, n)
    decreases n
  {
    if n == 0 {
      assert LowerAll([]) == [];
    } else {
      var front, row := StreamOf(CopyRows(id, c, area, size, n - 1)), StreamOf(RowCopies(id, c, area, size, n - 1));
      StripSplits(id, c, area, size, n, cs, front, row);
      RowsMore(7 * CopyCount(area.width), n);
      StripFixups(id, c, area, size, n - 1, front);
      RowFollows(cs, front, row, id, c, area, size, n);
    }
  }

  lemma RowFollows(all: seq<Code>, front: seq<Code>, row: seq<Code>, id: nat, c: Canvas, area: O.Rect, size: nat, n: nat)
    requires StripFits(c, area, size) && 0 < n <= area.height && Rows(7 * CopyCount(area.width), n) <= 0x1_0000_0000
    requires StripStream(front, id, c, area, n - 1) && all == front + row && row == StreamOf(RowCopies(id, c, area, size, n - 1))
    ensures StripStream(all, id, c, area, n)
  {
    RoomForRow(front, id, c, area, n);
    StripRowStream(id, c, area, size, n - 1, |front|, row);
    StripStreamStep(all, front, row, id, c, area, n);
  }

  lemma RowsMore(stride: nat, n: nat)
    requires n > 0
    ensures Rows(stride, n - 1) <= Rows(stride, n)
  {
  }

  lemma RoomForRow(front: seq<Code>, id: nat, c: Canvas, area: O.Rect, n: nat)
    requires n > 0 && StripStream(front, id, c, area, n - 1) && Rows(7 * CopyCount(area.width), n) <= 0x1_0000_0000
    ensures |front| + 7 * CopyCount(area.width) <= 0x1_0000_0000
  {
  }

  lemma StripSplits(id: nat, c: Canvas, area: O.Rect, size: nat, n: nat, cs: seq<Code>, front: seq<Code>, row: seq<Code>)
    requires StripFits(c, area, size) && 0 < n <= area.height && cs == StreamOf(CopyRows(id, c, area, size, n))
    requires front == StreamOf(CopyRows(id, c, area, size, n - 1)) && row == StreamOf(RowCopies(id, c, area, size, n - 1))
    ensures cs == front + row
  {
    StreamConcat(CopyRows(id, c, area, size, n - 1), RowCopies(id, c, area, size, n - 1));
  }

  lemma StripRowStream(id: nat, c: Canvas, area: O.Rect, size: nat, r: nat, base: nat, row: seq<Code>)
    requires StripFits(c, area, size) && r < area.height && base + 7 * CopyCount(area.width) <= 0x1_0000_0000
    requires row == StreamOf(RowCopies(id, c, area, size, r))
    ensures RowStream(row, base, id, Rows(4 * area.width, r), c.target, PixelAt(c, area.x, area.y + r), area.width)
  {
    StripRowFits(c, area, size, r);
    RowFixups(id, Rows(4 * area.width, r), c.target, PixelAt(c, area.x, area.y + r), area.width, base, row);
  }

  // ---- counting ------------------------------------------------------------------------------------------------------

  /** Rows and row bytes of a strip stay within its byte budget, so its fixups stay below 2048. */
  lemma FixupCount(rows: nat, width: nat)
    requires rows <= 512 && rows * width <= 65536
    ensures Rows(2 * CopyCount(width), rows) <= 2048
  {
    RowsIsProduct(2 * CopyCount(width), rows);
    CountProduct(rows, width, CopyCount(width));
  }

  lemma CountProduct(rows: nat, width: nat, k: nat)
    requires rows <= 512 && rows * width <= 65536 && 128 * k <= width + 127
    ensures rows * (2 * k) <= 2048
  {
    calc {
      64 * (rows * (2 * k));
      rows * (128 * k);
    <= { MoreRows(rows, 128 * k, width + 127); }
      rows * (width + 127);
      rows * width + rows * 127;
    <=
      65536 + 512 * 127;
    }
  }

  lemma MoreRows(rows: nat, a: nat, b: nat)
    requires a <= b
    ensures rows * a <= rows * b
  {
  }

  lemma StripBudget(stride: nat, width: nat, rows: nat)
    requires 0 < stride && width <= 0x8000 && rows <= A.StripRows(stride, width)
    ensures rows <= 512 && rows * width <= 65536
  {
    A.StripBytes(stride, width);
    var most := A.StripRows(stride, width);
    assert rows * width <= most * width;
    if most > 1 {
      assert most * width * 4 == 4 * (most * width);
    }
  }

  /** Which row a record starts, or 0 for the staging object. */
  ghost function Label(c: Canvas, area: O.Rect, r: Range, n: nat): nat {
    if r.target.Generated? then 0
    else
      var row := RowAt(c, area, n, r.offset);
      if row.Some? then row.value + 1 else 0
  }

  /** A record of a separated exact table starts where a row, or the staging object, starts. */
  lemma RecordStarts(accesses: seq<Range>, fs: seq<Fixup>, id: nat, c: Canvas, area: O.Rect, size: nat, n: nat, i: nat)
    requires Separated(accesses) && NoneEmpty(accesses) && Exact(accesses, fs, []) && NeedsStrip(fs, id, c, area, n)
    requires AreaFits(c, area, size) && n <= area.height && i < |accesses|
    ensures var r := accesses[i];
            || (r.target == Generated(id) && r.access == READ && r.offset == 0)
            || (r.target == External(c.target) && r.access == WRITE && RowAt(c, area, n, r.offset).Some?
                && r.offset == PixelAt(c, area.x, area.y + RowAt(c, area, n, r.offset).value))
  {
    var r := accesses[i];
    assert r.Holds(r.target, r.access, r.offset);
    assert Covers(accesses, r.target, r.access, r.offset);
    assert Needed(fs, [], r.target, r.access, r.offset);
    assert StripNeeds(id, c, area, n, r.target, r.access, r.offset);
    if r.offset > 0 {
      NoByteBefore(accesses, i);
      assert !Needed(fs, [], r.target, r.access, r.offset - 1);
      assert !StripNeeds(id, c, area, n, r.target, r.access, r.offset - 1);
      if r.target.External? {
        var row := RowAt(c, area, n, r.offset).value;
        if PixelAt(c, area.x, area.y + row) < r.offset {
          RowFound(c, area, size, n, row, r.offset - 1);
        }
      }
    }
  }

  /** In a separated table, the byte before a record is not covered. */
  lemma NoByteBefore(accesses: seq<Range>, i: nat)
    requires Separated(accesses) && i < |accesses| && accesses[i].offset > 0
    ensures !Covers(accesses, accesses[i].target, accesses[i].access, accesses[i].offset - 1)
  {
    var r := accesses[i];
    if Covers(accesses, r.target, r.access, r.offset - 1) {
      var k :| 0 <= k < |accesses| && accesses[k].Holds(r.target, r.access, r.offset - 1);
      assert accesses[k].Touches(r) && r.Touches(accesses[k]);
    }
  }

  lemma LabelsDiffer(accesses: seq<Range>, fs: seq<Fixup>, id: nat, c: Canvas, area: O.Rect, size: nat, n: nat, i: nat, j: nat)
    requires Separated(accesses) && NoneEmpty(accesses) && Exact(accesses, fs, []) && NeedsStrip(fs, id, c, area, n)
    requires AreaFits(c, area, size) && n <= area.height && i < j < |accesses|
    ensures Label(c, area, accesses[i], n) != Label(c, area, accesses[j], n)
  {
    RecordStarts(accesses, fs, id, c, area, size, n, i);
    RecordStarts(accesses, fs, id, c, area, size, n, j);
    assert !accesses[i].Touches(accesses[j]);
  }

  /** Distinct labels below m are at most m. */
  lemma {:induction false} Pigeonhole(labels: seq<nat>, m: nat)
    requires forall i | 0 <= i < |labels| :: labels[i] < m
    requires forall i, j | 0 <= i < j < |labels| :: labels[i] != labels[j]
    ensures |labels| <= m
  {
    if labels != [] {
      assert labels[0] < m;
      if exists k | 0 <= k < |labels| :: labels[k] == m - 1 {
        var k :| 0 <= k < |labels| && labels[k] == m - 1;
        Pigeonhole(labels[..k] + labels[k + 1..], m - 1);
      } else {
        Pigeonhole(labels, m - 1);
      }
    }
  }

  /** The exact, separated table of a strip has one record for the staging object and at most one a row. */
  lemma RecordCount(accesses: seq<Range>, fs: seq<Fixup>, id: nat, c: Canvas, area: O.Rect, size: nat, n: nat)
    requires Separated(accesses) && NoneEmpty(accesses) && Exact(accesses, fs, []) && NeedsStrip(fs, id, c, area, n)
    requires AreaFits(c, area, size) && n <= area.height
    ensures |accesses| <= n + 1
  {
    var labels := seq(|accesses|, i requires 0 <= i < |accesses| => Label(c, area, accesses[i], n));
    forall i, j | 0 <= i < j < |labels|
      ensures labels[i] != labels[j]
    {
      LabelsDiffer(accesses, fs, id, c, area, size, n, i, j);
    }
    Pigeonhole(labels, n + 1);
  }

  /** Every strip that the splitter makes of a rectangle of acceptable width needs at most 513 access
      records and 2048 fixups, whatever its stride, so it always fits the wire's tables. */
  lemma StripWithinWireTables(accesses: seq<Range>, id: nat, c: Canvas, strip: O.Operation, op: O.Operation, size: nat)
    requires op.WriteTexture? && op.bytesPerRow > 0 && op.area.width <= 0x8000
    requires A.IsStrip(strip, op, A.StripRows(op.bytesPerRow, op.area.width)) && StripFits(c, strip.area, size)
    requires var cs := StreamOf(CopyRows(id, c, strip.area, size, strip.area.height));
             |cs| <= 0x1_0000_0000 && Authorizes(accesses, Fixups(cs, 0), []) && NoneEmpty(accesses)
    ensures |accesses| <= 513 <= W.MAX_RESOURCES
    ensures |Fixups(StreamOf(CopyRows(id, c, strip.area, size, strip.area.height)), 0)| <= 2048 <= W.MAX_RELOCATIONS
  {
    var rows := strip.area.height;
    StripSizes(op.bytesPerRow, strip.area.width, rows);
    var cs := StreamOf(CopyRows(id, c, strip.area, size, rows));
    StripFixups(id, c, strip.area, size, rows, cs);
    RecordCount(accesses, Fixups(cs, 0), id, c, strip.area, size, rows);
  }

  lemma StripSizes(stride: nat, width: nat, rows: nat)
    requires 0 < stride && width <= 0x8000 && rows <= A.StripRows(stride, width)
    ensures rows <= 512 && Rows(2 * CopyCount(width), rows) <= 2048 && Rows(7 * CopyCount(width), rows) <= 8192
  {
    StripBudget(stride, width, rows);
    FixupCount(rows, width);
    WordsPerFixup(CopyCount(width), rows);
  }

  lemma {:induction false} WordsPerFixup(k: nat, n: nat)
    ensures Rows(7 * k, n) <= 4 * Rows(2 * k, n)
  {
    if n > 0 {
      WordsPerFixup(k, n - 1);
    }
  }
}
