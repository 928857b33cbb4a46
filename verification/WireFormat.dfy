/** Little-endian fields, records of fields and tables of records: encoding and decoding are
    mutually inverse. */
module WireFormat {
  import opened Wrappers
  import opened Arith
  import opened Sequences

  type u32 = x: int | 0 <= x < 0x1_0000_0000
  type u64 = x: int | 0 <= x < 0x1_0000_0000_0000_0000

  // ---- one field ---------------------------------------------------------------------------------

  function Pow256(n: nat): (p: nat)
    ensures p > 0
  {
    if n == 0 then 1 else 256 * Pow256(n - 1)
  }

  function Le(width: nat, value: nat): (b: seq<byte>)
    ensures |b| == width
  {
    if width == 0 then [] else [value % 256] + Le(width - 1, value / 256)
  }

  function FromLe(b: seq<byte>): nat {
    if b == [] then 0 else b[0] + 256 * FromLe(b[1..])
  }

  lemma {:induction false} DecodeField(width: nat, value: nat)
    requires value < Pow256(width)
    ensures FromLe(Le(width, value)) == value
  {
    if width > 0 {
      DecodeField(width - 1, value / 256);
      assert Le(width, value)[1..] == Le(width - 1, value / 256);
    }
  }

  lemma {:induction false} EncodeField(b: seq<byte>)
    ensures FromLe(b) < Pow256(|b|)
    ensures Le(|b|, FromLe(b)) == b
  {
    if b != [] {
      EncodeField(b[1..]);
      var rest := FromLe(b[1..]);
      assert (b[0] + 256 * rest) % 256 == b[0] && (b[0] + 256 * rest) / 256 == rest;
    }
  }

  // ---- a record of fields ------------------------------------------------------------------------

  /** The width of each field, in order. */
  type Shape = seq<nat>

  function Width(shape: Shape): nat {
    if shape == [] then 0 else shape[0] + Width(shape[1..])
  }

  predicate Fits(shape: Shape, values: seq<nat>) {
    |values| == |shape| && forall i | 0 <= i < |shape| :: values[i] < Pow256(shape[i])
  }

  function Pack(shape: Shape, values: seq<nat>): (b: seq<byte>)
    requires |values| == |shape|
    ensures |b| == Width(shape)
  {
    if shape == [] then [] else Le(shape[0], values[0]) + Pack(shape[1..], values[1..])
  }

  function Unpack(shape: Shape, b: seq<byte>): (values: seq<nat>)
    requires |b| == Width(shape)
    ensures |values| == |shape|
  {
    if shape == [] then [] else [FromLe(b[..shape[0]])] + Unpack(shape[1..], b[shape[0]..])
  }

  lemma {:induction false} UnpackPacked(shape: Shape, values: seq<nat>)
    requires Fits(shape, values)
    ensures Unpack(shape, Pack(shape, values)) == values
  {
    if shape != [] {
      var first, rest := Le(shape[0], values[0]), Pack(shape[1..], values[1..]);
      DecodeField(shape[0], values[0]);
      UnpackPacked(shape[1..], values[1..]);
      assert (first + rest)[..shape[0]] == first && (first + rest)[shape[0]..] == rest;
    }
  }

  lemma {:induction false} UnpackFits(shape: Shape, b: seq<byte>)
    requires |b| == Width(shape)
    ensures Fits(shape, Unpack(shape, b))
  {
    if shape != [] {
      EncodeField(b[..shape[0]]);
      UnpackFits(shape[1..], b[shape[0]..]);
      FitsCons(shape, FromLe(b[..shape[0]]), Unpack(shape[1..], b[shape[0]..]));
    }
  }

  lemma FitsCons(shape: Shape, value: nat, rest: seq<nat>)
    requires shape != [] && value < Pow256(shape[0]) && Fits(shape[1..], rest)
    ensures Fits(shape, [value] + rest)
  {
    var values := [value] + rest;
    forall i | 0 <= i < |shape|
      ensures values[i] < Pow256(shape[i])
    {
      if i > 0 {
        assert values[i] == rest[i - 1] && shape[i] == shape[1..][i - 1];
      }
    }
  }

  lemma {:induction false} PackUnpacked(shape: Shape, b: seq<byte>)
    requires |b| == Width(shape)
    ensures Pack(shape, Unpack(shape, b)) == b
  {
    if shape != [] {
      var first, rest := b[..shape[0]], b[shape[0]..];
      EncodeField(first);
      PackUnpacked(shape[1..], rest);
      assert Unpack(shape, b)[1..] == Unpack(shape[1..], rest);
      assert first + rest == b;
    }
  }

  // ---- a table of records -------------------------------------------------------------------------

  predicate AllWide(records: seq<seq<byte>>, width: nat) {
    forall i | 0 <= i < |records| :: |records[i]| == width
  }

  function Cut(b: seq<byte>, width: nat, count: nat): (records: seq<seq<byte>>)
    requires |b| == Rows(width, count)
    ensures |records| == count && AllWide(records, width)
  {
    if count == 0 then [] else [b[..width]] + Cut(b[width..], width, count - 1)
  }

  lemma {:induction false} CutJoined(records: seq<seq<byte>>, width: nat)
    requires AllWide(records, width)
    ensures |Flatten(records)| == Rows(width, |records|)
    ensures Cut(Flatten(records), width, |records|) == records
  {
    if records != [] {
      CutJoined(records[1..], width);
      var b := Flatten(records);
      assert b[..width] == records[0] && b[width..] == Flatten(records[1..]);
    }
  }

  lemma {:induction false} JoinCut(b: seq<byte>, width: nat, count: nat)
    requires |b| == Rows(width, count)
    ensures Flatten(Cut(b, width, count)) == b
  {
    if count > 0 {
      JoinCut(b[width..], width, count - 1);
      var records := Cut(b, width, count);
      assert records[1..] == Cut(b[width..], width, count - 1);
      assert b[..width] + b[width..] == b;
    }
  }

  function Zeros(n: nat): (b: seq<byte>)
    ensures |b| == n
  {
    seq(n, _ => 0)
  }

  predicate AllZero(b: seq<byte>) {
    forall i | 0 <= i < |b| :: b[i] == 0
  }
}
