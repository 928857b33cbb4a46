/** Small facts about natural division used by the layout and chunking arithmetic. */
module Arith {
  const U64_LIMIT := 0x1_0000_0000_0000_0000

  function Min(a: nat, b: nat): nat { if a < b then a else b }
  function Max(a: nat, b: nat): nat { if a < b then b else a }

  /** The quotient is the largest whole number of `b`s in `a`. */
  function Div(a: nat, b: nat): (q: nat)
    requires b > 0
    ensures q * b <= a < q * b + b
  {
    a / b
  }

  function Pow2(n: nat): (p: nat)
    ensures p > 0
  {
    if n == 0 then 1 else 2 * Pow2(n - 1)
  }

  /** n rows of `stride` bytes, `n * stride`, by repeated addition. */
  function Rows(stride: nat, n: nat): nat {
    if n == 0 then 0 else Rows(stride, n - 1) + stride
  }

  lemma {:induction false} RowsIsProduct(stride: nat, n: nat)
    ensures Rows(stride, n) == n * stride
  {
    if n > 0 {
      RowsIsProduct(stride, n - 1);
    }
  }

  lemma {:induction false} RowsAdd(stride: nat, a: nat, b: nat)
    ensures Rows(stride, a + b) == Rows(stride, a) + Rows(stride, b)
  {
    if b > 0 {
      RowsAdd(stride, a, b - 1);
    }
  }
}
