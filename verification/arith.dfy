/** Integer helpers shared by the search, the AI's random pick and the
    display formatting. */
module Arith {

  function Max(x: int, y: int): int { if x >= y then x else y }
  function Min(x: int, y: int): int { if x <= y then x else y }

  /** Multiplying by a natural number keeps the sign of a non-negative factor. */
  lemma MulNonnegative(x: int, n: nat)
    ensures x >= 0 ==> x * n >= 0
  {
  }

  /** A factor of at least one keeps `n` at most the product; a factor of at
      most minus one makes the product at most `-n`. */
  lemma MulBounds(x: int, n: nat)
    ensures x >= 1 ==> x * n >= n
    ensures x <= -1 ==> x * n + n <= 0
  {
  }

  /** Multiplying by a natural number keeps the order of the factors. */
  lemma MulMonotone(x: int, y: int, n: nat)
    ensures x <= y ==> x * n <= y * n
  {
    assert y * n - x * n == (y - x) * n;
  }
}
