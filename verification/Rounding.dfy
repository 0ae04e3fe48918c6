/**
 Rounding to a whole number of kobo, with halves going up. `RoundHalfUp` stands for three things:

  - `Math.round`, for any number;
  - the ROUND_HALF_UP of decimal.js, for the non-negative amounts the ledger stores;
  - for the same amounts, the rounding of a NUMERIC(18,2) column to two decimals.
 */
module Rounding {

  function RoundHalfUp(x: real): (n: int)
    ensures n as real - 0.5 <= x < n as real + 0.5
  {
    (x + 0.5).Floor
  }

  /** The contract of RoundHalfUp leaves only one answer. */
  lemma RoundHalfUpUnique(x: real, n: int)
    requires n as real - 0.5 <= x < n as real + 0.5
    ensures RoundHalfUp(x) == n
  {
  }

  lemma RoundWhole(n: int)
    ensures RoundHalfUp(n as real) == n
  {
  }

  lemma RoundMonotone(x: real, y: real)
    requires x <= y
    ensures RoundHalfUp(x) <= RoundHalfUp(y)
  {
  }
}
