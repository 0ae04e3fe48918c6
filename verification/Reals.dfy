/**
 Real arithmetic that several services share.

   - The smaller and the larger of two numbers.
   - Products under a name, so that proofs can treat each as one term, and what scaling does to an inequality.
     Multiplication of two unknowns is hard for a solver; with a name it is not looked into unless a lemma
     here is called for it.
 */
module Reals {

  function Min(x: real, y: real): real { if x <= y then x else y }

  function Max(x: real, y: real): real { if x >= y then x else y }

  /** A product under a name, so that proofs can treat it as one term. */
  function Product(x: real, y: real): real { x * y }

  lemma Scale(k: real, x: real, y: real)
    requires k >= 0.0 && x <= y
    ensures Product(k, x) <= Product(k, y) && Product(x, k) <= Product(y, k)
  {
  }

  lemma NonNegativeProduct(x: real, y: real)
    requires x >= 0.0 && y >= 0.0
    ensures Product(x, y) >= 0.0
  {
  }
}
