/** A fact about multiples that several proofs use. */
module Arithmetic {
  lemma MultipleBound(k: int, n: nat)
    ensures k <= 0 ==> k * n <= 0
    ensures k >= 1 ==> k * n >= n
  {
    if k >= 1 {
      assert k * n == (k - 1) * n + n;
    }
  }
}
