/** Products. */
module Arithmetic {
  lemma MulLe(a: int, b: int, c: nat)
    requires a <= b
    ensures a * c <= b * c
  {
  }

  lemma Distribute(t: nat, a: nat, b: nat)
    ensures t * (a + b) == t * a + t * b
  {
  }
}
