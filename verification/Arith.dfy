/** Facts about products, kept apart so that other proofs need no multiplication. */
module Arith {

  lemma MulStep(a: nat, c: nat)
    ensures (a + 1) * c == a * c + c && a * c >= 0
  {
  }

  lemma {:induction false} MulMono(a: nat, b: nat, c: nat)
    requires a <= b
    ensures a * c <= b * c
    decreases b
  {
  }

  /** A position before the end of step `a` is before step `b`, for `a` before `b`. */
  lemma StepsApart(a: nat, b: nat, c: nat)
    requires a < b
    ensures 0 <= a * c && a * c + c <= b * c
  {
    MulStep(a, c);
    MulMono(a + 1, b, c);
  }
}
