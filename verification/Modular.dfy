/** Remainders of sums that wrap around at most once. */
module Modular {

  lemma WrapsOnce(a: nat, n: nat)
    requires 0 < n && a < 2 * n
    ensures a % n == if a < n then a else a - n
  {
  }
}
