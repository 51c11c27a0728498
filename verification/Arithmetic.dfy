/** Facts about products and quotients of integers. */
module Arithmetic {
  lemma OneMoreTimes(k: int, n: int)
    ensures (k + 1) * n == k * n + n
  {
  }

  lemma TimesMonotone(x: int, y: int, n: nat)
    requires x <= y
    ensures x * n <= y * n
  {
  }

  lemma Quotient(x: int, n: int, q: int)
    requires n > 0 && q == x / n
    ensures q * n <= x < (q + 1) * n
  {
  }
}
