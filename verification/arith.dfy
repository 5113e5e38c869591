/** Facts about integer multiplication and division that the layout and wrap
    proofs share. */
module Arith {

  /** A non-zero multiple of a positive number is at least that number in size. */
  lemma MulAwayFromZero(a: int, d: int)
    requires d >= 1
    ensures a >= 1 ==> a * d >= d
    ensures a <= -1 ==> a * d <= -d
  {
  }

  /** Multiplying by a non-negative number keeps the order. */
  lemma MulMonotone(a: int, b: int, d: int)
    requires d >= 0
    ensures a <= b ==> a * d <= b * d
  {
  }

  /** `q` and `r` are the quotient and remainder of `n` by `d`. */
  lemma DivModUnique(n: int, d: int, q: int, r: int)
    requires d >= 1 && 0 <= r < d && n == q * d + r
    ensures n / d == q && n % d == r
  {
    var q0, r0 := n / d, n % d;
    assert n == q0 * d + r0;
    assert (q - q0) * d == r0 - r;
    MulAwayFromZero(q - q0, d);
  }

  /** Quotient-remainder pairs compare like the numbers they denote. */
  lemma LexicographicDivMod(qj: int, rj: int, qk: int, rk: int, d: int)
    requires d >= 1 && 0 <= rj < d && 0 <= rk < d
    requires qj * d + rj < qk * d + rk
    ensures qj < qk || (qj == qk && rj < rk)
  {
    var a := qk - qj;
    assert a * d == qk * d - qj * d;
    MulAwayFromZero(a, d);
  }
}
