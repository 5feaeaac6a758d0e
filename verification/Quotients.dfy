/** Quotients and remainders are unique. */
module Quotients {
  lemma Division(x: nat, n: nat, q: int, r: nat)
    requires n > 0 && x == n * q + r && r < n
    ensures x / n == q && x % n == r
  {
    assert x == n * (x / n) + x % n;
    var quotient: int := x / n;
    var d := quotient - q;
    assert n * quotient - n * q == n * d;
    assert d >= 1 ==> n * d >= n;
    assert d <= -1 ==> n * d + n <= 0;
  }
}
