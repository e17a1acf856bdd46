/** The few facts about products and remainders that need stating. */
module Arithmetic {

  lemma Distribute(e: int, n: int, m: nat)
    ensures (e - n) * m == e * m - n * m
  {
  }

  lemma Sign(d: int, m: nat)
    requires m > 0
    ensures d <= 0 ==> d * m <= 0
    ensures d >= 1 ==> d * m >= m
  {
  }

  /** Quotient and remainder are unique. */
  lemma ModIs(x: int, m: nat, q: int, r: nat)
    requires m > 0 && x == q * m + r && r < m
    ensures x % m == r
  {
    var d := q - x / m;
    Distribute(q, x / m, m);
    Sign(d, m);
    Sign(-d, m);
    assert (-d) * m == -(d * m);
  }
}
