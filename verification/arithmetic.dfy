/** Two facts about products and remainders. */
module Arithmetic {

  lemma AtLeastOnce(m: int, k: int)
    requires m > 0 && k >= 1
    ensures m * k >= m
  {
    assert m * k == m * (k - 1) + m;
    assert m * (k - 1) >= 0;
  }

  // Quotient and remainder are the only ones there are.
  lemma QuotientIsUnique(x: int, m: nat, q: int, r: nat)
    requires m > 0 && x == m * q + r && r < m
    ensures x / m == q && x % m == r
  {
    var d := x / m - q;
    assert m * d == m * (x / m) - m * q;
    if d >= 1 {
      AtLeastOnce(m, d);
    } else if d <= -1 {
      AtLeastOnce(m, -d);
    }
  }
}
