/** Quotients and remainders of products. */
module Arithmetic {

  lemma SmallMultiple(d: nat, t: int)
    requires d > 0 && 0 - d < d * t < d
    ensures t == 0
  {
  }

  /** Quotient and remainder are unique. */
  lemma QuotientUnique(x: int, d: nat, q: int, r: nat)
    requires x == d * q + r && r < d
    ensures x / d == q && x % d == r
  {
    assert x == d * (x / d) + x % d;
    assert d * (q - x / d) == d * q - d * (x / d);
    SmallMultiple(d, q - x / d);
  }
}
