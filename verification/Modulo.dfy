/** Division with remainder. */
module Modulo {

  lemma AtLeastOnce(k: int, d: int)
    requires k >= 1 && d >= 1
    ensures k * d >= d
  {
  }

  /** Quotient and remainder are unique. */
  lemma UniqueRemainder(x: int, d: int, q: int, r: int)
    requires d >= 1 && x == q * d + r && 0 <= r < d
    ensures x / d == q && x % d == r
  {
    var q2, r2 := x / d, x % d;
    Difference(x, d, q, r, q2, r2);
    if q > q2 {
      AtLeastOnce(q - q2, d);
    } else if q < q2 {
      AtLeastOnce(q2 - q, d);
    }
  }

  lemma Difference(x: int, d: int, q: int, r: int, q2: int, r2: int)
    requires x == q * d + r && x == q2 * d + r2
    ensures (q - q2) * d == r2 - r && (q2 - q) * d == r - r2
  {
  }

  lemma MultipleHasNoRemainder(q: int, d: int)
    requires d >= 1
    ensures (q * d) % d == 0 && (q * d) / d == q
  {
    UniqueRemainder(q * d, d, q, 0);
  }

  /** Counting one on. */
  lemma NextRemainder(i: nat, d: nat)
    requires d >= 1
    ensures i % d + 1 < d ==> (i + 1) / d == i / d && (i + 1) % d == i % d + 1
    ensures i % d + 1 == d ==> (i + 1) / d == i / d + 1 && (i + 1) % d == 0
  {
    if i % d + 1 < d {
      UniqueRemainder(i + 1, d, i / d, i % d + 1);
    } else {
      OneMore(i / d, d);
      UniqueRemainder(i + 1, d, i / d + 1, 0);
    }
  }

  lemma OneMore(q: int, d: int)
    ensures (q + 1) * d == q * d + d
  {
  }

  /** What the remainder of -x adds to x makes it a multiple. */
  lemma NegativeRemainder(x: int, d: int)
    requires x >= 0 && d >= 1
    ensures 0 <= (-x) % d < d && (x + (-x) % d) % d == 0
  {
    var q, r := (-x) / d, (-x) % d;
    Negated(x, d, q, r);
    MultipleHasNoRemainder(-q, d);
  }

  lemma Negated(x: int, d: int, q: int, r: int)
    requires -x == q * d + r
    ensures x + r == (-q) * d
  {
  }

  lemma SumOfMultiples(a: nat, b: nat, d: nat)
    requires d >= 1 && a % d == 0 && b % d == 0
    ensures (a + b) % d == 0 && (a + b) / d == a / d + b / d
  {
    AddQuotients(a, b, d, a / d, b / d);
    MultipleHasNoRemainder(a / d + b / d, d);
  }

  lemma AddQuotients(a: int, b: int, d: int, p: int, q: int)
    requires a == p * d && b == q * d
    ensures a + b == (p + q) * d
  {
  }
}
