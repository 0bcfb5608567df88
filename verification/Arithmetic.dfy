/** Facts about division and remainder by a variable, stated once for every ring in the project. */
module Arithmetic {

  /** Quotient and remainder are determined by the number they make up. */
  lemma QuotientRemainder(x: int, d: nat, k: int, r: nat)
    requires r < d && x == k * d + r
    ensures x / d == k && x % d == r
  {
    var e := x / d - k;
    assert x == (x / d) * d + x % d;
    assert e * d == r - x % d by { Distribute(x / d, k, d); }
    if e >= 1 {
      Scale(1, e, d);
    } else if e <= -1 {
      Scale(e, -1, d);
    }
  }

  lemma Distribute(a: int, b: int, d: int)
    ensures (a - b) * d == a * d - b * d
  {}

  lemma Scale(a: int, b: int, d: nat)
    requires a <= b
    ensures a * d <= b * d
  {}

  /** Numbers with the same quotient and the same remainder are equal. */
  lemma SameParts(x: int, y: int, d: nat)
    requires d > 0 && x / d == y / d && x % d == y % d
    ensures x == y
  {
    assert x == (x / d) * d + x % d;
    assert y == (y / d) * d + y % d;
  }

  /** Adding a multiple of the divisor moves the quotient and keeps the remainder. */
  lemma AddMultiple(x: int, d: nat, k: int)
    requires d > 0
    ensures (x + k * d) / d == x / d + k
    ensures (x + k * d) % d == x % d
  {
    assert x == (x / d) * d + x % d;
    Distribute(x / d + k, k, d);
    QuotientRemainder(x + k * d, d, x / d + k, x % d);
  }

  // ---- Positions on a ring of d slots --------------------------------------------------------------

  /** Moving on from a slot and then taking the remainder again is moving on and taking it once. */
  lemma RingShift(x: int, y: int, d: nat)
    requires d > 0
    ensures (x % d + y) % d == (x + y) % d
  {
    assert x == (x / d) * d + x % d;
    AddMultiple(x % d + y, d, x / d);
  }

  /** Numbers closer together than the ring is long sit in different slots. */
  lemma RingInjective(x: int, y: int, d: nat)
    requires d > 0 && x <= y < x + d && x % d == y % d
    ensures x == y
  {
    assert x == (x / d) * d + x % d;
    assert y == (y / d) * d + y % d;
    var e := y / d - x / d;
    Distribute(y / d, x / d, d);
    if e >= 1 {
      Scale(1, e, d);
    } else if e <= -1 {
      Scale(e, -1, d);
    }
  }

  /** Small numbers are their own remainder. */
  lemma RingSmall(x: nat, d: nat)
    requires x < d
    ensures x % d == x && x / d == 0
  {
    QuotientRemainder(x, d, 0, x);
  }
}
