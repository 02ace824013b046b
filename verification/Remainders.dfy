/** Quotients and remainders from a representation q d + r. */
module Remainders {

  lemma DivIs(x: nat, q: nat, r: nat, d: nat)
    requires d > 0 && x == q * d + r && r < d
    ensures x / d == q && x % d == r
  {
    var q', r' := x / d, x % d;
    assert x == q' * d + r';
    assert (q' - q) * d == q' * d - q * d && (q - q') * d == q * d - q' * d;
    if q' > q {
      Grows(1, q' - q, d);
    } else if q' < q {
      Grows(1, q - q', d);
    }
  }

  lemma Grows(a: nat, b: nat, d: nat)
    requires a <= b
    ensures a * d <= b * d
  {
  }

  lemma SmallMod(x: nat, m: nat)
    requires x < m
    ensures x % m == x
  {
  }

  lemma Regroup(q: nat, m: nat, d: nat, t: nat, r: nat)
    ensures q * (m * d) + (t * d + r) == (q * m + t) * d + r
  {
  }

  /** The remainder by a divisor of the modulus is not affected by the modulus. */
  lemma ModMod(x: nat, m: nat, d: nat)
    requires m > 0 && d > 0
    ensures m * d > 0 && x % (m * d) % d == x % d
  {
    Grows(1, m, d);
    var w := m * d;
    var q, y := x / w, x % w;
    assert x == q * w + y && y == y / d * d + y % d;
    Regroup(q, m, d, y / d, y % d);
    DivIs(x, q * m + y / d, y % d, d);
  }
}
