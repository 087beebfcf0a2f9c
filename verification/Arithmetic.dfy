/**
 * Numbers of machine width, and digits in base 64.
 */
module Arithmetic {

  const TWO_32 := 0x1_0000_0000
  const TWO_64 := 0x1_0000_0000_0000_0000

  lemma Quotient64(n: nat, q: nat, r: nat)
    requires n == 64 * q + r && r < 64
    ensures n / 64 == q && n % 64 == r
  {
  }

  lemma TimesAtLeast(a: nat, d: nat)
    requires a > 0
    ensures a * d >= d
  {
    assert a * d == d + (a - 1) * d;
  }

  /** Division, from the quotient and the remainder. */
  lemma QuotientIs(x: nat, d: nat, q: nat, r: nat)
    requires x == q * d + r && r < d
    ensures x / d == q
  {
    var p := x / d;
    assert x == p * d + x % d;
    if p < q {
      TimesAtLeast(q - p, d);
    } else if q < p {
      TimesAtLeast(p - q, d);
    }
  }

  lemma Expand(q: nat, d: nat, r: nat, c: nat)
    ensures (q * d + r) * c == q * (c * d) + r * c
  {
    assert q * d * c == q * (c * d);
  }

  lemma Difference(d: nat, r: nat, c: nat)
    requires r <= d
    ensures (d - r) * c == c * d - r * c
  {
  }

  lemma RemainderFits(r: nat, m: nat, c: nat, d: nat)
    requires r < d && m < c
    ensures r * c + m < c * d
  {
    TimesAtLeast(d - r, c);
    Difference(d, r, c);
  }

  lemma Positive(c: nat, d: nat)
    requires c > 0 && d > 0
    ensures c * d > 0
  {
    TimesAtLeast(c, d);
  }

  /** Dividing by c and then by d is dividing by their product. */
  lemma QuotientTwice(x: nat, c: nat, d: nat)
    requires c > 0 && d > 0
    ensures c * d > 0 && x / c / d == x / (c * d)
  {
    Positive(c, d);
    Divided(x, c);
    Divided(x / c, d);
    Expand(x / c / d, d, x / c % d, c);
    RemainderFits(x / c % d, x % c, c, d);
    QuotientIs(x, c * d, x / c / d, x / c % d * c + x % c);
  }

  lemma Divided(x: nat, d: nat)
    requires d > 0
    ensures x == x / d * d + x % d && x % d < d
  {
  }

  lemma FourDigits(w: nat, x: nat, y: nat, z: nat)
    requires x < 64 && y < 64 && z < 64
    ensures var n := w * 262144 + x * 4096 + y * 64 + z;
      n / 262144 == w && n / 4096 % 64 == x && n / 64 % 64 == y && n % 64 == z
  {
    var n: nat := w * 262144 + x * 4096 + y * 64 + z;
    var n1: nat := w * 4096 + x * 64 + y;
    var n2: nat := w * 64 + x;
    assert n == 64 * n1 + z && n1 == 64 * n2 + y;
    Quotient64(n, n1, z);
    Quotient64(n1, n2, y);
    Quotient64(n2, w, x);
    assert n / 4096 == n / 64 / 64 && n / 262144 == n / 64 / 64 / 64;
  }
}
