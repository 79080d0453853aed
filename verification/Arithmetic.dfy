/** Quotients by a positive number, and the sizes of sets. */
module Arithmetic {
  lemma MultiplesAreFar(p: int, k: int)
    requires p >= 0
    ensures k == 0 || p * k >= p || p * k <= -p
  {
    if k >= 1 {
      assert p * k == p * (k - 1) + p && p * (k - 1) >= 0;
    } else if k <= -1 {
      assert p * k == -(p * (-k - 1)) - p && p * (-k - 1) >= 0;
    }
  }

  lemma QuotientIs(x: nat, p: nat, q: nat, r: nat)
    requires x == p * q + r && r < p
    ensures x / p == q && x % p == r
  {
    var d := x / p;
    assert x == p * d + x % p;
    assert p * (q - d) == p * q - p * d;
    MultiplesAreFar(p, q - d);
  }

  lemma QuotientBounds(x: nat, p: nat)
    requires p > 0
    ensures 0 <= x / p * p <= x < x / p * p + p && x / p >= 0
  {
    assert x == p * (x / p) + x % p;
    assert x / p * p == p * (x / p);
    assert p * (x / p) >= 0;
  }

  lemma Regrouped(a: nat, b: nat, p: nat, t: nat, r: nat)
    ensures (p * b + t) * a + r == a * b * p + (a * t + r)
  {
    assert (p * b + t) * a == p * b * a + t * a;
    assert p * b * a == a * b * p;
  }

  lemma AtLeastOnce(a: nat, k: nat)
    requires k > 0
    ensures a * k >= a
  {
  }

  lemma Distributes(a: int, t: int, u: int)
    ensures a * (t + u) == a * t + a * u
  {
  }

  lemma DigitsFit(a: nat, b: nat, t: nat, r: nat)
    requires t < b && r < a
    ensures a * t + r < a * b
  {
    Distributes(a, t, b - t);
    AtLeastOnce(a, b - t);
  }

  lemma DivideTwice(v: nat, a: nat, b: nat)
    requires a > 0 && b > 0
    ensures a * b > 0 && v / a / b == v / (a * b)
  {
    QuotientBounds(v, a);
    QuotientBounds(v / a, b);
    var q, p := v / a, v / a / b;
    var r, t := v - q * a, q - p * b;
    Regrouped(a, b, p, t, r);
    DigitsFit(a, b, t, r);
    QuotientIs(v, a * b, p, a * t + r);
  }

  /** Everything between two multiples has the same quotient. */
  lemma SameQuotient(x: nat, y: nat, p: nat)
    requires p > 0 && x / p * p <= y < x / p * p + p
    ensures y / p == x / p
  {
    QuotientBounds(x, p);
    assert x / p * p == p * (x / p);
    QuotientIs(y, p, x / p, y - x / p * p);
  }

  /** The quotient grows by one exactly at the next multiple. */
  lemma QuotientStep(x: nat, p: nat)
    requires p > 0
    ensures (x + 1) / p == x / p + (if (x + 1) % p == 0 then 1 else 0)
    ensures (x + 1) % p == 0 ==> (x / p + 1) * p == x + 1
  {
    var q, r := x / p, x % p;
    QuotientBounds(x, p);
    assert x == p * q + r;
    if r + 1 < p {
      QuotientIs(x + 1, p, q, r + 1);
    } else {
      assert x + 1 == p * (q + 1) + 0 by {
        assert p * (q + 1) == p * q + p;
      }
      QuotientIs(x + 1, p, q + 1, 0);
      assert (q + 1) * p == p * (q + 1);
    }
  }

  /** Adding a multiple does not change whether a number is one. */
  lemma MultiplesAdd(x: nat, y: nat, p: nat)
    requires p > 0 && x % p == 0
    ensures (x + y) % p == 0 <==> y % p == 0
  {
    assert x == p * (x / p) && y == p * (y / p) + y % p;
    QuotientBounds(x, p);
    QuotientBounds(y, p);
    assert p * (x / p + y / p) == p * (x / p) + p * (y / p);
    QuotientIs(x + y, p, x / p + y / p, y % p);
  }

  lemma SubsetCount<T>(a: set<T>, b: set<T>)
    requires a <= b
    ensures |a| <= |b|
  {
    assert b == a + (b - a);
  }
}
