/** Small facts about products, quotients and remainders that the solver needs one at a time. */
module Arithmetic {

  lemma MulNonzero(k: int, d: nat)
    requires d > 0 && k != 0
    ensures k * d >= d || k * d <= -(d as int)
  {
    if k > 0 {
      assert (k - 1) * d >= 0;
    } else {
      assert (-k - 1) * d >= 0;
    }
  }

  lemma QuotientUnique(v: nat, d: nat, q: nat, r: nat)
    requires d > 0 && r < d && v == q * d + r
    ensures v / d == q && v % d == r
  {
    var k := v / d - q;
    assert v == d * (v / d) + v % d;
    assert k * d == (v / d) * d - q * d;
    assert k * d == r - v % d;
    if k != 0 {
      MulNonzero(k, d);
      assert false;
    }
  }

  lemma CombineDigits(a: nat, r: nat, qq: nat, rr: nat)
    requires r < a && rr < 256
    ensures a * (256 * qq + rr) + r == qq * (256 * a) + (rr * a + r)
    ensures 0 <= rr * a + r < 256 * a
  {
    assert (255 - rr) * a >= 0;
    assert rr * a >= 0;
  }

  lemma DivideTwice(v: nat, a: nat)
    requires a > 0
    ensures (v / a) / 256 == v / (256 * a)
  {
    var q, r := v / a, v % a;
    var qq, rr := q / 256, q % 256;
    CombineDigits(a, r, qq, rr);
    var low := rr * a + r;
    assert v == a * q + r;
    QuotientUnique(v, 256 * a, qq, low);
  }

  lemma QuotientNat(v: nat, d: nat)
    requires d > 0
    ensures v / d >= 0 && (v < d ==> v / d == 0)
  {
    if v < d { QuotientUnique(v, d, 0, v); }
  }

  lemma ExactDivision(v: nat, d: nat)
    requires d > 0 && v % d == 0
    ensures v == (v / d) * d
  {
  }

  lemma MultipleMod(k: int, d: nat)
    requires d > 0
    ensures (k * d) % d == 0
  {
    var m := k - (k * d) / d;
    assert k * d == d * ((k * d) / d) + (k * d) % d;
    assert m * d == (k * d) % d;
    if m != 0 {
      MulNonzero(m, d);
      assert false;
    }
  }

  lemma DividesTransitive(v: int, p: int, d: nat, k: int, j: int)
    requires d > 0 && v == k * p && p == j * d
    ensures v % d == 0
  {
    assert v == (k * j) * d;
    MultipleMod(k * j, d);
  }

  /** Equal remainders, stated as a difference that the modulus divides. */
  lemma SameRemainder(a: int, b: int, d: nat, k: int)
    requires d > 0 && a - b == k * d
    ensures a % d == b % d
  {
    var m := a / d - b / d - k;
    assert a == d * (a / d) + a % d && b == d * (b / d) + b % d;
    assert m * d == b % d - a % d;
    if m != 0 {
      MulNonzero(m, d);
      assert false;
    }
  }

  lemma RemainderDifference(a: int, b: int, d: nat) returns (k: int)
    requires d > 0 && a % d == b % d
    ensures a - b == k * d
  {
    k := a / d - b / d;
    assert a == d * (a / d) + a % d && b == d * (b / d) + b % d;
  }

  lemma ModAbsorb(a: int, b: int, d: nat)
    requires d > 0
    ensures (a % d + b) % d == (a + b) % d
  {
    SameRemainder(a + b, a % d + b, d, a / d);
  }

  lemma ModAbsorbMul(a: int, b: int, d: nat)
    requires d > 0
    ensures ((a % d) * b) % d == (a * b) % d
  {
    assert a == d * (a / d) + a % d;
    ProductDifference(a, a % d, b, d, a / d);
    SameRemainder(a * b, (a % d) * b, d, (a / d) * b);
  }

  lemma ProductDifference(a: int, r: int, b: int, d: int, q: int)
    requires a == d * q + r
    ensures a * b - r * b == (q * b) * d
  {
  }

  /** Quotient and remainder of naturals, kept as named terms. */
  function Quo(v: nat, d: nat): (r: nat)
    requires d > 0
  {
    QuotientNat(v, d);
    v / d
  }

  function Rem(v: nat, d: nat): (r: nat)
    requires d > 0
    ensures r < d
  {
    v % d
  }

  lemma Division(v: nat, d: nat)
    requires d > 0
    ensures v == d * Quo(v, d) + Rem(v, d)
  {
  }

  lemma DivisionUnique(v: nat, d: nat, q: nat, r: nat)
    requires d > 0 && r < d && v == d * q + r
    ensures Quo(v, d) == q && Rem(v, d) == r
  {
    QuotientUnique(v, d, q, r);
  }

  lemma MulMonotone(a: nat, b: nat, c: nat, d: nat)
    requires a <= c && b <= d
    ensures a * b <= c * d
  {
    assert (c - a) * b >= 0 && c * (d - b) >= 0;
  }

  lemma ProductOfThree(a: nat, b: nat, c: nat)
    ensures a * (b * c) == (a * b) * c
  {
  }

  lemma CombineProduct(a: nat, b: nat, q: nat, s: nat, r: nat)
    requires r < a && s < b
    ensures a * (b * q + s) + r == (a * b) * q + (a * s + r) && a * s + r < a * b
  {
    ProductOfThree(a, b, q);
    ProductOfSum(a, b * q, s);
    BelowProduct(a, b, s);
  }

  lemma ProductOfSum(a: nat, x: nat, y: nat)
    ensures a * (x + y) == a * x + a * y
  {
  }

  lemma BelowProduct(a: nat, b: nat, s: nat)
    requires s < b
    ensures a * s + a <= a * b
  {
    MulMonotone(a, s + 1, a, b);
    ProductOfSum(a, s, 1);
  }

  /** Dividing twice is dividing by the product. */
  lemma DivideByProduct(v: nat, a: nat, b: nat)
    requires a > 0 && b > 0
    ensures a * b > 0 && Quo(Quo(v, a), b) == Quo(v, a * b)
  {
    var q := Quo(v, a);
    var p, s, r := Quo(q, b), Rem(q, b), Rem(v, a);
    Division(v, a);
    Division(q, b);
    hide Quo, Rem;
    CombineProduct(a, b, p, s, r);
    DivisionUnique(v, a * b, p, a * s + r);
  }

  lemma QuotientBelow(v: nat, d: nat, m: nat)
    requires d > 0 && v < d * m
    ensures Quo(v, d) < m
  {
    Division(v, d);
    if Quo(v, d) >= m {
      MulMonotone(d, m, d, Quo(v, d));
      assert false;
    }
  }

  lemma WithinQuotient(c: nat, d: nat, m: nat)
    requires d > 0 && c <= m / d
    ensures c * d <= m
  {
    QuotientNat(m, d);
    assert m == d * (m / d) + m % d;
    MulMonotone(c, d, m / d, d);
  }

  lemma BeyondQuotient(c: nat, d: nat, m: nat)
    requires d > 0 && c > m / d
    ensures d * c > m
  {
    QuotientNat(m, d);
    assert m == d * (m / d) + m % d;
    MulMonotone(d, m / d + 1, d, c);
    assert d * (m / d + 1) == d * (m / d) + d;
  }

  lemma AddOneProduct(a: nat, b: nat)
    ensures (a + 1) * b == a * b + b
  {
  }
}
