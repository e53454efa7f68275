/** Primality as the matrix builder tests it, and the facts about primes its proof needs. */
module Primes {
  import opened Arithmetic

  predicate IsPrime(p: nat) {
    p >= 2 && forall d :: 2 <= d < p ==> p % d != 0
  }

  /** Euclid's lemma, by reducing a modulo the prime's remainder until it is one. */
  lemma {:induction false} EuclidLemma(q: nat, a: nat, b: int, k: int)
    requires IsPrime(q) && 0 < a < q && a * b == k * q
    ensures b % q == 0
    decreases a
  {
    if a == 1 {
      MultipleMod(k, q);
    } else {
      var m, r := q / a, q % a;
      assert q == m * a + r;
      assert r * b == (q - m * a) * b == q * b - m * (a * b) == q * b - m * (k * q) == (b - m * k) * q;
      EuclidLemma(q, r, b, b - m * k);
    }
  }

  function Factorial(n: nat): (f: nat)
    ensures f >= 1
  {
    if n == 0 then 1 else n * Factorial(n - 1)
  }

  lemma {:induction false} DividesFactorial(d: nat, n: nat) returns (k: nat)
    requires 1 <= d <= n
    ensures Factorial(n) == k * d
  {
    if d == n {
      k := Factorial(n - 1);
    } else {
      var j := DividesFactorial(d, n - 1);
      k := n * j;
    }
  }

  /** Some divisor of v that is prime. */
  lemma PrimeDivisor(v: nat) returns (p: nat)
    requires v >= 2
    ensures IsPrime(p) && v % p == 0 && p >= 2
  {
    p := 2;
    while v % p != 0
      invariant 2 <= p <= v
      invariant forall d :: 2 <= d < p ==> v % d != 0
      decreases v - p
    {
      p := p + 1;
    }
    forall d | 2 <= d < p ensures p % d != 0 {
      DivisorOfDivisor(v, p, d);
    }
  }

  lemma DivisorOfDivisor(v: nat, p: nat, d: nat)
    requires p > 0 && d > 0 && v % p == 0
    ensures v % d != 0 ==> p % d != 0
  {
    if p % d == 0 {
      ExactDivision(p, d);
      ExactDivision(v, p);
      DividesTransitive(v, p, d, v / p, p / d);
    }
  }

  lemma ConsecutiveMultiples(a: nat, b: nat, p: nat)
    requires p >= 2
    ensures a * p != b * p + 1
  {
    if a * p == b * p + 1 {
      assert (a - b) * p == 1;
      if a != b { MulNonzero(a - b, p); }
      assert false;
    }
  }

  lemma PrimeAtLeast(n: nat) returns (p: nat)
    ensures IsPrime(p) && p >= n
  {
    var v := Factorial(n) + 1;
    p := PrimeDivisor(v);
    if p < n {
      var k := DividesFactorial(p, n);
      ExactDivision(v, p);
      ConsecutiveMultiples(v / p, k, p);
      assert false;
    }
  }

  lemma NoEvenDivisor(v: nat, e: nat)
    requires v % 2 == 1 && e > 0 && e % 2 == 0
    ensures v % e != 0
  {
    if v % e == 0 {
      ExactDivision(v, e);
      DividesTransitive(v, e, 2, v / e, e / 2);
      assert false;
    }
  }

  lemma SmallOdd(v: nat, d: nat)
    requires 3 <= d <= v / d
    ensures d + 2 <= v
  {
    var q := v / d;
    DivisionBounds(v, d);
    MulMonotone(3, d, d, q);
    assert d * q == q * d && 3 * d >= d + 2;
  }

  lemma SquareExceeds(v: nat, d: nat)
    requires d > 0 && d > v / d
    ensures v < d * d
  {
    var q := v / d;
    assert v < d * q + d by { DivisionBounds(v, d); }
    MulMonotone(d, q, d, d - 1);
    assert d * (d - 1) == d * d - d;
  }

  lemma DivisionBounds(v: nat, d: nat)
    requires d > 0
    ensures d * (v / d) <= v < d * (v / d) + d
  {
  }

  /** A divisor at or above d, where d exceeds v/d, would have its cofactor below d. */
  lemma NoLargeDivisor(v: nat, d: nat, e: nat)
    requires 2 <= d <= e < v && d > v / d
    requires forall f :: 2 <= f < d ==> v % f != 0
    ensures v % e != 0
  {
    if v % e == 0 {
      ExactDivision(v, e);
      var f := v / e;
      SquareExceeds(v, d);
      if f >= d {
        MulMonotone(d, d, f, e);
      } else if f >= 2 {
        assert v == e * f;
        MultipleMod(e, f);
      } else {
        MulMonotone(f, e, 1, e);
      }
      assert false;
    }
  }

  /** No number from 2 up to d divides v. */
  ghost predicate NoDivisorBelow(v: nat, d: nat) {
    forall e :: 2 <= e < d ==> v % e != 0
  }

  lemma TwoFurther(v: nat, d: nat)
    requires v % 2 == 1 && d > 0 && d % 2 == 1 && NoDivisorBelow(v, d) && v % d != 0
    ensures NoDivisorBelow(v, d + 2)
  {
    NoEvenDivisor(v, d + 1);
  }

  lemma NoSmallDivisorIsPrime(v: nat, d: nat)
    requires 2 <= d && v >= 2 && NoDivisorBelow(v, d) && d > v / d
    ensures IsPrime(v)
  {
    forall e | 2 <= e < v ensures v % e != 0 {
      if e >= d { NoLargeDivisor(v, d, e); }
    }
  }

  lemma DivisorIsNotPrime(v: nat, d: nat)
    requires 2 <= d < v && v % d == 0
    ensures !IsPrime(v)
  {
  }

  /** Trial division by odd numbers up to the square root. */
  method TestPrime(v: nat) returns (prime: bool)
    ensures prime == IsPrime(v)
  {
    if v <= 1 { return false; }
    if v == 2 || v == 3 { return true; }
    if v % 2 == 0 {
      DivisorIsNotPrime(v, 2);
      return false;
    }
    var d := 3;
    assert NoDivisorBelow(v, 3);
    hide IsPrime, NoDivisorBelow;
    while d <= v / d
      invariant 3 <= d <= v && d % 2 == 1 && NoDivisorBelow(v, d)
      decreases v - d
    {
      SmallOdd(v, d);
      if v % d == 0 {
        DivisorIsNotPrime(v, d);
        return false;
      }
      TwoFurther(v, d);
      d := d + 2;
    }
    NoSmallDivisorIsPrime(v, d);
    prime := true;
  }

  lemma EvenIsNotPrime(h: nat)
    requires h >= 2
    ensures !IsPrime(2 * h)
  {
    assert (2 * h) % 2 == 0;
  }

  lemma OddPrimeAtLeast(v: nat) returns (h: nat)
    requires v > 2
    ensures IsPrime(2 * h + 1) && 2 * h + 1 >= v
  {
    var p := PrimeAtLeast(v);
    h := p / 2;
    if p == 2 * h {
      EvenIsNotPrime(h);
      assert false;
    }
  }

  /** The least prime at or above v, found by stepping over odd candidates. */
  method NextPrime(v: nat) returns (p: nat)
    ensures IsPrime(p) && p >= v && p >= 2
    ensures forall c: nat :: v <= c < p ==> !IsPrime(c)
  {
    if v <= 2 { return 2; }
    hide IsPrime;
    ghost var bound := OddPrimeAtLeast(v);
    ghost var h: nat := v / 2;
    if v % 2 == 0 { EvenIsNotPrime(h); }
    p := if v % 2 == 0 then v + 1 else v;
    var prime := TestPrime(p);
    while !prime
      invariant v <= p == 2 * h + 1 && h <= bound && prime == IsPrime(p)
      invariant forall c: nat :: v <= c < p ==> !IsPrime(c)
      decreases bound - h
    {
      EvenIsNotPrime(h + 1);
      p := p + 2;
      h := h + 1;
      prime := TestPrime(p);
    }
  }
}
