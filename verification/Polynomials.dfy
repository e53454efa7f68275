/** Polynomials over a prime field, as coefficient sequences with the constant term first. */
module Polynomials {
  import opened Arithmetic
  import opened Primes

  function Eval(c: seq<int>, x: int): int {
    if c == [] then 0 else c[0] + x * Eval(c[1..], x)
  }

  ghost predicate AllZero(c: seq<int>, q: nat)
    requires q > 0
  {
    forall i :: 0 <= i < |c| ==> c[i] % q == 0
  }

  // ----- Roots -----

  /** The quotient of c by (X - r). */
  function Quot(c: seq<int>, r: int): (d: seq<int>)
    ensures |d| == if c == [] then 0 else |c| - 1
  {
    if |c| <= 1 then [] else [Eval(c[1..], r)] + Quot(c[1..], r)
  }

  lemma Expand(c0: int, x: int, r: int, e: int, v: int)
    ensures c0 + x * ((x - r) * e + v) == (x - r) * (v + x * e) + (c0 + r * v)
  {
    assert x * ((x - r) * e + v) == x * ((x - r) * e) + x * v;
    assert (x - r) * (v + x * e) == (x - r) * v + (x - r) * (x * e);
    assert x * ((x - r) * e) == (x - r) * (x * e);
  }

  lemma {:induction false} QuotEval(c: seq<int>, r: int, x: int)
    requires c != []
    ensures Eval(c, x) == (x - r) * Eval(Quot(c, r), x) + Eval(c, r)
  {
    if |c| > 1 {
      QuotEval(c[1..], r, x);
      Expand(c[0], x, r, Eval(Quot(c[1..], r), x), Eval(c[1..], r));
      assert Quot(c, r)[1..] == Quot(c[1..], r);
    }
  }

  lemma {:induction false} QuotZero(c: seq<int>, r: int, q: nat)
    requires q > 0 && c != [] && AllZero(Quot(c, r), q) && Eval(c, r) % q == 0
    ensures AllZero(c, q)
  {
    if |c| > 1 {
      var v := Eval(c[1..], r);
      var d := Quot(c, r);
      assert d[0] == v;
      assert d[1..] == Quot(c[1..], r);
      QuotZero(c[1..], r, q);
      ModAbsorbMul(v, r, q);
      assert c[0] == Eval(c, r) - r * v;
      var k := RemainderDifference(Eval(c, r), 0, q);
      var j := RemainderDifference(v * r, 0, q);
      assert c[0] - 0 == (k - j) * q;
      SameRemainder(c[0], 0, q, k - j);
      assert forall i :: 0 < i < |c| ==> c[i] == c[1..][i - 1];
    }
  }

  /** Other roots of c are roots of its quotient by one of them. */
  lemma RootOfQuot(c: seq<int>, q: nat, r: nat, x: nat)
    requires IsPrime(q) && c != [] && r < q && x < q && x != r
    requires Eval(c, r) % q == 0 && Eval(c, x) % q == 0
    ensures Eval(Quot(c, r), x) % q == 0
  {
    QuotEval(c, r, x);
    var e := Eval(Quot(c, r), x);
    var k := RemainderDifference(Eval(c, x), Eval(c, r), q);
    assert (x - r) * e == k * q;
    if x > r {
      EuclidLemma(q, x - r, e, k);
    } else {
      assert (r - x) * e == -k * q;
      EuclidLemma(q, r - x, e, -k);
    }
  }

  /** A polynomial that is not zero modulo a prime has fewer roots than coefficients. */
  lemma {:induction false} RootBound(c: seq<int>, q: nat, roots: set<nat>)
    requires IsPrime(q) && !AllZero(c, q)
    requires forall x :: x in roots ==> x < q && Eval(c, x) % q == 0
    ensures |roots| < |c|
    decreases |c|
  {
    if roots != {} {
      var r :| r in roots;
      var rest := roots - {r};
      if AllZero(Quot(c, r), q) { QuotZero(c, r, q); }
      forall x | x in rest ensures Eval(Quot(c, r), x) % q == 0 {
        RootOfQuot(c, q, r, x);
      }
      RootBound(Quot(c, r), q, rest);
    }
  }

  // ----- Agreement of two polynomials -----

  function Diff(a: seq<int>, b: seq<int>): (d: seq<int>)
    requires |a| == |b|
    ensures |d| == |a| && forall i :: 0 <= i < |a| ==> d[i] == a[i] - b[i]
  {
    seq(|a|, i requires 0 <= i < |a| => a[i] - b[i])
  }

  lemma {:induction false} EvalDiff(a: seq<int>, b: seq<int>, x: int)
    requires |a| == |b|
    ensures Eval(Diff(a, b), x) == Eval(a, x) - Eval(b, x)
  {
    if a != [] {
      assert Diff(a, b)[1..] == Diff(a[1..], b[1..]);
      EvalDiff(a[1..], b[1..], x);
      Distribute(x, Eval(a[1..], x), Eval(b[1..], x));
    }
  }

  lemma Distribute(x: int, a: int, b: int)
    ensures x * (a - b) == x * a - x * b
  {
  }

  lemma CombineDifferences(a0: int, b0: int, x: int, ea: int, eb: int, j: int, k: int, q: int)
    requires a0 - b0 == j * q && ea - eb == k * q
    ensures (a0 + x * ea) - (b0 + x * eb) == (j + x * k) * q
  {
    Distribute(x, ea, eb);
    assert x * (k * q) == (x * k) * q;
  }

  /** Coefficients that agree modulo q give values that agree modulo q. */
  lemma {:induction false} EvalCongruent(a: seq<int>, b: seq<int>, q: nat, x: int)
    requires q > 0 && |a| == |b| && forall i :: 0 <= i < |a| ==> a[i] % q == b[i] % q
    ensures Eval(a, x) % q == Eval(b, x) % q
  {
    if a != [] {
      EvalCongruent(a[1..], b[1..], q, x);
      var k := RemainderDifference(Eval(a[1..], x), Eval(b[1..], x), q);
      var j := RemainderDifference(a[0], b[0], q);
      CombineDifferences(a[0], b[0], x, Eval(a[1..], x), Eval(b[1..], x), j, k, q);
      SameRemainder(Eval(a, x), Eval(b, x), q, j + x * k);
    }
  }

  predicate IsFieldVector(a: seq<int>, q: nat) {
    forall i :: 0 <= i < |a| ==> 0 <= a[i] < q
  }

  /** The points below n where two polynomials take the same value modulo q. */
  function Agreement(a: seq<int>, b: seq<int>, q: nat, n: nat): set<nat>
    requires q > 0
  {
    set x: nat | x < n && Eval(a, x) % q == Eval(b, x) % q
  }

  /** Different polynomials with k coefficients agree on fewer than k field points. */
  lemma AgreementBound(a: seq<int>, b: seq<int>, q: nat, n: nat)
    requires IsPrime(q) && n <= q && |a| == |b| && a != b && IsFieldVector(a, q) && IsFieldVector(b, q)
    ensures |Agreement(a, b, q, n)| < |a|
  {
    var d := Diff(a, b);
    var i :| 0 <= i < |a| && a[i] != b[i];
    SmallNonzero(a[i], b[i], q);
    assert d[i] % q != 0;
    forall x | x in Agreement(a, b, q, n) ensures Eval(d, x) % q == 0 {
      EvalDiff(a, b, x);
      var k := RemainderDifference(Eval(a, x), Eval(b, x), q);
      MultipleMod(k, q);
    }
    RootBound(d, q, Agreement(a, b, q, n));
  }

  lemma SmallNonzero(a: int, b: int, q: nat)
    requires 0 <= a < q && 0 <= b < q && a != b
    ensures (a - b) % q != 0
  {
    if (a - b) % q == 0 {
      var k := RemainderDifference(a - b, 0, q);
      if k != 0 { MulNonzero(k, q); }
      assert false;
    }
  }

  // ----- Polynomials with prescribed roots -----

  function AddConstant(d: seq<int>, v: int): (r: seq<int>)
    ensures |r| == if d == [] then 1 else |d|
  {
    if d == [] then [v] else [d[0] + v] + d[1..]
  }

  /** The product (X - a) * c. */
  function MulLinear(c: seq<int>, a: int): (d: seq<int>)
    ensures |d| == if c == [] then 0 else |c| + 1
    ensures c != [] ==> d[|d| - 1] == c[|c| - 1]
  {
    if c == [] then [] else
    var rest := MulLinear(c[1..], a);
    [-a * c[0]] + AddConstant(rest, c[0])
  }

  lemma EvalAddConstant(d: seq<int>, v: int, x: int)
    ensures Eval(AddConstant(d, v), x) == Eval(d, x) + v
  {
    var t := AddConstant(d, v);
    if d != [] { assert t[1..] == d[1..]; } else { assert t[1..] == []; }
  }

  lemma EvalCons(c0: int, rest: seq<int>, x: int)
    ensures Eval([c0] + rest, x) == c0 + x * Eval(rest, x)
  {
    assert ([c0] + rest)[1..] == rest;
  }

  lemma MulLinearParts(c: seq<int>, a: int)
    requires c != []
    ensures MulLinear(c, a) == [-a * c[0]] + AddConstant(MulLinear(c[1..], a), c[0])
  {
  }

  lemma Regroup(c0: int, a: int, x: int, e: int, t: int)
    requires t == (x - a) * e + c0
    ensures -a * c0 + x * t == (x - a) * (c0 + x * e)
  {
    assert x * t == x * ((x - a) * e) + x * c0;
    assert (x - a) * (c0 + x * e) == (x - a) * c0 + (x - a) * (x * e);
    assert x * ((x - a) * e) == (x - a) * (x * e);
  }

  /** The lowest coefficient of a product by X - a, one Horner step, and a value multiplied by x - a; named so that
      proofs can leave the products folded. */
  function LowestOf(c0: int, a: int): int {
    -a * c0
  }

  function Horner(c0: int, x: int, e: int): int {
    c0 + x * e
  }

  function TimesLinear(e: int, a: int, x: int): int {
    (x - a) * e
  }

  lemma EvalSplit(c: seq<int>, x: int)
    requires c != []
    ensures Eval(c, x) == Horner(c[0], x, Eval(c[1..], x))
  {
  }

  lemma EvalProduct(c: seq<int>, a: int, x: int)
    requires c != []
    ensures Eval(MulLinear(c, a), x) == Horner(LowestOf(c[0], a), x, Eval(MulLinear(c[1..], a), x) + c[0])
  {
    hide Eval, MulLinear, AddConstant;
    var rest := MulLinear(c[1..], a);
    MulLinearParts(c, a);
    EvalAddConstant(rest, c[0], x);
    EvalCons(-a * c[0], AddConstant(rest, c[0]), x);
  }

  lemma HornerProduct(c0: int, a: int, x: int, e: int)
    ensures Horner(LowestOf(c0, a), x, TimesLinear(e, a, x) + c0) == TimesLinear(Horner(c0, x, e), a, x)
  {
    Regroup(c0, a, x, e, TimesLinear(e, a, x) + c0);
  }

  lemma EvalFoldedEmpty(a: int, x: int)
    ensures Eval(MulLinear([], a), x) == TimesLinear(Eval([], x), a, x)
  {
  }

  lemma {:induction false} EvalFolded(c: seq<int>, a: int, x: int)
    ensures Eval(MulLinear(c, a), x) == TimesLinear(Eval(c, x), a, x)
  {
    hide Eval, MulLinear, Horner, TimesLinear, LowestOf;
    if c == [] {
      EvalFoldedEmpty(a, x);
    } else {
      EvalFolded(c[1..], a, x);
      EvalProduct(c, a, x);
      EvalSplit(c, x);
      HornerProduct(c[0], a, x, Eval(c[1..], x));
    }
  }

  lemma EvalMulLinear(c: seq<int>, a: int, x: int)
    ensures Eval(MulLinear(c, a), x) == (x - a) * Eval(c, x)
  {
    EvalFolded(c, a, x);
    hide Eval, MulLinear;
  }

  /** The monic polynomial whose roots are the given points. */
  function Vanishing(points: seq<int>): (c: seq<int>)
    ensures |c| == |points| + 1 && c[|points|] == 1
  {
    if points == [] then [1] else MulLinear(Vanishing(points[1..]), points[0])
  }

  lemma {:induction false} VanishingRoots(points: seq<int>, x: int)
    requires x in points
    ensures Eval(Vanishing(points), x) == 0
  {
    hide Eval, MulLinear;
    var rest := Vanishing(points[1..]);
    EvalMulLinear(rest, points[0], x);
    if x != points[0] {
      VanishingRoots(points[1..], x);
      ZeroProduct(x - points[0], Eval(rest, x));
    } else {
      ZeroProduct(x - points[0], Eval(rest, x));
    }
  }

  lemma ZeroProduct(a: int, b: int)
    requires a == 0 || b == 0
    ensures a * b == 0
  {
  }
}
