/** Building the grouping matrix in place: base-q digits of each position, polynomial evaluation with
    modular powers, and one marked row per evaluation point. */
module KsRsBuilder {
  import opened Bytes
  import opened Arithmetic
  import opened Polynomials
  import opened Primes
  import opened KsRsMatrix

  // ----- Modular powers -----

  lemma {:induction false} PowSquare(b: nat, e: nat)
    ensures Pow(b * b, e) == Pow(b, 2 * e)
  {
    if e > 0 {
      PowSquare(b, e - 1);
      var y := Pow(b, 2 * (e - 1));
      assert Pow(b, 2 * e) == b * (b * y);
      assert b * (b * y) == (b * b) * y;
    }
  }

  lemma SameProduct(a: int, x: int, y: int, m: nat)
    requires m > 0 && x % m == y % m
    ensures (a * x) % m == (a * y) % m
  {
    ModAbsorbMul(x, a, m);
    ModAbsorbMul(y, a, m);
    assert a * x == x * a && a * y == y * a;
  }

  lemma {:induction false} PowReducedBase(b: nat, e: nat, m: nat)
    requires m > 0
    ensures Pow(b % m, e) % m == Pow(b, e) % m
  {
    if e > 0 {
      PowReducedBase(b, e - 1, m);
      ModAbsorbMul(b, Pow(b % m, e - 1), m);
      SameProduct(b, Pow(b % m, e - 1), Pow(b, e - 1), m);
    }
  }

  function MulMod(a: nat, b: nat, m: nat): (r: nat)
    requires m > 0
    ensures r < m
  {
    (a * b) % m
  }

  lemma MulModProduct(a: nat, b: nat, c: nat, m: nat)
    requires m > 0
    ensures MulMod(MulMod(a, b, m), c, m) == MulMod(a, b * c, m)
  {
    ModAbsorbMul(a * b, c, m);
    assert (a * b) * c == a * (b * c);
  }

  lemma MulModCongruent(a: nat, x: nat, y: nat, m: nat)
    requires m > 0 && x % m == y % m
    ensures MulMod(a, x, m) == MulMod(a, y, m)
  {
    SameProduct(a, x, y, m);
  }

  lemma PowHalf(f: nat, e: nat)
    requires e > 0
    ensures Pow(f, e) == if e % 2 != 0 then f * Pow(f * f, e / 2) else Pow(f * f, e / 2)
  {
    PowSquare(f, e / 2);
  }

  /** One squaring round keeps the value that is still to be computed. */
  lemma PowModStep(r: nat, f: nat, e: nat, m: nat)
    requires m > 0 && e > 0
    ensures MulMod(if e % 2 != 0 then MulMod(r, f, m) else r, Pow(MulMod(f, f, m), e / 2), m) == MulMod(r, Pow(f, e), m)
  {
    var h: nat := e / 2;
    PowReducedBase(f * f, h, m);
    PowHalf(f, e);
    assert MulMod(f, f, m) == (f * f) % m;
    hide MulMod, Pow;
    var x, y := Pow(MulMod(f, f, m), h), Pow(f * f, h);
    MulModCongruent(MulMod(r, f, m), x, y, m);
    MulModProduct(r, f, y, m);
    MulModCongruent(r, x, y, m);
  }

  lemma PowModEnds(base: nat, exponent: nat, r: nat, m: nat)
    requires m > 1
    ensures MulMod(1, Pow(base % m, exponent), m) == Pow(base, exponent) % m
    ensures r < m ==> MulMod(r, Pow(base, 0), m) == r
  {
    PowReducedBase(base, exponent, m);
    hide Pow;
    assert Pow(base, 0) == 1 by { PowZero(base); }
    if r < m { QuotientUnique(r, m, 0, r); }
  }

  lemma PowZero(b: nat)
    ensures Pow(b, 0) == 1
  {
  }

  method PowMod(base: nat, exponent: nat, modulus: nat) returns (r: nat)
    requires modulus > 1
    ensures r == Pow(base, exponent) % modulus
  {
    hide MulMod;
    r := 1;
    var factor: nat := base % modulus;
    var left: nat := exponent;
    PowModEnds(base, exponent, r, modulus);
    while left > 0
      invariant r < modulus && MulMod(r, Pow(factor, left), modulus) == Pow(base, exponent) % modulus
    {
      PowModStep(r, factor, left, modulus);
      if left % 2 != 0 { r := MulMod(r, factor, modulus); }
      factor := MulMod(factor, factor, modulus);
      left := left / 2;
    }
    PowModEnds(factor, exponent, r, modulus);
  }

  // ----- Symbols -----

  lemma {:induction false} EvalPrefix(c: seq<int>, x: nat, i: nat)
    requires i < |c|
    ensures Eval(c[..i + 1], x) == Eval(c[..i], x) + c[i] * Pow(x, i)
  {
    if i > 0 {
      var d := c[1..];
      EvalPrefix(d, x, i - 1);
      assert c[..i + 1][1..] == d[..i] && c[..i][1..] == d[..i - 1];
      MulSwap(x, Eval(d[..i - 1], x), c[i], Pow(x, i - 1));
    } else {
      assert c[..1][1..] == [];
    }
  }

  lemma MulSwap(x: int, e: int, c: int, w: int)
    ensures x * (e + c * w) == x * e + c * (x * w)
  {
  }

  lemma AddReduced(s: int, c: int, w: int, q: nat)
    requires q > 0
    ensures (s % q + c * (w % q)) % q == (s + c * w) % q
  {
    SameProduct(c, w % q, w, q);
    ModAbsorb(s, c * (w % q), q);
    ModAbsorb(c * (w % q), s, q);
    ModAbsorb(c * w, s, q);
  }

  /** The base-q digits of one position, filled in place. */
  method Coefficients(col: nat, q: nat, k: nat) returns (c: array<int>)
    requires q > 0
    ensures fresh(c) && c[..] == Digits(col, q, k)
  {
    c := new int[k];
    var rest: nat := col;
    for i := 0 to k
      invariant c[..i] + Digits(rest, q, k - i) == Digits(col, q, k)
    {
      hide Rem, Quo;
      ghost var before, tail := c[..i], Digits(rest, q, k - i);
      assert tail == [Rem(rest, q)] + Digits(Quo(rest, q), q, k - i - 1);
      c[i] := Rem(rest, q);
      rest := Quo(rest, q);
      assert c[..i + 1] == before + [c[i]];
    }
    assert c[..k] == c[..];
  }

  method EvaluateSymbol(c: array<int>, x: nat, q: nat) returns (symbol: nat)
    requires q > 1
    ensures symbol == Eval(c[..], x) % q
  {
    symbol := 0;
    for i := 0 to c.Length
      invariant symbol == Eval(c[..i], x) % q
    {
      var power := PowMod(x, i, q);
      EvalPrefix(c[..], x, i);
      assert c[..][..i] == c[..i] && c[..][..i + 1] == c[..i + 1];
      AddReduced(Eval(c[..i], x), c[i], Pow(x, i), q);
      symbol := (symbol + c[i] * power) % q;
    }
    assert c[..c.Length] == c[..];
  }

  // ----- The matrix -----

  lemma ContainsAt(p: Params, row: nat, col: nat, x: nat)
    requires p.fieldSize > 0
    ensures row == RowOf(p, x, col) <==> Quo(row, p.fieldSize) == x && Contains(p, row, col)
  {
    hide Symbol, Quo, Rem;
    Division(row, p.fieldSize);
    DivisionUnique(RowOf(p, x, col), p.fieldSize, x, Symbol(p, col, x));
  }

  datatype MatrixError = GroupSizeMustBePositive | ThresholdOutsideGroup | NoParametersFound

  class Matrix {
    const groupSize: nat
    const threshold: nat
    ghost const params: Params
    const rows: array2<bool>

    ghost predicate Valid()
      reads this, rows
    {
      && 0 < threshold < groupSize
      && Candidate(groupSize, threshold, params)
      && rows.Length0 == params.RowCount() && rows.Length1 == groupSize
      && forall r: nat, c: nat :: r < rows.Length0 && c < rows.Length1 ==> (rows[r, c] <==> Contains(params, r, c))
    }

    constructor (groupSize: nat, threshold: nat, p: Params)
      requires 0 < threshold < groupSize && Candidate(groupSize, threshold, p)
      ensures Valid() && this.groupSize == groupSize && this.threshold == threshold && params == p
      ensures fresh(rows)
    {
      var built := BuildRows(groupSize, p);
      this.groupSize := groupSize;
      this.threshold := threshold;
      params := p;
      rows := built;
    }

    /** The constructor's checks: the matrix is built exactly when the sizes are sane and a candidate exists. */
    static method Create(groupSize: nat, threshold: nat) returns (r: Result<Matrix, MatrixError>)
      ensures r.Ok? <==> 0 < threshold < groupSize && exists p :: Candidate(groupSize, threshold, p)
      ensures r.Ok? ==> r.value.Valid() && r.value.groupSize == groupSize && r.value.threshold == threshold
      ensures r.Ok? ==> forall p :: Candidate(groupSize, threshold, p) ==> r.value.params.RowCount() <= p.RowCount()
      ensures r.Err? ==> r.error == if groupSize == 0 then GroupSizeMustBePositive
                                    else if !(0 < threshold < groupSize) then ThresholdOutsideGroup
                                    else NoParametersFound
    {
      if groupSize == 0 { return Err(GroupSizeMustBePositive); }
      if threshold == 0 || threshold >= groupSize { return Err(ThresholdOutsideGroup); }
      var best := FindBestParameters(groupSize, threshold);
      if best == None { return Err(NoParametersFound); }
      var m := new Matrix(groupSize, threshold, best.value);
      r := Ok(m);
    }
  }

  /** What the rows hold once `col` columns are done and column `col` is marked for points below x. */
  ghost predicate Built(rows: array2<bool>, p: Params, col: nat, x: nat)
    requires p.fieldSize > 0
    reads rows
  {
    forall r: nat, c: nat :: r < rows.Length0 && c < rows.Length1 ==>
      (rows[r, c] <==> (c < col || (c == col && Quo(r, p.fieldSize) < x)) && Contains(p, r, c))
  }

  method BuildRows(groupSize: nat, p: Params) returns (rows: array2<bool>)
    requires p.fieldSize > 1
    ensures fresh(rows) && rows.Length0 == p.RowCount() && rows.Length1 == groupSize
    ensures forall r: nat, c: nat :: r < rows.Length0 && c < rows.Length1 ==> (rows[r, c] <==> Contains(p, r, c))
  {
    hide Contains;
    rows := new bool[p.RowCount(), groupSize]((_, _) => false);
    for col := 0 to groupSize
      invariant Built(rows, p, col, 0)
    {
      MarkColumn(rows, p, col);
    }
  }

  method MarkColumn(rows: array2<bool>, p: Params, col: nat)
    requires p.fieldSize > 1 && rows.Length0 == p.RowCount() && col < rows.Length1
    requires Built(rows, p, col, 0)
    modifies rows
    ensures Built(rows, p, col + 1, 0)
  {
    var c := Coefficients(col, p.fieldSize, p.messageLength);
    for x := 0 to p.codeLength
      invariant c[..] == Digits(col, p.fieldSize, p.messageLength)
      invariant Built(rows, p, col, x)
    {
      var symbol := EvaluateSymbol(c, x, p.fieldSize);
      assert symbol == Symbol(p, col, x);
      MarkPoint(rows, p, col, x, symbol);
    }
    forall r: nat | r < rows.Length0 ensures Quo(r, p.fieldSize) < p.codeLength {
      hide *;
      QuotientBelow(r, p.fieldSize, p.codeLength);
    }
  }

  method MarkPoint(rows: array2<bool>, p: Params, col: nat, x: nat, symbol: nat)
    requires p.fieldSize > 1 && rows.Length0 == p.RowCount() && col < rows.Length1 && x < p.codeLength
    requires Built(rows, p, col, x) && symbol == Symbol(p, col, x)
    modifies rows
    ensures Built(rows, p, col, x + 1)
  {
    RowOfContains(p, x, col, col);
    ghost var before := Built(rows, p, col, x);
    hide Symbol, Contains, Quo, Rem;
    forall r: nat ensures r == RowOf(p, x, col) <==> Quo(r, p.fieldSize) == x && Contains(p, r, col) {
      ContainsAt(p, r, col, x);
    }
    rows[x * p.fieldSize + symbol, col] := true;
  }
}
