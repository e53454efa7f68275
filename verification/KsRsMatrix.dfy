/** The Kautz-Singleton / Reed-Solomon grouping matrix: parameter search, construction, and exactly
    when it can tell every set of at most t corrupted positions apart from the intact ones. */
module KsRsMatrix {
  import opened Bytes
  import opened Arithmetic
  import opened Primes
  import opened Polynomials

  const MAX_FIELD_SIZE := 10000
  const MAX_MESSAGE_LENGTH := 64
  const SIZE_MAX := UINT64_MAX

  datatype Params = Params(fieldSize: nat, messageLength: nat, codeLength: nat) {
    function RowCount(): nat { codeLength * fieldSize }
  }

  function Pow(b: nat, e: nat): nat {
    if e == 0 then 1 else b * Pow(b, e - 1)
  }

  lemma {:induction false} PowPositive(b: nat, e: nat)
    requires b > 0
    ensures Pow(b, e) > 0
  {
    if e > 0 {
      PowPositive(b, e - 1);
      assert b * Pow(b, e - 1) > 0;
    }
  }

  lemma {:induction false} PowMonotone(b: nat, d: nat, e: nat)
    requires b >= 1 && d <= e
    ensures Pow(b, d) <= Pow(b, e)
    decreases e
  {
    if d < e {
      PowMonotone(b, d, e - 1);
      PowPositive(b, e - 1);
      MulMonotone(1, Pow(b, e - 1), b, Pow(b, e - 1));
    }
  }

  lemma {:induction false} PowAtLeastTwo(b: nat, e: nat)
    requires b >= 2
    ensures Pow(b, e) >= Pow(2, e)
  {
    if e > 0 {
      PowAtLeastTwo(b, e - 1);
      MulMonotone(2, Pow(2, e - 1), b, Pow(b, e - 1));
    }
  }

  lemma PowTwo64()
    ensures Pow(2, 64) == SIZE_MAX + 1
  {
    assert Pow(2, 8) == 256 by { assert Pow(2, 4) == 16; }
    assert Pow(2, 16) == 0x1_0000 by { assert Pow(2, 12) == 0x1000; }
    assert Pow(2, 24) == 0x100_0000 by { assert Pow(2, 20) == 0x10_0000; }
    assert Pow(2, 32) == 0x1_0000_0000 by { assert Pow(2, 28) == 0x1000_0000; }
    assert Pow(2, 40) == 0x100_0000_0000 by { assert Pow(2, 36) == 0x10_0000_0000; }
    assert Pow(2, 48) == 0x1_0000_0000_0000 by { assert Pow(2, 44) == 0x1000_0000_0000; }
    assert Pow(2, 56) == 0x100_0000_0000_0000 by { assert Pow(2, 52) == 0x10_0000_0000_0000; }
    assert Pow(2, 64) == 0x1_0000_0000_0000_0000 by { assert Pow(2, 60) == 0x1000_0000_0000_0000; }
  }

  // ----- Parameter search -----

  /** k is the least positive exponent with fieldSize^k >= groupSize, and that power fits a machine word. */
  ghost predicate MinimalExponent(groupSize: nat, fieldSize: nat, k: nat) {
    k >= 1 && Pow(fieldSize, k - 1) < groupSize <= Pow(fieldSize, k) <= SIZE_MAX
  }

  lemma MinimalExponentUnique(groupSize: nat, q: nat, j: nat, k: nat)
    requires q >= 1 && MinimalExponent(groupSize, q, j) && MinimalExponent(groupSize, q, k)
    ensures j == k
  {
    if j < k { PowMonotone(q, j, k - 1); }
    if k < j { PowMonotone(q, k, j - 1); }
  }

  lemma PowNext(b: nat, e: nat)
    ensures Pow(b, e + 1) == Pow(b, e) * b && Pow(b, 0) == 1
  {
  }

  method FindMinExponent(groupSize: nat, fieldSize: nat) returns (k: nat)
    requires fieldSize >= 2
    ensures k > 0 ==> MinimalExponent(groupSize, fieldSize, k)
    ensures k == 0 ==> forall j: nat :: !MinimalExponent(groupSize, fieldSize, j)
  {
    var exponent: nat := 0;
    var capacity: nat := 1;
    PowNext(fieldSize, 0);
    hide Pow;
    while capacity < groupSize && exponent < MAX_MESSAGE_LENGTH
      invariant exponent <= MAX_MESSAGE_LENGTH && capacity == Pow(fieldSize, exponent) <= SIZE_MAX
      invariant exponent > 0 ==> Pow(fieldSize, exponent - 1) < groupSize
      decreases MAX_MESSAGE_LENGTH - exponent
    {
      if capacity > SIZE_MAX / fieldSize {
        forall j: nat ensures !MinimalExponent(groupSize, fieldSize, j) {
          NoExponentFits(groupSize, fieldSize, exponent, j);
        }
        return 0;
      }
      WithinQuotient(capacity, fieldSize, SIZE_MAX);
      PowNext(fieldSize, exponent);
      capacity := capacity * fieldSize;
      exponent := exponent + 1;
    }
    if capacity < groupSize {
      PowTwo64();
      PowAtLeastTwo(fieldSize, 64);
      assert false;
    }
    k := exponent;
    if k == 0 {
      forall j: nat ensures !MinimalExponent(groupSize, fieldSize, j) {
        if j >= 1 { PowPositive(fieldSize, j - 1); }
      }
    }
  }

  lemma NoExponentFits(groupSize: nat, q: nat, e: nat, j: nat)
    requires q >= 2 && Pow(q, e) < groupSize && Pow(q, e) > SIZE_MAX / q
    ensures !MinimalExponent(groupSize, q, j)
  {
    if MinimalExponent(groupSize, q, j) {
      if j <= e {
        PowMonotone(q, j, e);
      } else {
        PowMonotone(q, e + 1, j);
        BeyondQuotient(Pow(q, e), q, SIZE_MAX);
      }
      assert false;
    }
  }

  /** The parameters the search may choose for a group size and detection threshold. */
  ghost predicate Candidate(groupSize: nat, threshold: nat, p: Params) {
    && IsPrime(p.fieldSize)
    && 2 * threshold + 1 <= p.fieldSize <= MAX_FIELD_SIZE
    && MinimalExponent(groupSize, p.fieldSize, p.messageLength)
    && p.codeLength == p.messageLength + 2 * threshold <= p.fieldSize
  }

  /** Chooses a candidate with the fewest rows, over every prime field size up to the cap. */
  method FindBestParameters(groupSize: nat, threshold: nat) returns (best: Option<Params>)
    ensures best.Some? ==> Candidate(groupSize, threshold, best.value)
    ensures best.Some? ==> forall p :: Candidate(groupSize, threshold, p) ==> best.value.RowCount() <= p.RowCount()
    ensures best == None ==> forall p :: !Candidate(groupSize, threshold, p)
  {
    hide IsPrime, MinimalExponent;
    var q := NextPrime(2 * threshold + 1);
    best := None;
    while q <= MAX_FIELD_SIZE
      invariant IsPrime(q) && q >= 2
      invariant best.Some? ==> Candidate(groupSize, threshold, best.value)
      invariant forall p :: Candidate(groupSize, threshold, p) && p.fieldSize < q ==>
        best.Some? && best.value.RowCount() <= p.RowCount()
      decreases MAX_FIELD_SIZE - q
    {
      var k := FindMinExponent(groupSize, q);
      var p := Params(q, k, k + 2 * threshold);
      forall p' | Candidate(groupSize, threshold, p') && p'.fieldSize == q ensures k > 0 && p' == p {
        MinimalExponentUnique(groupSize, q, p'.messageLength, k);
      }
      if k > 0 {
        if p.codeLength <= q {
          if best == None || p.RowCount() < best.value.RowCount() {
            best := Some(p);
          }
        }
      }
      q := NextPrime(q + 1);
    }
  }

  // ----- Columns as polynomials -----

  /** The base-q digits of a position, least significant first. */
  function Digits(v: nat, q: nat, k: nat): (d: seq<int>)
    requires q > 0
    ensures |d| == k
    decreases k
  {
    if k == 0 then [] else [Rem(v, q)] + Digits(Quo(v, q), q, k - 1)
  }

  lemma {:induction false} DigitsInField(v: nat, q: nat, k: nat)
    requires q > 0
    ensures IsFieldVector(Digits(v, q, k), q)
    decreases k
  {
    hide Quo, Rem;
    if k > 0 { DigitsInField(Quo(v, q), q, k - 1); }
  }

  lemma {:induction false} DigitsInjective(a: nat, b: nat, q: nat, k: nat)
    requires q > 0 && a < Pow(q, k) && b < Pow(q, k) && Digits(a, q, k) == Digits(b, q, k)
    ensures a == b
    decreases k
  {
    hide Quo, Rem;
    if k > 0 {
      assert Digits(a, q, k)[0] == Digits(b, q, k)[0];
      assert Digits(a, q, k)[1..] == Digits(Quo(a, q), q, k - 1);
      assert Digits(b, q, k)[1..] == Digits(Quo(b, q), q, k - 1);
      QuotientBelow(a, q, Pow(q, k - 1));
      QuotientBelow(b, q, Pow(q, k - 1));
      DigitsInjective(Quo(a, q), Quo(b, q), q, k - 1);
      Division(a, q);
      Division(b, q);
    }
  }

  function FromDigits(c: seq<int>, q: nat): nat
    requires q > 0 && IsFieldVector(c, q)
    decreases |c|
  {
    if c == [] then 0 else c[0] + q * FromDigits(c[1..], q)
  }

  /** Adding a lower digit keeps a number below the next power. */
  lemma BelowNextPower(c: nat, q: nat, rest: nat, k: nat)
    requires c < q && rest < Pow(q, k)
    ensures c + q * rest < Pow(q, k + 1)
  {
    MulMonotone(q, rest + 1, q, Pow(q, k));
    assert q * (rest + 1) == q * rest + q;
  }

  lemma {:induction false} FromDigitsDigits(c: seq<int>, q: nat)
    requires q > 0 && IsFieldVector(c, q)
    ensures Digits(FromDigits(c, q), q, |c|) == c && FromDigits(c, q) < Pow(q, |c|)
  {
    hide Quo, Rem;
    if c != [] {
      var rest := FromDigits(c[1..], q);
      FromDigitsDigits(c[1..], q);
      DivisionUnique(FromDigits(c, q), q, rest, c[0]);
      BelowNextPower(c[0], q, rest, |c| - 1);
      assert c == [c[0]] + c[1..];
    }
  }

  /** The field element that column `col` takes at evaluation point x. */
  function Symbol(p: Params, col: nat, x: nat): (s: nat)
    requires p.fieldSize > 0
    ensures s < p.fieldSize
  {
    Eval(Digits(col, p.fieldSize, p.messageLength), x) % p.fieldSize
  }

  /** Row x*q+s of the matrix holds exactly the columns whose symbol at x is s. */
  predicate Contains(p: Params, row: nat, col: nat)
    requires p.fieldSize > 0
  {
    Symbol(p, col, Quo(row, p.fieldSize)) == Rem(row, p.fieldSize)
  }

  /** Digit i of v in base q. */
  function DigitAt(v: nat, q: nat, i: nat): nat
    requires q > 0
  {
    PowPositive(q, i);
    Rem(Quo(v, Pow(q, i)), q)
  }

  /** The polynomial of column v at x, with the base-q digits of v as coefficients of 1, x, x^2 and so on. */
  function ColumnValue(v: nat, q: nat, k: nat, x: nat): nat
    requires q > 0
  {
    if k == 0 then 0 else ColumnValue(v, q, k - 1, x) + DigitAt(v, q, k - 1) * Pow(x, k - 1)
  }

  lemma NextDigit(v: nat, q: nat, i: nat)
    requires q > 0
    ensures DigitAt(v, q, i + 1) == DigitAt(Quo(v, q), q, i)
  {
    PowPositive(q, i);
    DivideByProduct(v, q, Pow(q, i));
    hide Quo, Rem;
  }

  lemma FirstDigit(v: nat, q: nat, x: nat)
    requires q > 0
    ensures DigitAt(v, q, 0) * Pow(x, 0) == Rem(v, q)
  {
    assert Pow(q, 0) == 1 && Pow(x, 0) == 1;
    DivisionUnique(v, 1, v, 0);
    hide Quo, Rem;
  }

  lemma NextTerm(d: nat, x: nat, e: nat, low: nat)
    ensures d * Pow(x, e + 1) + x * low == x * (low + d * Pow(x, e))
  {
    ProductOfThree(d, x, Pow(x, e));
    ProductOfThree(x, d, Pow(x, e));
    assert x * (low + d * Pow(x, e)) == x * low + x * (d * Pow(x, e));
    assert d * x == x * d;
  }

  lemma {:induction false} ColumnHorner(v: nat, q: nat, k: nat, x: nat)
    requires q > 0
    ensures ColumnValue(v, q, k + 1, x) == Rem(v, q) + x * ColumnValue(Quo(v, q), q, k, x)
  {
    hide Quo, Rem, DigitAt, Pow;
    if k == 0 {
      FirstDigit(v, q, x);
      assert ColumnValue(v, q, 1, x) == ColumnValue(v, q, 0, x) + DigitAt(v, q, 0) * Pow(x, 0);
    } else {
      ColumnHorner(v, q, k - 1, x);
      NextDigit(v, q, k - 1);
      NextTerm(DigitAt(Quo(v, q), q, k - 1), x, k - 1, ColumnValue(Quo(v, q), q, k - 1, x));
    }
  }

  lemma {:induction false} EvalIsColumnValue(v: nat, q: nat, k: nat, x: nat)
    requires q > 0
    ensures Eval(Digits(v, q, k), x) == ColumnValue(v, q, k, x)
    decreases k
  {
    hide Quo, Rem, DigitAt, Pow;
    if k > 0 {
      EvalIsColumnValue(Quo(v, q), q, k - 1, x);
      ColumnHorner(v, q, k - 1, x);
      assert Digits(v, q, k)[1..] == Digits(Quo(v, q), q, k - 1);
    }
  }

  /** Row x*q+s holds a column if and only if the polynomial of the column has the value s at x, modulo q. */
  lemma ContainsIff(p: Params, x: nat, s: nat, col: nat)
    requires 0 < p.fieldSize && s < p.fieldSize
    ensures Contains(p, x * p.fieldSize + s, col) <==>
            ColumnValue(col, p.fieldSize, p.messageLength, x) % p.fieldSize == s
  {
    EvalIsColumnValue(col, p.fieldSize, p.messageLength, x);
    assert x * p.fieldSize == p.fieldSize * x;
    DivisionUnique(x * p.fieldSize + s, p.fieldSize, x, s);
    hide Quo, Rem, Eval, Digits, ColumnValue;
  }

  function RowOf(p: Params, x: nat, col: nat): nat
    requires p.fieldSize > 0
  {
    p.fieldSize * x + Symbol(p, col, x)
  }

  lemma RowOfContains(p: Params, x: nat, col: nat, other: nat)
    requires p.fieldSize > 0 && x < p.codeLength
    ensures RowOf(p, x, col) < p.RowCount()
    ensures Contains(p, RowOf(p, x, col), other) <==> Symbol(p, col, x) == Symbol(p, other, x)
  {
    hide Symbol, Quo, Rem;
    DivisionUnique(RowOf(p, x, col), p.fieldSize, x, Symbol(p, col, x));
    MulMonotone(x + 1, p.fieldSize, p.codeLength, p.fieldSize);
    AddOneProduct(x, p.fieldSize);
  }

  // ----- Separation -----

  function Range(n: nat): (s: set<nat>)
    ensures |s| == n && forall x: nat :: x in s <==> x < n
  {
    if n == 0 then {} else Range(n - 1) + {n - 1}
  }

  /** The points where some column of `bad` looks like `col`. */
  function Covered(p: Params, col: nat, bad: set<nat>): set<nat>
    requires p.fieldSize > 0
  {
    set x: nat | x < p.codeLength && exists b :: b in bad && Symbol(p, b, x) == Symbol(p, col, x)
  }

  /** The first n columns are different polynomials of degree below k, evaluated at distinct field elements. */
  ghost predicate IsCode(p: Params, n: nat) {
    && IsPrime(p.fieldSize) && 1 <= p.messageLength <= p.codeLength <= p.fieldSize
    && n <= Pow(p.fieldSize, p.messageLength)
  }

  /** Two different columns agree at no more than k-1 points. */
  lemma PairAgreement(p: Params, n: nat, col: nat, b: nat) returns (agree: set<nat>)
    requires IsCode(p, n) && col < n && b < n && b != col
    ensures |agree| <= p.messageLength - 1
    ensures forall x: nat :: x < p.codeLength && Symbol(p, b, x) == Symbol(p, col, x) ==> x in agree
  {
    hide IsPrime, Digits, Quo, Rem, Pow;
    var q, k := p.fieldSize, p.messageLength;
    DigitsInField(b, q, k);
    DigitsInField(col, q, k);
    agree := Agreement(Digits(b, q, k), Digits(col, q, k), q, p.codeLength);
    if Digits(b, q, k) == Digits(col, q, k) { DigitsInjective(b, col, q, k); }
    AgreementBound(Digits(b, q, k), Digits(col, q, k), q, p.codeLength);
  }

  lemma CoveredStep(p: Params, col: nat, bad: set<nat>, b: nat, agree: set<nat>)
    requires p.fieldSize > 0 && b in bad
    requires forall x: nat :: x < p.codeLength && Symbol(p, b, x) == Symbol(p, col, x) ==> x in agree
    ensures |Covered(p, col, bad)| <= |Covered(p, col, bad - {b})| + |agree|
  {
    hide Symbol;
    UnionBound(Covered(p, col, bad), Covered(p, col, bad - {b}), agree);
  }

  lemma {:induction false} CoveredBound(p: Params, n: nat, col: nat, bad: set<nat>)
    requires IsCode(p, n) && col < n
    requires col !in bad && forall b :: b in bad ==> b < n
    ensures |Covered(p, col, bad)| <= |bad| * (p.messageLength - 1)
    decreases |bad|
  {
    assert p.fieldSize > 0 && p.messageLength >= 1;
    hide Symbol, IsCode;
    if bad == {} {
      assert Covered(p, col, bad) == {};
    } else {
      var b :| b in bad;
      var rest := bad - {b};
      CoveredBound(p, n, col, rest);
      var agree := PairAgreement(p, n, col, b);
      CoveredStep(p, col, bad, b, agree);
      hide Covered;
      AddOneProduct(|rest|, p.messageLength - 1);
      assert |bad| == |rest| + 1;
    }
  }

  /** A set smaller than n misses some number below n. */
  lemma MissingPoint(n: nat, covered: set<nat>) returns (x: nat)
    requires |covered| < n
    ensures x < n && x !in covered
  {
    if Range(n) <= covered { SubsetSize(Range(n), covered); }
    x :| x in Range(n) && x !in covered;
  }

  lemma SubsetSize(a: set<nat>, b: set<nat>)
    requires a <= b
    ensures |a| <= |b|
  {
    assert b == a + (b - a);
  }

  lemma UnionBound(c: set<nat>, a: set<nat>, b: set<nat>)
    requires c <= a + b
    ensures |c| <= |a| + |b|
  {
    SubsetSize(c, a + b);
    SubsetSize(b - a, b);
    assert a + b == a + (b - a);
  }

  /** Some row holds `col` and none of `bad`. */
  ghost predicate Isolated(p: Params, col: nat, bad: set<nat>)
    requires p.fieldSize > 0
  {
    exists row: nat :: row < p.RowCount() && Contains(p, row, col) && forall b :: b in bad ==> !Contains(p, row, b)
  }

  /** Each of the first n positions is isolated from every set of at most t others. */
  ghost predicate Separates(p: Params, n: nat, threshold: nat)
    requires p.fieldSize > 0
  {
    forall col: nat, bad: set<nat> ::
      col < n && |bad| <= threshold && col !in bad && bad <= Range(n) ==> Isolated(p, col, bad)
  }

  /** Too few points are covered, so one is free. */
  lemma FreePoint(p: Params, n: nat, threshold: nat, col: nat, bad: set<nat>) returns (x: nat)
    requires IsCode(p, n) && threshold * (p.messageLength - 1) < p.codeLength
    requires col < n && |bad| <= threshold && col !in bad && bad <= Range(n)
    ensures x < p.codeLength && x !in Covered(p, col, bad)
  {
    hide IsPrime, Symbol, Covered;
    CoveredBound(p, n, col, bad);
    MulMonotone(|bad|, p.messageLength - 1, threshold, p.messageLength - 1);
    x := MissingPoint(p.codeLength, Covered(p, col, bad));
  }

  lemma IsolatedByRootBound(p: Params, n: nat, threshold: nat, col: nat, bad: set<nat>)
    requires IsCode(p, n) && threshold * (p.messageLength - 1) < p.codeLength
    requires col < n && |bad| <= threshold && col !in bad && bad <= Range(n)
    ensures Isolated(p, col, bad)
  {
    var x := FreePoint(p, n, threshold, col, bad);
    hide IsPrime, Symbol, IsCode, Contains, RowOf;
    var row := RowOf(p, x, col);
    RowOfContains(p, x, col, col);
    forall b | b in bad ensures !Contains(p, row, b) {
      RowOfContains(p, x, col, b);
    }
  }

  // ----- When separation fails -----

  /** The column whose polynomial is X^(k-1) minus the vanishing polynomial of k-1 points. */
  function RivalDigits(points: seq<int>, q: nat): (c: seq<int>)
    requires q > 0
    ensures |c| == |points| + 1 && IsFieldVector(c, q) && c[|points|] == 0
  {
    var v := Vanishing(points);
    seq(|points| + 1, i requires 0 <= i < |points| + 1 => if i == |points| then 0 else -v[i] % q)
  }

  function TopDigits(k: nat): (c: seq<int>)
    requires k >= 1
    ensures |c| == k && forall i :: 0 <= i < k ==> c[i] == if i == k - 1 then 1 else 0
  {
    seq(k, i requires 0 <= i < k => if i == k - 1 then 1 else 0)
  }

  /** At each of its points the rival column takes the same symbol as X^(k-1). */
  lemma RivalAgrees(points: seq<int>, q: nat, x: int)
    requires q > 0 && x in points
    ensures Eval(RivalDigits(points, q), x) % q == Eval(TopDigits(|points| + 1), x) % q
  {
    var k := |points| + 1;
    var top, rival, v := TopDigits(k), RivalDigits(points, q), Vanishing(points);
    var d := Diff(top, rival);
    forall i | 0 <= i < k ensures d[i] % q == v[i] % q {
      if i < k - 1 { NegatedRemainder(v[i], q); }
    }
    EvalCongruent(d, v, q, x);
    VanishingRoots(points, x);
    EvalDiff(top, rival, x);
    var m := RemainderDifference(Eval(d, x), 0, q);
    SameRemainder(Eval(top, x), Eval(rival, x), q, m);
  }

  lemma NegatedRemainder(v: int, q: nat)
    requires q > 0
    ensures (0 - (-v % q)) % q == v % q
  {
    var r := -v % q;
    assert -v == q * (-v / q) + r;
    SameRemainder(0 - r, v, q, -v / q);
  }

  lemma {:induction false} ZeroTopDigit(c: seq<int>, q: nat)
    requires q > 0 && c != [] && IsFieldVector(c, q) && c[|c| - 1] == 0
    ensures FromDigits(c, q) < Pow(q, |c| - 1)
  {
    if |c| == 1 {
      assert FromDigits(c[1..], q) == 0;
    } else {
      ZeroTopDigit(c[1..], q);
      BelowNextPower(c[0], q, FromDigits(c[1..], q), |c| - 2);
    }
  }

  lemma {:induction false} TopDigitsValue(k: nat, q: nat)
    requires k >= 1 && q >= 2
    ensures IsFieldVector(TopDigits(k), q) && FromDigits(TopDigits(k), q) == Pow(q, k - 1)
  {
    if k == 1 {
      assert FromDigits(TopDigits(1)[1..], q) == 0;
    } else {
      assert TopDigits(k)[1..] == TopDigits(k - 1);
      TopDigitsValue(k - 1, q);
    }
  }

  /** The k-1 consecutive points of block i, shifted back so that they stay below n. */
  function Block(i: nat, width: nat, n: nat): (points: seq<int>)
    requires width <= n
    ensures |points| == width
  {
    var start := if (i + 1) * width <= n then i * width else n - width;
    seq(width, j requires 0 <= j < width => start + j)
  }

  function Rival(p: Params, i: nat): nat
    requires p.fieldSize > 0 && 1 <= p.messageLength <= p.codeLength
  {
    FromDigits(RivalDigits(Block(i, p.messageLength - 1, p.codeLength), p.fieldSize), p.fieldSize)
  }

  lemma RivalMatches(p: Params, i: nat, x: nat)
    requires p.fieldSize >= 2 && 2 <= p.messageLength <= p.codeLength
    requires x in Block(i, p.messageLength - 1, p.codeLength)
    ensures Symbol(p, Rival(p, i), x) == Symbol(p, Pow(p.fieldSize, p.messageLength - 1), x)
    ensures Rival(p, i) < Pow(p.fieldSize, p.messageLength - 1)
  {
    var q, k := p.fieldSize, p.messageLength;
    var points := Block(i, k - 1, p.codeLength);
    FromDigitsDigits(RivalDigits(points, q), q);
    ZeroTopDigit(RivalDigits(points, q), q);
    TopDigitsValue(k, q);
    FromDigitsDigits(TopDigits(k), q);
    RivalAgrees(points, q, x);
  }

  lemma BlockOf(x: nat, width: nat, n: nat, t: nat) returns (i: nat)
    requires 1 <= width <= n && x < n && n <= t * width
    ensures i < t && x in Block(i, width, n)
  {
    i := Quo(x, width);
    Division(x, width);
    QuotientBelow(x, width, t);
    AddOneProduct(i, width);
    var points := Block(i, width, n);
    if (i + 1) * width <= n {
      assert points[x - i * width] == x;
    } else {
      assert points[x - (n - width)] == x;
    }
  }

  function Rivals(p: Params, t: nat): (s: set<nat>)
    requires p.fieldSize > 0 && 1 <= p.messageLength <= p.codeLength
    ensures |s| <= t
  {
    if t == 0 then {} else Rivals(p, t - 1) + {Rival(p, t - 1)}
  }

  lemma {:induction false} RivalsMembers(p: Params, t: nat)
    requires p.fieldSize >= 2 && 2 <= p.messageLength <= p.codeLength
    ensures forall i: nat :: i < t ==> Rival(p, i) in Rivals(p, t)
    ensures forall b :: b in Rivals(p, t) ==> b < Pow(p.fieldSize, p.messageLength - 1)
  {
    hide Rival;
    if t > 0 {
      RivalsMembers(p, t - 1);
      RivalSmall(p, t - 1);
    }
  }

  /** Every row of column q^(k-1) also holds one of the rivals. */
  lemma RowHasRival(p: Params, threshold: nat, row: nat)
    requires p.fieldSize >= 2 && 2 <= p.messageLength <= p.codeLength
    requires threshold * (p.messageLength - 1) >= p.codeLength
    requires row < p.RowCount() && Contains(p, row, Pow(p.fieldSize, p.messageLength - 1))
    ensures exists b :: b in Rivals(p, threshold) && Contains(p, row, b)
  {
    hide Symbol, Rival, Block, Rivals, Quo, Rem;
    var x := Quo(row, p.fieldSize);
    QuotientBelow(row, p.fieldSize, p.codeLength);
    var i := BlockOf(x, p.messageLength - 1, p.codeLength, threshold);
    RivalMatches(p, i, x);
    RivalsMembers(p, threshold);
    assert Rival(p, i) in Rivals(p, threshold) && Contains(p, row, Rival(p, i));
  }

  /** When t*(k-1) reaches the code length and column q^(k-1) is used, t rival columns cover every row of that
      column. */
  lemma NotIsolated(p: Params, n: nat, threshold: nat) returns (col: nat, bad: set<nat>)
    requires IsCode(p, n) && threshold * (p.messageLength - 1) >= p.codeLength
             && Pow(p.fieldSize, p.messageLength - 1) < n
    ensures col < n && |bad| <= threshold && col !in bad && bad <= Range(n)
    ensures !Isolated(p, col, bad)
  {
    assert p.fieldSize >= 2;
    assert p.messageLength >= 2 by { if p.messageLength == 1 { assert threshold * 0 == 0; } }
    hide IsPrime, Symbol, Contains, Rivals;
    col := Pow(p.fieldSize, p.messageLength - 1);
    bad := Rivals(p, threshold);
    RivalsMembers(p, threshold);
    forall row: nat | row < p.RowCount() && Contains(p, row, col) ensures exists b :: b in bad && Contains(p, row, b) {
      RowHasRival(p, threshold, row);
    }
  }

  lemma RivalSmall(p: Params, i: nat)
    requires p.fieldSize >= 2 && 2 <= p.messageLength <= p.codeLength
    ensures Rival(p, i) < Pow(p.fieldSize, p.messageLength - 1)
  {
    ZeroTopDigit(RivalDigits(Block(i, p.messageLength - 1, p.codeLength), p.fieldSize), p.fieldSize);
  }

  // ----- Groups that do not fill the matrix -----

  /** The least positive number of base-q digits that covers n positions. */
  function DigitsNeeded(n: nat, q: nat, k: nat): (r: nat)
    requires k >= 1 && n <= Pow(q, k)
    ensures 1 <= r <= k && n <= Pow(q, r) && (r == 1 || Pow(q, r - 1) < n)
  {
    if k == 1 || Pow(q, k - 1) < n then k else DigitsNeeded(n, q, k - 1)
  }

  lemma {:induction false} LeadingZeros(v: nat, q: nat, k: nat, x: int)
    requires q > 0 && v == 0
    ensures Eval(Digits(v, q, k), x) == 0
    decreases k
  {
    if k > 0 {
      DivisionUnique(0, q, 0, 0);
      hide Quo, Rem;
      LeadingZeros(0, q, k - 1, x);
      assert Digits(v, q, k)[1..] == Digits(0, q, k - 1);
    }
  }

  /** Digits beyond those a number needs are zero and do not change the polynomial's value. */
  lemma {:induction false} ShortEval(v: nat, q: nat, short: nat, k: nat, x: int)
    requires q > 0 && short <= k && v < Pow(q, short)
    ensures Eval(Digits(v, q, k), x) == Eval(Digits(v, q, short), x)
    decreases k
  {
    hide Quo, Rem;
    if short == 0 {
      LeadingZeros(v, q, k, x);
    } else {
      QuotientBelow(v, q, Pow(q, short - 1));
      ShortEval(Quo(v, q), q, short - 1, k - 1, x);
      assert Digits(v, q, k)[1..] == Digits(Quo(v, q), q, k - 1);
      assert Digits(v, q, short)[1..] == Digits(Quo(v, q), q, short - 1);
    }
  }

  /** The same matrix, seen as a code of shorter messages. */
  function Short(p: Params, n: nat): Params
    requires p.messageLength >= 1 && n <= Pow(p.fieldSize, p.messageLength)
  {
    p.(messageLength := DigitsNeeded(n, p.fieldSize, p.messageLength))
  }

  lemma ShortContains(p: Params, n: nat, row: nat, col: nat)
    requires p.fieldSize > 0 && p.messageLength >= 1 && col < n <= Pow(p.fieldSize, p.messageLength)
    ensures Contains(Short(p, n), row, col) <==> Contains(p, row, col)
  {
    var k := DigitsNeeded(n, p.fieldSize, p.messageLength);
    hide Quo, Rem, Digits, Pow;
    ShortEval(col, p.fieldSize, k, p.messageLength, Quo(row, p.fieldSize));
  }

  lemma ShortIsolated(p: Params, n: nat, col: nat, bad: set<nat>)
    requires p.fieldSize > 0 && p.messageLength >= 1 && col < n <= Pow(p.fieldSize, p.messageLength) && bad <= Range(n)
    ensures Isolated(Short(p, n), col, bad) <==> Isolated(p, col, bad)
  {
    hide Contains;
    forall row: nat, c: nat | c < n ensures Contains(Short(p, n), row, c) <==> Contains(p, row, c) {
      ShortContains(p, n, row, c);
    }
  }

  lemma ShortIsCode(p: Params, groupSize: nat, threshold: nat, n: nat)
    requires Candidate(groupSize, threshold, p) && n <= groupSize
    ensures p.fieldSize >= 2 && p.messageLength >= 1 && n <= Pow(p.fieldSize, p.messageLength)
    ensures IsCode(Short(p, n), n)
  {
  }

  lemma FullGroupDigits(p: Params, groupSize: nat, threshold: nat)
    requires Candidate(groupSize, threshold, p)
    ensures DigitsNeeded(groupSize, p.fieldSize, p.messageLength) == p.messageLength
  {
  }

  /** The matrix chosen for any group size and threshold t separates every set of at most t among the first n positions
      if and only if t*(j-1) < k+2t, where k is the chosen message length and j the number of digits n positions
      need. */
  lemma SeparatesIff(p: Params, groupSize: nat, threshold: nat, n: nat)
    requires Candidate(groupSize, threshold, p) && 0 < n <= groupSize
    ensures Separates(p, n, threshold) <==>
            threshold * (DigitsNeeded(n, p.fieldSize, p.messageLength) - 1) < p.messageLength + 2 * threshold
  {
    var short := Short(p, n);
    ShortIsCode(p, groupSize, threshold, n);
    hide IsPrime, Isolated, Pow, DigitsNeeded;
    if threshold * (short.messageLength - 1) < p.codeLength {
      forall col: nat, bad: set<nat> |
        col < n && |bad| <= threshold && col !in bad && bad <= Range(n)
        ensures Isolated(p, col, bad)
      {
        IsolatedByRootBound(short, n, threshold, col, bad);
        ShortIsolated(p, n, col, bad);
      }
    } else {
      var col, bad := UncoveredLoss(p, groupSize, threshold, n);
    }
  }

  /** A position of a group of n that no row isolates from some set of at most t others. */
  lemma UncoveredLoss(p: Params, groupSize: nat, threshold: nat, n: nat) returns (col: nat, bad: set<nat>)
    requires Candidate(groupSize, threshold, p) && 0 < n <= groupSize
    requires threshold * (DigitsNeeded(n, p.fieldSize, p.messageLength) - 1) >= p.messageLength + 2 * threshold
    ensures col < n && |bad| <= threshold && col !in bad && bad <= Range(n) && !Isolated(p, col, bad)
  {
    var short := Short(p, n);
    ShortIsCode(p, groupSize, threshold, n);
    hide IsPrime, Isolated, Pow;
    col, bad := NotIsolated(short, n, threshold);
    ShortIsolated(p, n, col, bad);
  }
}
