/** Division facts behind block geometry. */
module Arithmetic {
  /** Quotient and remainder are determined by their equation. */
  lemma DivisionIsUnique(x: int, n: nat, q: int, r: nat)
    requires n >= 1 && x == q * n + r && r < n
    ensures x / n == q && x % n == r
  {
    var q', r' := x / n, x % n;
    assert x == q' * n + r';
    var d := q - q';
    assert d * n == r' - r;
    assert d >= 1 ==> d * n >= n;
    assert d <= -1 ==> d * n + n <= 0;
  }

  lemma DivideMultiple(i: int, n: nat)
    requires n >= 1
    ensures i * n / n == i && i * n % n == 0
  {
    DivisionIsUnique(i * n, n, i, 0);
  }

  lemma RoundUpMultiple(q: nat, n: nat)
    requires n >= 1
    ensures (q * n + n - 1) / n == q
  {
    DivisionIsUnique(q * n + n - 1, n, q, n - 1);
  }

  /** `a / n` is the largest multiple count that fits. */
  lemma QuotientBounds(a: nat, n: nat)
    requires n >= 1
    ensures a / n * n <= a < a / n * n + n
  {
    assert a == a / n * n + a % n;
  }

  lemma MultiplesOrdered(i: int, j: int, n: nat)
    requires n >= 1
    ensures i * n < j * n <==> i < j
    ensures i < j ==> i * n + n <= j * n
  {
    var d := j - i;
    assert j * n == i * n + d * n;
    assert d >= 1 ==> d * n >= n;
    assert d <= 0 ==> d * n <= 0;
  }

  /** Block `i` fits into `a` tokens exactly when it precedes the quotient. */
  lemma BlockFits(a: nat, n: nat, i: nat)
    requires n >= 1
    ensures i < a / n <==> i * n + n <= a
  {
    QuotientBounds(a, n);
    MultiplesOrdered(i, a / n, n);
    MultiplesOrdered(a / n, i, n);
  }

  /** Rounding up reaches at least the value, and no later than any multiple above it. */
  lemma RoundUpBounds(a: nat, n: nat)
    requires n >= 1
    ensures a <= (a + n - 1) / n * n
  {
    QuotientBounds(a + n - 1, n);
  }

  lemma SumOfMultiples(a: int, b: int, n: nat)
    requires n >= 1 && a % n == 0 && b % n == 0
    ensures (a + b) % n == 0
  {
    var i, j := a / n, b / n;
    assert a == i * n && b == j * n;
    assert a + b == (i + j) * n;
    DivideMultiple(i + j, n);
  }

  /** The ratio of a part to a whole lies in the unit interval and is one exactly for the whole. */
  lemma UnitRatio(a: nat, b: nat)
    requires a <= b && b > 0
    ensures 0.0 <= a as real / b as real <= 1.0
    ensures a as real / b as real == 1.0 <==> a == b
  {
    var x, y := a as real, b as real;
    RatioBounds(x, y);
    RatioIsOne(x, y);
  }

  /** `part / whole` of two counts, and zero for an empty whole. */
  function Ratio(part: nat, whole: nat): real {
    if whole == 0 then 0.0 else part as real / whole as real
  }

  /** The ratio is the one number that scales the whole to the part. */
  lemma RatioScales(part: nat, whole: nat, r: real)
    requires part <= whole
    ensures r == Ratio(part, whole) <==> r * whole as real == part as real && (whole == 0 ==> r == 0.0)
  {
    if whole > 0 {
      QuotientIs(r, part as real, whole as real);
    }
  }

  lemma QuotientIs(r: real, x: real, y: real)
    requires y > 0.0
    ensures r == x / y <==> r * y == x
  {
  }

  /** The same law from the value on, without a case distinction. */
  lemma RatioTimes(part: nat, whole: nat, r: real)
    requires part <= whole && r == Ratio(part, whole)
    ensures r * whole as real == part as real
  {
    RatioScales(part, whole, r);
  }

  /** A ratio of a part lies in the unit interval, is one exactly for the whole and zero exactly for nothing. */
  lemma RatioRange(part: nat, whole: nat)
    requires part <= whole
    ensures 0.0 <= Ratio(part, whole) <= 1.0
    ensures Ratio(part, whole) == 1.0 <==> part == whole > 0
    ensures Ratio(part, whole) == 0.0 <==> part == 0
  {
    if whole > 0 {
      UnitRatio(part, whole);
      QuotientIs(0.0, part as real, whole as real);
    }
  }

  lemma RatioBounds(x: real, y: real)
    requires 0.0 <= x <= y && y > 0.0
    ensures 0.0 <= x / y <= 1.0
  {
    var q := x / y;
    assert q * y == x;
    assert q > 1.0 ==> (q - 1.0) * y > 0.0;
  }

  lemma RatioIsOne(x: real, y: real)
    requires y > 0.0
    ensures x / y == 1.0 <==> x == y
  {
    var q := x / y;
    assert q * y == x;
    assert q == 1.0 ==> x == y;
  }

  lemma RatioMonotone(a: nat, b: nat, d: nat)
    requires a <= b && d > 0
    ensures a as real / d as real <= b as real / d as real
  {
    var x, y := a as real / d as real, b as real / d as real;
    assert x * d as real == a as real && y * d as real == b as real;
    assert (y - x) * d as real >= 0.0;
  }
}
