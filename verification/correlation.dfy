/**
 * `calculateCorrelation(x, y)` of backend/src/routes/wellness.js: Pearson's
 * coefficient `(n Sxy - Sx Sy) / sqrt((n Sxx - Sx^2)(n Syy - Sy^2))` over two
 * series of integer metrics, `null` when the series differ in length or are
 * empty, and 0 when the denominator is 0.
 *
 * The square root is not computed: a coefficient is kept as its numerator and
 * the square of its denominator, which the sums determine exactly.
 */
module Correlation {

  /** `null`, `0`, or `numerator / Math.sqrt(denominatorSquared)`. */
  datatype Coefficient = Undefined | Zero | Ratio(numerator: int, denominatorSquared: int)

  function Sum(x: seq<int>): int
  {
    if |x| == 0 then 0 else x[0] + Sum(x[1..])
  }

  /** `x.reduce((sum, xi, i) => sum + xi * y[i], 0)`. */
  function Dot(x: seq<int>, y: seq<int>): int
    requires |x| == |y|
  {
    if |x| == 0 then 0 else x[0] * y[0] + Dot(x[1..], y[1..])
  }

  /** `n * Sxx - Sx * Sx`: `n` times the sum of squared deviations, never negative. */
  function Spread(x: seq<int>): (s: int)
    ensures s >= 0
  {
    SpreadNonNegative(x);
    |x| * Dot(x, x) - Sum(x) * Sum(x)
  }

  /** `n * Sxy - Sx * Sy`. */
  function Covariation(x: seq<int>, y: seq<int>): int
    requires |x| == |y|
  {
    |x| * Dot(x, y) - Sum(x) * Sum(y)
  }

  function Correlate(x: seq<int>, y: seq<int>): (r: Coefficient)
    ensures r.Undefined? <==> |x| != |y| || |x| == 0
    ensures r.Ratio? ==> r.denominatorSquared > 0
  {
    if |x| != |y| || |x| == 0 then Undefined
    else
      var d := Spread(x) * Spread(y);
      if d == 0 then Zero else Ratio(Covariation(x, y), d)
  }

  // ----- sums of affine images -----

  /** `[a * v + b | v in x]`. */
  function Affine(x: seq<int>, a: int, b: int): (r: seq<int>)
    ensures |r| == |x|
    ensures forall i :: 0 <= i < |x| ==> r[i] == a * x[i] + b
  {
    if |x| == 0 then [] else [a * x[0] + b] + Affine(x[1..], a, b)
  }

  lemma {:induction false} SumAffine(x: seq<int>, a: int, b: int)
    ensures Sum(Affine(x, a, b)) == a * Sum(x) + |x| * b
    decreases |x|
  {
    if |x| > 0 {
      SumAffine(x[1..], a, b);
      assert Affine(x, a, b)[1..] == Affine(x[1..], a, b);
    }
  }

  lemma ProductExpands(a: int, b: int, c: int, d: int, x: int, y: int)
    ensures (a * x + b) * (c * y + d) == a * c * (x * y) + a * d * x + b * c * y + b * d
  {
  }

  lemma Distribute(k: int, p: int, q: int)
    ensures k * (p + q) == k * p + k * q
  {
  }

  /** The dot product of two affine images expands bilinearly. */
  lemma {:induction false} DotAffine(x: seq<int>, y: seq<int>, a: int, b: int, c: int, d: int)
    requires |x| == |y|
    ensures Dot(Affine(x, a, b), Affine(y, c, d)) ==
      a * c * Dot(x, y) + a * d * Sum(x) + b * c * Sum(y) + |x| * (b * d)
    decreases |x|
  {
    if |x| > 0 {
      var x', y' := x[1..], y[1..];
      DotAffine(x', y', a, b, c, d);
      var u, v := Affine(x, a, b), Affine(y, c, d);
      assert u[1..] == Affine(x', a, b);
      assert v[1..] == Affine(y', c, d);
      assert Dot(u, v) == u[0] * v[0] + Dot(Affine(x', a, b), Affine(y', c, d));
      DotAffineStep(a, b, c, d, x[0], y[0], Dot(x', y'), Sum(x'), Sum(y'), |x'|);
    }
  }

  /** One step of `DotAffine`: the head product joins the expanded tail. */
  lemma DotAffineStep(a: int, b: int, c: int, d: int, x0: int, y0: int, p: int, sx: int, sy: int, m: int)
    ensures (a * x0 + b) * (c * y0 + d) + (a * c * p + a * d * sx + b * c * sy + m * (b * d)) ==
      a * c * (x0 * y0 + p) + a * d * (x0 + sx) + b * c * (y0 + sy) + (m + 1) * (b * d)
  {
    ProductExpands(a, b, c, d, x0, y0);
    Distribute(a * c, x0 * y0, p);
    Distribute(a * d, x0, sx);
    Distribute(b * c, y0, sy);
    Distribute(b * d, m, 1);
    assert (m + 1) * (b * d) == (b * d) * (m + 1);
  }

  lemma CentredAlgebra(n: int, dot: int, sx: int, sy: int, b: int, d: int)
    requires b == -sx && d == -sy
    ensures n * n * dot + n * d * sx + b * n * sy + n * (b * d) == n * (n * dot - sx * sy)
  {
  }

  /** Centring `x` and `y` at `n` times their means scales the sums by `n`. */
  lemma Centred(x: seq<int>, y: seq<int>)
    requires |x| == |y|
    ensures var n := |x|; var u := Affine(x, n, -Sum(x)); var v := Affine(y, n, -Sum(y));
      Dot(u, v) == n * Covariation(x, y)
  {
    var n, dot, sx, sy := |x|, Dot(x, y), Sum(x), Sum(y);
    var b, d := -sx, -sy;
    DotAffine(x, y, n, b, n, d);
    assert Dot(Affine(x, n, b), Affine(y, n, d)) == n * n * dot + n * d * sx + b * n * sy + n * (b * d);
    CentredAlgebra(n, dot, sx, sy, b, d);
    assert Covariation(x, y) == n * dot - sx * sy;
  }

  lemma {:induction false} DotSelfNonNegative(x: seq<int>)
    ensures Dot(x, x) >= 0
    decreases |x|
  {
    if |x| > 0 {
      DotSelfNonNegative(x[1..]);
      assert x[0] * x[0] >= 0;
    }
  }

  lemma SpreadNonNegative(x: seq<int>)
    ensures |x| * Dot(x, x) - Sum(x) * Sum(x) >= 0
  {
    var n := |x|;
    if n > 0 {
      var u := Affine(x, n, -Sum(x));
      Centred(x, x);
      DotSelfNonNegative(u);
      PositiveFactor(n, n * Dot(x, x) - Sum(x) * Sum(x));
    }
  }

  /** A product with a positive factor that is not negative has a non-negative other factor. */
  lemma PositiveFactor(n: int, m: int)
    requires n > 0 && n * m >= 0
    ensures m >= 0
  {
  }

  // ----- Cauchy-Schwarz -----

  lemma NonNegativeProduct(a: int, b: int)
    requires a >= 0 && b >= 0
    ensures a * b >= 0
  {
  }

  /** Of two numbers whose squares are ordered, the larger square belongs to the larger number if it is not negative. */
  lemma SquareOrder(x: int, y: int)
    requires x >= 0 && x * x >= y * y
    ensures x >= y
  {
  }

  lemma SumDifferenceSquares(u: int, w: int)
    ensures (u + w) * (u + w) == (u - w) * (u - w) + 4 * (u * w)
  {
  }

  lemma Regroup(p: int, q: int, a: int, b: int)
    ensures (p * (b * b)) * (q * (a * a)) == (p * q) * ((a * b) * (a * b))
  {
  }

  lemma DoubleSquare(s: int, m: int)
    ensures (2 * s * m) * (2 * s * m) == 4 * ((s * s) * (m * m))
  {
  }

  lemma DifferenceOfProducts(k: int, p: int, q: int)
    ensures (p - q) * k == p * k - q * k
  {
  }

  /** The cross term of one Cauchy-Schwarz step. */
  lemma CrossTerm(s: int, p: int, q: int, a: int, b: int)
    requires p >= 0 && q >= 0 && s * s <= p * q
    ensures 2 * s * (a * b) <= p * (b * b) + q * (a * a)
  {
    var m := a * b;
    var u := p * (b * b);
    var w := q * (a * a);
    var mm := m * m;
    NonNegativeProduct(p, b * b);
    NonNegativeProduct(q, a * a);
    SumDifferenceSquares(u, w);
    assert (u + w) * (u + w) == (u - w) * (u - w) + 4 * (u * w);
    Regroup(p, q, a, b);
    assert u * w == (p * q) * mm;
    DoubleSquare(s, m);
    assert (2 * s * m) * (2 * s * m) == 4 * ((s * s) * mm);
    NonNegativeProduct(p * q - s * s, mm);
    DifferenceOfProducts(mm, p * q, s * s);
    assert (p * q) * mm - (s * s) * mm >= 0;
    SquareNonNegative(u - w);
    assert (u - w) * (u - w) >= 0;
    LinearStep((u + w) * (u + w), (u - w) * (u - w), u * w, (p * q) * mm, (s * s) * mm,
      (2 * s * m) * (2 * s * m));
    SquareOrder(u + w, 2 * s * m);
  }

  lemma SquareNonNegative(x: int)
    ensures x * x >= 0
  {
  }

  lemma LinearStep(xx: int, yy: int, uw: int, pq: int, ss: int, zz: int)
    requires xx == yy + 4 * uw && uw == pq && zz == 4 * ss && pq - ss >= 0 && yy >= 0
    ensures xx >= zz
  {
  }

  lemma StepAlgebra(s: int, p: int, q: int, a: int, b: int)
    ensures (s + a * b) * (s + a * b) == s * s + 2 * s * (a * b) + (a * b) * (a * b)
    ensures (p + a * a) * (q + b * b) == p * q + p * (b * b) + q * (a * a) + (a * b) * (a * b)
  {
  }

  /** Cauchy-Schwarz: `(x . y)^2 <= (x . x)(y . y)`. */
  lemma {:induction false} CauchySchwarz(x: seq<int>, y: seq<int>)
    requires |x| == |y|
    ensures Dot(x, y) * Dot(x, y) <= Dot(x, x) * Dot(y, y)
    decreases |x|
  {
    if |x| > 0 {
      var s := Dot(x[1..], y[1..]);
      var p := Dot(x[1..], x[1..]);
      var q := Dot(y[1..], y[1..]);
      CauchySchwarz(x[1..], y[1..]);
      DotSelfNonNegative(x[1..]);
      DotSelfNonNegative(y[1..]);
      CrossTerm(s, p, q, x[0], y[0]);
      StepAlgebra(s, p, q, x[0], y[0]);
    }
  }

  // ----- properties of the coefficient -----

  lemma {:induction false} DotSymmetric(x: seq<int>, y: seq<int>)
    requires |x| == |y|
    ensures Dot(x, y) == Dot(y, x)
    decreases |x|
  {
    if |x| > 0 {
      DotSymmetric(x[1..], y[1..]);
    }
  }

  /** The coefficient does not depend on the order of the two series. */
  lemma CorrelateSymmetric(x: seq<int>, y: seq<int>)
    ensures Correlate(x, y) == Correlate(y, x)
  {
    if |x| == |y| && |x| > 0 {
      DotSymmetric(x, y);
      assert Covariation(x, y) == Covariation(y, x);
      assert Spread(x) * Spread(y) == Spread(y) * Spread(x);
    }
  }

  lemma ScaledCancel(n: int, c: int, p: int, q: int)
    requires n > 0 && (n * c) * (n * c) <= (n * p) * (n * q)
    ensures c * c <= p * q
  {
    var nn := n * n;
    assert (n * c) * (n * c) == nn * (c * c);
    assert (n * p) * (n * q) == nn * (p * q);
    DifferenceOfProducts(nn, p * q, c * c);
    assert (p * q - c * c) * nn >= 0;
    assert nn > 0;
    PositiveFactor(nn, p * q - c * c);
  }

  /** `(n Sxy - Sx Sy)^2 <= (n Sxx - Sx^2)(n Syy - Sy^2)`. */
  lemma CovariationBound(x: seq<int>, y: seq<int>)
    requires |x| == |y| && |x| > 0
    ensures Covariation(x, y) * Covariation(x, y) <= Spread(x) * Spread(y)
  {
    var n := |x|;
    var u := Affine(x, n, -Sum(x));
    var v := Affine(y, n, -Sum(y));
    Centred(x, y);
    Centred(x, x);
    Centred(y, y);
    CauchySchwarz(u, v);
    assert Covariation(x, x) == Spread(x) && Covariation(y, y) == Spread(y);
    ScaledCancel(n, Covariation(x, y), Spread(x), Spread(y));
  }

  /**
   * The coefficient lies between -1 and 1: its numerator squared never exceeds
   * the square of its denominator.
   */
  lemma CorrelateBounded(x: seq<int>, y: seq<int>)
    ensures Correlate(x, y).Ratio? ==>
      Correlate(x, y).numerator * Correlate(x, y).numerator <= Correlate(x, y).denominatorSquared
  {
    if |x| == |y| && |x| > 0 {
      CovariationBound(x, y);
    }
  }

  lemma {:induction false} ConstantSums(x: seq<int>, k: int)
    requires forall i :: 0 <= i < |x| ==> x[i] == k
    ensures Sum(x) == |x| * k && Dot(x, x) == |x| * (k * k)
    decreases |x|
  {
    if |x| > 0 {
      ConstantSums(x[1..], k);
    }
  }

  /** A series that never changes correlates to 0 with anything of its length. */
  lemma CorrelateConstant(x: seq<int>, y: seq<int>, k: int)
    requires |x| == |y| && |x| > 0
    requires forall i :: 0 <= i < |x| ==> x[i] == k
    ensures Correlate(x, y) == Zero
  {
    var n := |x|;
    ConstantSums(x, k);
    assert n * (n * (k * k)) == (n * k) * (n * k);
    assert Spread(x) == 0;
  }

  /** A series correlates to exactly 1 with itself unless it is constant, where the result is 0. */
  lemma CorrelateSelf(x: seq<int>)
    requires |x| > 0
    ensures Correlate(x, x).Zero? || Correlate(x, x).Ratio?
    ensures Correlate(x, x).Ratio? ==>
      Correlate(x, x).numerator > 0 &&
      Correlate(x, x).numerator * Correlate(x, x).numerator == Correlate(x, x).denominatorSquared
  {
  }

  lemma NegatedSums(x: seq<int>, y: seq<int>)
    requires |x| == |y|
    ensures var z := Affine(y, -1, 0);
      Sum(z) == -Sum(y) && Dot(x, z) == -Dot(x, y) && Dot(z, z) == Dot(y, y)
  {
    SumAffine(y, -1, 0);
    DotAffine(x, y, 1, 0, -1, 0);
    assert Affine(x, 1, 0) == x;
    DotAffine(y, y, -1, 0, -1, 0);
  }

  lemma NegationAlgebra(n: int, dot: int, sx: int, sy: int, dz: int, sz: int)
    requires dz == -dot && sz == -sy
    ensures n * dz - sx * sz == -(n * dot - sx * sy)
  {
  }

  lemma NegatedSpreadAlgebra(n: int, dyy: int, dzz: int, sy: int, sz: int)
    requires dzz == dyy && sz == -sy
    ensures n * dzz - sz * sz == n * dyy - sy * sy
  {
  }

  /** Negating one series negates the coefficient. */
  lemma CorrelateNegated(x: seq<int>, y: seq<int>)
    requires |x| == |y| && |x| > 0
    ensures var r := Correlate(x, y); var s := Correlate(x, Affine(y, -1, 0));
      (r.Zero? <==> s.Zero?) &&
      (r.Ratio? ==> s == Ratio(-r.numerator, r.denominatorSquared))
  {
    var z := Affine(y, -1, 0);
    NegatedSums(x, y);
    NegationAlgebra(|x|, Dot(x, y), Sum(x), Sum(y), Dot(x, z), Sum(z));
    NegatedSpreadAlgebra(|x|, Dot(y, y), Dot(z, z), Sum(y), Sum(z));
    assert Covariation(x, z) == -Covariation(x, y);
    assert Spread(z) == Spread(y);
  }
}
