/**
  The statistical forecasts (domains/forecast/forecast.go) over the reals: the fitted
  line is the least-squares optimum, thresholds are projected exactly, smoothed levels
  stay inside the data.
 */
module Forecast {
  import opened Text

  // ---------------------------------------------------------------- sums over i = 0..n-1

  type Terms = nat -> real

  function Sum(n: nat, f: Terms): real { if n == 0 then 0.0 else Sum(n - 1, f) + f(n - 1) }

  lemma Distribute(c: real, x: real, y: real)
    ensures c * (x + y) == c * x + c * y
  {}

  /** A linear combination of four values. */
  function Combine(w: real, c: real, x: real, d: real, y: real, z: real): real { w + c * x + d * y + z }

  /** Summation is linear. */
  lemma {:induction false} SumCombine(n: nat, h: Terms, f: Terms, c: real, g: Terms, d: real, k: Terms, m: Terms)
    requires forall i: nat :: i < n ==> h(i) == Combine(f(i), c, g(i), d, k(i), m(i))
    ensures Sum(n, h) == Combine(Sum(n, f), c, Sum(n, g), d, Sum(n, k), Sum(n, m))
  {
    if n > 0 {
      SumCombine(n - 1, h, f, c, g, d, k, m);
      Distribute(c, Sum(n - 1, g), g(n - 1));
      Distribute(d, Sum(n - 1, k), k(n - 1));
    }
  }

  lemma {:induction false} SumNonNegative(n: nat, f: Terms)
    requires forall i: nat :: i < n ==> f(i) >= 0.0
    ensures Sum(n, f) >= 0.0
    ensures Sum(n, f) == 0.0 ==> forall i: nat :: i < n ==> f(i) == 0.0
  {
    if n > 0 {
      SumNonNegative(n - 1, f);
    }
  }

  lemma {:induction false} SumZero(n: nat, f: Terms)
    requires forall i: nat :: i < n ==> f(i) == 0.0
    ensures Sum(n, f) == 0.0
  {
    if n > 0 {
      SumZero(n - 1, f);
    }
  }

  function Zeros(): Terms { (i: nat) => 0.0 }

  function Ones(): Terms { (i: nat) => 1.0 }

  function Xs(): Terms { (i: nat) => i as real }

  function XX(i: nat): real { i as real * i as real }

  function XXs(): Terms { (i: nat) => XX(i) }

  function At(ys: seq<real>, i: nat): real { if i < |ys| then ys[i] else 0.0 }

  function Ys(ys: seq<real>): Terms { (i: nat) => At(ys, i) }

  function XY(ys: seq<real>, i: nat): real { i as real * At(ys, i) }

  function XYs(ys: seq<real>): Terms { (i: nat) => XY(ys, i) }

  lemma {:induction false} SumOnes(n: nat)
    ensures Sum(n, Ones()) == n as real
  {
    if n > 0 {
      SumOnes(n - 1);
    }
  }

  lemma {:induction false} SumXClosed(n: nat)
    ensures 2.0 * Sum(n, Xs()) == n as real * (n as real - 1.0)
  {
    if n > 0 {
      SumXClosed(n - 1);
      var m := n as real;
      assert (n - 1) as real == m - 1.0;
      assert (m - 1.0) * (m - 2.0) + 2.0 * (m - 1.0) == m * (m - 1.0);
    }
  }

  lemma {:induction false} SumXXClosed(n: nat)
    ensures 6.0 * Sum(n, XXs()) == n as real * (n as real - 1.0) * (2.0 * n as real - 1.0)
  {
    if n > 0 {
      SumXXClosed(n - 1);
      var m := n as real;
      assert (n - 1) as real == m - 1.0;
      SquareStep(m);
    }
  }

  lemma SquareStep(m: real)
    ensures (m - 1.0) * (m - 2.0) * (2.0 * m - 3.0) + 6.0 * ((m - 1.0) * (m - 1.0)) == m * (m - 1.0) * (2.0 * m - 1.0)
  {
    calc {
      (m - 1.0) * (m - 2.0) * (2.0 * m - 3.0) + 6.0 * ((m - 1.0) * (m - 1.0));
      (m - 1.0) * ((m - 2.0) * (2.0 * m - 3.0) + 6.0 * (m - 1.0));
      (m - 1.0) * (m * (2.0 * m - 1.0));
      m * (m - 1.0) * (2.0 * m - 1.0);
    }
  }

  function Denominator(n: nat): real { n as real * Sum(n, XXs()) - Sum(n, Xs()) * Sum(n, Xs()) }

  /** The closed form n^2 (n^2 - 1) / 12: the guard against a zero denominator never fires
      for two points or more. */
  lemma DenominatorClosed(n: nat)
    ensures 12.0 * Denominator(n) == n as real * n as real * (n as real * n as real - 1.0)
    ensures n >= 2 ==> Denominator(n) > 0.0
  {
    SumXClosed(n);
    SumXXClosed(n);
    ClosedForm(n as real, Sum(n, Xs()), Sum(n, XXs()));
    if n >= 2 {
      Positive(n as real);
    }
  }

  lemma ClosedForm(m: real, sx: real, sxx: real)
    requires 2.0 * sx == m * (m - 1.0) && 6.0 * sxx == m * (m - 1.0) * (2.0 * m - 1.0)
    ensures 12.0 * (m * sxx - sx * sx) == m * m * (m * m - 1.0)
  {
    calc {
      12.0 * (m * sxx - sx * sx);
      2.0 * m * (6.0 * sxx) - 3.0 * ((2.0 * sx) * (2.0 * sx));
      2.0 * m * (m * (m - 1.0) * (2.0 * m - 1.0)) - 3.0 * ((m * (m - 1.0)) * (m * (m - 1.0)));
      { Factor(m); }
      m * m * (m * m - 1.0);
    }
  }

  lemma Factor(m: real)
    ensures 2.0 * m * (m * (m - 1.0) * (2.0 * m - 1.0)) - 3.0 * ((m * (m - 1.0)) * (m * (m - 1.0)))
         == m * m * (m * m - 1.0)
  {
    var d := m - 1.0;
    assert 2.0 * m * (m * d * (2.0 * m - 1.0)) == m * m * (d * (4.0 * m - 2.0));
    assert 3.0 * ((m * d) * (m * d)) == m * m * (d * (3.0 * d));
    assert d * (4.0 * m - 2.0) - d * (3.0 * d) == d * (m + 1.0);
    assert d * (m + 1.0) == m * m - 1.0;
  }

  lemma Positive(m: real)
    requires m >= 2.0
    ensures m * m * (m * m - 1.0) > 0.0
  {
    assert m * m >= 4.0;
  }

  // ---------------------------------------------------------------- residuals

  function Square(r: real): (s: real)
    ensures s >= 0.0
  {
    r * r
  }

  /** Residual of point i from the line a*x + b. */
  function Res(ys: seq<real>, a: real, b: real, i: nat): real { At(ys, i) - (a * i as real + b) }

  function Residuals(ys: seq<real>, a: real, b: real): Terms { (i: nat) => Res(ys, a, b, i) }

  function WeightedRes(ys: seq<real>, a: real, b: real, i: nat): real { i as real * Res(ys, a, b, i) }

  function WeightedResiduals(ys: seq<real>, a: real, b: real): Terms { (i: nat) => WeightedRes(ys, a, b, i) }

  function SquaredResiduals(ys: seq<real>, a: real, b: real): Terms { (i: nat) => Square(Res(ys, a, b, i)) }

  function SquaredOffset(da: real, db: real, i: nat): real { Square(da * i as real + db) }

  function SquaredOffsets(da: real, db: real): Terms { (i: nat) => SquaredOffset(da, db, i) }

  /** Sum of squared residuals of the line a*x + b. */
  function Error(ys: seq<real>, a: real, b: real): real { Sum(|ys|, SquaredResiduals(ys, a, b)) }

  lemma ResidualSum(ys: seq<real>, a: real, b: real)
    ensures var n := |ys|;
            Sum(n, Residuals(ys, a, b)) == Combine(Sum(n, Ys(ys)), -a, Sum(n, Xs()), -b, n as real, 0.0)
  {
    var n := |ys|;
    forall i: nat | i < n
      ensures Residuals(ys, a, b)(i) == Combine(Ys(ys)(i), -a, Xs()(i), -b, Ones()(i), Zeros()(i))
    {
      PlainPoint(i as real, At(ys, i), a, b);
    }
    SumCombine(n, Residuals(ys, a, b), Ys(ys), -a, Xs(), -b, Ones(), Zeros());
    SumOnes(n);
    SumZero(n, Zeros());
  }

  lemma PlainPoint(x: real, y: real, a: real, b: real)
    ensures y - (a * x + b) == Combine(y, -a, x, -b, 1.0, 0.0)
  {}

  lemma WeightedResidualSum(ys: seq<real>, a: real, b: real)
    ensures var n := |ys|;
            Sum(n, WeightedResiduals(ys, a, b)) == Combine(Sum(n, XYs(ys)), -a, Sum(n, XXs()), -b, Sum(n, Xs()), 0.0)
  {
    var n := |ys|;
    forall i: nat | i < n
      ensures WeightedResiduals(ys, a, b)(i) == Combine(XYs(ys)(i), -a, XXs()(i), -b, Xs()(i), Zeros()(i))
    {
      WeightedIndex(ys, a, b, i);
    }
    SumCombine(n, WeightedResiduals(ys, a, b), XYs(ys), -a, XXs(), -b, Xs(), Zeros());
    SumZero(n, Zeros());
  }

  lemma WeightedIndex(ys: seq<real>, a: real, b: real, i: nat)
    ensures WeightedRes(ys, a, b, i) == Combine(XY(ys, i), -a, XX(i), -b, i as real, 0.0)
  {
    WeightedPoint(i as real, At(ys, i), a, b);
  }

  lemma WeightedPoint(x: real, y: real, a: real, b: real)
    ensures x * (y - (a * x + b)) == x * y + (-a) * (x * x) + (-b) * x
  {}

  /** One point: moving the line by (da, db) changes its squared error by two terms in the
      residual and a square. */
  lemma PointShift(y: real, x: real, s: real, c: real, a: real, b: real)
    ensures var r := y - (s * x + c);
            Square(y - (a * x + b)) == Square(r) + 2.0 * (s - a) * (x * r) + 2.0 * (c - b) * r + Square((s - a) * x + (c - b))
  {
    var r := y - (s * x + c);
    var d := (s - a) * x + (c - b);
    assert s * x - a * x == (s - a) * x;
    assert y - (a * x + b) == r + d;
    assert (r + d) * (r + d) == r * r + 2.0 * (d * r) + d * d;
    assert d * r == (s - a) * x * r + (c - b) * r;
    assert (s - a) * x * r == (s - a) * (x * r);
  }

  lemma IndexShift(ys: seq<real>, i: nat, s: real, c: real, a: real, b: real)
    ensures Square(Res(ys, a, b, i)) == Combine(Square(Res(ys, s, c, i)), 2.0 * (s - a), WeightedRes(ys, s, c, i),
                                                2.0 * (c - b), Res(ys, s, c, i), SquaredOffset(s - a, c - b, i))
  {
    PointShift(At(ys, i), i as real, s, c, a, b);
  }

  lemma ErrorShift(ys: seq<real>, s: real, c: real, a: real, b: real)
    ensures var n := |ys|;
            Error(ys, a, b) == Combine(Error(ys, s, c), 2.0 * (s - a), Sum(n, WeightedResiduals(ys, s, c)),
                                       2.0 * (c - b), Sum(n, Residuals(ys, s, c)), Sum(n, SquaredOffsets(s - a, c - b)))
  {
    var n := |ys|;
    forall i: nat | i < n
      ensures SquaredResiduals(ys, a, b)(i)
           == Combine(SquaredResiduals(ys, s, c)(i), 2.0 * (s - a), WeightedResiduals(ys, s, c)(i),
                      2.0 * (c - b), Residuals(ys, s, c)(i), SquaredOffsets(s - a, c - b)(i))
    {
      IndexShift(ys, i, s, c, a, b);
    }
    SumCombine(n, SquaredResiduals(ys, a, b), SquaredResiduals(ys, s, c), 2.0 * (s - a), WeightedResiduals(ys, s, c),
               2.0 * (c - b), Residuals(ys, s, c), SquaredOffsets(s - a, c - b));
  }

  // ---------------------------------------------------------------- the fit

  /** The residuals sum to zero, plainly and weighted by x. */
  ghost predicate NormalEquations(ys: seq<real>, s: real, c: real) {
    Sum(|ys|, Residuals(ys, s, c)) == 0.0 && Sum(|ys|, WeightedResiduals(ys, s, c)) == 0.0
  }

  /** What the two divisions of the fit establish. */
  predicate Fitted(n: real, sx: real, sxx: real, sy: real, sxy: real, s: real, c: real) {
    n > 0.0 && s * (n * sxx - sx * sx) == n * sxy - sx * sy && c * n == sy - s * sx
  }

  lemma FitSolves(ys: seq<real>, s: real, c: real)
    requires var n := |ys|; Fitted(n as real, Sum(n, Xs()), Sum(n, XXs()), Sum(n, Ys(ys)), Sum(n, XYs(ys)), s, c)
    ensures NormalEquations(ys, s, c)
  {
    var n := |ys|;
    ResidualSum(ys, s, c);
    Solve(n as real, Sum(n, Xs()), Sum(n, XXs()), Sum(n, Ys(ys)), Sum(n, XYs(ys)), s, c);
    WeightedResidualSum(ys, s, c);
  }

  lemma Solve(n: real, sx: real, sxx: real, sy: real, sxy: real, s: real, c: real)
    requires Fitted(n, sx, sxx, sy, sxy, s, c)
    ensures Combine(sy, -s, sx, -c, n, 0.0) == 0.0
    ensures Combine(sxy, -s, sxx, -c, sx, 0.0) == 0.0
  {
    var w := sxy - s * sxx - c * sx;
    assert n * w == n * sxy - s * (n * sxx) - (c * n) * sx;
    assert (c * n) * sx == sy * sx - s * (sx * sx);
    assert s * (n * sxx - sx * sx) == s * (n * sxx) - s * (sx * sx);
    Cancel(n, w);
  }

  /** No line has a smaller squared error than one that solves the normal equations. */
  lemma FitIsOptimal(ys: seq<real>, s: real, c: real, a: real, b: real)
    requires NormalEquations(ys, s, c)
    ensures Error(ys, s, c) <= Error(ys, a, b)
  {
    ErrorShift(ys, s, c, a, b);
    OffsetsNonNegative(|ys|, s - a, c - b);
    AtZero(Error(ys, s, c), 2.0 * (s - a), 2.0 * (c - b), Sum(|ys|, SquaredOffsets(s - a, c - b)));
  }

  lemma AtZero(w: real, c: real, d: real, z: real)
    ensures Combine(w, c, 0.0, d, 0.0, z) == w + z
  {}

  lemma OffsetsNonNegative(n: nat, da: real, db: real)
    ensures Sum(n, SquaredOffsets(da, db)) >= 0.0
  {
    forall i: nat | i < n ensures SquaredOffsets(da, db)(i) >= 0.0 {
      assert SquaredOffsets(da, db)(i) == SquaredOffset(da, db, i);
    }
    SumNonNegative(n, SquaredOffsets(da, db));
  }

  lemma SquareZero(r: real)
    requires Square(r) == 0.0
    ensures r == 0.0
  {
    assert r * r == 0.0;
    if r != 0.0 {
      Cancel(r, r);
    }
  }

  /** A series lying on a line is recovered exactly. */
  lemma LineRecovered(ys: seq<real>, s: real, c: real, a: real, b: real)
    requires |ys| >= 2 && NormalEquations(ys, s, c)
    requires forall i :: 0 <= i < |ys| ==> ys[i] == a * i as real + b
    ensures s == a && c == b
  {
    forall i: nat | i < |ys| ensures SquaredResiduals(ys, a, b)(i) == 0.0 {
      assert Res(ys, a, b, i) == 0.0;
    }
    SumZero(|ys|, SquaredResiduals(ys, a, b));
    FitIsOptimal(ys, s, c, a, b);
    SumNonNegative(|ys|, SquaredResiduals(ys, s, c));
    assert SquaredResiduals(ys, s, c)(0) == 0.0 && SquaredResiduals(ys, s, c)(1) == 0.0;
    SquareZero(Res(ys, s, c, 0));
    SquareZero(Res(ys, s, c, 1));
    TwoPoints(ys[0], ys[1], s, c, a, b);
  }

  lemma TwoPoints(y0: real, y1: real, s: real, c: real, a: real, b: real)
    requires y0 == a * 0.0 + b && y1 == a * 1.0 + b && y0 == s * 0.0 + c && y1 == s * 1.0 + c
    ensures s == a && c == b
  {}

  /** The accumulator loop. */
  method Sums(points: seq<real>) returns (sumX: real, sumY: real, sumXY: real, sumXX: real)
    ensures var n := |points|;
      && sumX == Sum(n, Xs()) && sumXX == Sum(n, XXs())
      && sumY == Sum(n, Ys(points)) && sumXY == Sum(n, XYs(points))
  {
    sumX, sumY, sumXY, sumXX := 0.0, 0.0, 0.0, 0.0;
    for i := 0 to |points|
      invariant sumX == Sum(i, Xs()) && sumXX == Sum(i, XXs())
      invariant sumY == Sum(i, Ys(points)) && sumXY == Sum(i, XYs(points))
    {
      var x, y := i as real, points[i];
      sumX := sumX + x;
      sumY := sumY + y;
      sumXY := sumXY + x * y;
      sumXX := sumXX + x * x;
    }
  }

  lemma Divides(n: real, sx: real, sxx: real, sy: real, sxy: real, d: real, s: real, c: real)
    requires n > 0.0 && d == n * sxx - sx * sx && d > 0.0
    requires s == (n * sxy - sx * sy) / d && c == (sy - s * sx) / n
    ensures Fitted(n, sx, sxx, sy, sxy, s, c)
  {}

  /** The returned line is optimal: no other has a smaller squared error. */
  method LinearForecast(points: seq<real>) returns (slope: real, intercept: real)
    ensures points == [] ==> slope == 0.0 && intercept == 0.0
    ensures |points| == 1 ==> slope == 0.0 && intercept == points[0]
    ensures |points| >= 2 ==> NormalEquations(points, slope, intercept)
    ensures forall a: real, b: real :: Error(points, slope, intercept) <= Error(points, a, b)
  {
    var n := |points|;
    if n == 0 {
      return 0.0, 0.0;
    }
    if n == 1 {
      OnePoint(points);
      return 0.0, points[0];
    }
    slope, intercept := Fit(points);
    forall a: real, b: real ensures Error(points, slope, intercept) <= Error(points, a, b) {
      FitIsOptimal(points, slope, intercept, a, b);
    }
  }

  /** The general case of `LinearForecast`. */
  method Fit(points: seq<real>) returns (slope: real, intercept: real)
    requires |points| >= 2
    ensures NormalEquations(points, slope, intercept)
  {
    var sumX, sumY, sumXY, sumXX := Sums(points);
    var fn := |points| as real;
    var denom := fn * sumXX - sumX * sumX;
    DenominatorClosed(|points|);
    slope := (fn * sumXY - sumX * sumY) / denom;
    intercept := (sumY - slope * sumX) / fn;
    Divides(fn, sumX, sumXX, sumY, sumXY, denom, slope, intercept);
    FitSolves(points, slope, intercept);
  }

  lemma OnePoint(points: seq<real>)
    requires |points| == 1
    ensures forall a: real, b: real :: Error(points, 0.0, points[0]) <= Error(points, a, b)
  {
    assert Res(points, 0.0, points[0], 0) == 0.0;
    forall a: real, b: real ensures Error(points, 0.0, points[0]) <= Error(points, a, b) {
      assert Error(points, a, b) == 0.0 + Square(Res(points, a, b, 0));
    }
  }

  // ---------------------------------------------------------------- projections

  function Project(n: nat, slope: real, intercept: real, ahead: int): real {
    if n == 0 then intercept else slope * ((n - 1 + ahead) as real) + intercept
  }

  datatype Breach = Never | In(steps: real)

  function TimeToThreshold(current: real, slope: real, threshold: real): Breach {
    var gap := threshold - current;
    if gap == 0.0 then In(0.0)
    else if slope == 0.0 || (gap > 0.0) != (slope > 0.0) then Never
    else In(gap / slope)
  }

  /** The moving value after u steps. */
  function Reached(current: real, slope: real, u: real): real { current + slope * u }

  /** The answer is the first moment the moving value is at the threshold, and Never exactly
      when there is no such moment. */
  lemma ThresholdIsFirstCrossing(current: real, slope: real, threshold: real)
    ensures match TimeToThreshold(current, slope, threshold)
            case In(t) => t >= 0.0 && Reached(current, slope, t) == threshold
                       && forall u: real :: 0.0 <= u < t ==> Reached(current, slope, u) != threshold
            case Never => forall u: real :: u >= 0.0 ==> Reached(current, slope, u) != threshold
  {
    var gap := threshold - current;
    if gap == 0.0 {
    } else if slope == 0.0 {
    } else if (gap > 0.0) != (slope > 0.0) {
      forall u: real | u >= 0.0 ensures Reached(current, slope, u) != threshold {
        SameSign(slope, u);
      }
    } else {
      var t := gap / slope;
      assert t * slope == gap;
      Quotient(gap, slope, t);
      forall u: real | 0.0 <= u < t ensures Reached(current, slope, u) != threshold {
        if slope * u == gap {
          assert slope * (t - u) == 0.0;
          Cancel(slope, t - u);
        }
      }
    }
  }

  /** When a breach is reported, and when it is reported for now: a value past the threshold
      breaches only on its way back, and at once only if it is exactly there. */
  lemma BreachExactly(current: real, slope: real, threshold: real)
    ensures TimeToThreshold(current, slope, threshold) == In(0.0) <==> current == threshold
    ensures current > threshold ==> (TimeToThreshold(current, slope, threshold).In? <==> slope < 0.0)
    ensures current < threshold ==> (TimeToThreshold(current, slope, threshold).In? <==> slope > 0.0)
  {
    var gap := threshold - current;
    if gap != 0.0 && slope != 0.0 && gap / slope == 0.0 {
      assert gap / slope * slope == gap;
      ZeroTimes(gap / slope, slope);
    }
  }

  lemma ZeroTimes(z: real, s: real)
    requires z == 0.0
    ensures z * s == 0.0
  {}

  /** 105 under a ceiling of 100 and still rising is past it, and no breach is reported. */
  lemma PastCeilingUnreported()
    ensures TimeToThreshold(105.0, 1.0, 100.0) == Never
  {}

  /** The projection of a series on a line stays on the line. */
  lemma ProjectOnLine(ys: seq<real>, s: real, c: real, a: real, b: real, ahead: int)
    requires |ys| >= 2 && NormalEquations(ys, s, c)
    requires forall i :: 0 <= i < |ys| ==> ys[i] == a * i as real + b
    ensures Project(|ys|, s, c, ahead) == a * ((|ys| - 1 + ahead) as real) + b
  {
    LineRecovered(ys, s, c, a, b);
  }

  lemma SameSign(slope: real, u: real)
    requires u >= 0.0
    ensures slope > 0.0 ==> slope * u >= 0.0
    ensures slope < 0.0 ==> slope * u <= 0.0
  {}

  lemma Quotient(gap: real, slope: real, t: real)
    requires slope != 0.0 && (gap > 0.0) == (slope > 0.0) && gap != 0.0 && t * slope == gap
    ensures t >= 0.0
  {
    if t < 0.0 {
      SameSign(slope, -t);
    }
  }

  lemma Cancel(s: real, d: real)
    requires s * d == 0.0 && s != 0.0
    ensures d == 0.0
  {
    assert (s * d) / s == d;
  }

  // ---------------------------------------------------------------- smoothing

  function EffectiveAlpha(alpha: real): (a: real)
    ensures 0.0 < a <= 1.0
  {
    if alpha <= 0.0 then 0.3 else if alpha > 1.0 then 1.0 else alpha
  }

  function Smooth(points: seq<real>, a: real): real {
    if points == [] then 0.0
    else if |points| == 1 then points[0]
    else a * points[|points| - 1] + (1.0 - a) * Smooth(points[..|points| - 1], a)
  }

  function Power(x: real, n: nat): real { if n == 0 then 1.0 else x * Power(x, n - 1) }

  /** The weight of point i of n: a for the newest, and 1 - a times its weight among fewer for an
      older one. */
  function Weight(n: nat, a: real, i: nat): real
    requires i < n
  {
    if i + 1 < n then (1.0 - a) * Weight(n - 1, a, i) else if n == 1 then 1.0 else a
  }

  /** So the weights are a, a(1 - a), a(1 - a)^2, ... from the newest back, and (1 - a)^(n-1) for the
      first. */
  lemma {:induction false} WeightClosed(n: nat, a: real, i: nat)
    requires i < n
    ensures Weight(n, a, i) == (if i == 0 then 1.0 else a) * Power(1.0 - a, n - 1 - i)
  {
    if i + 1 < n {
      WeightClosed(n - 1, a, i);
    }
  }

  ghost function Weighted(points: seq<real>, n: nat, a: real, k: nat): real
    requires k <= |points| && k <= n
  {
    if k == 0 then 0.0 else Weighted(points, n, a, k - 1) + Weight(n, a, k - 1) * points[k - 1]
  }

  lemma {:induction false} WeightedShrinks(points: seq<real>, n: nat, a: real, k: nat)
    requires k <= n && k < |points|
    ensures Weighted(points, n + 1, a, k) == (1.0 - a) * Weighted(points[..|points| - 1], n, a, k)
  {
    if k > 0 {
      WeightedShrinks(points, n, a, k - 1);
      FactorOut(Weighted(points, n + 1, a, k - 1), Weight(n + 1, a, k - 1),
                Weighted(points[..|points| - 1], n, a, k - 1), Weight(n, a, k - 1), 1.0 - a, points[k - 1]);
    }
  }

  lemma FactorOut(sum: real, w: real, sum': real, w': real, b: real, x: real)
    requires sum == b * sum' && w == b * w'
    ensures sum + w * x == b * (sum' + w' * x)
  {
    assert b * w' * x == b * (w' * x);
  }

  /** The level is the weighted sum of the points, each weighing less than the next by 1 - a. */
  lemma {:induction false} SmoothIsWeighted(points: seq<real>, a: real)
    requires points != []
    ensures Smooth(points, a) == Weighted(points, |points|, a, |points|)
  {
    var k := |points| - 1;
    if k == 0 {
      assert Weighted(points, 1, a, 1) == Weighted(points, 1, a, 0) + Weight(1, a, 0) * points[0];
    } else {
      SmoothIsWeighted(points[..k], a);
      WeightedShrinks(points, k, a, k);
      assert Weight(k + 1, a, k) == a;
    }
  }

  /** A factor outside (0, 1] is read as 0.3 or as 1, and a factor of 1 forgets all but the newest
      point. */
  method EWMA(points: seq<real>, alpha: real) returns (s: real)
    ensures s == Smooth(points, EffectiveAlpha(alpha))
    ensures points == [] ==> s == 0.0
    ensures points != [] && alpha <= 0.0 ==> s == Weighted(points, |points|, 0.3, |points|)
    ensures points != [] && 0.0 < alpha <= 1.0 ==> s == Weighted(points, |points|, alpha, |points|)
    ensures points != [] && alpha > 1.0 ==> s == points[|points| - 1]
  {
    if |points| == 0 {
      return 0.0;
    }
    var a := alpha;
    if a <= 0.0 { a := 0.3; }
    if a > 1.0 { a := 1.0; }
    s := points[0];
    for i := 1 to |points|
      invariant s == Smooth(points[..i], a)
    {
      assert points[..i + 1][..i] == points[..i];
      s := a * points[i] + (1.0 - a) * s;
    }
    assert points[..|points|] == points;
    SmoothIsWeighted(points, a);
  }

  /** The smoothed level never leaves the range of the data. */
  lemma {:induction false} SmoothStaysInRange(points: seq<real>, a: real, lo: real, hi: real)
    requires points != [] && 0.0 <= a <= 1.0
    requires forall i :: 0 <= i < |points| ==> lo <= points[i] <= hi
    ensures lo <= Smooth(points, a) <= hi
  {
    if |points| > 1 {
      var k := |points| - 1;
      SmoothStaysInRange(points[..k], a, lo, hi);
      Between(a, points[k], Smooth(points[..k], a), lo, hi);
    }
  }

  lemma Between(a: real, x: real, y: real, lo: real, hi: real)
    requires 0.0 <= a <= 1.0 && lo <= x <= hi && lo <= y <= hi
    ensures lo <= a * x + (1.0 - a) * y <= hi
  {
    var z := a * x + (1.0 - a) * y;
    assert z - lo == a * (x - lo) + (1.0 - a) * (y - lo);
    assert hi - z == a * (hi - x) + (1.0 - a) * (hi - y);
    assert a * (x - lo) >= 0.0 && (1.0 - a) * (y - lo) >= 0.0;
    assert a * (hi - x) >= 0.0 && (1.0 - a) * (hi - y) >= 0.0;
  }

  // ---------------------------------------------------------------- seasonal baseline

  /** Sum and number of the values at i, i - period, ... down to `start`. */
  function PhaseSum(points: seq<real>, period: int, start: nat, i: int): real
    requires period > 0 && i < |points|
    decreases i - start + period
  {
    if i < start then 0.0 else PhaseSum(points, period, start, i - period) + points[i]
  }

  function PhaseCount(period: int, start: nat, i: int): (c: nat)
    requires period > 0
    ensures c == 0 <==> i < start
    decreases i - start + period
  {
    if i < start then 0 else PhaseCount(period, start, i - period) + 1
  }

  ghost predicate PhaseWithin(points: seq<real>, period: int, start: nat, i: int, lo: real, hi: real)
    requires period > 0 && i < |points|
    decreases i - start + period
  {
    i >= start ==> lo <= points[i] <= hi && PhaseWithin(points, period, start, i - period, lo, hi)
  }

  function Start(resetIdx: int): nat { if resetIdx > 0 then resetIdx else 0 }

  function Baseline(points: seq<real>, period: int, resetIdx: int): Option<real> {
    if period <= 0 || |points| - period < Start(resetIdx) then None
    else
      var i := |points| - period;
      Some(PhaseSum(points, period, Start(resetIdx), i) / PhaseCount(period, Start(resetIdx), i) as real)
  }

  method SeasonalBaseline(points: seq<real>, period: int, resetIdx: int) returns (r: Option<real>)
    ensures r == Baseline(points, period, resetIdx)
  {
    if period <= 0 {
      return None;
    }
    var start := if resetIdx > 0 then resetIdx else 0;
    var n := |points|;
    var sum, cnt := 0.0, 0;
    var i := n - period;
    while i >= start
      invariant i <= n - period
      invariant sum + PhaseSum(points, period, start, i) == PhaseSum(points, period, start, n - period)
      invariant cnt + PhaseCount(period, start, i) == PhaseCount(period, start, n - period)
      decreases i - start + period
    {
      sum := sum + points[i];
      cnt := cnt + 1;
      i := i - period;
    }
    if cnt == 0 {
      return None;
    }
    return Some(sum / cnt as real);
  }

  lemma {:induction false} PhaseSumBounds(points: seq<real>, period: int, start: nat, i: int, lo: real, hi: real)
    requires period > 0 && i < |points| && PhaseWithin(points, period, start, i, lo, hi)
    ensures var c := PhaseCount(period, start, i) as real;
            lo * c <= PhaseSum(points, period, start, i) <= hi * c
    decreases i - start + period
  {
    if i >= start {
      PhaseSumBounds(points, period, start, i - period, lo, hi);
      var c := PhaseCount(period, start, i - period) as real;
      assert lo * (c + 1.0) == lo * c + lo && hi * (c + 1.0) == hi * c + hi;
    }
  }

  /** The baseline lies within the values seen at the coming phase in earlier seasons (so it
      is that value when they all agree), and history before the reset does not matter. */
  lemma BaselineWithinPhase(points: seq<real>, period: int, resetIdx: int, lo: real, hi: real)
    requires Baseline(points, period, resetIdx).Some?
    requires PhaseWithin(points, period, Start(resetIdx), |points| - period, lo, hi)
    ensures lo <= Baseline(points, period, resetIdx).value <= hi
  {
    var i := |points| - period;
    var sum, c := PhaseSum(points, period, Start(resetIdx), i), PhaseCount(period, Start(resetIdx), i) as real;
    PhaseSumBounds(points, period, Start(resetIdx), i, lo, hi);
    MeanBounds(sum, c, lo, hi);
  }

  /** The values one, two, ... k periods before the coming point. */
  ghost function Seasons(points: seq<real>, period: int, k: nat): real
    requires period > 0 && |points| - k * period >= 0
  {
    if k == 0 then 0.0
    else
      assert k * period == (k - 1) * period + period;
      Seasons(points, period, k - 1) + points[|points| - k * period]
  }

  lemma {:induction false} PhaseIsSeasons(points: seq<real>, period: int, start: nat, i: int, k: nat)
    requires period > 0 && |points| - k * period >= 0 && i == |points| - k * period - period
    ensures var c := PhaseCount(period, start, i);
            && |points| - (k + c) * period - period < start
            && (c > 0 ==> |points| - (k + c) * period >= start)
            && |points| - (k + c) * period >= 0
            && PhaseSum(points, period, start, i) + Seasons(points, period, k) == Seasons(points, period, k + c)
    decreases i - start + period
  {
    if i >= start {
      assert (k + 1) * period == k * period + period;
      PhaseIsSeasons(points, period, start, i - period, k + 1);
      var c := PhaseCount(period, start, i - period);
      assert k + 1 + c == k + (c + 1);
    }
  }

  /** The baseline is the mean of the values at the coming phase in all the seasons that fit after
      the reset; there is one iff one season fits. */
  lemma BaselineIsMean(points: seq<real>, period: int, resetIdx: int)
    ensures Baseline(points, period, resetIdx).Some? <==> period > 0 && |points| - period >= 0 && |points| - period >= resetIdx
    ensures Baseline(points, period, resetIdx).Some? ==>
      exists c: nat :: c > 0 && LastSeason(points, period, resetIdx, c)
        && Baseline(points, period, resetIdx).value * c as real == Seasons(points, period, c)
  {
    if Baseline(points, period, resetIdx).Some? {
      var start := Start(resetIdx);
      var i := |points| - period;
      PhaseIsSeasons(points, period, start, i, 0);
      var c := PhaseCount(period, start, i);
      assert LastSeason(points, period, resetIdx, c);
      var sum := PhaseSum(points, period, start, i);
      MeanTimes(sum, c as real);
    }
  }

  /** Season c is the oldest that lies in the data and after the reset. */
  ghost predicate LastSeason(points: seq<real>, period: int, resetIdx: int, c: nat) {
    var first := |points| - c * period;
    period > 0 && first >= 0 && first >= resetIdx && (first - period < 0 || first - period < resetIdx)
  }

  lemma MeanTimes(sum: real, c: real)
    requires c > 0.0
    ensures sum / c * c == sum
  {}

  lemma Scales(a: real, b: real, c: real)
    requires a < b && c > 0.0
    ensures a * c < b * c
  {}

  lemma MeanBounds(sum: real, c: real, lo: real, hi: real)
    requires c > 0.0 && lo * c <= sum <= hi * c
    ensures lo <= sum / c <= hi
  {
    var m := sum / c;
    assert m * c == sum;
    if m < lo { Scales(m, lo, c); }
    if m > hi { Scales(hi, m, c); }
  }
}
