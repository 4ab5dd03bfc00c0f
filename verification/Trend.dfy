/** Least-squares trend of a metric (crates/aether-analyze/src/analyzers/trend.rs), over exact reals. */
module Trend {
  import opened Results
  import opened Sums
  import opened Series

  datatype Point = Point(x: real, y: real)

  function Xs(ps: seq<Point>): seq<real> {
    seq(|ps|, i requires 0 <= i < |ps| => ps[i].x)
  }

  function Ys(ps: seq<Point>): seq<real> {
    seq(|ps|, i requires 0 <= i < |ps| => ps[i].y)
  }

  /** Deviations of the coordinates from their means. */
  function Dx(ps: seq<Point>): (d: seq<real>)
    requires ps != []
    ensures |d| == |ps|
  {
    Deviations(Xs(ps), Mean(Xs(ps)))
  }

  function Dy(ps: seq<Point>): (d: seq<real>)
    requires ps != []
    ensures |d| == |ps|
  {
    Deviations(Ys(ps), Mean(Ys(ps)))
  }

  /** Vertical distance of a point from the line y = m x + c. */
  function Distance(p: Point, m: real, c: real): real {
    p.y - (m * p.x + c)
  }

  /** How badly the line y = m x + c misses the points: the sum of squared vertical distances. */
  function Misfit(ps: seq<Point>, m: real, c: real): (r: real)
    ensures r >= 0.0
  {
    if ps == [] then 0.0 else Square(Distance(ps[0], m, c)) + Misfit(ps[1..], m, c)
  }

  datatype Fit = Fit(slope: real, intercept: real, rSquared: real)

  /** No line misses the points by less. */
  ghost predicate Optimal(ps: seq<Point>, fit: Fit) {
    forall m, c :: Misfit(ps, fit.slope, fit.intercept) <= Misfit(ps, m, c)
  }

  // ---------------------------------------------------------------- the misfit of a line

  lemma {:induction false} MisfitIsResidual(ps: seq<Point>, xm: real, ym: real, m: real, c: real, e: real)
    requires e == ym - m * xm - c
    ensures Misfit(ps, m, c) == Residual(Deviations(Xs(ps), xm), Deviations(Ys(ps), ym), m, e)
  {
    hide Square, Distance, Gap;
    if ps != [] {
      assert Xs(ps)[1..] == Xs(ps[1..]) && Ys(ps)[1..] == Ys(ps[1..]);
      MisfitIsResidual(ps[1..], xm, ym, m, c, e);
      assert Deviations(Xs(ps), xm)[1..] == Deviations(Xs(ps[1..]), xm);
      assert Deviations(Ys(ps), ym)[1..] == Deviations(Ys(ps[1..]), ym);
      ErrorShift(ps[0], xm, ym, m, c, e, Deviations(Xs(ps), xm)[0], Deviations(Ys(ps), ym)[0]);
    }
  }

  lemma ErrorShift(p: Point, xm: real, ym: real, m: real, c: real, e: real, dx: real, dy: real)
    requires e == ym - m * xm - c && dx == p.x - xm && dy == p.y - ym
    ensures Distance(p, m, c) == Gap(dx, dy, m, e)
  {
    assert m * dx == m * p.x - m * xm;
  }

  /** The misfit in terms of the centred sums, where the linear terms vanish; `e` is how far the line
      passes below the centre of the points. */
  lemma MisfitOfLine(ps: seq<Point>, m: real, c: real, e: real)
    requires ps != [] && e == Mean(Ys(ps)) - m * Mean(Xs(ps)) - c
    ensures Misfit(ps, m, c) ==
            Quadratic(|ps| as real, 0.0, 0.0, Dot(Dx(ps), Dx(ps)), Dot(Dx(ps), Dy(ps)), Dot(Dy(ps), Dy(ps)), m, e)
  {
    hide Quadratic, Misfit, Residual, Deviations, Mean, Dot;
    MisfitIsResidual(ps, Mean(Xs(ps)), Mean(Ys(ps)), m, c, e);
    ResidualExpand(Dx(ps), Dy(ps), m, e);
    DeviationsSumToZero(Xs(ps));
    DeviationsSumToZero(Ys(ps));
  }

  /** Completing the square. */
  lemma SquareCompleted(n: real, aa: real, ab: real, bb: real, m: real, e: real, best: real)
    requires best * aa == ab
    ensures Quadratic(n, 0.0, 0.0, aa, ab, bb, m, e) ==
            bb - best * ab + aa * Square(m - best) + n * Square(e)
  {
    var d := m - best;
    assert m * ab == m * best * aa;
    assert best * ab == best * best * aa;
    assert aa * (d * d) == aa * (m * m) - 2.0 * (m * best * aa) + best * best * aa;
  }

  lemma WeightedSquare(w: real, x: real)
    requires w > 0.0
    ensures w * Square(x) >= 0.0
    ensures w * Square(x) == 0.0 <==> x == 0.0
  {
    SquareZero(x);
    if x != 0.0 {
      ProductPositive(w, Square(x), w * Square(x));
    }
  }

  /** With two different x values the fitted line is the only optimal one, and its misfit is the
      part of the variation of y that r-squared leaves unexplained. */
  lemma FitIsBest(ps: seq<Point>, fit: Fit, m: real, c: real)
    requires ps != [] && Dot(Dx(ps), Dx(ps)) > 0.0
    requires fit.slope * Dot(Dx(ps), Dx(ps)) == Dot(Dx(ps), Dy(ps))
    requires fit.intercept == Mean(Ys(ps)) - fit.slope * Mean(Xs(ps))
    ensures Misfit(ps, fit.slope, fit.intercept) == Dot(Dy(ps), Dy(ps)) - fit.slope * Dot(Dx(ps), Dy(ps))
    ensures Misfit(ps, fit.slope, fit.intercept) <= Misfit(ps, m, c)
    ensures Misfit(ps, m, c) == Misfit(ps, fit.slope, fit.intercept) <==> m == fit.slope && c == fit.intercept
  {
    hide Quadratic, Misfit, Deviations, Mean, Dot, Dx, Dy, Square;
    var n, aa, ab, bb := |ps| as real, Dot(Dx(ps), Dx(ps)), Dot(Dx(ps), Dy(ps)), Dot(Dy(ps), Dy(ps));
    var e := Mean(Ys(ps)) - m * Mean(Xs(ps)) - c;
    MisfitOfLine(ps, m, c, e);
    SquareCompleted(n, aa, ab, bb, m, e, fit.slope);
    WeightedSquare(aa, m - fit.slope);
    WeightedSquare(n, e);
    MisfitOfLine(ps, fit.slope, fit.intercept, 0.0);
    SquareCompleted(n, aa, ab, bb, fit.slope, 0.0, fit.slope);
    WeightedSquare(aa, 0.0);
    WeightedSquare(n, 0.0);
  }

  /** With a single x value no line does better than the horizontal one through the mean. */
  lemma VerticalFitIsBest(ps: seq<Point>, m: real, c: real)
    requires ps != [] && Dot(Dx(ps), Dx(ps)) == 0.0
    ensures Misfit(ps, 0.0, Mean(Ys(ps))) == Dot(Dy(ps), Dy(ps))
    ensures Misfit(ps, 0.0, Mean(Ys(ps))) <= Misfit(ps, m, c)
  {
    hide Quadratic, Misfit, Deviations, Mean, Dot, Dx, Dy, Square;
    var n, bb := |ps| as real, Dot(Dy(ps), Dy(ps));
    var e := Mean(Ys(ps)) - m * Mean(Xs(ps)) - c;
    DotSquareZero(Dx(ps), Dy(ps));
    MisfitOfLine(ps, m, c, e);
    SquareCompleted(n, 0.0, 0.0, bb, m, e, 0.0);
    MisfitOfLine(ps, 0.0, Mean(Ys(ps)), 0.0);
    SquareCompleted(n, 0.0, 0.0, bb, 0.0, 0.0, 0.0);
    WeightedSquare(n, e);
    WeightedSquare(n, 0.0);
  }

  lemma Unexplained(aa: real, ab: real, bb: real, slope: real, r: real)
    requires aa > 0.0 && bb > 0.0 && slope * aa == ab && r * (aa * bb) == ab * ab && ab * ab <= aa * bb
    ensures 0.0 <= r <= 1.0 && bb - slope * ab == bb * (1.0 - r)
  {
    ProductPositive(aa, bb, aa * bb);
    RatioBounds(r, aa * bb, ab * ab);
    assert slope * ab * aa == ab * ab;
    assert (r * bb) * aa == (slope * ab) * aa;
    Cancel(r * bb, slope * ab, aa);
  }

  lemma RatioBounds(r: real, d: real, n: real)
    requires d > 0.0 && r * d == n && n <= d
    requires n >= 0.0
    ensures 0.0 <= r <= 1.0
  {
    if r < 0.0 {
      ProductPositive(-r, d, -r * d);
    }
    if r > 1.0 {
      ProductPositive(r - 1.0, d, (r - 1.0) * d);
    }
  }

  lemma Cancel(x: real, y: real, d: real)
    requires d > 0.0 && x * d == y * d
    ensures x == y
  {
    if x > y {
      ProductPositive(x - y, d, (x - y) * d);
    }
    if x < y {
      ProductPositive(y - x, d, (y - x) * d);
    }
  }

  // ---------------------------------------------------------------- the code

  /** The least-squares line in terms of the centred sums. */
  function Fitted(ps: seq<Point>): Fit {
    if |ps| < 2 then Fit(0.0, 0.0, 0.0)
    else
      var aa, ab, bb := Dot(Dx(ps), Dx(ps)), Dot(Dx(ps), Dy(ps)), Dot(Dy(ps), Dy(ps));
      if aa == 0.0 then Fit(0.0, Mean(Ys(ps)), 0.0)
      else
        DotSquareZero(Dx(ps), Dy(ps));
        DotSquareZero(Dy(ps), Dx(ps));
        Fit(ab / aa, Mean(Ys(ps)) - (ab / aa) * Mean(Xs(ps)), RSquaredOf(aa, ab, bb))
  }

  function RSquaredOf(aa: real, ab: real, bb: real): real
    requires aa > 0.0 && bb >= 0.0
  {
    if bb == 0.0 then 1.0
    else
      ProductPositive(aa, bb, aa * bb);
      (ab * ab) / (aa * bb)
  }

  /** Least-squares regression. The line is optimal for the points whenever there are two of them,
      vertical data included; r-squared lies in [0, 1] and, unless the data are vertical, the misfit
      is the variation of y times (1 - r-squared) and no other line is as good. */
  method LinearRegression(points: seq<Point>) returns (fit: Fit)
    ensures fit == Fitted(points)
    ensures |points| >= 2 ==> Optimal(points, fit)
    ensures 0.0 <= fit.rSquared <= 1.0
    ensures |points| < 2 ==> fit == Fit(0.0, 0.0, 0.0)
    ensures |points| >= 2 && Dot(Dx(points), Dx(points)) == 0.0 ==> fit == Fit(0.0, Mean(Ys(points)), 0.0)
    ensures |points| >= 2 && Dot(Dx(points), Dx(points)) > 0.0 ==>
              && Misfit(points, fit.slope, fit.intercept) == Dot(Dy(points), Dy(points)) * (1.0 - fit.rSquared)
              && (Dot(Dy(points), Dy(points)) == 0.0 ==> fit.rSquared == 1.0)
              && forall m, c | Misfit(points, m, c) <= Misfit(points, fit.slope, fit.intercept) ::
                   m == fit.slope && c == fit.intercept
  {
    hide Misfit, Deviations, Dot, Square, Dx, Dy, Mean;
    if |points| < 2 {
      return Fit(0.0, 0.0, 0.0);
    }
    var xMean, yMean := Mean(Xs(points)), Mean(Ys(points));
    var ssXy, ssXx, ssYy := CentredSums(points, xMean, yMean);
    CentredAtMeans(points);
    DotSquareZero(Dx(points), Dy(points));
    if ssXx == 0.0 {
      fit := Fit(0.0, yMean, 0.0);
      VerticalFitIsOptimal(points);
      return;
    }
    var slope := ssXy / ssXx;
    var intercept := yMean - slope * xMean;
    var rSquared := if ssYy == 0.0 then 1.0 else (ssXy * ssXy) / (ssXx * ssYy);
    fit := Fit(slope, intercept, rSquared);
    Divided(slope, ssXy, ssXx);
    RSquared(points, fit);
    FitIsOptimal(points, fit);
  }

  lemma CentredAtMeans(ps: seq<Point>)
    requires ps != []
    ensures Dx(ps) == Deviations(Xs(ps), Mean(Xs(ps))) && Dy(ps) == Deviations(Ys(ps), Mean(Ys(ps)))
  {
  }

  lemma VerticalFitIsOptimal(ps: seq<Point>)
    requires ps != [] && Dot(Dx(ps), Dx(ps)) == 0.0
    ensures Optimal(ps, Fit(0.0, Mean(Ys(ps)), 0.0))
  {
    hide Misfit, Dot, Dx, Dy, Mean;
    forall m, c {
      VerticalFitIsBest(ps, m, c);
    }
  }

  lemma FitIsOptimal(ps: seq<Point>, fit: Fit)
    requires ps != [] && Dot(Dx(ps), Dx(ps)) > 0.0
    requires fit.slope * Dot(Dx(ps), Dx(ps)) == Dot(Dx(ps), Dy(ps))
    requires fit.intercept == Mean(Ys(ps)) - fit.slope * Mean(Xs(ps))
    ensures Optimal(ps, fit)
    ensures Misfit(ps, fit.slope, fit.intercept) == Dot(Dy(ps), Dy(ps)) - fit.slope * Dot(Dx(ps), Dy(ps))
    ensures forall m, c | Misfit(ps, m, c) <= Misfit(ps, fit.slope, fit.intercept) ::
              m == fit.slope && c == fit.intercept
  {
    hide Misfit, Dot, Dx, Dy, Mean;
    FitIsBest(ps, fit, 0.0, 0.0);
    forall m, c {
      FitIsBest(ps, fit, m, c);
    }
  }

  lemma RSquared(ps: seq<Point>, fit: Fit)
    requires ps != [] && Dot(Dx(ps), Dx(ps)) > 0.0
    requires fit.slope * Dot(Dx(ps), Dx(ps)) == Dot(Dx(ps), Dy(ps))
    requires var aa, ab, bb := Dot(Dx(ps), Dx(ps)), Dot(Dx(ps), Dy(ps)), Dot(Dy(ps), Dy(ps));
             if bb == 0.0 then fit.rSquared == 1.0 else fit.rSquared == (ab * ab) / (aa * bb)
    ensures 0.0 <= fit.rSquared <= 1.0
    ensures Dot(Dy(ps), Dy(ps)) - fit.slope * Dot(Dx(ps), Dy(ps)) == Dot(Dy(ps), Dy(ps)) * (1.0 - fit.rSquared)
  {
    hide Deviations, Dot, Dx, Dy;
    var aa, ab, bb := Dot(Dx(ps), Dx(ps)), Dot(Dx(ps), Dy(ps)), Dot(Dy(ps), Dy(ps));
    DotSquareZero(Dy(ps), Dx(ps));
    DotCommutes(Dx(ps), Dy(ps));
    if bb != 0.0 {
      CauchySchwarz(Dx(ps), Dy(ps));
      ProductPositive(aa, bb, aa * bb);
      Divided(fit.rSquared, ab * ab, aa * bb);
      Unexplained(aa, ab, bb, fit.slope, fit.rSquared);
    }
  }

  lemma Divided(r: real, n: real, d: real)
    requires d > 0.0 && r == n / d
    ensures r * d == n
  {
  }

  lemma DotFrom(a: seq<real>, b: seq<real>, i: nat)
    requires i < |a| == |b|
    ensures Dot(a[i..], b[i..]) == a[i] * b[i] + Dot(a[i + 1..], b[i + 1..])
  {
    assert a[i..][1..] == a[i + 1..] && b[i..][1..] == b[i + 1..];
  }

  lemma DotNothing()
    ensures Dot([], []) == 0.0
  {
  }

  /** The accumulation loop of the regression. */
  method CentredSums(points: seq<Point>, xMean: real, yMean: real) returns (ssXy: real, ssXx: real, ssYy: real)
    ensures var dx, dy := Deviations(Xs(points), xMean), Deviations(Ys(points), yMean);
            ssXy == Dot(dx, dy) && ssXx == Dot(dx, dx) && ssYy == Dot(dy, dy)
  {
    hide Dot, Deviations;
    ssXy, ssXx, ssYy := 0.0, 0.0, 0.0;
    ghost var dx, dy := Deviations(Xs(points), xMean), Deviations(Ys(points), yMean);
    assert dx[0..] == dx && dy[0..] == dy;
    for i := 0 to |points|
      invariant ssXy + Dot(dx[i..], dy[i..]) == Dot(dx, dy)
      invariant ssXx + Dot(dx[i..], dx[i..]) == Dot(dx, dx)
      invariant ssYy + Dot(dy[i..], dy[i..]) == Dot(dy, dy)
    {
      var x, y := points[i].x - xMean, points[i].y - yMean;
      DeviationAt(Xs(points), xMean, i);
      DeviationAt(Ys(points), yMean, i);
      DotFrom(dx, dy, i);
      DotFrom(dx, dx, i);
      DotFrom(dy, dy, i);
      ssXy := ssXy + x * y;
      ssXx := ssXx + x * x;
      ssYy := ssYy + y * y;
    }
    DotNothing();
  }

  // ---------------------------------------------------------------- classification

  datatype TrendClass =
    | Stable
    | Growing(rate: real)
    | Declining(rate: real)
    | SpikeOf(magnitude: real)
    | Oscillating(periodSecs: real, amplitude: real)

  /** Seconds since the first sample of the window, never negative, with the value. */
  function WindowedPoints(samples: seq<Sample>, window: real): (ps: seq<Point>)
    requires window >= 0.0
    ensures |ps| == |Windowed(samples, window)|
    ensures samples != [] ==> ps != [] && ps[|ps| - 1].y == samples[|samples| - 1].value
    ensures forall i | 0 <= i < |ps| :: ps[i].x >= 0.0
  {
    var kept := Windowed(samples, window);
    seq(|kept|, i requires 0 <= i < |kept| =>
      Point(if kept[i].timestamp >= kept[0].timestamp then kept[i].timestamp - kept[0].timestamp else 0.0,
            kept[i].value))
  }

  /** The last value exceeds the mean by more than three standard deviations. */
  ghost predicate Spikes(ps: seq<Point>, root: real -> real) {
    |ps| >= 2 && ps[|ps| - 1].y > Mean(Ys(ps)) + 3.0 * root(Variance(Ys(ps)))
  }

  /** The best line rises (`sign` 1) or falls (`sign` -1) by at least a thousandth of the mean per second, and misses the
      points by less than half of how much they vary. */
  ghost predicate Moves(ps: seq<Point>, sign: real) {
    && |ps| >= 2 && sign * Fitted(ps).slope > 0.0 && sign * Fitted(ps).slope >= 0.001 * Abs(Mean(Ys(ps)))
    && 2.0 * Misfit(ps, Fitted(ps).slope, Fitted(ps).intercept) < Dot(Dy(ps), Dy(ps))
  }

  /** For a line that is not level this is what `r-squared above a half` says. */
  lemma ExplainsHalf(ps: seq<Point>, fit: Fit)
    requires |ps| >= 2 && fit == Fitted(ps) && fit.slope != 0.0
    requires Dot(Dx(ps), Dx(ps)) > 0.0 ==>
               Misfit(ps, fit.slope, fit.intercept) == Dot(Dy(ps), Dy(ps)) * (1.0 - fit.rSquared)
    ensures fit.rSquared > 0.5 <==> 2.0 * Misfit(ps, fit.slope, fit.intercept) < Dot(Dy(ps), Dy(ps))
  {
    hide *;
    BothVary(ps);
    Half(Dot(Dy(ps), Dy(ps)), fit.rSquared, Misfit(ps, fit.slope, fit.intercept));
  }

  lemma BothVary(ps: seq<Point>)
    requires |ps| >= 2 && Fitted(ps).slope != 0.0
    ensures Dot(Dx(ps), Dx(ps)) > 0.0 && Dot(Dy(ps), Dy(ps)) > 0.0
  {
    hide Dot, Dx, Dy, Mean, Fitted;
    DotSquareZero(Dx(ps), Dy(ps));
    DotSquareZero(Dy(ps), Dx(ps));
    DotCommutes(Dx(ps), Dy(ps));
    SlopeOf(ps);
  }

  lemma SlopeOf(ps: seq<Point>)
    requires |ps| >= 2
    ensures Dot(Dx(ps), Dx(ps)) == 0.0 || Dot(Dx(ps), Dy(ps)) == 0.0 ==> Fitted(ps).slope == 0.0
  {
    hide Dot, Dx, Dy, Mean, RSquaredOf;
  }

  lemma Half(v: real, r: real, misfit: real)
    requires v > 0.0 && misfit == v * (1.0 - r)
    ensures r > 0.5 <==> 2.0 * misfit < v
  {
    var d := r - 0.5;
    assert v - 2.0 * misfit == 2.0 * (v * d);
    if d > 0.0 {
      ProductPositive(v, d, v * d);
    } else if d < 0.0 {
      ProductPositive(v, -d, v * -d);
    }
  }

  /** Classify the trend in a window. A spike is reported exactly when the last value exceeds the mean
      by more than three standard deviations, which takes at least eleven points; growth and decline
      exactly when there is no spike and the least-squares line, which no other beats, moves enough;
      oscillation is never reported. */
  method Classify(samples: seq<Sample>, window: real, root: real -> real) returns (c: TrendClass)
    requires window >= 0.0 && IsSqrt(root)
    ensures var ps := WindowedPoints(samples, window);
            && (c.SpikeOf? <==> Spikes(ps, root))
            && (c.SpikeOf? ==> |ps| >= 11 && c.magnitude == ps[|ps| - 1].y - Mean(Ys(ps)) > 0.0)
    ensures var ps := WindowedPoints(samples, window);
            && (c.Growing? <==> !Spikes(ps, root) && Moves(ps, 1.0))
            && (c.Declining? <==> !Spikes(ps, root) && Moves(ps, -1.0))
            && (c.Growing? || c.Declining? ==> Optimal(ps, Fitted(ps)) && c.rate == Abs(Fitted(ps).slope))
    ensures !c.Oscillating?
  {
    hide Variance, Mean, Optimal, Misfit, Dot, Dx, Dy, Square, Fitted;
    var points := WindowedPoints(samples, window);
    if |points| < 2 {
      return Stable;
    }
    var fit := LinearRegression(points);
    var ys := Ys(points);
    var mean, stddev := Mean(ys), root(Variance(ys));
    var lastValue := points[|points| - 1].y;
    if lastValue > mean + 3.0 * stddev {
      ThreeSigmaNeedsEleven(ys, |ys| - 1, stddev);
      return SpikeOf(lastValue - mean);
    }
    if Abs(fit.slope) < 0.001 * Abs(mean) {
      return Stable;
    }
    if fit.slope != 0.0 {
      ExplainsHalf(points, fit);
    }
    if fit.slope > 0.0 && fit.rSquared > 0.5 {
      return Growing(fit.slope);
    }
    if fit.slope < 0.0 && fit.rSquared > 0.5 {
      return Declining(Abs(fit.slope));
    }
    return Stable;
  }

  /** What the estimate comes to. A wait that a duration cannot hold, 2^64 seconds or more, is a panic. */
  datatype Estimate = Never | After(seconds: real) | Panics

  const DURATION_LIMIT: real := 18446744073709551616.0

  /** The metric is below the threshold and its least-squares line rises. */
  ghost predicate Approaches(samples: seq<Sample>, threshold: real) {
    && samples != [] && samples[|samples| - 1].value < threshold
    && Fitted(WindowedPoints(samples, 300.0)).slope > 0.0
  }

  /** Time until the trend reaches `threshold`. There is one exactly when the metric is below it and its
      least-squares line, which no other beats, rises, and following the slope for 2^64 seconds would overshoot;
      it is the time after which the slope, followed from the current value, arrives. If 2^64 seconds are not
      more than enough, the conversion to a duration panics. */
  method TimeToThreshold(samples: seq<Sample>, threshold: real) returns (t: Estimate)
    ensures t.Never? <==> !Approaches(samples, threshold)
    ensures t.Panics? <==>
              && Approaches(samples, threshold)
              && Overdue(samples[|samples| - 1].value, Fitted(WindowedPoints(samples, 300.0)).slope, threshold)
    ensures t.After? ==>
              && 0.0 < t.seconds < 18446744073709551616.0
              && Arrives(samples[|samples| - 1].value, Fitted(WindowedPoints(samples, 300.0)).slope, t.seconds, threshold)
              && Optimal(WindowedPoints(samples, 300.0), Fitted(WindowedPoints(samples, 300.0)))
  {
    SlopeNeedsTwo(WindowedPoints(samples, 300.0));
    hide Mean, Optimal, Misfit, Dot, Dx, Dy, Square, Fitted, Arrives, Overdue;
    if samples == [] {
      return Never;
    }
    var current := samples[|samples| - 1].value;
    var points := WindowedPoints(samples, 300.0);
    var fit := LinearRegression(points);
    if fit.slope <= 0.0 || current >= threshold {
      return Never;
    }
    var wait := (threshold - current) / fit.slope;
    Arrival(current, threshold, threshold - current, fit.slope, wait);
    t := if wait < DURATION_LIMIT then After(wait) else Panics;
  }

  /** Following the slope for 2^64 seconds does not get past the threshold. */
  predicate Overdue(current: real, slope: real, threshold: real) {
    current + slope * 18446744073709551616.0 <= threshold
  }

  lemma SlopeNeedsTwo(ps: seq<Point>)
    ensures Fitted(ps).slope > 0.0 ==> |ps| >= 2
  {
    hide Dot, Dx, Dy, Mean;
  }

  predicate Arrives(current: real, slope: real, wait: real, threshold: real) {
    current + slope * wait == threshold
  }

  lemma Arrival(current: real, threshold: real, gap: real, slope: real, wait: real)
    requires gap == threshold - current && gap > 0.0 && slope > 0.0 && wait == gap / slope
    ensures wait > 0.0 && Arrives(current, slope, wait, threshold)
    ensures wait >= DURATION_LIMIT <==> Overdue(current, slope, threshold)
  {
    assert slope * wait == gap;
    var excess := wait - DURATION_LIMIT;
    assert slope * excess == gap - slope * DURATION_LIMIT;
    if excess > 0.0 {
      ProductPositive(slope, excess, slope * excess);
    } else if excess < 0.0 {
      ProductPositive(slope, -excess, slope * -excess);
    }
  }
}
