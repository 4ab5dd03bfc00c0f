/** What the trend says of the samples themselves (crates/aether-analyze/src/analyzers/trend.rs): which points the window
    yields, and that data on a line get exactly that line. */
module TrendSamples {
  import opened Results
  import opened Sums
  import opened Series
  import opened Trend

  /** The points are the samples at the positions `at`: each with its value, the first at time zero, and any two as far
      apart as the samples were taken. */
  ghost predicate Plots(samples: seq<Sample>, ps: seq<Point>, at: seq<nat>) {
    && |ps| == |at| > 0 && ps[0].x == 0.0
    && (forall k | 0 <= k < |at| :: at[k] < |samples| && ps[k].y == samples[at[k]].value)
    && (forall k, l | 0 <= k < l < |at| :: at[k] < at[l])
    && (forall k | 0 <= k < |at| :: ps[k].x == samples[at[k]].timestamp - samples[at[0]].timestamp)
  }

  /** Of samples in time order the window yields the points of exactly those no more than `window` older than the
      latest. */
  lemma PointsExactly(samples: seq<Sample>, window: real) returns (at: seq<nat>)
    requires window >= 0.0 && samples != [] && TimeOrdered(samples)
    ensures Plots(samples, WindowedPoints(samples, window), at)
    ensures forall i: nat | i < |samples| ::
              i in at <==> samples[|samples| - 1].timestamp - samples[i].timestamp <= window
  {
    hide Windowed;
    at := WindowedExactly(samples, window);
    assert |samples| - 1 in at;
    forall k | 0 <= k < |at|
      ensures samples[at[0]].timestamp <= samples[at[k]].timestamp
    {
      assert k > 0 ==> at[0] < at[k];
    }
  }

  /** All samples lie on the line with slope `m`. */
  ghost predicate OnLine(samples: seq<Sample>, m: real, b: real) {
    forall i | 0 <= i < |samples| :: samples[i].value == b + m * samples[i].timestamp
  }

  /** Not all samples of the window were taken at the same time. */
  ghost predicate SpansTime(samples: seq<Sample>, window: real) {
    && samples != []
    && exists i: nat ::
         && i < |samples|
         && samples[|samples| - 1].timestamp - window <= samples[i].timestamp < samples[|samples| - 1].timestamp
  }

  lemma {:induction false} NoMisfit(ps: seq<Point>, m: real, c: real)
    requires forall k | 0 <= k < |ps| :: ps[k].y == c + m * ps[k].x
    ensures Misfit(ps, m, c) == 0.0
  {
    if ps != [] {
      NoMisfit(ps[1..], m, c);
      SquareZero(Distance(ps[0], m, c));
      hide Square;
    }
  }

  lemma SpreadOut(ps: seq<Point>, k: nat, l: nat)
    requires k < |ps| && l < |ps| && ps[k].x != ps[l].x
    ensures Dot(Dx(ps), Dx(ps)) > 0.0
  {
    hide Dot, Deviations, Mean;
    DotSquareZero(Dx(ps), Dx(ps));
    DeviationAt(Xs(ps), Mean(Xs(ps)), k);
    DeviationAt(Xs(ps), Mean(Xs(ps)), l);
    assert Dx(ps)[k] != Dx(ps)[l];
  }

  lemma SlopeTimes(ps: seq<Point>)
    requires |ps| >= 2 && Dot(Dx(ps), Dx(ps)) > 0.0
    ensures Fitted(ps).slope * Dot(Dx(ps), Dx(ps)) == Dot(Dx(ps), Dy(ps))
    ensures Fitted(ps).intercept == Mean(Ys(ps)) - Fitted(ps).slope * Mean(Xs(ps))
  {
    hide Dot, Dx, Dy, Mean, RSquaredOf;
    Divided(Fitted(ps).slope, Dot(Dx(ps), Dy(ps)), Dot(Dx(ps), Dx(ps)));
  }

  /** Points on a line, not all one above the other, are fitted by that line. */
  lemma LineIsFitted(ps: seq<Point>, m: real, c: real)
    requires |ps| >= 2 && Dot(Dx(ps), Dx(ps)) > 0.0
    requires forall k | 0 <= k < |ps| :: ps[k].y == c + m * ps[k].x
    ensures Fitted(ps).slope == m && Fitted(ps).intercept == c && Misfit(ps, m, c) == 0.0
  {
    hide Misfit, Dot, Dx, Dy, Mean, Fitted;
    NoMisfit(ps, m, c);
    SlopeTimes(ps);
    FitIsBest(ps, Fitted(ps), m, c);
  }

  lemma Varies(ps: seq<Point>, m: real)
    requires |ps| >= 2 && Dot(Dx(ps), Dx(ps)) > 0.0 && Fitted(ps).slope == m != 0.0
    ensures Dot(Dy(ps), Dy(ps)) > 0.0
  {
    hide Dot, Dx, Dy, Mean, RSquaredOf;
    DotSquareZero(Dy(ps), Dx(ps));
    DotCommutes(Dx(ps), Dy(ps));
    SlopeOf(ps);
  }

  /** Samples in time order on a line get exactly its slope; so, unless the last value is a spike, they are classified as
      growing or declining exactly if the slope is up or down and at least a thousandth of the mean value per second, and
      they approach a threshold above the last value exactly if the slope is up. */
  lemma LinearSamples(samples: seq<Sample>, window: real, m: real, b: real)
    requires window >= 0.0 && TimeOrdered(samples) && OnLine(samples, m, b) && SpansTime(samples, window)
    ensures var ps := WindowedPoints(samples, window);
            && |ps| >= 2 && Fitted(ps).slope == m
            && (Moves(ps, 1.0) <==> m > 0.0 && m >= 0.001 * Abs(Mean(Ys(ps))))
            && (Moves(ps, -1.0) <==> m < 0.0 && -m >= 0.001 * Abs(Mean(Ys(ps))))
  {
    hide Misfit, Dot, Dx, Dy, Mean, Fitted, Abs, WindowedPoints;
    var c := LinearPoints(samples, window, m, b);
    var ps := WindowedPoints(samples, window);
    LineIsFitted(ps, m, c);
    if m != 0.0 {
      Varies(ps, m);
    }
  }

  lemma LinearPoints(samples: seq<Sample>, window: real, m: real, b: real) returns (c: real)
    requires window >= 0.0 && TimeOrdered(samples) && OnLine(samples, m, b) && SpansTime(samples, window)
    ensures var ps := WindowedPoints(samples, window);
            |ps| >= 2 && Dot(Dx(ps), Dx(ps)) > 0.0 && forall k | 0 <= k < |ps| :: ps[k].y == c + m * ps[k].x
  {
    hide *;
    HasLast(samples, window);
    var at := PointsExactly(samples, window);
    var ps := WindowedPoints(samples, window);
    c := PlottedOnLine(samples, ps, at, m, b);
    var k, l := PlottedApart(samples, window, ps, at);
    SpreadOut(ps, k, l);
  }

  lemma HasLast(samples: seq<Sample>, window: real)
    requires SpansTime(samples, window)
    ensures samples != []
  {
  }

  lemma PlottedOnLine(samples: seq<Sample>, ps: seq<Point>, at: seq<nat>, m: real, b: real) returns (c: real)
    requires Plots(samples, ps, at) && OnLine(samples, m, b)
    ensures forall k | 0 <= k < |ps| :: ps[k].y == c + m * ps[k].x
  {
    var first := samples[at[0]].timestamp;
    c := b + m * first;
    forall k | 0 <= k < |ps|
      ensures ps[k].y == c + m * ps[k].x
    {
      SamePoint(b, m, first, samples[at[k]].timestamp);
    }
  }

  lemma PlottedApart(samples: seq<Sample>, window: real, ps: seq<Point>, at: seq<nat>) returns (k: nat, l: nat)
    requires window >= 0.0 && Plots(samples, ps, at) && SpansTime(samples, window)
    requires forall i: nat | i < |samples| ::
               i in at <==> samples[|samples| - 1].timestamp - samples[i].timestamp <= window
    ensures k < |ps| && l < |ps| && k != l && ps[k].x != ps[l].x
  {
    var last := |samples| - 1;
    var i: nat :| i < |samples| && samples[last].timestamp - window <= samples[i].timestamp < samples[last].timestamp;
    assert i in at && last in at;
    k :| 0 <= k < |at| && at[k] == i;
    l :| 0 <= l < |at| && at[l] == last;
  }

  lemma SamePoint(b: real, m: real, first: real, t: real)
    ensures b + m * t == (b + m * first) + m * (t - first)
  {
  }

  /** What the estimate comes to on such samples. */
  lemma LinearApproach(samples: seq<Sample>, m: real, b: real, threshold: real)
    requires TimeOrdered(samples) && OnLine(samples, m, b) && SpansTime(samples, 300.0)
    ensures Approaches(samples, threshold) <==> m > 0.0 && samples[|samples| - 1].value < threshold
    ensures Fitted(WindowedPoints(samples, 300.0)).slope == m
  {
    hide Misfit, Dot, Dx, Dy, Mean, Fitted, Abs, WindowedPoints;
    LinearSamples(samples, 300.0, m, b);
  }
  /** Eleven is sharp: values of which only the last differs, as a jump of one, end in a spike exactly if the window holds
      at least eleven of them. */
  lemma LoneJumpSpikes(ps: seq<Point>, root: real -> real, k: nat)
    requires IsSqrt(root) && Ys(ps) == LoneJump(k)
    ensures Spikes(ps, root) <==> |ps| >= 11
  {
    hide Variance, Mean, Square;
    LoneJumpExceedsExactly(k, root(Variance(Ys(ps))));
  }
}
