/** Pearson correlation of two metrics (crates/aether-analyze/src/analyzers/correlation.rs). */
module Correlation {
  import opened Results
  import opened Sums
  import opened Series
  import opened Trend

  function TimeGap(s: real, t: real): (gap: real)
    ensures gap >= 0.0 && (gap == s - t || gap == t - s)
  {
    if s >= t then s - t else t - s
  }

  /** Index of the sample of `b` nearest in time to `t`, the later one on ties, if within `window`. */
  predicate IsNearest(b: seq<Sample>, t: real, window: real, k: nat) {
    && k < |b| && TimeGap(t, b[k].timestamp) <= window
    && (forall j | 0 <= j < |b| :: TimeGap(t, b[k].timestamp) <= TimeGap(t, b[j].timestamp))
    && (forall j | k < j < |b| :: TimeGap(t, b[k].timestamp) < TimeGap(t, b[j].timestamp))
  }

  /** The scan of `b` for one sample of `a`. */
  method FindNearest(b: seq<Sample>, t: real, window: real) returns (best: Option<nat>)
    ensures best.Some? ==> IsNearest(b, t, window, best.value)
    ensures best.None? ==> forall j | 0 <= j < |b| :: TimeGap(t, b[j].timestamp) > window
  {
    var bestDist := window;
    best := None;
    for j := 0 to |b|
      invariant best.None? ==> bestDist == window && forall i | 0 <= i < j :: TimeGap(t, b[i].timestamp) > window
      invariant best.Some? ==> IsNearest(b[..j], t, window, best.value) && bestDist == TimeGap(t, b[best.value].timestamp)
    {
      var dist := TimeGap(t, b[j].timestamp);
      if dist <= bestDist {
        bestDist, best := dist, Some(j);
      }
    }
    assert b[..|b|] == b;
  }

  /** Every sample of `a` that has a partner is paired, in order, with its nearest sample of `b`. */
  ghost predicate Aligned(a: seq<Sample>, b: seq<Sample>, window: real, pairs: seq<Point>) {
    exists from: seq<nat>, to: seq<nat> ::
      && |from| == |to| == |pairs|
      && (forall k | 0 <= k < |pairs| ::
            && from[k] < |a| && IsNearest(b, a[from[k]].timestamp, window, to[k])
            && pairs[k] == Point(a[from[k]].value, b[to[k]].value))
      && (forall k, l | 0 <= k < l < |pairs| :: from[k] < from[l])
      && (forall i, j | 0 <= i < |a| && 0 <= j < |b| && TimeGap(a[i].timestamp, b[j].timestamp) <= window :: i in from)
  }

  method AlignSamples(a: seq<Sample>, b: seq<Sample>, window: real) returns (pairs: seq<Point>)
    ensures Aligned(a, b, window, pairs)
  {
    pairs := [];
    ghost var from: seq<nat>, to: seq<nat> := [], [];
    if a == [] || b == [] {
      assert |from| == |to| == |pairs|;
      return;
    }
    for i := 0 to |a|
      invariant |from| == |to| == |pairs|
      invariant forall k | 0 <= k < |pairs| ::
                  && from[k] < i && IsNearest(b, a[from[k]].timestamp, window, to[k])
                  && pairs[k] == Point(a[from[k]].value, b[to[k]].value)
      invariant forall k, l | 0 <= k < l < |pairs| :: from[k] < from[l]
      invariant forall m, j | 0 <= m < i && 0 <= j < |b| && TimeGap(a[m].timestamp, b[j].timestamp) <= window :: m in from
    {
      var best := FindNearest(b, a[i].timestamp, window);
      if best.Some? {
        pairs := pairs + [Point(a[i].value, b[best.value].value)];
        from, to := from + [i], to + [best.value];
        assert from[|from| - 1] == i;
      }
    }
  }

  /** `r` is the Pearson coefficient of the pairs: its square is the share of the variation of one side that
      the best line through the pairs explains, its sign that of the covariance; it is zero when one side does
      not vary or there are fewer than two pairs. */
  ghost predicate IsPearson(pairs: seq<Point>, r: real) {
    if |pairs| < 2 || Dot(Dx(pairs), Dx(pairs)) == 0.0 || Dot(Dy(pairs), Dy(pairs)) == 0.0 then r == 0.0
    else
      && Square(r) * (Dot(Dx(pairs), Dx(pairs)) * Dot(Dy(pairs), Dy(pairs))) == Square(Dot(Dx(pairs), Dy(pairs)))
      && (r > 0.0 <==> Dot(Dx(pairs), Dy(pairs)) > 0.0)
      && (r < 0.0 <==> Dot(Dx(pairs), Dy(pairs)) < 0.0)
  }

  /** The coefficient lies in [-1, 1] whatever the pairs. */
  method Pearson(pairs: seq<Point>, root: real -> real) returns (r: real)
    requires IsSqrt(root)
    ensures IsPearson(pairs, r) && -1.0 <= r <= 1.0
  {
    hide Dot, Deviations, Mean, Square;
    if |pairs| < 2 {
      return 0.0;
    }
    var ssAb, ssAa, ssBb := CentredSums(pairs, Mean(Xs(pairs)), Mean(Ys(pairs)));
    DotSquareZero(Dx(pairs), Dy(pairs));
    DotSquareZero(Dy(pairs), Dx(pairs));
    CauchySchwarz(Dx(pairs), Dy(pairs));
    var product := ssAa * ssBb;
    ProductSign(ssAa, ssBb, product);
    var denom := root(product);
    RootSign(denom, product);
    if denom == 0.0 {
      return 0.0;
    }
    r := ssAb / denom;
    CoefficientBounds(ssAb, denom, product, r);
  }

  lemma ProductSign(x: real, y: real, p: real)
    requires x >= 0.0 && y >= 0.0 && p == x * y
    ensures p >= 0.0
    ensures p == 0.0 <==> x == 0.0 || y == 0.0
  {
    if x > 0.0 && y > 0.0 {
      ProductPositive(x, y, p);
    }
  }

  lemma RootSign(d: real, p: real)
    requires d >= 0.0 && Square(d) == p
    ensures d == 0.0 <==> p == 0.0
  {
    SquareZero(d);
  }

  lemma CoefficientBounds(ab: real, d: real, p: real, r: real)
    requires d > 0.0 && p == Square(d) && r == ab / d && ab * ab <= p
    ensures -1.0 <= r <= 1.0 && Square(r) * p == Square(ab)
    ensures r > 0.0 <==> ab > 0.0
    ensures r < 0.0 <==> ab < 0.0
  {
    assert r * d == ab;
    if r > 1.0 {
      ProductPositive(r - 1.0, d, (r - 1.0) * d);
      SquareGrows(d, ab);
    }
    if r < -1.0 {
      ProductPositive(-1.0 - r, d, (-1.0 - r) * d);
      SquareGrows(d, -ab);
    }
    if r > 0.0 {
      ProductPositive(r, d, ab);
    }
    if r < 0.0 {
      ProductPositive(-r, d, -ab);
    }
    CoefficientSquare(ab, d, p, r);
  }

  lemma CoefficientSquare(ab: real, d: real, p: real, r: real)
    requires d > 0.0 && p == Square(d) && r * d == ab
    ensures Square(r) * p == Square(ab)
  {
    assert (r * r) * (d * d) == (r * d) * (r * d);
  }

  /** Correlation of two series: the Pearson coefficient of their aligned samples. */
  method Correlate(a: seq<Sample>, b: seq<Sample>, window: real, root: real -> real) returns (r: real)
    requires IsSqrt(root)
    ensures -1.0 <= r <= 1.0
    ensures exists pairs :: Aligned(a, b, window, pairs) && IsPearson(pairs, r)
  {
    hide IsPearson, Aligned;
    var pairs := AlignSamples(a, b, window);
    r := Pearson(pairs, root);
  }
}
