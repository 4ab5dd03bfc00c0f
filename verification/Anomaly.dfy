/** Z-scores (crates/aether-analyze/src/analyzers/anomaly.rs), over exact reals. */
module Anomaly {
  import opened Sums
  import opened Series

  /** Values of the samples in the window. */
  function Values(samples: seq<Sample>, window: real): (vs: seq<real>)
    requires window >= 0.0
    ensures |vs| == |Windowed(samples, window)| && forall i | 0 <= i < |vs| :: vs[i] == Windowed(samples, window)[i].value
  {
    var kept := Windowed(samples, window);
    seq(|kept|, i requires 0 <= i < |kept| => kept[i].value)
  }

  /** Population standard deviation; zero for fewer than two values. */
  method ComputeStddev(values: seq<real>, root: real -> real) returns (sd: real)
    requires IsSqrt(root)
    ensures |values| < 2 ==> sd == 0.0
    ensures |values| >= 2 ==> sd >= 0.0 && Square(sd) == Variance(values)
  {
    if |values| < 2 {
      return 0.0;
    }
    sd := root(Variance(values));
  }

  /** Z-score of the last value. Its square never exceeds n - 1; it is zero when the values hardly vary,
      and otherwise tells the last value from the mean in units of the standard deviation. */
  method ZScore(samples: seq<Sample>, window: real, root: real -> real) returns (z: real)
    requires window >= 0.0 && IsSqrt(root)
    ensures samples == [] ==> z == 0.0
    ensures var vs := Values(samples, window);
            vs != [] ==> Square(z) <= (|vs| - 1) as real && Scores(vs, root, z)
  {
    var vs := Values(samples, window);
    if vs == [] {
      return 0.0;
    }
    hide *;
    var sd := ComputeStddev(vs, root);
    Judge(vs, root, sd);
    if sd < 0.000000000001 {
      return 0.0;
    }
    z := LastScore(vs, sd);
  }

  function LastScore(vs: seq<real>, sd: real): real
    requires vs != [] && sd != 0.0
  {
    (vs[|vs| - 1] - Mean(vs)) / sd
  }

  lemma Judge(vs: seq<real>, root: real -> real, sd: real)
    requires vs != [] && IsSqrt(root)
    requires |vs| < 2 ==> sd == 0.0
    requires |vs| >= 2 ==> sd >= 0.0 && Square(sd) == Variance(vs)
    ensures var z := if sd < 0.000000000001 then 0.0 else LastScore(vs, sd);
            Square(z) <= (|vs| - 1) as real && Scores(vs, root, z)
  {
    hide Variance, Mean, Square, Scores;
    if sd < 0.000000000001 {
      NoScore(vs, sd);
      Unscored(vs, root);
    } else {
      Score(vs, sd, LastScore(vs, sd), root(Variance(vs)));
      Scored(vs, root, LastScore(vs, sd));
    }
  }

  /** The score is zero for values that hardly vary and otherwise tells the last value from the mean in units of the
      standard deviation. */
  ghost predicate Scores(vs: seq<real>, root: real -> real, z: real)
    requires vs != []
  {
    && (|vs| < 2 || Variance(vs) < 0.000000000000000000000001 ==> z == 0.0)
    && (|vs| >= 2 && Variance(vs) >= 0.000000000000000000000001 ==>
          z * root(Variance(vs)) == vs[|vs| - 1] - Mean(vs))
  }

  lemma Unscored(vs: seq<real>, root: real -> real)
    requires vs != [] && (|vs| < 2 || Variance(vs) < 0.000000000000000000000001)
    ensures Scores(vs, root, 0.0)
  {
    hide Variance, Mean;
  }

  lemma Scored(vs: seq<real>, root: real -> real, z: real)
    requires |vs| >= 2 && Variance(vs) >= 0.000000000000000000000001
    requires z * root(Variance(vs)) == vs[|vs| - 1] - Mean(vs)
    ensures Scores(vs, root, z)
  {
    hide Variance, Mean;
  }

  lemma NoScore(vs: seq<real>, sd: real)
    requires vs != []
    requires |vs| < 2 ==> sd == 0.0
    requires |vs| >= 2 ==> sd >= 0.0 && Square(sd) == Variance(vs)
    requires sd < 0.000000000001
    ensures Square(0.0) <= (|vs| - 1) as real
    ensures |vs| < 2 || Variance(vs) < 0.000000000000000000000001
  {
    hide Variance, Mean;
    if |vs| >= 2 {
      TinyDeviation(sd, Variance(vs));
    }
  }

  lemma Score(vs: seq<real>, sd: real, z: real, deviation: real)
    requires |vs| >= 2 && Square(sd) == Variance(vs)
    requires sd >= 0.000000000001 && z == (vs[|vs| - 1] - Mean(vs)) / sd
    requires deviation >= 0.0 && Square(deviation) == Variance(vs)
    ensures Variance(vs) >= 0.000000000000000000000001
    ensures Square(z) <= (|vs| - 1) as real
    ensures z * deviation == vs[|vs| - 1] - Mean(vs)
  {
    hide Variance, Mean, Square;
    TinyDeviation(sd, Variance(vs));
    DeviationBound(vs, |vs| - 1);
    ScoreBound(vs[|vs| - 1] - Mean(vs), sd, z, Variance(vs), (|vs| - 1) as real, (|vs| - 1) as real * Variance(vs));
    SameRoot(sd, deviation);
  }

  lemma TinyDeviation(sd: real, v: real)
    requires sd >= 0.0 && Square(sd) == v
    ensures sd < 0.000000000001 <==> v < 0.000000000000000000000001
  {
    if sd < 0.000000000001 {
      SquareGrows(sd, 0.000000000001);
    } else if sd > 0.000000000001 {
      SquareGrows(0.000000000001, sd);
    }
  }

  lemma SameRoot(a: real, b: real)
    requires a >= 0.0 && b >= 0.0 && Square(a) == Square(b)
    ensures a == b
  {
    if a < b {
      SquareGrows(a, b);
    }
    if b < a {
      SquareGrows(b, a);
    }
  }

  lemma ScoreBound(x: real, sd: real, z: real, v: real, w: real, wv: real)
    requires sd > 0.0 && v == Square(sd) && z == x / sd && wv == w * v && Square(x) <= wv
    ensures z * sd == x && Square(z) <= w
  {
    assert z * sd == x;
    var zz := z * z;
    assert zz * v == x * x;
    ProductPositive(sd, sd, v);
    if zz > w {
      ProductPositive(zz - w, v, (zz - w) * v);
    }
  }

  /** The last value lies more than `threshold` standard deviations from the mean. Values that hardly vary
      stand exactly at the mean. */
  ghost predicate Outlying(vs: seq<real>, threshold: real, root: real -> real) {
    if |vs| < 2 || Variance(vs) < 0.000000000000000000000001 then 0.0 > threshold
    else Abs(vs[|vs| - 1] - Mean(vs)) > Times(threshold, root(Variance(vs)))
  }

  /** Flags exactly the outlying last values, so a flag beyond `threshold` standard deviations needs more
      than threshold squared plus one samples: three sigma needs eleven. */
  method IsOutlierZScore(samples: seq<Sample>, threshold: real, root: real -> real) returns (outlier: bool)
    requires IsSqrt(root)
    ensures outlier <==> Outlying(Values(samples, 300.0), threshold, root)
    ensures outlier && threshold >= 0.0 ==> Square(threshold) < (|Values(samples, 300.0)| - 1) as real
    ensures outlier && threshold >= 3.0 ==> |Values(samples, 300.0)| >= 11
  {
    var z := ZScore(samples, 300.0, root);
    hide *;
    outlier := Abs(z) > threshold;
    ghost var vs := Values(samples, 300.0);
    Judged(vs, root, z, threshold);
  }

  lemma Judged(vs: seq<real>, root: real -> real, z: real, threshold: real)
    requires IsSqrt(root)
    requires if vs == [] then z == 0.0 else Square(z) <= (|vs| - 1) as real && Scores(vs, root, z)
    ensures Abs(z) > threshold <==> Outlying(vs, threshold, root)
    ensures Abs(z) > threshold && threshold >= 0.0 ==> Square(threshold) < (|vs| - 1) as real
    ensures Abs(z) > threshold && threshold >= 3.0 ==> |vs| >= 11
  {
    hide Variance, Mean, Square, Times, Abs;
    AbsFacts(z);
    if |vs| >= 2 && Variance(vs) >= 0.000000000000000000000001 {
      Scaled(z, root(Variance(vs)), vs[|vs| - 1] - Mean(vs), Variance(vs), threshold);
    }
    if Abs(z) > threshold >= 0.0 {
      Evidence(threshold, Abs(z), |vs| - 1);
    }
  }

  lemma AbsFacts(z: real)
    ensures z == 0.0 ==> Abs(z) == 0.0
    ensures Abs(z) >= 0.0 && Square(Abs(z)) == Square(z)
  {
  }

  /** Comparing in units of the standard deviation is comparing distances. */
  lemma Scaled(z: real, sd: real, x: real, v: real, threshold: real)
    requires z * sd == x && sd >= 0.0 && Square(sd) == v && v > 0.0
    ensures Abs(z) > threshold <==> Abs(x) > Times(threshold, sd)
  {
    var a := Abs(z);
    assert sd > 0.0;
    assert Abs(x) == a * sd by {
      if z < 0.0 {
        ProductPositive(-z, sd, -z * sd);
      } else if z > 0.0 {
        ProductPositive(z, sd, z * sd);
      }
    }
    var gap := a - threshold;
    assert gap * sd == Abs(x) - Times(threshold, sd);
    if gap > 0.0 {
      ProductPositive(gap, sd, gap * sd);
    } else if gap < 0.0 {
      ProductPositive(-gap, sd, -gap * sd);
    }
  }

  lemma Evidence(threshold: real, a: real, w: int)
    requires 0.0 <= threshold < a && Square(a) <= w as real
    ensures Square(threshold) < w as real
    ensures threshold >= 3.0 ==> w >= 10
  {
    SquareGrows(threshold, a);
    if threshold > 3.0 {
      SquareGrows(3.0, threshold);
    }
  }
}
