/** Sums over real sequences and the inequalities the numeric analyzers rest on. */
module Sums {
  function Sum(a: seq<real>): real {
    if a == [] then 0.0 else a[0] + Sum(a[1..])
  }

  function Abs(x: real): (a: real)
    ensures a >= 0.0 && (a == x || a == -x)
  {
    if x < 0.0 then -x else x
  }

  function Times(x: real, y: real): real {
    x * y
  }

  function Dot(a: seq<real>, b: seq<real>): real
    requires |a| == |b|
  {
    if a == [] then 0.0 else Times(a[0], b[0]) + Dot(a[1..], b[1..])
  }

  function Mean(a: seq<real>): real
    requires a != []
  {
    Sum(a) / |a| as real
  }

  /** Deviations from `c`. */
  function Deviations(a: seq<real>, c: real): (d: seq<real>)
    ensures |d| == |a|
  {
    if a == [] then [] else [a[0] - c] + Deviations(a[1..], c)
  }

  function Square(x: real): (r: real)
    ensures r >= 0.0
  {
    Times(x, x)
  }

  /** How far `b` is above the line through `a`. */
  function Gap(a: real, b: real, m: real, e: real): real {
    b - m * a + e
  }

  /** Sum of the squared gaps. */
  function Residual(a: seq<real>, b: seq<real>, m: real, e: real): (r: real)
    requires |a| == |b|
    ensures r >= 0.0
  {
    if a == [] then 0.0
    else Square(Gap(a[0], b[0], m, e)) + Residual(a[1..], b[1..], m, e)
  }

  lemma ProductPositive(x: real, y: real, z: real)
    requires ((x > 0.0 && y > 0.0) || (x < 0.0 && y < 0.0)) && z == x * y
    ensures z > 0.0
  {
  }

  lemma SquareZero(x: real)
    ensures Square(x) == 0.0 <==> x == 0.0
  {
    if x != 0.0 {
      ProductPositive(x, x, Square(x));
    }
  }

  lemma SquareExpand(a: real, b: real, m: real, e: real)
    ensures Square(Gap(a, b, m, e)) ==
            Times(b, b) - 2.0 * m * Times(a, b) + m * m * Times(a, a) + 2.0 * e * (b - m * a) + e * e
  {
  }

  /** The residual's value in terms of the sums: a quadratic in `m` and `e`. */
  function Quadratic(n: real, sa: real, sb: real, aa: real, ab: real, bb: real, m: real, e: real): real {
    bb - 2.0 * m * ab + m * m * aa + 2.0 * e * (sb - m * sa) + n * (e * e)
  }

  lemma {:induction false} ResidualExpand(a: seq<real>, b: seq<real>, m: real, e: real)
    requires |a| == |b|
    ensures Residual(a, b, m, e) == Quadratic(|a| as real, Sum(a), Sum(b), Dot(a, a), Dot(a, b), Dot(b, b), m, e)
  {
    hide Quadratic, Square, Times, Gap;
    if a == [] {
      QuadraticZero(m, e);
    } else {
      var x, y, a', b' := a[0], b[0], a[1..], b[1..];
      ResidualExpand(a', b', m, e);
      ExpandStep(x, y, m, e, |a'| as real, Sum(a'), Sum(b'), Dot(a', a'), Dot(a', b'), Dot(b', b'));
      assert |a'| as real + 1.0 == |a| as real;
    }
  }

  lemma QuadraticZero(m: real, e: real)
    ensures Quadratic(0.0, 0.0, 0.0, 0.0, 0.0, 0.0, m, e) == 0.0
  {
  }

  lemma ExpandStep(a: real, b: real, m: real, e: real,
                   n: real, sa: real, sb: real, aa: real, ab: real, bb: real)
    ensures Square(Gap(a, b, m, e)) + Quadratic(n, sa, sb, aa, ab, bb, m, e) ==
            Quadratic(n + 1.0, a + sa, b + sb, Times(a, a) + aa, Times(a, b) + ab, Times(b, b) + bb, m, e)
  {
    SquareExpand(a, b, m, e);
    assert 2.0 * m * (Times(a, b) + ab) == 2.0 * m * Times(a, b) + 2.0 * m * ab;
    assert m * m * (Times(a, a) + aa) == m * m * Times(a, a) + m * m * aa;
    assert m * (a + sa) == m * a + m * sa;
    assert 2.0 * e * ((b - m * a) + (sb - m * sa)) == 2.0 * e * (b - m * a) + 2.0 * e * (sb - m * sa);
    assert (n + 1.0) * (e * e) == n * (e * e) + e * e;
  }

  lemma {:induction false} DotSquareZero(a: seq<real>, b: seq<real>)
    requires |a| == |b|
    ensures Dot(a, a) >= 0.0
    ensures Dot(a, a) == 0.0 <==> forall i | 0 <= i < |a| :: a[i] == 0.0
    ensures Dot(a, a) == 0.0 ==> Dot(a, b) == 0.0
  {
    if a != [] {
      DotSquareZero(a[1..], b[1..]);
      assert forall i | 0 <= i < |a| - 1 :: a[1..][i] == a[i + 1];
      assert forall i | 1 <= i < |a| :: a[i] == a[1..][i - 1];
      SquareZero(a[0]);
    }
  }

  lemma {:induction false} DotCommutes(a: seq<real>, b: seq<real>)
    requires |a| == |b|
    ensures Dot(a, b) == Dot(b, a)
  {
    if a != [] {
      DotCommutes(a[1..], b[1..]);
    }
  }

  /** Cauchy-Schwarz. */
  lemma CauchySchwarz(a: seq<real>, b: seq<real>)
    requires |a| == |b|
    ensures Dot(a, b) * Dot(a, b) <= Dot(a, a) * Dot(b, b)
  {
    var aa, ab, bb := Dot(a, a), Dot(a, b), Dot(b, b);
    DotSquareZero(a, b);
    if aa > 0.0 {
      var m := ab / aa;
      ResidualExpand(a, b, m, 0.0);
      Discriminant(aa, ab, bb, m);
    }
  }

  lemma Discriminant(aa: real, ab: real, bb: real, m: real)
    requires aa > 0.0 && m == ab / aa && bb - 2.0 * m * ab + m * m * aa >= 0.0
    ensures ab * ab <= aa * bb
  {
    assert m * aa == ab;
    assert m * m * aa == m * ab;
    assert bb >= m * ab;
    assert aa * bb >= aa * (m * ab);
    assert aa * (m * ab) == ab * ab;
  }

  // ---------------------------------------------------------------- deviations from the mean

  lemma {:induction false} SumDeviations(a: seq<real>, c: real)
    ensures Sum(Deviations(a, c)) == Sum(a) - |a| as real * c
  {
    if a != [] {
      SumDeviations(a[1..], c);
    }
  }

  lemma DeviationsSumToZero(a: seq<real>)
    requires a != []
    ensures Sum(Deviations(a, Mean(a))) == 0.0
  {
    SumDeviations(a, Mean(a));
  }

  lemma {:induction false} DeviationAt(a: seq<real>, c: real, k: nat)
    requires k < |a|
    ensures Deviations(a, c)[k] == a[k] - c
  {
    if k > 0 {
      DeviationAt(a[1..], c, k - 1);
    }
  }

  // ---------------------------------------------------------------- one deviation against all

  lemma {:induction false} SumRemove(a: seq<real>, k: nat)
    requires k < |a|
    ensures Sum(a) == a[k] + Sum(a[..k] + a[k + 1..])
    ensures Dot(a, a) == Square(a[k]) + Dot(a[..k] + a[k + 1..], a[..k] + a[k + 1..])
  {
    if k == 0 {
      assert a[..0] + a[1..] == a[1..];
    } else {
      SumRemove(a[1..], k - 1);
      var rest := a[..k] + a[k + 1..];
      assert rest[1..] == a[1..][..k - 1] + a[1..][k..];
    }
  }

  lemma {:induction false} SumIsDotOnes(a: seq<real>, ones: seq<real>)
    requires |ones| == |a| && forall i | 0 <= i < |ones| :: ones[i] == 1.0
    ensures Dot(ones, a) == Sum(a) && Dot(ones, ones) == |a| as real
  {
    if a != [] {
      SumIsDotOnes(a[1..], ones[1..]);
    }
  }

  lemma SquareOfSum(a: seq<real>)
    ensures Sum(a) * Sum(a) <= |a| as real * Dot(a, a)
  {
    hide Sum, Dot;
    var ones := seq(|a|, _ => 1.0);
    SumIsDotOnes(a, ones);
    CauchySchwarz(ones, a);
  }

  /** Samuelson: among n numbers that sum to zero, n times the square of each is at most n - 1 times
      the sum of all squares. */
  lemma Samuelson(d: seq<real>, k: nat)
    requires k < |d| && Sum(d) == 0.0
    ensures |d| as real * Square(d[k]) <= (|d| - 1) as real * Dot(d, d)
  {
    hide *;
    var rest := d[..k] + d[k + 1..];
    SumRemove(d, k);
    SquareOfSum(rest);
    SquareNegated(d[k], Sum(rest));
    Scatter(|d| as real, |rest| as real, Square(d[k]), Dot(rest, rest), |rest| as real * Dot(rest, rest));
  }

  lemma SquareNegated(x: real, y: real)
    requires x + y == 0.0
    ensures Square(x) == y * y
  {
  }

  lemma Scatter(n: real, m: real, x: real, r: real, mr: real)
    requires n == m + 1.0 && mr == m * r && x <= mr
    ensures n * x <= m * (x + r)
  {
    assert m * (x + r) == n * x - x + mr;
  }

  // ---------------------------------------------------------------- variance

  function Variance(a: seq<real>): (v: real)
    requires a != []
    ensures v >= 0.0
  {
    var d := Deviations(a, Mean(a));
    DotSquareZero(d, d);
    Dot(d, d) / |a| as real
  }

  /** A real square root, as a parameter. */
  ghost predicate IsSqrt(root: real -> real) {
    forall v: real | v >= 0.0 :: root(v) >= 0.0 && Square(root(v)) == v
  }

  /** Any sample's squared deviation is at most (n - 1) times the population variance. */
  lemma DeviationBound(a: seq<real>, k: nat)
    requires k < |a|
    ensures Square(a[k] - Mean(a)) <= (|a| - 1) as real * Variance(a)
  {
    hide Dot, Square, Sum, Mean, Deviations;
    var n, d := |a| as real, Deviations(a, Mean(a));
    DeviationsSumToZero(a);
    DeviationAt(a, Mean(a), k);
    Samuelson(d, k);
    DotSquareZero(d, d);
    assert (|a| - 1) as real == n - 1.0;
    ScaleDown(n, Square(d[k]), n - 1.0, Dot(d, d), Variance(a));
  }

  lemma ScaleDown(n: real, x: real, w: real, ss: real, v: real)
    requires n > 0.0 && v == ss / n && n * x <= w * ss
    ensures x <= w * v
  {
    assert v * n == ss;
    assert w * ss == (w * v) * n;
    if x > w * v {
      ProductPositive(n, x - w * v, n * (x - w * v));
    }
  }

  /** More than three standard deviations above the mean is possible only with at least 11 samples. */
  lemma ThreeSigmaNeedsEleven(a: seq<real>, k: nat, sd: real)
    requires k < |a| && sd >= 0.0 && Square(sd) == Variance(a)
    requires a[k] > Mean(a) + 3.0 * sd
    ensures |a| >= 11 && Square(a[k] - Mean(a)) > 9.0 * Variance(a)
  {
    hide Variance, Mean, Square;
    var v, x := Variance(a), a[k] - Mean(a);
    DeviationBound(a, k);
    SquareGrows(3.0 * sd, x);
    TripleSquare(sd);
    if |a| < 11 {
      AtMostNine((|a| - 1) as real, v, (|a| - 1) as real * v);
    }
  }

  lemma SquareGrows(y: real, x: real)
    requires 0.0 <= y < x
    ensures Square(y) < Square(x)
  {
    ProductPositive(x - y, x + y, (x - y) * (x + y));
    assert (x - y) * (x + y) == x * x - y * y;
  }

  lemma TripleSquare(x: real)
    ensures Square(3.0 * x) == 9.0 * Square(x)
  {
  }

  lemma AtMostNine(w: real, v: real, wv: real)
    requires w <= 9.0 && v >= 0.0 && wv == w * v
    ensures wv <= 9.0 * v
  {
  }

  lemma {:induction false} Constants(k: nat, c: real, m: real)
    ensures Sum(seq(k, _ => c)) == k as real * c
    ensures var d := Deviations(seq(k, _ => c), m); Dot(d, d) == k as real * Square(c - m)
  {
    if k > 0 {
      Constants(k - 1, c, m);
      assert seq(k, _ => c)[1..] == seq(k - 1, _ => c);
      var d := Deviations(seq(k, _ => c), m);
      assert d[1..] == Deviations(seq(k - 1, _ => c), m);
    }
  }

  /** A flat series that ends in a jump: `k` zeros and a one. */
  function LoneJump(k: nat): seq<real> {
    seq(k, _ => 0.0) + [1.0]
  }

  lemma LoneJumpTotal(k: nat)
    ensures Sum(LoneJump(k)) == 1.0
  {
    var a := LoneJump(k);
    assert a[..k] + a[k + 1..] == seq(k, _ => 0.0);
    SumRemove(a, k);
    Constants(k, 0.0, 0.0);
  }

  lemma LoneJumpSquares(k: nat, m: real) returns (low: real, ss: real)
    ensures var d := Deviations(LoneJump(k), m); ss == Dot(d, d)
    ensures low == k as real * Square(0.0 - m) && ss == Square(1.0 - m) + low
  {
    hide Square;
    var a, zeros := LoneJump(k), seq(k, _ => 0.0);
    var d := Deviations(a, m);
    Constants(k, 0.0, m);
    SumRemove(d, k);
    DeviationAt(a, m, k);
    assert d[..k] + d[k + 1..] == Deviations(zeros, m) by {
      forall i | 0 <= i < k
        ensures d[i] == Deviations(zeros, m)[i]
      {
        DeviationAt(a, m, i);
        DeviationAt(zeros, m, i);
      }
    }
    low, ss := k as real * Square(0.0 - m), Dot(d, d);
  }

  lemma LoneJumpSums(k: nat)
    ensures var a, n := LoneJump(k), (k + 1) as real;
            Mean(a) * n == 1.0 && (a[k] - Mean(a)) * n == k as real && Variance(a) * n * n == k as real
  {
    var a, n := LoneJump(k), (k + 1) as real;
    LoneJumpTotal(k);
    var m, v := Mean(a), Variance(a);
    var low, ss := LoneJumpSquares(k, m);
    assert m == 1.0 / n && v == ss / n;
    hide Dot, Deviations, Mean, Variance;
    LoneJumpVariance(k as real, n, m, Square(1.0 - m), low, ss, v);
  }

  lemma LoneJumpVariance(k: real, n: real, m: real, top: real, low: real, ss: real, v: real)
    requires n == k + 1.0 && n >= 1.0 && m == 1.0 / n && v == ss / n
    requires top == Square(1.0 - m) && low == k * Square(0.0 - m) && ss == top + low
    ensures m * n == 1.0 && (1.0 - m) * n == k && v * n * n == k
  {
    assert m * n == 1.0;
    assert v * n == ss;
    assert top * n == (1.0 - m) * (n - 1.0);
    assert low * n == k * m;
    assert ss * n == (1.0 - m) * k + k * m;
  }

  /** Eleven is exact: a lone jump after k equal samples exceeds three standard deviations if and only
      if the window has at least eleven samples. */
  lemma LoneJumpExceedsExactly(k: nat, sd: real)
    requires sd >= 0.0 && Square(sd) == Variance(LoneJump(k))
    ensures LoneJump(k)[k] > Mean(LoneJump(k)) + 3.0 * sd <==> |LoneJump(k)| >= 11
  {
    hide Variance, Mean;
    var a, n := LoneJump(k), (k + 1) as real;
    LoneJumpSums(k);
    var x, s := a[k] - Mean(a), sd * n;
    assert s * s == Variance(a) * n * n;
    assert x > 3.0 * sd <==> k as real > 3.0 * s by {
      if x > 3.0 * sd {
        ProductPositive(x - 3.0 * sd, n, (x - 3.0 * sd) * n);
      }
      if x < 3.0 * sd {
        ProductPositive(3.0 * sd - x, n, (3.0 * sd - x) * n);
      }
    }
    RootOfCount(k as real, s);
  }

  lemma RootOfCount(k: real, s: real)
    requires k >= 0.0 && s >= 0.0 && s * s == k
    ensures k > 3.0 * s <==> k > 9.0
  {
    if s > 3.0 {
      ProductPositive(s, s - 3.0, s * (s - 3.0));
      ProductPositive(s - 3.0, s + 3.0, (s - 3.0) * (s + 3.0));
    } else if s > 0.0 {
      assert s * (3.0 - s) >= 0.0;
      assert (3.0 - s) * (3.0 + s) >= 0.0;
    }
  }
}
