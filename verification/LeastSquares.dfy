/** The algebra of fitting y = eta * x + intercept, and of judging the slope by the law
    y = eta * x without the intercept. */
module LeastSquares {
  import opened RealMath
  import opened Correlations

  /** What the law y = t * x leaves unexplained. */
  function Unexplained(x: seq<real>, y: seq<real>, t: real): (r: seq<real>)
    requires |x| == |y|
    ensures |r| == |x| && forall i :: 0 <= i < |x| ==> r[i] == y[i] - t * x[i]
  {
    seq(|x|, i requires 0 <= i < |x| => y[i] - t * x[i])
  }

  function SquaredError(x: seq<real>, y: seq<real>, t: real): (r: real)
    requires |x| == |y|
    ensures r >= 0.0
  {
    DotZero(Unexplained(x, y, t));
    Dot(Unexplained(x, y, t), Unexplained(x, y, t))
  }

  /** The squared error as a quadratic in the slope. */
  function Parabola(yy: real, xy: real, xx: real, t: real): real {
    yy - 2.0 * (t * xy) + t * t * xx
  }

  lemma UnexplainedPrefix(x: seq<real>, y: seq<real>, t: real)
    requires |x| == |y| > 0
    ensures Unexplained(x, y, t)[..|x| - 1] == Unexplained(x[..|x| - 1], y[..|x| - 1], t)
  {
    var n := |x| - 1;
    var a, b := Unexplained(x, y, t)[..n], Unexplained(x[..n], y[..n], t);
    forall i | 0 <= i < n ensures a[i] == b[i] {
    }
  }

  function Miss(a: real, b: real, t: real): real {
    b - t * a
  }

  lemma ErrorStep(x: seq<real>, y: seq<real>, t: real, e: real)
    requires |x| == |y| > 0 && e == Miss(x[|x| - 1], y[|x| - 1], t)
    ensures var n := |x| - 1;
            SquaredError(x, y, t) == SquaredError(x[..n], y[..n], t) + e * e
  {
    var u := Unexplained(x, y, t);
    UnexplainedPrefix(x, y, t);
    DotLast(u, u);
  }

  lemma ParabolaStep(yy: real, xy: real, xx: real, t: real, a: real, b: real, e: real, yy': real, xy': real, xx': real)
    requires e == Miss(a, b, t) && yy' == yy + b * b && xy' == xy + a * b && xx' == xx + a * a
    ensures Parabola(yy', xy', xx', t) == Parabola(yy, xy, xx, t) + e * e
  {
    var p := t * a;
    assert e * e == b * b - 2.0 * (b * p) + p * p;
    assert b * p == t * (a * b) && p * p == t * t * (a * a);
  }

  /** The squared error of the law, from the sums of products alone. */
  function Quadratic(x: seq<real>, y: seq<real>, t: real): real
    requires |x| == |y|
  {
    Parabola(Dot(y, y), Dot(x, y), Dot(x, x), t)
  }

  lemma QuadraticStep(x: seq<real>, y: seq<real>, t: real, e: real)
    requires |x| == |y| > 0 && e == Miss(x[|x| - 1], y[|x| - 1], t)
    ensures var n := |x| - 1; Quadratic(x, y, t) == Quadratic(x[..n], y[..n], t) + e * e
  {
    hide Parabola, Miss;
    var n := |x| - 1;
    ParabolaStep(Dot(y[..n], y[..n]), Dot(x[..n], y[..n]), Dot(x[..n], x[..n]), t, x[n], y[n], e,
                 Dot(y, y), Dot(x, y), Dot(x, x));
  }

  lemma NoError(x: seq<real>, y: seq<real>, t: real)
    requires |x| == |y| == 0
    ensures SquaredError(x, y, t) == Quadratic(x, y, t)
  {
  }

  lemma {:induction false} ErrorIsParabola(x: seq<real>, y: seq<real>, t: real)
    requires |x| == |y|
    ensures SquaredError(x, y, t) == Quadratic(x, y, t)
  {
    hide SquaredError, Quadratic, Miss;
    if |x| == 0 {
      NoError(x, y, t);
    } else {
      var n := |x| - 1;
      var e := Miss(x[n], y[n], t);
      ErrorIsParabola(x[..n], y[..n], t);
      ErrorStep(x, y, t, e);
      QuadraticStep(x, y, t, e);
    }
  }

  /** The parabola above its lowest point. */
  lemma Vertex(yy: real, xy: real, xx: real, v: real, t: real)
    requires v * xx == xy
    ensures Parabola(yy, xy, xx, t) == Parabola(yy, xy, xx, v) + (t - v) * (t - v) * xx
  {
    assert (t - v) * (t - v) * xx == t * t * xx - 2.0 * (t * (v * xx)) + v * (v * xx);
    assert v * v * xx == v * (v * xx);
  }

  /** A slope is the lowest point exactly when it solves the normal equation. */
  lemma LowestExactly(yy: real, xy: real, xx: real, v: real)
    requires xx > 0.0
    ensures (forall t :: Parabola(yy, xy, xx, v) <= Parabola(yy, xy, xx, t)) <==> v * xx == xy
  {
    hide Parabola;
    var u := xy / xx;
    assert u * xx == xy;
    if v * xx == xy {
      forall t ensures Parabola(yy, xy, xx, v) <= Parabola(yy, xy, xx, t) {
        Vertex(yy, xy, xx, v, t);
        ProductNonneg(Square(t - v), xx, (t - v) * (t - v) * xx);
      }
    } else {
      Vertex(yy, xy, xx, u, v);
      ProductPositive(Square(v - u), xx, (v - u) * (v - u) * xx);
    }
  }

  // ----- centring -----

  /** The sum of shifted products, from the sums of the unshifted terms. */
  function Shifted(n: real, sx: real, sy: real, xy: real, a: real, b: real): real {
    xy - a * sy - b * sx + n * (a * b)
  }

  function Centred(x: real, a: real, y: real, b: real): real {
    (x - a) * (y - b)
  }

  function Times(x: real, y: real): real {
    x * y
  }

  lemma ShiftStep(n: real, sx: real, sy: real, xy: real, a: real, b: real, x: real, y: real)
    ensures Shifted(n, sx, sy, xy, a, b) + Centred(x, a, y, b)
            == Shifted(n + 1.0, sx + x, sy + y, xy + Times(x, y), a, b)
  {
  }

  lemma NoShift(a: real, b: real)
    ensures Shifted(0.0, 0.0, 0.0, 0.0, a, b) == 0.0
  {
  }

  lemma ShiftPrefix(x: seq<real>, a: real)
    requires |x| > 0
    ensures Shift(x, a)[..|x| - 1] == Shift(x[..|x| - 1], a)
  {
  }

  lemma ShiftLast(x: seq<real>, y: seq<real>, a: real, b: real)
    requires |x| == |y| > 0
    ensures var n := |x| - 1;
            Dot(Shift(x, a), Shift(y, b)) == Dot(Shift(x[..n], a), Shift(y[..n], b)) + Centred(x[n], a, y[n], b)
  {
    hide Dot;
    ShiftPrefix(x, a);
    ShiftPrefix(y, b);
    DotLast(Shift(x, a), Shift(y, b));
  }

  lemma DotLastTimes(x: seq<real>, y: seq<real>)
    requires |x| == |y| > 0
    ensures var n := |x| - 1; Dot(x, y) == Dot(x[..n], y[..n]) + Times(x[n], y[n])
  {
    hide Dot;
    DotLast(x, y);
  }

  lemma NoSums(x: seq<real>, y: seq<real>)
    requires |x| == |y| == 0
    ensures Dot(x, y) == Sum(x) == Sum(y) == 0.0
  {
  }

  lemma SumLast(x: seq<real>)
    requires |x| > 0
    ensures Sum(x) == Sum(x[..|x| - 1]) + x[|x| - 1]
  {
  }

  lemma {:induction false} DotShift(x: seq<real>, y: seq<real>, a: real, b: real)
    requires |x| == |y|
    ensures Dot(Shift(x, a), Shift(y, b)) == Shifted(|x| as real, Sum(x), Sum(y), Dot(x, y), a, b)
  {
    hide Shifted, Shift, Dot, Sum, Centred, Times;
    if |x| == 0 {
      NoSums(Shift(x, a), Shift(y, b));
      NoSums(x, y);
      NoShift(a, b);
    } else {
      var n := |x| - 1;
      DotShift(x[..n], y[..n], a, b);
      ShiftLast(x, y, a, b);
      ShiftStep(n as real, Sum(x[..n]), Sum(y[..n]), Dot(x[..n], y[..n]), a, b, x[n], y[n]);
      assert |x| as real == n as real + 1.0;
      DotLastTimes(x, y);
      SumLast(x);
      SumLast(y);
    }
  }

  function MeanProduct(n: real, a: real, b: real): real {
    n * (a * b)
  }

  /** Products about the means and products about zero differ by the product of the means. */
  lemma DotCentred(x: seq<real>, y: seq<real>)
    requires |x| == |y| > 0
    ensures Dot(x, y) == Scatter(x, y) + MeanProduct(|x| as real, Mean(x), Mean(y))
  {
    hide Dot, Sum;
    var n, a, b := |x| as real, Mean(x), Mean(y);
    DotShift(x, y, a, b);
    assert Sum(x) == n * a && Sum(y) == n * b;
    assert a * (n * b) == n * (a * b) == b * (n * a);
  }

  /** The error of the law is the scatter about the regression line plus what the missing
      intercept costs. */
  function Offset(x: seq<real>, y: seq<real>, t: real): real
    requires |x| == |y| > 0
  {
    Mean(y) - t * Mean(x)
  }

  lemma CentredParabola(n: real, mx: real, my: real, c: real, vx: real, vy: real, t: real)
    ensures Parabola(vy + MeanProduct(n, my, my), c + MeanProduct(n, mx, my), vx + MeanProduct(n, mx, mx), t) ==
            Parabola(vy, c, vx, t) + n * ((my - t * mx) * (my - t * mx))
  {
    assert (my - t * mx) * (my - t * mx) == my * my - 2.0 * (t * (mx * my)) + t * t * (mx * mx);
    assert n * ((my - t * mx) * (my - t * mx)) ==
           n * (my * my) - 2.0 * (t * (n * (mx * my))) + t * t * (n * (mx * mx));
  }

  lemma ErrorSplits(x: seq<real>, y: seq<real>, t: real)
    requires |x| == |y| > 0
    ensures var dx, dy := Deviations(x), Deviations(y);
            SquaredError(x, y, t) ==
            SquaredError(dx, dy, t) + |x| as real * (Offset(x, y, t) * Offset(x, y, t))
  {
    hide Dot, Parabola, SquaredError, MeanProduct, Mean, Deviations, Scatter;
    ErrorIsParabola(x, y, t);
    CentredError(x, y, t);
    DotCentred(x, y);
    DotCentred(x, x);
    DotCentred(y, y);
    CentredParabola(|x| as real, Mean(x), Mean(y), Scatter(x, y), Scatter(x, x), Scatter(y, y), t);
  }

  /** n times the covariance. */
  function Scatter(x: seq<real>, y: seq<real>): real
    requires |x| == |y| > 0
  {
    Dot(Deviations(x), Deviations(y))
  }

  lemma ScatterSign(x: seq<real>)
    requires |x| > 0
    ensures Scatter(x, x) >= 0.0
    ensures IsConstant(x) <==> Scatter(x, x) == 0.0
  {
    ConstantVariance(x);
  }

  lemma CentredError(x: seq<real>, y: seq<real>, t: real)
    requires |x| == |y| > 0
    ensures SquaredError(Deviations(x), Deviations(y), t) == Parabola(Scatter(y, y), Scatter(x, y), Scatter(x, x), t)
  {
    ErrorIsParabola(Deviations(x), Deviations(y), t);
  }

  /** The slope of the regression line with an intercept. */
  ghost predicate IsSlope(x: seq<real>, y: seq<real>, eta: real)
    requires |x| == |y| > 0
  {
    eta * Scatter(x, x) == Scatter(x, y)
  }

  /** The slope minimises the scatter about the line: no other slope does better, whatever its
      intercept. */
  lemma SlopeIsLeastSquares(x: seq<real>, y: seq<real>, eta: real)
    requires |x| == |y| > 0 && !IsConstant(x)
    ensures IsSlope(x, y, eta) <==>
            forall t :: SquaredError(Deviations(x), Deviations(y), eta) <= SquaredError(Deviations(x), Deviations(y), t)
  {
    hide Parabola, SquaredError, Deviations, Scatter;
    var dx, dy := Deviations(x), Deviations(y);
    ScatterSign(x);
    LowestExactly(Scatter(y, y), Scatter(x, y), Scatter(x, x), eta);
    forall t ensures SquaredError(dx, dy, t) == Parabola(Scatter(y, y), Scatter(x, y), Scatter(x, x), t) {
      CentredError(x, y, t);
    }
    if forall t :: SquaredError(dx, dy, eta) <= SquaredError(dx, dy, t) {
      forall t
        ensures Parabola(Scatter(y, y), Scatter(x, y), Scatter(x, x), eta) <=
                Parabola(Scatter(y, y), Scatter(x, y), Scatter(x, x), t)
      {
        assert SquaredError(dx, dy, eta) <= SquaredError(dx, dy, t);
      }
    }
  }

  /** The slope is the best coefficient of the law without an intercept exactly when the
      regression line passes through the origin. */
  lemma BestForLawExactly(x: seq<real>, y: seq<real>, eta: real)
    requires |x| == |y| > 0 && !IsConstant(x) && IsSlope(x, y, eta) && Mean(x) != 0.0
    ensures (forall t :: SquaredError(x, y, eta) <= SquaredError(x, y, t)) <==> Offset(x, y, eta) == 0.0
  {
    hide Dot, Parabola, SquaredError, Scatter, Mean;
    ScatterSign(x);
    DotCentred(x, x);
    DotCentred(x, y);
    var n, mx, my := |x| as real, Mean(x), Mean(y);
    SquareSign(mx, mx * mx);
    ProductPositive(n, mx * mx, MeanProduct(n, mx, mx));
    LowestExactly(Dot(y, y), Dot(x, y), Dot(x, x), eta);
    NormalEquations(n, mx, my, Scatter(x, x), Scatter(x, y), eta);
    forall t ensures SquaredError(x, y, t) == Parabola(Dot(y, y), Dot(x, y), Dot(x, x), t) {
      ErrorIsParabola(x, y, t);
    }
    if forall t :: SquaredError(x, y, eta) <= SquaredError(x, y, t) {
      forall t ensures Parabola(Dot(y, y), Dot(x, y), Dot(x, x), eta) <= Parabola(Dot(y, y), Dot(x, y), Dot(x, x), t) {
        assert SquaredError(x, y, eta) <= SquaredError(x, y, t);
      }
    }
  }

  lemma NormalEquations(n: real, mx: real, my: real, vx: real, c: real, eta: real)
    requires n > 0.0 && mx != 0.0 && eta * vx == c
    ensures eta * (vx + MeanProduct(n, mx, mx)) == c + MeanProduct(n, mx, my) <==> my - eta * mx == 0.0
  {
    var o := my - eta * mx;
    var k := n * mx;
    assert k != 0.0;
    assert eta * MeanProduct(n, mx, mx) == k * (eta * mx);
    assert MeanProduct(n, mx, my) == k * my;
    assert k * my - k * (eta * mx) == k * o;
    if k * o == 0.0 {
      SameProduct(o, 0.0, k);
    }
  }

  // ----- the quality of the fit -----

  /** The share of the scatter the law explains, clamped to [0, 1]; one for a flat response. */
  function RSquared(x: seq<real>, y: seq<real>, eta: real): real
    requires |x| == |y| > 0
  {
    var vy := Scatter(y, y);
    if vy == 0.0 then 1.0 else Max(0.0, Min(1.0 - SquaredError(x, y, eta) / vy, 1.0))
  }

  /** The reported quality is one exactly when the response is flat or the law holds exactly. */
  lemma PerfectFitExactly(x: seq<real>, y: seq<real>, eta: real)
    requires |x| == |y| > 0
    ensures RSquared(x, y, eta) == 1.0 <==> IsConstant(y) || (forall i :: 0 <= i < |x| ==> y[i] == eta * x[i])
    ensures 0.0 <= RSquared(x, y, eta) <= 1.0
  {
    hide Dot, Scatter;
    ScatterSign(y);
    var u := Unexplained(x, y, eta);
    DotZero(u);
    assert (forall i :: 0 <= i < |x| ==> y[i] == eta * x[i]) <==> !(exists i :: 0 <= i < |u| && u[i] != 0.0);
    var vy := Scatter(y, y);
    if vy != 0.0 {
      ClampedQuality(SquaredError(x, y, eta), vy);
    }
  }

  lemma ClampedQuality(e: real, vy: real)
    requires e >= 0.0 && vy > 0.0
    ensures var r := Max(0.0, Min(1.0 - e / vy, 1.0)); 0.0 <= r <= 1.0 && (r == 1.0 <==> e == 0.0)
  {
    var q := e / vy;
    assert q * vy == e;
    if e > 0.0 && q <= 0.0 {
      MulMono(q, 0.0, vy);
    }
  }

  /** The data obey the law without error. */
  predicate ExactLaw(x: seq<real>, y: seq<real>, law: real) {
    |x| == |y| && forall i :: 0 <= i < |x| ==> y[i] == law * x[i]
  }

  /** Over exact data the law's own coefficient is the slope. */
  lemma ExactDataSlope(x: seq<real>, y: seq<real>, law: real, eta: real)
    requires |x| == |y| > 0 && !IsConstant(x) && IsSlope(x, y, eta)
    requires ExactLaw(x, y, law)
    ensures eta == law && RSquared(x, y, eta) == 1.0
  {
    hide Dot, Deviations, RSquared;
    ScatterSign(x);
    ScaledDeviations(x, y, law);
    var dx := Deviations(x);
    DotScaleRight(dx, dx, law);
    SameProduct(eta, law, Dot(dx, dx));
    PerfectFitExactly(x, y, eta);
  }

  lemma ScaledDeviations(x: seq<real>, y: seq<real>, k: real)
    requires |x| == |y| > 0 && ExactLaw(x, y, k)
    ensures Deviations(y) == Scale(Deviations(x), k)
  {
    hide Sum;
    assert y == Scale(x, k);
    SumScale(x, k);
    var mx := Mean(x);
    MeanScales(Sum(x), |x| as real, k, Sum(y));
    var dx, dy := Deviations(x), Deviations(y);
    forall i | 0 <= i < |x| ensures dy[i] == Scale(dx, k)[i] {
      assert k * x[i] - k * mx == k * (x[i] - mx);
    }
  }

  lemma MeanScales(s: real, n: real, k: real, t: real)
    requires n > 0.0 && t == k * s
    ensures t / n == k * (s / n)
  {
    var q := s / n;
    assert q * n == s;
    assert (k * q) * n == k * (q * n);
    DivUnique(t, n, k * q);
  }

  /** The quality falls short of the squared correlation by the cost of the missing intercept:
      clamped at zero, it is the explained scatter less the squared offset, over the scatter. */
  lemma QualityDecomposes(x: seq<real>, y: seq<real>, eta: real)
    requires |x| == |y| > 0 && !IsConstant(y) && IsSlope(x, y, eta)
    ensures RSquared(x, y, eta) * Scatter(y, y) ==
            Max(0.0, eta * Scatter(x, y) - |x| as real * (Offset(x, y, eta) * Offset(x, y, eta)))
  {
    hide Dot, Parabola, SquaredError, Deviations, Mean, Offset, RSquared, Scatter;
    ScatterSign(y);
    ErrorSplits(x, y, eta);
    CentredError(x, y, eta);
    ParabolaAtSlope(Scatter(y, y), Scatter(x, y), Scatter(x, x), eta);
    ExplainedShare(x, y, eta);
  }

  lemma ParabolaAtSlope(yy: real, xy: real, xx: real, eta: real)
    requires eta * xx == xy
    ensures Parabola(yy, xy, xx, eta) == yy - eta * xy
  {
    assert eta * eta * xx == eta * (eta * xx);
  }

  lemma ExplainedShare(x: seq<real>, y: seq<real>, eta: real)
    requires |x| == |y| > 0 && Scatter(y, y) > 0.0
    ensures RSquared(x, y, eta) * Scatter(y, y) == Max(0.0, Scatter(y, y) - SquaredError(x, y, eta))
  {
    hide Scatter, SquaredError;
    ClampedShare(SquaredError(x, y, eta), Scatter(y, y), RSquared(x, y, eta));
  }

  lemma ClampedShare(e: real, vy: real, r: real)
    requires e >= 0.0 && vy > 0.0 && r == Max(0.0, Min(1.0 - e / vy, 1.0))
    ensures r * vy == Max(0.0, vy - e)
  {
    var q := e / vy;
    assert q * vy == e;
    QuotientBounds(e, vy, 0.0, q);
    if q > 1.0 {
      MulStrict(1.0, q, vy);
    } else {
      MulMono(q, 1.0, vy);
      assert (1.0 - q) * vy == vy - e;
    }
  }
}
