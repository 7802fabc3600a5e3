/** The edge of an estimate, documented as expected return over its standard deviation: the program
    measures a loss as if it were a gain of the same size. */
module EdgeEstimates {
  import opened RealMath
  import opened Wrappers
  import opened RiskGate

  function LossRate(e: Edge): real {
    1.0 - e.winRate
  }

  /** The variance of a return that is the win or the lost amount. */
  function TrueVariance(e: Edge): real {
    e.winRate * ((e.avgWin - e.Expected()) * (e.avgWin - e.Expected()))
    + (1.0 - e.winRate) * ((-e.avgLoss - e.Expected()) * (-e.avgLoss - e.Expected()))
  }

  /** The edge as documented. */
  function Documented(e: Edge, sqrt: real -> real): real
    requires IsSqrt(sqrt)
  {
    if e.trades < 10 || TrueVariance(e) <= 0.0 then 0.0
    else
      RootPositive(sqrt(TrueVariance(e)), TrueVariance(e));
      e.Expected() / sqrt(TrueVariance(e))
  }

  function Gap(q: real, l: real, m: real): real {
    4.0 * (q * (l * m))
  }

  /** How far the variances are apart. */
  lemma VarianceGap(e: Edge)
    ensures TrueVariance(e) == e.Variance() + Gap(LossRate(e), e.avgLoss, e.Expected())
  {
    hide Edge.Expected;
    SquaresApart(e.avgLoss, e.Expected(), 1.0 - e.winRate);
  }

  lemma SquaresApart(l: real, m: real, q: real)
    ensures q * ((-l - m) * (-l - m)) == q * ((l - m) * (l - m)) + Gap(q, l, m)
  {
    var d := l * m;
    assert (-l - m) * (-l - m) == (l - m) * (l - m) + 4.0 * d;
    assert q * ((l - m) * (l - m) + 4.0 * d) == q * ((l - m) * (l - m)) + 4.0 * (q * d);
  }

  lemma GapVanishes(q: real, l: real, m: real)
    ensures Gap(q, l, m) == 0.0 <==> q == 0.0 || l == 0.0 || m == 0.0
  {
    if q != 0.0 && l != 0.0 && m != 0.0 && q * (l * m) == 0.0 {
      SameProduct(l * m, 0.0, q);
      SameProduct(m, 0.0, l);
    }
  }

  /** The same numerator over two roots is the same only with equal roots or a numerator of zero. */
  lemma RatiosDiffer(m: real, r: real, s: real)
    requires r > 0.0 && s > 0.0 && m != 0.0 && r != s
    ensures m / r != m / s
  {
    var a, b := m / r, m / s;
    assert a * r == m && b * s == m;
    assert a * (r - s) == m - a * s;
  }

  lemma RatioNonzero(m: real, r: real)
    requires r > 0.0
    ensures m / r == 0.0 <==> m == 0.0
  {
    var a := m / r;
    assert a * r == m;
  }

  /** The computed edge is the documented one exactly when there are too few trades, or no losses to
      misjudge, or nothing to expect, or neither variance is positive. */
  lemma EdgeAgreesExactly(e: Edge, sqrt: real -> real)
    requires IsSqrt(sqrt)
    ensures e.Value(sqrt) == Documented(e, sqrt) <==>
            || e.trades < 10 || LossRate(e) == 0.0 || e.avgLoss == 0.0 || e.Expected() == 0.0
            || (e.Variance() <= 0.0 && TrueVariance(e) <= 0.0)
  {
    hide Edge.Expected, Edge.Variance, TrueVariance, Gap, LossRate;
    var m, v, t := e.Expected(), e.Variance(), TrueVariance(e);
    VarianceGap(e);
    GapVanishes(LossRate(e), e.avgLoss, m);
    if e.trades >= 10 && v != t {
      if v > 0.0 && t > 0.0 {
        RootPositive(sqrt(v), v);
        RootPositive(sqrt(t), t);
        if m != 0.0 {
          RatiosDiffer(m, sqrt(v), sqrt(t));
        }
      } else if v > 0.0 {
        RootPositive(sqrt(v), v);
        RatioNonzero(m, sqrt(v));
      } else if t > 0.0 {
        RootPositive(sqrt(t), t);
        RatioNonzero(m, sqrt(t));
      }
    }
  }

  /** With losses on record and a profit to expect, the computed edge is above the documented one. */
  lemma ProfitOverstated(e: Edge, sqrt: real -> real)
    requires IsSqrt(sqrt) && e.trades >= 10 && 0.0 <= e.winRate < 1.0 && e.avgLoss > 0.0
    requires e.Expected() > 0.0 && e.Variance() > 0.0
    ensures e.Value(sqrt) > Documented(e, sqrt) > 0.0
  {
    hide Edge.Expected, Edge.Variance, TrueVariance;
    var m, v, t := e.Expected(), e.Variance(), TrueVariance(e);
    VarianceGap(e);
    ProductPositive(e.avgLoss, m, e.avgLoss * m);
    ProductPositive(1.0 - e.winRate, e.avgLoss * m, (1.0 - e.winRate) * (e.avgLoss * m));
    RootPositive(sqrt(v), v);
    RootPositive(sqrt(t), t);
    SmallerRoot(sqrt(v), sqrt(t), v, t);
    LargerRatio(m, sqrt(v), sqrt(t));
  }

  lemma SmallerRoot(r: real, s: real, v: real, t: real)
    requires r >= 0.0 && s >= 0.0 && r * r == v && s * s == t && v < t
    ensures r < s
  {
    if r >= s {
      MulMono(s, r, s);
      MulMono(s, r, r);
    }
  }

  lemma LargerRatio(m: real, r: real, s: real)
    requires m > 0.0 && 0.0 < r < s
    ensures m / r > m / s > 0.0
  {
    var a, b := m / r, m / s;
    assert a * r == m && b * s == m;
    PositiveQuotient(m, r);
    PositiveQuotient(m, s);
    if a <= b {
      MulMono(a, b, r);
      MulStrict(r, s, b);
    }
  }

  // ----- an edge that only the computation sees -----

  const SLIM := Edge(0.5, 1.0201, 1.0, 100)

  lemma SlimFigures()
    ensures SLIM.Expected() == 0.01005
    ensures 0.0 < SLIM.Variance() <= 1.005 * 1.005 && TrueVariance(SLIM) == 1.01005 * 1.01005
  {
  }

  lemma RatioAtLeast(m: real, r: real, v: real, bound: real, least: real)
    requires r > 0.0 && r * r == v <= bound * bound && bound >= 0.0 && m == least * bound && least > 0.0
    ensures m / r >= least
  {
    SquareOrderUpper(bound, r);
    var a := m / r;
    assert a * r == m;
    MulMono(r, bound, least);
    if a < least {
      MulStrict(a, least, r);
    }
  }

  /** The edge of an estimate passes the default threshold, so the gate caps the size by it, although
      the documented edge does not reach the threshold. */
  method SlimEdgePasses(sqrt: real -> real) returns (cap: Option<real>)
    requires IsSqrt(sqrt)
    ensures cap == KellyLimit(DEFAULTS, EnterLong, Some(SLIM), sqrt)
    ensures cap.Some? && SLIM.Value(sqrt) >= DEFAULTS.minEdge > Documented(SLIM, sqrt)
  {
    hide Edge.Variance, TrueVariance, Edge.Expected, Edge.Kelly;
    SlimFigures();
    SlimPasses(sqrt);
    SlimFails(sqrt);
    KellyPositiveExactly(SLIM);
    cap := KellyCap(DEFAULTS, EnterLong, Some(SLIM), sqrt);
  }

  lemma SlimPasses(sqrt: real -> real)
    requires IsSqrt(sqrt)
    ensures SLIM.Value(sqrt) >= 0.01
  {
    hide Edge.Variance, Edge.Expected;
    SlimFigures();
    var v := SLIM.Variance();
    RootPositive(sqrt(v), v);
    RatioAtLeast(0.01005, sqrt(v), v, 1.005, 0.01);
  }

  lemma SlimFails(sqrt: real -> real)
    requires IsSqrt(sqrt)
    ensures Documented(SLIM, sqrt) < 0.01
  {
    hide TrueVariance, Edge.Expected;
    SlimFigures();
    RootIs(sqrt, 1.01005 * 1.01005, 1.01005);
    assert 0.01005 / 1.01005 < 0.01;
  }
}
