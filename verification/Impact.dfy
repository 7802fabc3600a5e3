/** Square-root market impact: a per-symbol calibrator fed with fills, and the synthetic book
    that produces fills under a known law. */
module Impact {
  import opened RealMath
  import opened Wrappers
  import opened Correlations
  import opened LeastSquares

  datatype Fill = Fill(quantity: real, adv: real, volatility: real, slippage: real, halfSpread: real) {
    predicate Valid() {
      quantity > 0.0 && adv > 0.0 && volatility >= 0.0 && slippage >= 0.0 && halfSpread >= 0.0
    }

    function Participation(): (p: real)
      requires Valid()
      ensures p >= 0.0
    {
      QuotientBounds(quantity, adv, 0.0, quantity / adv);
      quantity / adv
    }
  }

  /** Impact in basis points at a participation ratio. */
  function ImpactAt(eta: real, volatility: real, halfSpread: real, participation: real, sqrt: real -> real): real {
    halfSpread + eta * volatility * sqrt(participation)
  }

  datatype Calibration = Calibration(symbol: string, eta: real, rSquared: real, observations: nat)

  ghost predicate AllValid(fills: seq<Fill>) {
    forall i :: 0 <= i < |fills| ==> fills[i].Valid()
  }

  function Term(f: Fill, sqrt: real -> real): real
    requires f.Valid()
  {
    f.volatility * sqrt(f.Participation())
  }

  function ExcessOf(f: Fill): real {
    f.slippage - f.halfSpread
  }

  /** The explanatory terms, volatility * sqrt(participation). */
  ghost function Terms(fills: seq<Fill>, sqrt: real -> real): (x: seq<real>)
    requires AllValid(fills)
    ensures |x| == |fills|
    ensures forall i :: 0 <= i < |x| ==> x[i] == Term(fills[i], sqrt)
  {
    seq(|fills|, i requires 0 <= i < |fills| => Term(fills[i], sqrt))
  }

  /** The slippage beyond the half-spread. */
  ghost function Excess(fills: seq<Fill>): (y: seq<real>)
    ensures |y| == |fills|
    ensures forall i :: 0 <= i < |y| ==> y[i] == ExcessOf(fills[i])
  {
    seq(|fills|, i requires 0 <= i < |fills| => ExcessOf(fills[i]))
  }

  /** What a calibration over these fills is: the regression slope, judged by the law. */
  ghost predicate IsCalibration(symbol: string, fills: seq<Fill>, sqrt: real -> real, c: Calibration)
    requires AllValid(fills) && |fills| > 0
  {
    var x, y := Terms(fills, sqrt), Excess(fills);
    && c.symbol == symbol && c.observations == |fills|
    && !IsConstant(x) && IsSlope(x, y, c.eta) && c.rSquared == RSquared(x, y, c.eta)
  }

  /** Fills determine their calibration. */
  lemma CalibrationUnique(symbol: string, fills: seq<Fill>, sqrt: real -> real, a: Calibration, b: Calibration)
    requires AllValid(fills) && |fills| > 0
    requires IsCalibration(symbol, fills, sqrt, a) && IsCalibration(symbol, fills, sqrt, b)
    ensures a == b
  {
    hide Scatter, SquaredError;
    var x := Terms(fills, sqrt);
    ScatterSign(x);
    SameProduct(a.eta, b.eta, Scatter(x, x));
  }

  class SquareRootImpactCalibrator {
    const minObservations: nat
    var observations: map<string, seq<Fill>>

    ghost predicate Valid()
      reads this
    {
      minObservations >= 1 && forall s :: s in observations ==> AllValid(observations[s])
    }

    function FillsOf(symbol: string): seq<Fill>
      reads this
    {
      if symbol in observations then observations[symbol] else []
    }

    constructor (min: nat)
      requires min >= 1
      ensures Valid() && minObservations == min && observations == map[]
    {
      minObservations := min;
      observations := map[];
    }

    method Observe(symbol: string, fill: Fill)
      requires Valid() && fill.Valid()
      modifies this
      ensures Valid()
      ensures FillsOf(symbol) == old(FillsOf(symbol)) + [fill]
      ensures forall s :: s != symbol ==> FillsOf(s) == old(FillsOf(s))
    {
      observations := observations[symbol := FillsOf(symbol) + [fill]];
    }

    method Calibrate(symbol: string, sqrt: real -> real) returns (r: Option<Calibration>)
      requires Valid()
      ensures r.None? <==>
              |FillsOf(symbol)| < minObservations || IsConstant(Terms(FillsOf(symbol), sqrt))
      ensures r.Some? ==> IsCalibration(symbol, FillsOf(symbol), sqrt, r.value)
    {
      hide Mean, RSquared, SquaredError, Scatter, Term, ExcessOf;
      var fills := FillsOf(symbol);
      if |fills| < minObservations {
        return None;
      }
      var xs, ys := [], [];
      for i := 0 to |fills|
        invariant |xs| == |ys| == i
        invariant forall j :: 0 <= j < i ==> xs[j] == Terms(fills, sqrt)[j] && ys[j] == Excess(fills)[j]
      {
        xs := xs + [Term(fills[i], sqrt)];
        ys := ys + [ExcessOf(fills[i])];
      }
      assert xs == Terms(fills, sqrt) && ys == Excess(fills);
      var n := |fills| as real;
      var varX := Scatter(xs, xs) / n;
      MeanVanishes(Scatter(xs, xs), n);
      ScatterSign(xs);
      if varX == 0.0 {
        return None;
      }
      var eta := (Scatter(xs, ys) / n) / varX;
      RatioOfMeans(Scatter(xs, ys), Scatter(xs, xs), n, eta);
      var rSquared := Quality(xs, ys, eta, n);
      r := Some(Calibration(symbol, eta, rSquared, |fills|));
    }

    /** Expected impact of a prospective order. */
    method EstimateImpact(symbol: string, quantity: real, adv: real, volatility: real, halfSpread: real,
                          sqrt: real -> real)
      returns (r: Result<Option<real>, ()>)
      requires Valid()
      ensures r.Err? <==> quantity <= 0.0 || adv <= 0.0
      ensures r.Ok? ==>
                (r.value.None? <==>
                 |FillsOf(symbol)| < minObservations || IsConstant(Terms(FillsOf(symbol), sqrt)))
      ensures r.Ok? && r.value.Some? ==>
                exists c :: IsCalibration(symbol, FillsOf(symbol), sqrt, c) &&
                  r.value.value == Max(0.0, ImpactAt(c.eta, volatility, halfSpread, quantity / adv, sqrt))
    {
      if quantity <= 0.0 || adv <= 0.0 {
        return Err(());
      }
      hide IsCalibration;
      var calib := Calibrate(symbol, sqrt);
      if calib.None? {
        return Ok(None);
      }
      var impact := ImpactAt(calib.value.eta, volatility, halfSpread, quantity / adv, sqrt);
      return Ok(Some(Max(0.0, impact)));
    }
  }

  /** The share of the variance the fit explains, from the mean squares. */
  method Quality(xs: seq<real>, ys: seq<real>, eta: real, n: real) returns (r: real)
    requires |xs| == |ys| > 0 && n == |xs| as real
    ensures r == RSquared(xs, ys, eta)
  {
    hide SquaredError, Scatter;
    var varY := Scatter(ys, ys) / n;
    MeanVanishes(Scatter(ys, ys), n);
    if varY == 0.0 {
      return 1.0;
    }
    var ssRes := SquaredError(xs, ys, eta) / n;
    RatioOfMeans(SquaredError(xs, ys, eta), Scatter(ys, ys), n, ssRes / varY);
    DivUnique(SquaredError(xs, ys, eta), Scatter(ys, ys), ssRes / varY);
    r := Max(0.0, Min(1.0 - ssRes / varY, 1.0));
  }

  lemma MeanVanishes(s: real, n: real)
    requires n > 0.0
    ensures s / n == 0.0 <==> s == 0.0
  {
    var q := s / n;
    assert q * n == s;
  }

  lemma RatioOfMeans(a: real, b: real, n: real, q: real)
    requires n > 0.0 && b / n != 0.0 && q == (a / n) / (b / n)
    ensures q * b == a
  {
    var u, v := a / n, b / n;
    assert u * n == a && v * n == b;
    assert q * v == u;
    assert q * (v * n) == (q * v) * n;
  }

  // ----- the synthetic book -----

  datatype Book = Book(adv: real, volatility: real, halfSpread: real, eta: real) {
    predicate Valid() {
      adv > 0.0 && volatility >= 0.0 && halfSpread >= 0.0 && eta >= 0.0
    }

    /** The realised slippage of one fill, without noise. */
    function Slippage(quantity: real, sqrt: real -> real): real
      requires adv > 0.0
    {
      Max(0.0, ImpactAt(eta, volatility, halfSpread, quantity / adv, sqrt))
    }

    function Executed(quantity: real, sqrt: real -> real): Fill
      requires adv > 0.0
    {
      Fill(quantity, adv, volatility, Slippage(quantity, sqrt), halfSpread)
    }

    ghost predicate Produced(fills: seq<Fill>, sqrt: real -> real)
      requires adv > 0.0
    {
      forall i :: 0 <= i < |fills| ==> fills[i] == Executed(fills[i].quantity, sqrt)
    }
  }

  lemma SqrtStrict(sqrt: real -> real, a: real, b: real)
    requires IsSqrt(sqrt) && 0.0 <= a < b
    ensures sqrt(a) < sqrt(b)
  {
    if sqrt(a) >= sqrt(b) {
      SquareMono(sqrt(b), sqrt(a));
    }
  }

  lemma QuotientStrict(a: real, b: real, n: real)
    requires n > 0.0
    ensures a / n < b / n <==> a < b
  {
    var p, q := a / n, b / n;
    assert p * n == a && q * n == b;
    if p < q {
      MulStrict(p, q, n);
    } else {
      MulMono(q, p, n);
    }
  }

  /** Without noise the slippage beyond the half-spread is the book's law. */
  lemma BookFollowsLaw(b: Book, quantity: real, sqrt: real -> real)
    requires b.Valid() && quantity > 0.0 && IsSqrt(sqrt)
    ensures b.Executed(quantity, sqrt).Valid()
    ensures var f := b.Executed(quantity, sqrt);
            f.quantity == quantity && f.slippage == b.Slippage(quantity, sqrt) && f.Participation() == quantity / b.adv
    ensures b.Slippage(quantity, sqrt) == ImpactAt(b.eta, b.volatility, b.halfSpread, quantity / b.adv, sqrt)
    ensures b.Slippage(quantity, sqrt) - b.halfSpread == b.eta * (b.volatility * sqrt(quantity / b.adv))
  {
    QuotientBounds(quantity, b.adv, 0.0, quantity / b.adv);
    var root := sqrt(quantity / b.adv);
    ProductNonneg(b.volatility, root, b.volatility * root);
    ProductNonneg(b.eta, b.volatility * root, b.eta * (b.volatility * root));
    MulAssoc(b.eta, b.volatility, root);
  }

  lemma ExcessFollowsLaw(b: Book, f: Fill, sqrt: real -> real)
    requires b.Valid() && f.Valid() && IsSqrt(sqrt) && f == b.Executed(f.quantity, sqrt)
    ensures f.slippage - f.halfSpread == b.eta * (f.volatility * sqrt(f.Participation()))
  {
    hide Book.Slippage, IsSqrt, ImpactAt;
    BookFollowsLaw(b, f.quantity, sqrt);
  }

  /** Fills of one book differ in the explanatory term exactly when they differ in size and the
      book moves at all. */
  lemma TermsVaryExactly(b: Book, fills: seq<Fill>, sqrt: real -> real)
    requires b.Valid() && IsSqrt(sqrt) && AllValid(fills) && b.Produced(fills, sqrt)
    ensures IsConstant(Terms(fills, sqrt)) <==>
            b.volatility == 0.0 || forall i :: 0 <= i < |fills| ==> fills[i].quantity == fills[0].quantity
  {
    hide Book.Executed;
    var x := Terms(fills, sqrt);
    forall i | 0 <= i < |fills|
      ensures x[i] == x[0] <==> b.volatility == 0.0 || fills[i].quantity == fills[0].quantity
    {
      TermVaries(b, fills[i], fills[0], sqrt, x[i], x[0]);
    }
  }

  lemma TermVaries(b: Book, f: Fill, g: Fill, sqrt: real -> real, s: real, t: real)
    requires b.Valid() && IsSqrt(sqrt) && f.Valid() && g.Valid()
    requires f == b.Executed(f.quantity, sqrt) && g == b.Executed(g.quantity, sqrt)
    requires s == f.volatility * sqrt(f.Participation()) && t == g.volatility * sqrt(g.Participation())
    ensures s == t <==> b.volatility == 0.0 || f.quantity == g.quantity
  {
    hide Book.Slippage, IsSqrt;
    var p, q := f.Participation(), g.Participation();
    QuotientStrict(f.quantity, g.quantity, b.adv);
    QuotientStrict(g.quantity, f.quantity, b.adv);
    TermOrder(b.volatility, sqrt, p, q, s, t);
    TermOrder(b.volatility, sqrt, q, p, t, s);
  }

  lemma TermOrder(volatility: real, sqrt: real -> real, p: real, q: real, s: real, t: real)
    requires IsSqrt(sqrt) && volatility >= 0.0 && p >= 0.0 && q >= 0.0
    requires s == volatility * sqrt(p) && t == volatility * sqrt(q)
    ensures volatility == 0.0 ==> s == t
    ensures volatility > 0.0 && p < q ==> s < t
    ensures p == q ==> s == t
  {
    if volatility > 0.0 && p < q {
      SqrtStrict(sqrt, p, q);
      MulStrict(sqrt(p), sqrt(q), volatility);
    }
  }

  lemma NoiselessIsExact(b: Book, fills: seq<Fill>, sqrt: real -> real)
    requires b.Valid() && IsSqrt(sqrt) && AllValid(fills) && b.Produced(fills, sqrt)
    ensures ExactLaw(Terms(fills, sqrt), Excess(fills), b.eta)
  {
    hide Book.Executed;
    var x, y := Terms(fills, sqrt), Excess(fills);
    forall i | 0 <= i < |x| ensures y[i] == b.eta * x[i] {
      ExcessFollowsLaw(b, fills[i], sqrt);
    }
  }

  /** A calibration over noise-free fills is the book's own coefficient, with a perfect score. */
  lemma CalibrationRecoversLaw(b: Book, fills: seq<Fill>, sqrt: real -> real, symbol: string, c: Calibration)
    requires b.Valid() && IsSqrt(sqrt) && AllValid(fills) && |fills| > 0 && b.Produced(fills, sqrt)
    requires IsCalibration(symbol, fills, sqrt, c)
    ensures c.eta == b.eta && c.rSquared == 1.0
  {
    hide RSquared, IsSlope, Book.Executed, ExactLaw, Term, ExcessOf, IsConstant;
    NoiselessIsExact(b, fills, sqrt);
    ExactDataSlope(Terms(fills, sqrt), Excess(fills), b.eta, c.eta);
  }

  /** Two fills of a book are enough for the calibrator to report its coefficient, with a perfect score,
      exactly when they differ in size and the book moves. */
  method TwoFillsRecover(b: Book, first: real, second: real, symbol: string, sqrt: real -> real)
    returns (r: Option<Calibration>)
    requires b.Valid() && first > 0.0 && second > 0.0 && IsSqrt(sqrt)
    ensures r.Some? <==> b.volatility > 0.0 && first != second
    ensures r.Some? ==>
              && IsCalibration(symbol, [b.Executed(first, sqrt), b.Executed(second, sqrt)], sqrt, r.value)
              && r.value.eta == b.eta && r.value.rSquared == 1.0
  {
    hide Terms, Excess, IsConstant, IsCalibration, Book.Slippage;
    BookFollowsLaw(b, first, sqrt);
    BookFollowsLaw(b, second, sqrt);
    var calibrator := new SquareRootImpactCalibrator(2);
    calibrator.Observe(symbol, b.Executed(first, sqrt));
    calibrator.Observe(symbol, b.Executed(second, sqrt));
    ghost var fills := [b.Executed(first, sqrt), b.Executed(second, sqrt)];
    assert calibrator.FillsOf(symbol) == fills;
    TermsVaryExactly(b, fills, sqrt);
    assert fills[1].quantity == second && fills[0].quantity == first;
    r := calibrator.Calibrate(symbol, sqrt);
    if r.Some? {
      CalibrationRecoversLaw(b, fills, sqrt, symbol, r.value);
    }
  }

  const BOOK := Book(10.0, 1.0, 2.0, 3.0)

  /** So do fills of one and four units in a book of coefficient three. */
  method BookRecovered(symbol: string, sqrt: real -> real) returns (r: Option<Calibration>)
    requires IsSqrt(sqrt)
    ensures BOOK.Valid() && r.Some? && r.value.eta == 3.0 && r.value.rSquared == 1.0
    ensures IsCalibration(symbol, [BOOK.Executed(1.0, sqrt), BOOK.Executed(4.0, sqrt)], sqrt, r.value)
  {
    r := TwoFillsRecover(BOOK, 1.0, 4.0, symbol, sqrt);
  }

  /** The coefficient is fitted with an intercept but documented and used without one: it is
      the best coefficient of the law exactly when the mean excess is to the mean term as the
      fills' joint scatter is to the scatter of the terms, so that the line through the fills
      passes through the origin. */
  lemma BestCoefficientExactly(fills: seq<Fill>, sqrt: real -> real, symbol: string, c: Calibration)
    requires AllValid(fills) && |fills| > 0 && IsSqrt(sqrt) && IsCalibration(symbol, fills, sqrt, c)
    ensures var x, y := Terms(fills, sqrt), Excess(fills);
            (forall t :: SquaredError(x, y, c.eta) <= SquaredError(x, y, t))
            <==> Mean(y) * Scatter(x, x) == Mean(x) * Scatter(x, y)
  {
    hide SquaredError, RSquared, Scatter, Mean;
    var x, y := Terms(fills, sqrt), Excess(fills);
    forall i | 0 <= i < |x| ensures x[i] >= 0.0 {
      ProductNonneg(fills[i].volatility, sqrt(fills[i].Participation()), x[i]);
    }
    PositiveMean(x);
    BestForLawExactly(x, y, c.eta);
    ScatterSign(x);
    ThroughOrigin(Mean(x), Mean(y), Scatter(x, x), Scatter(x, y), c.eta);
  }

  lemma ThroughOrigin(mx: real, my: real, vx: real, cov: real, eta: real)
    requires vx != 0.0 && eta * vx == cov
    ensures my - eta * mx == 0.0 <==> my * vx == mx * cov
  {
    var o := my - eta * mx;
    assert mx * cov == (eta * mx) * vx;
    assert my * vx - mx * cov == o * vx;
    if o * vx == 0.0 {
      SameProduct(o, 0.0, vx);
    }
  }

  const SMALL := Fill(1.0, 1.0, 1.0, 2.0, 0.0)
  const LARGE := Fill(4.0, 1.0, 1.0, 3.0, 0.0)

  lemma TwoTerms(sqrt: real -> real)
    requires IsSqrt(sqrt)
    ensures AllValid([SMALL, LARGE])
    ensures Terms([SMALL, LARGE], sqrt) == [1.0, 2.0] && Excess([SMALL, LARGE]) == [2.0, 3.0]
  {
    assert SMALL.Participation() == 1.0 && LARGE.Participation() == 4.0;
    RootIs(sqrt, 1.0, 1.0);
    RootIs(sqrt, 4.0, 2.0);
  }

  lemma TwoScatters()
    ensures Scatter([1.0, 2.0], [1.0, 2.0]) == 0.5 && Scatter([1.0, 2.0], [2.0, 3.0]) == 0.5
  {
    hide Dot;
    SumPair(1.0, 2.0);
    SumPair(2.0, 3.0);
    assert Deviations([1.0, 2.0]) == [-0.5, 0.5] && Deviations([2.0, 3.0]) == [-0.5, 0.5];
    DotPair(-0.5, 0.5, -0.5, 0.5);
  }

  lemma TwoErrors()
    ensures SquaredError([1.0, 2.0], [2.0, 3.0], 1.0) == 2.0 && SquaredError([1.0, 2.0], [2.0, 3.0], 1.6) == 0.2
  {
    hide Dot;
    assert Unexplained([1.0, 2.0], [2.0, 3.0], 1.0) == [1.0, 1.0];
    assert Unexplained([1.0, 2.0], [2.0, 3.0], 1.6) == [0.4, -0.2];
    DotPair(1.0, 1.0, 1.0, 1.0);
    DotPair(0.4, -0.2, 0.4, -0.2);
  }

  /** Two fills of one symbol that slip 2 and 3 basis points at terms 1 and 2: the calibrator
      reports coefficient 1, ten times as far from the fills as the law with coefficient 1.6. */
  method FitMissesLaw(symbol: string, sqrt: real -> real) returns (c: Calibration)
    requires IsSqrt(sqrt)
    ensures AllValid([SMALL, LARGE]) && IsCalibration(symbol, [SMALL, LARGE], sqrt, c)
    ensures c.eta == 1.0
    ensures var x, y := Terms([SMALL, LARGE], sqrt), Excess([SMALL, LARGE]);
            SquaredError(x, y, c.eta) == 2.0 && SquaredError(x, y, 1.6) == 0.2
  {
    hide SquaredError, RSquared, Scatter, Terms, Excess;
    var calibrator := new SquareRootImpactCalibrator(2);
    calibrator.Observe(symbol, SMALL);
    calibrator.Observe(symbol, LARGE);
    TwoTerms(sqrt);
    TwoScatters();
    TwoErrors();
    assert calibrator.FillsOf(symbol) == [SMALL, LARGE] && [1.0, 2.0][1] != [1.0, 2.0][0];
    var r := calibrator.Calibrate(symbol, sqrt);
    c := r.value;
  }

  lemma PositiveMean(x: seq<real>)
    requires |x| > 0 && !IsConstant(x) && forall i :: 0 <= i < |x| ==> x[i] >= 0.0
    ensures Mean(x) != 0.0
  {
    if Mean(x) == 0.0 {
      var n := |x| as real;
      assert Mean(x) * n == Sum(x);
      ZeroSum(x);
    }
  }

  lemma {:induction false} ZeroSum(x: seq<real>)
    requires Sum(x) == 0.0 && forall i :: 0 <= i < |x| ==> x[i] >= 0.0
    ensures forall i :: 0 <= i < |x| ==> x[i] == 0.0
  {
    if |x| > 0 {
      SumNonneg(x[..|x| - 1]);
      ZeroSum(x[..|x| - 1]);
      assert forall i :: 0 <= i < |x| - 1 ==> x[i] == x[..|x| - 1][i];
    }
  }

  /** A flat response scores a perfect fit although the law it is reported for explains nothing:
      fills that all slip one basis point at different sizes give eta 0 with quality 1. */
  lemma FlatResponseScoresPerfect(fills: seq<Fill>, sqrt: real -> real, symbol: string, c: Calibration)
    requires AllValid(fills) && |fills| > 0 && IsCalibration(symbol, fills, sqrt, c) && IsConstant(Excess(fills))
    ensures c.eta == 0.0 && c.rSquared == 1.0
  {
    hide SquaredError, Scatter;
    var x, y := Terms(fills, sqrt), Excess(fills);
    ScatterSign(x);
    ScatterSign(y);
    FlatScatter(x, y);
    SameProduct(c.eta, 0.0, Scatter(x, x));
  }

  lemma FlatScatter(x: seq<real>, y: seq<real>)
    requires |x| == |y| > 0 && Scatter(y, y) == 0.0
    ensures Scatter(x, y) == 0.0
  {
    var dx, dy := Deviations(x), Deviations(y);
    CauchySchwarz(dx, dy);
    SquareSign(Dot(dx, dy), Dot(dx, dy) * Dot(dx, dy));
  }
}
