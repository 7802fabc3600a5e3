/** How much of a symbol's volume can be traded before impact eats the budgeted share of the
    edge: the inverse of the square-root law. */
module Capacity {
  import opened RealMath
  import opened Wrappers
  import opened Correlations
  import opened LeastSquares
  import opened Impact

  datatype CapacityError = InvalidInput | DivisionByZero

  datatype Model = Model(maxImpactShare: real, maxParticipation: real) {
    predicate Valid() {
      0.0 < maxImpactShare < 1.0 && maxParticipation > 0.0
    }

    /** What impact may cost. */
    function Budget(edge: real): real {
      maxImpactShare * edge
    }
  }

  datatype Market = Market(adv: real, volatility: real, halfSpread: real) {
    predicate Valid() {
      adv > 0.0 && volatility >= 0.0 && halfSpread >= 0.0
    }
  }

  datatype Estimate = Estimate(calibration: Calibration, edge: real, quantity: real, participation: real, impact: real,
                               executable: bool, unbounded: bool)

  function Cost(eta: real, k: Market, p: real, sqrt: real -> real): real {
    ImpactAt(eta, k.volatility, k.halfSpread, p, sqrt)
  }

  /** `p` is the largest participation inside the window that stays within the budget. */
  ghost predicate IsLargest(eta: real, k: Market, window: real, budget: real, p: real, sqrt: real -> real) {
    && 0.0 < p <= window
    && (forall q :: 0.0 <= q <= window ==> (Cost(eta, k, q, sqrt) <= budget <==> q <= p))
    && (p < window ==> Cost(eta, k, p, sqrt) == budget)
  }

  /** What a capacity estimate promises: impact may cost the configured share of the edge. */
  ghost predicate IsCapacity(m: Model, k: Market, edge: real, c: Calibration, e: Estimate, sqrt: real -> real) {
    e.edge == edge && exists budget :: budget == m.maxImpactShare * edge && IsCapacityFor(m, k, budget, c, e, sqrt)
  }

  ghost predicate IsCapacityFor(m: Model, k: Market, budget: real, c: Calibration, e: Estimate, sqrt: real -> real) {
    && e.calibration == c
    && (e.executable <==> e.edge > 0.0 && budget > k.halfSpread)
    && (e.executable ==>
         && IsLargest(c.eta, k, m.maxParticipation, budget, e.participation, sqrt)
         && e.quantity == e.participation * k.adv
         && e.impact == Cost(c.eta, k, e.participation, sqrt)
         && (e.unbounded <==> c.eta <= 0.0) && (e.unbounded ==> e.participation == m.maxParticipation))
    && (!e.executable ==> e.quantity == e.participation == 0.0 && e.impact == budget && !e.unbounded)
  }

  /** An explicit calibration wins over the calibrator's current one. */
  method Resolve(calibrator: SquareRootImpactCalibrator?, calibration: Option<Calibration>, symbol: string,
                 sqrt: real -> real)
    returns (r: Option<Calibration>)
    requires calibrator != null ==> calibrator.Valid()
    ensures calibration.Some? ==> r == calibration
    ensures calibration.None? && calibrator == null ==> r.None?
    ensures calibration.None? && calibrator != null ==>
              && (r.None? <==>
                  || |calibrator.FillsOf(symbol)| < calibrator.minObservations
                  || IsConstant(Terms(calibrator.FillsOf(symbol), sqrt)))
              && (r.Some? ==> IsCalibration(symbol, calibrator.FillsOf(symbol), sqrt, r.value))
  {
    if calibration.Some? {
      return calibration;
    }
    if calibrator != null {
      r := calibrator.Calibrate(symbol, sqrt);
      return;
    }
    return None;
  }

  function Slope(eta: real, k: Market): real {
    eta * k.volatility
  }

  function Solved(room: real, slope: real): real
    requires slope != 0.0
  {
    (room / slope) * (room / slope)
  }

  lemma SlopeSign(eta: real, k: Market)
    requires eta > 0.0 && k.Valid()
    ensures Slope(eta, k) == 0.0 <==> k.volatility == 0.0
    ensures Slope(eta, k) >= 0.0
  {
    ProductNonneg(eta, k.volatility, Slope(eta, k));
    if k.volatility > 0.0 {
      ProductPositive(eta, k.volatility, Slope(eta, k));
    }
  }

  lemma CapacityOfShare(m: Model, k: Market, edge: real, budget: real, c: Calibration, e: Estimate,
                        sqrt: real -> real)
    requires budget == m.maxImpactShare * edge && e.edge == edge && IsCapacityFor(m, k, budget, c, e, sqrt)
    ensures IsCapacity(m, k, edge, c, e, sqrt)
  {
    hide IsCapacityFor;
  }

  /** The whole computation fails exactly on invalid input, and when a positive coefficient has
      to be inverted at volatility zero. */
  method EstimateCapacity(m: Model, k: Market, edge: real, calibration: Option<Calibration>, sqrt: real -> real)
    returns (r: Result<Option<Estimate>, CapacityError>)
    requires m.Valid() && IsSqrt(sqrt)
    ensures r == Err(InvalidInput) <==> !k.Valid()
    ensures r == Err(DivisionByZero) <==>
            && k.Valid() && calibration.Some? && calibration.value.eta > 0.0 && k.volatility == 0.0
            && edge > 0.0 && m.maxImpactShare * edge > k.halfSpread
    ensures r.Ok? ==> (r.value.None? <==> calibration.None?)
    ensures r.Ok? && r.value.Some? ==> IsCapacity(m, k, edge, calibration.value, r.value.value, sqrt)
  {
    hide IsLargest, IsSqrt, Cost, Solved, Model.Budget, Slope, IsCapacityFor, IsCapacity;
    if k.adv <= 0.0 || k.volatility < 0.0 || k.halfSpread < 0.0 {
      return Err(InvalidInput);
    }
    if calibration.None? {
      return Ok(None);
    }
    var c := calibration.value;
    var budget := m.Budget(edge);
    BudgetIsShare(m, edge);
    if edge <= 0.0 || budget <= k.halfSpread {
      var refused := Estimate(c, edge, 0.0, 0.0, budget, false, false);
      Refused(m, k, budget, c, refused, sqrt);
      CapacityOfShare(m, k, edge, budget, c, refused, sqrt);
      return Ok(Some(refused));
    }
    var unbounded := c.eta <= 0.0;
    var participation := m.maxParticipation;
    if unbounded {
      CheapEverywhere(c.eta, k, m.maxParticipation, budget, sqrt);
    } else {
      SlopeSign(c.eta, k);
      if Slope(c.eta, k) == 0.0 {
        return Err(DivisionByZero);
      }
      participation := Min(Solved(budget - k.halfSpread, Slope(c.eta, k)), m.maxParticipation);
      SolvedIsLargest(c.eta, k, m.maxParticipation, budget, sqrt);
    }
    var impact := Cost(c.eta, k, participation, sqrt);
    var accepted := Estimate(c, edge, participation * k.adv, participation, impact, true, unbounded);
    Accepted(m, k, budget, c, accepted, sqrt);
    CapacityOfShare(m, k, edge, budget, c, accepted, sqrt);
    return Ok(Some(accepted));
  }

  lemma Refused(m: Model, k: Market, budget: real, c: Calibration, e: Estimate, sqrt: real -> real)
    requires e == Estimate(c, e.edge, 0.0, 0.0, budget, false, false) && (e.edge <= 0.0 || budget <= k.halfSpread)
    ensures IsCapacityFor(m, k, budget, c, e, sqrt)
  {
  }

  lemma Accepted(m: Model, k: Market, budget: real, c: Calibration, e: Estimate, sqrt: real -> real)
    requires e.calibration == c && e.executable && e.edge > 0.0 && budget > k.halfSpread
    requires IsLargest(c.eta, k, m.maxParticipation, budget, e.participation, sqrt)
    requires e.quantity == e.participation * k.adv && e.impact == Cost(c.eta, k, e.participation, sqrt)
    requires (e.unbounded <==> c.eta <= 0.0) && (e.unbounded ==> e.participation == m.maxParticipation)
    ensures IsCapacityFor(m, k, budget, c, e, sqrt)
  {
    hide IsLargest, Cost;
  }

  /** An estimate costs at most the configured share of the edge, and exactly that when the window does
      not cut it off; it is given exactly when that share exceeds the half-spread. */
  lemma CostsTheShare(m: Model, k: Market, edge: real, c: Calibration, e: Estimate, sqrt: real -> real)
    requires IsCapacity(m, k, edge, c, e, sqrt)
    ensures e.executable <==> edge > 0.0 && m.maxImpactShare * edge > k.halfSpread
    ensures e.executable ==> e.impact <= m.maxImpactShare * edge
    ensures e.executable && e.participation < m.maxParticipation ==> e.impact == m.maxImpactShare * edge
  {
    hide Cost;
  }

  /** Without a positive coefficient no size inside the window exceeds the half-spread. */
  lemma CheapEverywhere(eta: real, k: Market, window: real, budget: real, sqrt: real -> real)
    requires IsSqrt(sqrt) && k.Valid() && window > 0.0 && eta <= 0.0 && budget > k.halfSpread
    ensures IsLargest(eta, k, window, budget, window, sqrt)
  {
    forall q | 0.0 <= q <= window ensures Cost(eta, k, q, sqrt) <= budget {
      CostBelow(eta, k, q, sqrt);
    }
  }

  lemma CostBelow(eta: real, k: Market, q: real, sqrt: real -> real)
    requires IsSqrt(sqrt) && k.Valid() && eta <= 0.0 && q >= 0.0
    ensures Cost(eta, k, q, sqrt) <= k.halfSpread
  {
    var s := -eta * k.volatility;
    ProductNonneg(-eta, k.volatility, s);
    ProductNonneg(s, sqrt(q), s * sqrt(q));
    assert eta * k.volatility * sqrt(q) == -(s * sqrt(q));
  }

  /** The squared ratio of budget to slope, capped by the window, is the largest participation. */
  lemma SolvedIsLargest(eta: real, k: Market, window: real, budget: real, sqrt: real -> real)
    requires IsSqrt(sqrt) && k.Valid() && window > 0.0 && budget > k.halfSpread && Slope(eta, k) > 0.0
    ensures IsLargest(eta, k, window, budget, Min(Solved(budget - k.halfSpread, Slope(eta, k)), window), sqrt)
  {
    hide Slope, Cost;
    var slope, room := Slope(eta, k), budget - k.halfSpread;
    var u := room / slope;
    PositiveRatio(room, slope, u);
    ProductPositive(u, u, u * u);
    forall q | 0.0 <= q <= window
      ensures Cost(eta, k, q, sqrt) <= budget <==> q <= u * u
      ensures q == u * u ==> Cost(eta, k, q, sqrt) == budget
    {
      WithinBudget(slope, room, u, sqrt(q), q);
      CostOf(eta, k, q, sqrt);
    }
  }

  lemma CostOf(eta: real, k: Market, q: real, sqrt: real -> real)
    ensures Cost(eta, k, q, sqrt) == k.halfSpread + Slope(eta, k) * sqrt(q)
  {
  }

  lemma PositiveRatio(a: real, b: real, u: real)
    requires a > 0.0 && b > 0.0 && u == a / b
    ensures u > 0.0 && u * b == a
  {
    if u <= 0.0 {
      MulMono(u, 0.0, b);
    }
  }

  lemma WithinBudget(slope: real, room: real, u: real, root: real, q: real)
    requires slope > 0.0 && u > 0.0 && u * slope == room && root >= 0.0 && root * root == q
    ensures slope * root <= room <==> q <= u * u
    ensures q == u * u ==> slope * root == room
  {
    SqrtAbove(root, q, u);
    if root > u {
      MulStrict(u, root, slope);
    } else {
      MulMono(root, u, slope);
      if q == u * u {
        SquareOrderUpper(root, u);
      }
    }
  }

  /** Refusing an edge whose budget does not exceed the half-spread hides a size within the budget
      exactly when the full window costs no more than the budget. */
  lemma RefusalLosesExactly(eta: real, k: Market, window: real, budget: real, sqrt: real -> real)
    requires IsSqrt(sqrt) && k.Valid() && window > 0.0 && budget <= k.halfSpread
    ensures (exists q :: 0.0 < q <= window && Cost(eta, k, q, sqrt) <= budget) <==> Cost(eta, k, window, sqrt) <= budget
  {
    hide Cost, IsSqrt;
    forall q | 0.0 < q <= window && Cost(eta, k, q, sqrt) <= budget ensures Cost(eta, k, window, sqrt) <= budget {
      CostMonotone(eta, k, q, window, sqrt);
      if eta >= 0.0 {
        FreeSize(eta, k, q, window, sqrt);
      }
    }
  }

  /** A size that costs no more than the half-spread, although the coefficient is not negative, shows
      that impact is free at every size. */
  lemma FreeSize(eta: real, k: Market, q: real, window: real, sqrt: real -> real)
    requires IsSqrt(sqrt) && k.Valid() && q > 0.0 && eta >= 0.0 && window >= 0.0
    ensures Cost(eta, k, q, sqrt) <= k.halfSpread ==> Cost(eta, k, window, sqrt) == k.halfSpread
  {
    RootPositive(sqrt(q), q);
    CostOf(eta, k, q, sqrt);
    CostOf(eta, k, window, sqrt);
    var slope := Slope(eta, k);
    ProductNonneg(eta, k.volatility, slope);
    if slope > 0.0 {
      ProductPositive(slope, sqrt(q), slope * sqrt(q));
    }
  }

  lemma Outcomes(r: Result<Option<Estimate>, CapacityError>)
    ensures r.Ok? || r == Err(InvalidInput) || r == Err(DivisionByZero)
  {
    if r.Err? {
      match r.error {
        case InvalidInput =>
        case DivisionByZero =>
      }
    }
  }

  /** With a coefficient of -2 at volatility 1, a half-spread of 3 and a budget of 2 the edge is
      refused, although the full window costs 1. */
  method RefusalLosesSize(sqrt: real -> real) returns (e: Estimate)
    requires IsSqrt(sqrt)
    ensures IsCapacity(Model(0.5, 1.0), Market(1.0, 1.0, 3.0), 4.0, Calibration("", -2.0, 1.0, 2), e, sqrt)
    ensures !e.executable
    ensures Cost(-2.0, Market(1.0, 1.0, 3.0), 1.0, sqrt) == 1.0
  {
    hide IsLargest;
    RootIs(sqrt, 1.0, 1.0);
    var r := EstimateCapacity(Model(0.5, 1.0), Market(1.0, 1.0, 3.0), 4.0, Some(Calibration("", -2.0, 1.0, 2)), sqrt);
    Outcomes(r);
    return r.value.value;
  }

  /** With a coefficient of zero, a half-spread of 2 and a budget of 2 the edge is refused, although
      every size in the window costs exactly the budget. */
  method RefusalAtBoundary(sqrt: real -> real) returns (e: Estimate)
    requires IsSqrt(sqrt)
    ensures IsCapacity(Model(0.5, 1.0), Market(1.0, 1.0, 2.0), 4.0, Calibration("", 0.0, 1.0, 2), e, sqrt)
    ensures !e.executable
    ensures forall q :: 0.0 < q <= 1.0 ==> Cost(0.0, Market(1.0, 1.0, 2.0), q, sqrt) == 2.0
  {
    hide IsLargest;
    var r := EstimateCapacity(Model(0.5, 1.0), Market(1.0, 1.0, 2.0), 4.0, Some(Calibration("", 0.0, 1.0, 2)), sqrt);
    Outcomes(r);
    return r.value.value;
  }

  /** A market without volatility under a positive coefficient: the estimate fails. */
  method DivisionByZeroOccurs(sqrt: real -> real) returns (r: Result<Option<Estimate>, CapacityError>)
    requires IsSqrt(sqrt)
    ensures r == Err(DivisionByZero)
  {
    hide IsCapacity;
    r := EstimateCapacity(Model(0.5, 1.0), Market(1.0, 0.0, 0.0), 4.0, Some(Calibration("", 1.0, 1.0, 2)), sqrt);
  }

  lemma CostMonotone(eta: real, k: Market, p: real, q: real, sqrt: real -> real)
    requires IsSqrt(sqrt) && k.Valid() && 0.0 <= p <= q
    ensures eta >= 0.0 ==> k.halfSpread <= Cost(eta, k, p, sqrt) <= Cost(eta, k, q, sqrt)
    ensures eta <= 0.0 ==> k.halfSpread >= Cost(eta, k, p, sqrt) >= Cost(eta, k, q, sqrt)
  {
    var a, b := sqrt(p), sqrt(q);
    if p < q {
      SqrtStrict(sqrt, p, q);
    }
    var s := Abs(eta) * k.volatility;
    ProductNonneg(Abs(eta), k.volatility, s);
    ProductNonneg(s, a, s * a);
    MulMono(a, b, s);
    assert eta < 0.0 ==> eta * k.volatility == -s;
    SignedProduct(eta * k.volatility, s, a, b);
  }

  lemma SignedProduct(e: real, s: real, a: real, b: real)
    ensures e == s ==> e * a == s * a && e * b == s * b
    ensures e == -s ==> e * a == -(s * a) && e * b == -(s * b)
  {
  }

  lemma TrueOfBookFor(b: Book, fills: seq<Fill>, symbol: string, c: Calibration, m: Model, budget: real,
                      e: Estimate, quantity: real, sqrt: real -> real)
    requires b.Valid() && IsSqrt(sqrt) && m.Valid() && AllValid(fills) && |fills| > 0 && b.Produced(fills, sqrt)
    requires IsCalibration(symbol, fills, sqrt, c) && (e.edge <= 0.0 ==> budget <= 0.0)
    requires IsCapacityFor(m, Market(b.adv, b.volatility, b.halfSpread), budget, c, e, sqrt)
    requires 0.0 < quantity <= m.maxParticipation * b.adv
    ensures c.eta == b.eta
    ensures e.executable ==> (b.Slippage(quantity, sqrt) <= budget <==> quantity <= e.quantity)
    ensures !e.executable ==> b.Slippage(quantity, sqrt) >= budget
  {
    hide IsCalibration, IsSqrt, IsLargest, Book.Produced, Book.Slippage, Fill.Valid, ImpactAt;
    CalibrationRecoversLaw(b, fills, sqrt, symbol, c);
    BookFollowsLaw(b, quantity, sqrt);
    var k := Market(b.adv, b.volatility, b.halfSpread);
    var p := quantity / b.adv;
    QuantityAsShare(quantity, b.adv, p, m.maxParticipation, e.participation);
    if e.executable {
      LargestAt(c.eta, k, m.maxParticipation, budget, e.participation, sqrt, p);
    } else {
      CostMonotone(c.eta, k, p, p, sqrt);
    }
  }

  /** From fills to capacity: when the fills come from a noise-free book that moves, the estimate
      made from their calibration is the book's own limit. Every order up to it slips at most the
      configured share of the edge, and every larger order inside the window slips more. */
  lemma CapacityIsTrueOfBook(b: Book, fills: seq<Fill>, symbol: string, c: Calibration,
                             m: Model, edge: real, budget: real, e: Estimate, quantity: real, sqrt: real -> real)
    requires b.Valid() && IsSqrt(sqrt) && m.Valid() && AllValid(fills) && |fills| > 0 && b.Produced(fills, sqrt)
    requires IsCalibration(symbol, fills, sqrt, c)
    requires IsCapacity(m, Market(b.adv, b.volatility, b.halfSpread), edge, c, e, sqrt)
    requires budget == m.maxImpactShare * edge && 0.0 < quantity <= m.maxParticipation * b.adv
    ensures c.eta == b.eta
    ensures e.executable ==> (b.Slippage(quantity, sqrt) <= budget <==> quantity <= e.quantity)
    ensures !e.executable ==> b.Slippage(quantity, sqrt) >= budget
  {
    hide IsCalibration, IsSqrt, IsCapacityFor, Book.Produced, Book.Slippage, Fill.Valid;
    NoBudget(m, edge, budget);
    var same: real :|
      same == m.maxImpactShare * edge && IsCapacityFor(m, Market(b.adv, b.volatility, b.halfSpread), same, c, e, sqrt);
    SameShare(budget, same, m.maxImpactShare * edge);
    TrueOfBookFor(b, fills, symbol, c, m, budget, e, quantity, sqrt);
  }

  /** What impact may cost is the configured share of the edge. */
  lemma BudgetIsShare(m: Model, edge: real)
    ensures m.Budget(edge) == m.maxImpactShare * edge
  {
  }

  lemma SameShare(a: real, b: real, p: real)
    requires a == p && b == p
    ensures a == b
  {
  }

  lemma NoBudget(m: Model, edge: real, budget: real)
    requires m.Valid() && budget == m.maxImpactShare * edge
    ensures edge <= 0.0 ==> budget <= 0.0
  {
    if edge <= 0.0 {
      ProductNonneg(m.maxImpactShare, -edge, -budget);
    }
  }

  lemma LargestAt(eta: real, k: Market, window: real, budget: real, p: real, sqrt: real -> real, q: real)
    requires IsLargest(eta, k, window, budget, p, sqrt) && 0.0 <= q <= window
    ensures Cost(eta, k, q, sqrt) <= budget <==> q <= p
  {
  }

  lemma QuantityAsShare(quantity: real, adv: real, p: real, window: real, limit: real)
    requires adv > 0.0 && 0.0 < quantity <= window * adv && p == quantity / adv
    ensures 0.0 <= p <= window
    ensures quantity <= limit * adv <==> p <= limit
  {
    assert p * adv == quantity;
    ShareOrder(p, window, adv);
    ShareOrder(p, limit, adv);
    ShareOrder(0.0, p, adv);
  }

  lemma ShareOrder(a: real, b: real, n: real)
    requires n > 0.0
    ensures a * n <= b * n <==> a <= b
  {
    if a <= b {
      MulMono(a, b, n);
    } else {
      MulStrict(b, a, n);
    }
  }
}
