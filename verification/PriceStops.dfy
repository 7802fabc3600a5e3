/** What the gate charges a stop with. For one that a plan gives only as a price it is the plan's own
    risk figure, whatever the real distance; for any other it is the distance alone. */
module PriceStops {
  import opened RealMath
  import opened Wrappers
  import opened RiskGate
  import opened RiskRuns

  /** What a size may risk in this context, before any edge estimate. */
  function Room(c: Config, x: Context): real {
    Min(Min(c.maxRiskPerTrade, c.maxRiskPerSymbol - x.symbolRisk),
        Min(c.maxPortfolioRisk - x.portfolioRisk, Budget(c, x)))
  }

  /** The largest size the gate lets through under a charged stop. */
  function Largest(c: Config, x: Context, charged: real): real
    requires charged > 0.0
  {
    Min(1.0, Min(Min(c.maxOpenExposure - x.openExposure, c.maxPositionSize), Over(Room(c, x), charged)))
  }

  lemma FitsExactly(c: Config, x: Context, charged: real, s: real)
    requires charged > 0.0 && s <= 1.0
    ensures Fits(c, x, charged, None, s) <==> s <= Largest(c, x, charged)
  {
    hide Budget, Risk;
    PerUnit(Room(c, x), charged, s);
  }

  lemma RoomLeft(c: Config, x: Context, charged: real)
    requires c.Valid() && charged > 0.0 && !Exhausted(c, x)
    ensures 0.0 <= Largest(c, x, charged) <= 1.0
  {
    ProductNonneg(c.maxFractionOfBudget, Available(c, x), Budget(c, x));
    hide Available, Budget;
    PerUnit(Room(c, x), charged, 0.0);
  }

  /** A size is approved only up to the largest one, and that one is approved. */
  lemma ApprovedUpTo(c: Config, x: Context, charged: real)
    requires c.Valid() && charged > 0.0 && !Exhausted(c, x) && !BreakerTripped(c, x)
    ensures forall size :: Approves(c, x, charged, size) ==> 0.0 <= size <= Largest(c, x, charged)
    ensures Approves(c, x, charged, Largest(c, x, charged))
  {
    hide Fits, Largest, Exhausted, BreakerTripped;
    forall size | Approves(c, x, charged, size) ensures 0.0 <= size <= Largest(c, x, charged) {
      OnlyUpTo(c, x, charged, size);
    }
    RoomLeft(c, x, charged);
    forall s | 0.0 <= s <= 1.0 ensures Fits(c, x, charged, None, s) <==> s <= Largest(c, x, charged) {
      FitsExactly(c, x, charged, s);
    }
    assert IsLargestFit(c, x, charged, None, 1.0, Largest(c, x, charged));
  }

  lemma OnlyUpTo(c: Config, x: Context, charged: real, size: real)
    requires charged > 0.0 && Approves(c, x, charged, size)
    ensures 0.0 <= size <= Largest(c, x, charged)
  {
    hide Largest, Exhausted, BreakerTripped;
    var kelly: Option<real>, requested: real :|
      0.0 < requested <= 1.0 && IsLargestFit(c, x, charged, kelly, requested, size);
    assert Fits(c, x, charged, kelly, size);
    assert Fits(c, x, charged, None, size);
    FitsExactly(c, x, charged, size);
  }

  /** In a context in which the gate approves anything, every approved size loses at most the trade
      limit at its real distance exactly when the largest approved size does. */
  lemma BoundedHereExactly(c: Config, plan: Plan, x: Context, distance: real)
    requires c.Valid() && plan.Valid() && plan.stopLoss.distance.None? && distance > 0.0
    requires !Exhausted(c, x) && !BreakerTripped(c, x)
    ensures (forall size :: Approves(c, x, plan.StopDistance(), size) ==> Risk(size, distance) <= c.maxRiskPerTrade)
            <==> Risk(Largest(c, x, plan.riskPerTrade), distance) <= c.maxRiskPerTrade
  {
    hide Risk, Largest, Approves, Exhausted, BreakerTripped;
    ApprovedUpTo(c, x, plan.riskPerTrade);
    forall size | Approves(c, x, plan.StopDistance(), size)
      ensures Risk(size, distance) <= Risk(Largest(c, x, plan.riskPerTrade), distance)
    {
      RiskMono(size, Largest(c, x, plan.riskPerTrade), distance);
    }
  }

  // ----- over all contexts -----

  /** A context whose figures are the shares of equity they are documented as. */
  predicate NonNegative(x: Context) {
    && x.openExposure >= 0.0 && x.symbolRisk >= 0.0 && x.portfolioRisk >= 0.0
    && x.dailyLoss >= 0.0 && x.monthlyLoss >= 0.0 && x.drawdown >= 0.0 && x.totalLoss >= 0.0
  }

  /** Nothing open and nothing lost. */
  const IDLE := Context(1.0, 0.0, 0.0, 0.0, 0.0, 0.0, 0.0, 0.0)

  lemma LargestWhenIdle(c: Config, x: Context, charged: real)
    requires c.Valid() && charged > 0.0 && NonNegative(x)
    ensures Largest(c, x, charged) <= Largest(c, IDLE, charged)
  {
    hide Available, Budget;
    BudgetWhenIdle(c, x);
    QuotientMono(Room(c, x), Room(c, IDLE), charged);
  }

  lemma BudgetWhenIdle(c: Config, x: Context)
    requires c.Valid() && NonNegative(x)
    ensures Budget(c, x) <= Budget(c, IDLE)
  {
    hide Available;
    AvailableWhenIdle(c, x);
    ScaledMono(c.maxFractionOfBudget, Available(c, x), Available(c, IDLE), Budget(c, x), Budget(c, IDLE));
  }

  lemma AvailableWhenIdle(c: Config, x: Context)
    requires NonNegative(x)
    ensures Available(c, x) <= Available(c, IDLE)
  {
  }

  lemma ScaledMono(f: real, a: real, b: real, p: real, q: real)
    requires f >= 0.0 && a <= b && p == f * a && q == f * b
    ensures p <= q
  {
    assert f * (b - a) >= 0.0;
  }

  lemma QuotientMono(a: real, b: real, stop: real)
    requires a <= b && stop > 0.0
    ensures Over(a, stop) <= Over(b, stop)
  {
    var p, q := a / stop, b / stop;
    assert p * stop == a && q * stop == b;
    if p > q {
      MulStrict(q, p, stop);
    }
  }

  /** A limit that halts trading from the start leaves room for nothing. */
  lemma IdleHalted(c: Config, charged: real)
    requires c.Valid() && charged > 0.0 && (Exhausted(c, IDLE) || BreakerTripped(c, IDLE))
    ensures Largest(c, IDLE, charged) == 0.0
  {
    if Available(c, IDLE) <= 0.0 {
      assert Available(c, IDLE) == 0.0 && Budget(c, IDLE) == 0.0;
    }
    ProductNonneg(c.maxFractionOfBudget, Available(c, IDLE), Budget(c, IDLE));
    hide Available, Budget;
    PerUnit(Room(c, IDLE), charged, 0.0);
    assert Room(c, IDLE) == 0.0 ==> Over(Room(c, IDLE), charged) == 0.0;
  }

  /** Whatever the context, every approved size of a plan with a price stop loses at most the trade
      limit at its real distance exactly when the largest size of an idle account does. */
  lemma BoundedExactly(c: Config, plan: Plan, distance: real)
    requires c.Valid() && plan.Valid() && plan.stopLoss.distance.None? && distance > 0.0
    ensures (forall x, size :: NonNegative(x) && Approves(c, x, plan.StopDistance(), size) ==>
              Risk(size, distance) <= c.maxRiskPerTrade)
            <==> Risk(Largest(c, IDLE, plan.riskPerTrade), distance) <= c.maxRiskPerTrade
  {
    hide Risk, Largest, Approves, Exhausted, BreakerTripped;
    var charged := plan.riskPerTrade;
    var most := Largest(c, IDLE, charged);
    forall x, size | NonNegative(x) && Approves(c, x, plan.StopDistance(), size)
      ensures Risk(size, distance) <= Risk(most, distance)
    {
      OnlyUpTo(c, x, charged, size);
      LargestWhenIdle(c, x, charged);
      RiskMono(size, most, distance);
    }
    if Exhausted(c, IDLE) || BreakerTripped(c, IDLE) {
      IdleHalted(c, charged);
      NoSizeNoRisk(distance);
    } else {
      ApprovedUpTo(c, IDLE, charged);
      assert NonNegative(IDLE) && Approves(c, IDLE, plan.StopDistance(), most);
    }
  }

  lemma NoSizeNoRisk(distance: real)
    ensures Risk(0.0, distance) == 0.0
  {
  }

  // ----- plans with a distance -----

  lemma SizedUnique(c: Config, x: Context, plan: Plan, other: Plan, kelly: Option<real>, requested: real,
                    size: real, same: real)
    requires plan.stopLoss == other.stopLoss && plan.stopLoss.distance.Some?
    requires IsSized(c, x, plan, kelly, requested, size) && IsSized(c, x, other, kelly, requested, same)
    ensures size == same
  {
    hide KeepsEach;
    var distance := plan.stopLoss.distance.value;
    assert KeepsEach(c, x, distance, size) && KeepsEach(c, x, distance, same);
  }

  /** Two plans that differ in their risk figure only. */
  predicate SameStops(plan: Plan, other: Plan) {
    plan.stopLoss == other.stopLoss && plan.takeProfit == other.takeProfit
  }

  lemma SameBlocks(gate: CircuitBreakerRiskGate, p: Proposal, other: Plan, a: Action, mark: Option<real>,
                   sqrt: real -> real)
    requires gate.Valid() && p.plan.Some? && SameStops(p.plan.value, other)
    ensures gate.Blocked(p, a, mark, sqrt) <==> gate.Blocked(p.(plan := Some(other)), a, mark, sqrt)
  {
    hide IsEstimate, ToxicBook, BreakerTripped, Exhausted, Quantity;
  }

  /** Under a stop with a distance the plan's risk figure decides nothing. */
  method DistanceDecides(gate: CircuitBreakerRiskGate, p: Proposal, other: Plan, mark: Option<real>, sqrt: real -> real)
    returns (d: Decision, same: Decision)
    requires gate.Valid() && p.Valid() && IsSqrt(sqrt) && p.plan.Some? && p.plan.value.stopLoss.distance.Some?
    requires other.Valid() && other.stopLoss == p.plan.value.stopLoss && other.takeProfit == p.plan.value.takeProfit
    ensures d == same
  {
    hide IsSized, IsLargestFit, KellyLimit, CircuitBreakerRiskGate.Blocked;
    var q := p.(plan := Some(other));
    d := gate.Evaluate(p, mark, sqrt);
    same := gate.Evaluate(q, mark, sqrt);
    if p.Primary().Some? && !p.Primary().value.kind.Safe() {
      var a := p.Primary().value;
      SameBlocks(gate, p, other, a, mark, sqrt);
      if d.verdict != Rejected {
        SizedUnique(gate.config, p.context, p.plan.value, other, gate.KellyFor(p, a, sqrt), a.size, d.size.value,
                    same.size.value);
      }
      SameVerdict(d, same);
    }
  }

  lemma SameVerdict(d: Decision, e: Decision)
    requires d.size == e.size && (d.verdict == Rejected <==> e.verdict == Rejected)
    requires d.verdict == Reduced <==> e.verdict == Reduced
    ensures d == e
  {
  }

  /** The whole equity in a plan that stops at a tenth, with a risk figure of a hundredth. */
  const FAR_STOP := Proposal("p", "x", [Action(EnterLong, 1.0, 1)], IDLE,
                             Some(Plan(Level(None, Some(0.1)), Level(None, Some(0.2)), 0.01)))

  /** Under the default limits it gets a tenth of the equity: the symbol limit over the distance. */
  method FarStopSize(sqrt: real -> real) returns (d: Decision)
    requires IsSqrt(sqrt)
    ensures d == Decision(Reduced, Some(0.1)) && IsSized(DEFAULTS, IDLE, FAR_STOP.plan.value, None, 1.0, d.size.value)
  {
    hide Exhausted, BreakerTripped, ToxicBook, IsLargestFit, IsSized;
    AllInAllowed();
    FarStopAllowed();
    var gate := new CircuitBreakerRiskGate(DEFAULTS);
    d := gate.Evaluate(FAR_STOP, Some(100.0), sqrt);
    TenthOnly(d.size.value);
  }

  lemma FarStopAllowed()
    ensures FAR_STOP.Valid() && FAR_STOP.Primary() == Some(Action(EnterLong, 1.0, 1))
    ensures FAR_STOP.plan.value.HasBracket()
  {
    assert FAR_STOP.actions[0].Valid();
  }

  lemma TenthOnly(size: real)
    requires IsSized(DEFAULTS, IDLE, FAR_STOP.plan.value, None, 1.0, size)
    ensures size == 0.1
  {
    assert KeepsEach(DEFAULTS, IDLE, 0.1, 0.1) && KeepsEach(DEFAULTS, IDLE, 0.1, size);
  }

  // ----- the default limits -----

  /** Under the default limits and the default charge the position cap keeps a stop five percent away
      within the trade limit. */
  lemma DefaultsBoundFivePercent(plan: Plan)
    requires plan.Valid() && plan.stopLoss.distance.None? && plan.riskPerTrade == 0.01
    ensures forall x, size :: NonNegative(x) && Approves(DEFAULTS, x, plan.StopDistance(), size) ==>
              Risk(size, 0.05) <= DEFAULTS.maxRiskPerTrade
  {
    BoundedExactly(DEFAULTS, plan, 0.05);
    DefaultSize();
  }

  lemma DefaultSize()
    ensures DEFAULTS.Valid() && Largest(DEFAULTS, IDLE, 0.01) == 0.2
  {
  }

  /** The whole equity, stopped at 85 from a market at 100. */
  const ALL_IN := Proposal("p", "x", [Action(EnterLong, 1.0, 1)], IDLE,
                           Some(Plan(Level(Some(85.0), None), Level(Some(130.0), None), 0.01)))

  lemma AllInAllowed()
    ensures ALL_IN.Valid() && ALL_IN.Primary() == Some(Action(EnterLong, 1.0, 1))
    ensures ALL_IN.plan.value.HasBracket() && ALL_IN.plan.value.StopDistance() == 0.01
    ensures DEFAULTS.Valid() && !Exhausted(DEFAULTS, IDLE) && !BreakerTripped(DEFAULTS, IDLE)
    ensures !ToxicBook(DEFAULTS, [])
  {
    assert ALL_IN.actions[0].Valid();
  }

  /** Under the default limits the gate lets a fifth of the equity through, and the stop fifteen
      percent away costs three percent, half as much again as a trade may risk. */
  method OverrunsTradeLimit(sqrt: real -> real) returns (d: Decision)
    requires IsSqrt(sqrt)
    ensures d == Decision(Reduced, Some(0.2)) && IsSized(DEFAULTS, IDLE, ALL_IN.plan.value, None, 1.0, d.size.value)
    ensures Risk(0.2, (100.0 - 85.0) / 100.0) == 0.03 && DEFAULTS.maxRiskPerTrade == 0.02
  {
    hide Exhausted, BreakerTripped, ToxicBook, IsLargestFit, Largest;
    AllInAllowed();
    var gate := new CircuitBreakerRiskGate(DEFAULTS);
    d := gate.Evaluate(ALL_IN, Some(100.0), sqrt);
    DefaultSize();
    UncappedSize(d.size.value);
  }

  lemma UncappedSize(size: real)
    requires IsLargestFit(DEFAULTS, IDLE, 0.01, None, 1.0, size)
    ensures size == Largest(DEFAULTS, IDLE, 0.01)
  {
    hide Fits;
    DefaultSize();
    FitsExactly(DEFAULTS, IDLE, 0.01, size);
    FitsExactly(DEFAULTS, IDLE, 0.01, Largest(DEFAULTS, IDLE, 0.01));
  }
}
