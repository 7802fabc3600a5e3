/** The deterministic risk gate: vetoes for risk-increasing actions, and the largest size that
    fits every budget. */
module RiskGate {
  import opened RealMath
  import opened Wrappers
  import opened Vpin
  import opened Impact
  import Correlations

  datatype Config = Config(
    maxRiskPerTrade: real, maxRiskPerSymbol: real, maxPortfolioRisk: real,
    maxDailyLoss: real, maxMonthlyLoss: real, maxDrawdown: real, maxTotalLoss: real,
    maxFractionOfBudget: real, requireBracket: bool, maxPositionSize: real, maxOpenExposure: real,
    kellySafetyFactor: real, minEdge: real, maxKelly: real,
    vetoOnToxicity: bool, minToxicityBuckets: int,
    vetoOnImpact: bool, maxImpactToReward: real, minImpactEvidence: int, blockOnMismatch: bool)
  {
    /** Every fraction lies in [0, 1]. */
    predicate Valid() {
      && Fraction(maxRiskPerTrade) && Fraction(maxRiskPerSymbol) && Fraction(maxPortfolioRisk)
      && Fraction(maxDailyLoss) && Fraction(maxMonthlyLoss) && Fraction(maxDrawdown) && Fraction(maxTotalLoss)
      && Fraction(maxFractionOfBudget) && Fraction(maxPositionSize) && Fraction(maxOpenExposure)
      && Fraction(kellySafetyFactor) && Fraction(minEdge) && Fraction(maxKelly) && Fraction(maxImpactToReward)
    }
  }

  const DEFAULTS := Config(0.02, 0.01, 0.03, 0.06, 0.10, 0.20, 0.50, 0.60, true, 0.20, 0.60,
                           0.5, 0.01, 0.25, true, 8, true, 0.25, 30, true)

  predicate Fraction(x: real) {
    0.0 <= x <= 1.0
  }

  datatype ActionType = EnterLong | EnterShort | Exit | ScaleIn | ScaleOut | StandAside | ReduceRisk {
    /** Safety actions are never vetoed. */
    predicate Safe() {
      this in {Exit, ScaleOut, StandAside, ReduceRisk}
    }
  }

  datatype Action = Action(kind: ActionType, size: real, order: int) {
    predicate Valid() {
      0.0 < size <= 1.0
    }
  }

  datatype Level = Level(price: Option<real>, distance: Option<real>) {
    predicate Valid() {
      (price.Some? ==> price.value > 0.0) && (distance.Some? ==> distance.value > 0.0)
    }

    predicate Defined() {
      price.Some? || distance.Some?
    }
  }

  datatype Plan = Plan(stopLoss: Level, takeProfit: Level, riskPerTrade: real) {
    predicate Valid() {
      stopLoss.Valid() && takeProfit.Valid() && 0.0 < riskPerTrade <= 1.0
    }

    predicate HasBracket() {
      stopLoss.Defined() && takeProfit.Defined()
    }

    /** One of the two levels was left out altogether. */
    ghost predicate IsOpenEnded() {
      stopLoss == Level(None, None) || takeProfit == Level(None, None)
    }

    lemma BracketExactly()
      ensures HasBracket() <==> !IsOpenEnded()
    {
    }

    /** The loss per unit of size that the budgets are charged with. */
    function StopDistance(): (d: real)
      requires Valid()
      ensures d > 0.0
    {
      if stopLoss.distance.Some? then stopLoss.distance.value else riskPerTrade
    }
  }

  datatype Context = Context(equity: real, openExposure: real, dailyLoss: real, monthlyLoss: real, totalLoss: real,
                             drawdown: real, symbolRisk: real, portfolioRisk: real)

  datatype Proposal = Proposal(id: string, symbol: string, actions: seq<Action>, context: Context, plan: Option<Plan>) {
    predicate Valid() {
      && |symbol| > 0 && (plan.Some? ==> plan.value.Valid())
      && forall i :: 0 <= i < |actions| ==> actions[i].Valid()
    }

    /** The lowest-order action; the first listed of equals. */
    function Primary(): (p: Option<Action>)
      ensures p.None? <==> actions == []
      ensures p.Some? ==> IsFirstLowest(actions, p.value)
    {
      if actions == [] then None else Some(FirstLowest(actions))
    }
  }

  ghost predicate IsFirstLowest(actions: seq<Action>, a: Action) {
    exists i :: 0 <= i < |actions| && actions[i] == a
      && (forall j :: 0 <= j < |actions| ==> actions[j].order >= a.order)
      && (forall j :: 0 <= j < i ==> actions[j].order > a.order)
  }

  function FirstLowest(actions: seq<Action>): (a: Action)
    requires |actions| > 0
    ensures IsFirstLowest(actions, a)
  {
    var n := |actions| - 1;
    if n == 0 then
      assert actions[0] == actions[n];
      actions[0]
    else
      var best := FirstLowest(actions[..n]);
      LowestOfOneMore(actions, best);
      if actions[n].order < best.order then actions[n] else best
  }

  lemma LowestOfOneMore(actions: seq<Action>, best: Action)
    requires |actions| > 1 && IsFirstLowest(actions[..|actions| - 1], best)
    ensures var last := actions[|actions| - 1];
            IsFirstLowest(actions, if last.order < best.order then last else best)
  {
    var n := |actions| - 1;
    var before := actions[..n];
    var i :| 0 <= i < n && before[i] == best
             && (forall j :: 0 <= j < n ==> before[j].order >= best.order)
             && (forall j :: 0 <= j < i ==> before[j].order > best.order);
    assert forall j :: 0 <= j < n ==> actions[j] == before[j];
    var k := if actions[n].order < best.order then n else i;
    assert 0 <= k < |actions| && actions[k] == if actions[n].order < best.order then actions[n] else best;
  }

  datatype Verdict = Approved | Rejected | Reduced

  datatype Decision = Decision(verdict: Verdict, size: Option<real>)

  // ----- budgets -----

  /** The share of equity lost when a position of `size` is stopped out. */
  function Risk(size: real, stop: real): real {
    size * stop
  }

  /** The least that is left of the four loss limits. */
  function Available(c: Config, x: Context): real {
    Min(Min(Min(Max(0.0, c.maxDailyLoss - x.dailyLoss), Max(0.0, c.maxMonthlyLoss - x.monthlyLoss)),
            Max(0.0, c.maxDrawdown - x.drawdown)),
        Max(0.0, c.maxTotalLoss - x.totalLoss))
  }

  function Budget(c: Config, x: Context): real {
    c.maxFractionOfBudget * Available(c, x)
  }

  predicate BreakerTripped(c: Config, x: Context) {
    || x.totalLoss >= c.maxTotalLoss || x.monthlyLoss >= c.maxMonthlyLoss
    || x.dailyLoss >= c.maxDailyLoss || x.drawdown >= c.maxDrawdown
  }

  method CircuitBreakerViolation(c: Config, x: Context) returns (tripped: bool)
    ensures tripped <==> BreakerTripped(c, x)
  {
    if x.totalLoss >= c.maxTotalLoss {
      return true;
    }
    if x.monthlyLoss >= c.maxMonthlyLoss {
      return true;
    }
    if x.dailyLoss >= c.maxDailyLoss {
      return true;
    }
    return x.drawdown >= c.maxDrawdown;
  }

  predicate Exhausted(c: Config, x: Context) {
    || x.openExposure >= c.maxOpenExposure || x.symbolRisk >= c.maxRiskPerSymbol
    || x.portfolioRisk >= c.maxPortfolioRisk || Available(c, x) <= 0.0
  }

  /** A size that keeps every limit. */
  predicate Fits(c: Config, x: Context, stop: real, kelly: Option<real>, s: real) {
    && x.openExposure + s <= c.maxOpenExposure
    && s <= c.maxPositionSize
    && Risk(s, stop) <= c.maxRiskPerTrade
    && x.symbolRisk + Risk(s, stop) <= c.maxRiskPerSymbol
    && x.portfolioRisk + Risk(s, stop) <= c.maxPortfolioRisk
    && Risk(s, stop) <= Budget(c, x)
    && (kelly.Some? ==> s <= kelly.value)
  }

  /** The approved size is the largest one up to the request that keeps every limit. */
  ghost predicate IsLargestFit(c: Config, x: Context, stop: real, kelly: Option<real>, requested: real, size: real) {
    && 0.0 <= size <= requested
    && forall s :: 0.0 <= s <= requested ==> (Fits(c, x, stop, kelly, s) <==> s <= size)
  }

  /** A loss at the given distance that keeps the limits on trade, symbol and portfolio and the share
      of each loss budget, for a size that keeps the limits on position and exposure. */
  ghost predicate KeepsEach(c: Config, x: Context, distance: real, s: real) {
    LossKeepsEach(c, x, s * distance, s)
  }

  ghost predicate LossKeepsEach(c: Config, x: Context, loss: real, s: real) {
    && loss <= c.maxRiskPerTrade
    && x.symbolRisk + loss <= c.maxRiskPerSymbol
    && x.portfolioRisk + loss <= c.maxPortfolioRisk
    && loss <= c.maxFractionOfBudget * (c.maxDailyLoss - x.dailyLoss)
    && loss <= c.maxFractionOfBudget * (c.maxMonthlyLoss - x.monthlyLoss)
    && loss <= c.maxFractionOfBudget * (c.maxDrawdown - x.drawdown)
    && loss <= c.maxFractionOfBudget * (c.maxTotalLoss - x.totalLoss)
    && s <= c.maxPositionSize && x.openExposure + s <= c.maxOpenExposure
  }

  /** The size is the largest one up to the request that keeps each limit. */
  ghost predicate IsLargestAt(c: Config, x: Context, distance: real, kelly: Option<real>, requested: real, size: real) {
    && 0.0 <= size <= requested
    && forall s :: 0.0 <= s <= requested ==>
         (s <= size <==> KeepsEach(c, x, distance, s) && (kelly.Some? ==> s <= kelly.value))
  }

  /** It is so at the plan's stop distance, or at its risk figure for a stop without one. */
  ghost predicate IsSized(c: Config, x: Context, plan: Plan, kelly: Option<real>, requested: real, size: real) {
    match plan.stopLoss.distance
    case Some(distance) => IsLargestAt(c, x, distance, kelly, requested, size)
    case None => IsLargestAt(c, x, plan.riskPerTrade, kelly, requested, size)
  }

  lemma FitsKeepsEach(c: Config, x: Context, distance: real, kelly: Option<real>, s: real)
    requires c.Valid() && !BreakerTripped(c, x)
    ensures Fits(c, x, distance, kelly, s) <==> KeepsEach(c, x, distance, s) && (kelly.Some? ==> s <= kelly.value)
  {
    hide Fits, LossKeepsEach, Config.Valid, BreakerTripped;
    FitsKeepsLoss(c, x, distance, kelly, s, s * distance);
  }

  lemma FitsKeepsLoss(c: Config, x: Context, distance: real, kelly: Option<real>, s: real, loss: real)
    requires c.Valid() && !BreakerTripped(c, x) && loss == Risk(s, distance)
    ensures Fits(c, x, distance, kelly, s) <==> LossKeepsEach(c, x, loss, s) && (kelly.Some? ==> s <= kelly.value)
  {
    hide Available, BreakerTripped, Config.Valid, Risk;
    LeastLeft(c, x);
    LeastShare(c.maxFractionOfBudget, c.maxDailyLoss - x.dailyLoss, c.maxMonthlyLoss - x.monthlyLoss,
               c.maxDrawdown - x.drawdown, c.maxTotalLoss - x.totalLoss, Available(c, x), loss);
  }

  lemma LeastLeft(c: Config, x: Context)
    requires c.Valid() && !BreakerTripped(c, x)
    ensures Available(c, x) == Min(Min(Min(c.maxDailyLoss - x.dailyLoss, c.maxMonthlyLoss - x.monthlyLoss),
                                       c.maxDrawdown - x.drawdown), c.maxTotalLoss - x.totalLoss)
    ensures c.maxFractionOfBudget >= 0.0
  {
  }

  /** Keeping a share of the least amount is keeping that share of each. */
  lemma LeastShare(f: real, a: real, b: real, c: real, d: real, least: real, v: real)
    requires f >= 0.0 && least == Min(Min(Min(a, b), c), d)
    ensures v <= f * least <==> v <= f * a && v <= f * b && v <= f * c && v <= f * d
  {
    ScaledOrder(f, least, a);
    ScaledOrder(f, least, b);
    ScaledOrder(f, least, c);
    ScaledOrder(f, least, d);
  }

  lemma ScaledOrder(f: real, a: real, b: real)
    requires f >= 0.0 && a <= b
    ensures f * a <= f * b
  {
    assert f * (b - a) >= 0.0;
  }

  lemma LargestKeepsEach(c: Config, x: Context, distance: real, kelly: Option<real>, requested: real, size: real)
    requires c.Valid() && !BreakerTripped(c, x) && IsLargestFit(c, x, distance, kelly, requested, size)
    ensures IsLargestAt(c, x, distance, kelly, requested, size)
  {
    hide Fits, KeepsEach, BreakerTripped;
    forall s | 0.0 <= s <= requested
      ensures s <= size <==> KeepsEach(c, x, distance, s) && (kelly.Some? ==> s <= kelly.value)
    {
      FitsKeepsEach(c, x, distance, kelly, s);
    }
  }

  lemma LargestIsSized(c: Config, x: Context, plan: Plan, kelly: Option<real>, requested: real, size: real)
    requires c.Valid() && plan.Valid() && !BreakerTripped(c, x)
    requires IsLargestFit(c, x, plan.StopDistance(), kelly, requested, size)
    ensures IsSized(c, x, plan, kelly, requested, size)
  {
    hide IsLargestFit, IsLargestAt, BreakerTripped;
    LargestKeepsEach(c, x, plan.StopDistance(), kelly, requested, size);
  }

  lemma PerUnit(limit: real, stop: real, s: real)
    requires stop > 0.0
    ensures s <= limit / stop <==> Risk(s, stop) <= limit
    ensures limit >= 0.0 ==> limit / stop >= 0.0
  {
    var q := limit / stop;
    assert q * stop == limit;
    if s <= q {
      MulMono(s, q, stop);
    } else {
      MulStrict(q, s, stop);
    }
    if limit >= 0.0 {
      QuotientBounds(limit, stop, 0.0, q);
    }
  }

  method Least(caps: seq<real>) returns (m: real)
    requires |caps| > 0
    ensures m in caps && forall i :: 0 <= i < |caps| ==> m <= caps[i]
  {
    m := caps[0];
    for i := 1 to |caps|
      invariant m in caps && forall j :: 0 <= j < i ==> m <= caps[j]
    {
      if caps[i] < m {
        m := caps[i];
      }
    }
  }

  function Over(limit: real, stop: real): real
    requires stop > 0.0
  {
    limit / stop
  }

  /** The caps a size has to stay below, as the gate lists them. */
  function Caps(c: Config, x: Context, stop: real, kelly: Option<real>): seq<real>
    requires stop > 0.0
  {
    [c.maxOpenExposure - x.openExposure, c.maxPositionSize, Over(c.maxRiskPerTrade, stop),
     Over(c.maxRiskPerSymbol - x.symbolRisk, stop), Over(c.maxPortfolioRisk - x.portfolioRisk, stop),
     Over(Budget(c, x), stop)]
    + if kelly.Some? then [kelly.value] else []
  }

  lemma CapsAreLimits(c: Config, x: Context, stop: real, kelly: Option<real>, s: real)
    requires stop > 0.0
    ensures (forall i :: 0 <= i < |Caps(c, x, stop, kelly)| ==> s <= Caps(c, x, stop, kelly)[i]) <==>
            Fits(c, x, stop, kelly, s)
  {
    hide Risk, Budget;
    var caps := Caps(c, x, stop, kelly);
    PerUnit(c.maxRiskPerTrade, stop, s);
    PerUnit(c.maxRiskPerSymbol - x.symbolRisk, stop, s);
    PerUnit(c.maxPortfolioRisk - x.portfolioRisk, stop, s);
    PerUnit(Budget(c, x), stop, s);
    if forall i :: 0 <= i < |caps| ==> s <= caps[i] {
      assert s <= caps[0] && s <= caps[1] && s <= caps[2] && s <= caps[3] && s <= caps[4] && s <= caps[5];
      assert kelly.Some? ==> s <= caps[6];
    }
  }

  lemma CapsNonnegative(c: Config, x: Context, stop: real, kelly: Option<real>)
    requires c.Valid() && stop > 0.0 && !Exhausted(c, x) && (kelly.Some? ==> kelly.value >= 0.0)
    ensures forall i :: 0 <= i < |Caps(c, x, stop, kelly)| ==> Caps(c, x, stop, kelly)[i] >= 0.0
  {
    ProductNonneg(c.maxFractionOfBudget, Available(c, x), Budget(c, x));
    PerUnit(c.maxRiskPerTrade, stop, 0.0);
    PerUnit(c.maxRiskPerSymbol - x.symbolRisk, stop, 0.0);
    PerUnit(c.maxPortfolioRisk - x.portfolioRisk, stop, 0.0);
    PerUnit(Budget(c, x), stop, 0.0);
  }

  /** Sizing: the second half of `evaluate`. */
  method Size(c: Config, x: Context, stop: real, requested: real, kelly: Option<real>) returns (d: Decision)
    requires c.Valid() && stop > 0.0 && 0.0 < requested <= 1.0 && (kelly.Some? ==> kelly.value >= 0.0)
    ensures d.verdict == Rejected <==> Exhausted(c, x)
    ensures d.verdict == Rejected ==> d.size == Some(0.0)
    ensures d.verdict != Rejected ==> d.size.Some? && IsLargestFit(c, x, stop, kelly, requested, d.size.value)
    ensures d.verdict == Reduced <==> d.verdict != Rejected && d.size.value < requested
  {
    hide Fits, Available, Budget, Over;
    var remainingExposure := c.maxOpenExposure - x.openExposure;
    if remainingExposure <= 0.0 {
      return Decision(Rejected, Some(0.0));
    }
    var caps := [remainingExposure, c.maxPositionSize, Over(c.maxRiskPerTrade, stop)];
    var symbolRemaining := c.maxRiskPerSymbol - x.symbolRisk;
    if symbolRemaining <= 0.0 {
      return Decision(Rejected, Some(0.0));
    }
    caps := caps + [Over(symbolRemaining, stop)];
    var portfolioRemaining := c.maxPortfolioRisk - x.portfolioRisk;
    if portfolioRemaining <= 0.0 {
      return Decision(Rejected, Some(0.0));
    }
    caps := caps + [Over(portfolioRemaining, stop)];
    if Available(c, x) <= 0.0 {
      return Decision(Rejected, Some(0.0));
    }
    caps := caps + [Over(Budget(c, x), stop)];
    if kelly.Some? {
      caps := caps + [kelly.value];
    }
    assert caps == Caps(c, x, stop, kelly);
    d := Capped(c, x, stop, kelly, requested, caps);
  }

  method Capped(c: Config, x: Context, stop: real, kelly: Option<real>, requested: real, caps: seq<real>)
    returns (d: Decision)
    requires c.Valid() && stop > 0.0 && 0.0 < requested <= 1.0 && (kelly.Some? ==> kelly.value >= 0.0)
    requires !Exhausted(c, x) && caps == Caps(c, x, stop, kelly)
    ensures d.verdict != Rejected && d.size.Some? && IsLargestFit(c, x, stop, kelly, requested, d.size.value)
    ensures d.verdict == Reduced <==> d.size.value < requested
  {
    hide Fits, Available, Budget, Exhausted;
    CapsNonnegative(c, x, stop, kelly);
    hide Caps;
    var least := Least(caps);
    forall s ensures Fits(c, x, stop, kelly, s) <==> s <= least {
      CapsAreLimits(c, x, stop, kelly, s);
      BelowLeast(caps, least, s);
    }
    var capped := Min(1.0, Max(0.0, least));
    if capped < requested {
      return Decision(Reduced, Some(capped));
    }
    return Decision(Approved, Some(requested));
  }

  lemma BelowLeast(caps: seq<real>, least: real, s: real)
    requires least in caps && forall i :: 0 <= i < |caps| ==> least <= caps[i]
    ensures (forall i :: 0 <= i < |caps| ==> s <= caps[i]) <==> s <= least
  {
  }

  // ----- fractional Kelly -----

  datatype Edge = Edge(winRate: real, avgWin: real, avgLoss: real, trades: int) {
    function Expected(): real {
      winRate * avgWin - (1.0 - winRate) * avgLoss
    }

    function Variance(): real {
      winRate * ((avgWin - Expected()) * (avgWin - Expected()))
      + (1.0 - winRate) * ((avgLoss - Expected()) * (avgLoss - Expected()))
    }

    /** Expected return per unit of risk. */
    function Value(sqrt: real -> real): real
      requires IsSqrt(sqrt)
    {
      if trades < 10 || Variance() <= 0.0 then 0.0
      else
        RootPositive(sqrt(Variance()), Variance());
        Expected() / sqrt(Variance())
    }

    /** The unclamped Kelly fraction, (p * b - q) / b with odds b. */
    function Star(): real
      requires avgWin > 0.0 && avgLoss > 0.0
    {
      PositiveQuotient(avgWin, avgLoss);
      var b := avgWin / avgLoss;
      (winRate * b - (1.0 - winRate)) / b
    }

    function Kelly(): real {
      if trades < 20 || avgWin <= 0.0 || avgLoss <= 0.0 then 0.0 else Max(0.0, Min(Star(), 1.0))
    }
  }

  /** The derivative in f of the expected log growth p*ln(1+b*f) + (1-p)*ln(1-f). */
  function GrowthSlope(p: real, b: real, f: real): real
    requires 1.0 + b * f > 0.0 && f < 1.0
  {
    p * b / (1.0 + b * f) - (1.0 - p) / (1.0 - f)
  }

  /** The unclamped fraction is the only stationary point of expected log growth, which rises before
      it and falls after it. */
  lemma KellyIsStationary(e: Edge, odds: real, f: real)
    requires e.avgWin > 0.0 && e.avgLoss > 0.0 && odds == e.avgWin / e.avgLoss
    requires f < 1.0 && 1.0 + odds * f > 0.0
    ensures GrowthSlope(e.winRate, odds, f) == 0.0 <==> f == e.Star()
    ensures GrowthSlope(e.winRate, odds, f) > 0.0 <==> f < e.Star()
  {
    hide GrowthSlope;
    PositiveQuotient(e.avgWin, e.avgLoss);
    SlopeSign(e.winRate, odds, f, e.Star());
  }

  lemma SlopeSign(p: real, b: real, f: real, star: real)
    requires b > 0.0 && star == (p * b - (1.0 - p)) / b && f < 1.0 && 1.0 + b * f > 0.0
    ensures GrowthSlope(p, b, f) == 0.0 <==> f == star
    ensures GrowthSlope(p, b, f) > 0.0 <==> f < star
  {
    var u, v := 1.0 + b * f, 1.0 - f;
    FirstOrder(p, b, f, star);
    DifferenceSign(p * b, u, 1.0 - p, v, p * b / u, (1.0 - p) / v);
    SignOfMultiple(star - f, b);
  }

  lemma FirstOrder(p: real, b: real, f: real, star: real)
    requires b > 0.0 && star == (p * b - (1.0 - p)) / b
    ensures p * b * (1.0 - f) - (1.0 - p) * (1.0 + b * f) == (star - f) * b
  {
    assert star * b == p * b - (1.0 - p);
    assert p * b * (1.0 - f) == p * b - p * b * f;
    assert (1.0 - p) * (1.0 + b * f) == (1.0 - p) + b * f - p * (b * f);
    assert p * b * f == p * (b * f);
  }

  /** Two quotients compare as their cross products. */
  lemma DifferenceSign(a: real, u: real, c: real, v: real, x: real, y: real)
    requires u > 0.0 && v > 0.0 && x == a / u && y == c / v
    ensures x - y == 0.0 <==> a * v - c * u == 0.0
    ensures x - y > 0.0 <==> a * v - c * u > 0.0
  {
    assert x * u == a && y * v == c;
    var w := u * v;
    ProductPositive(u, v, w);
    assert a * v == x * w && c * u == y * w;
    assert (x - y) * w == x * w - y * w;
    SignOfMultiple(x - y, w);
  }

  lemma SignOfMultiple(d: real, k: real)
    requires k > 0.0
    ensures d * k == 0.0 <==> d == 0.0
    ensures d * k > 0.0 <==> d > 0.0
  {
    if d > 0.0 {
      ProductPositive(d, k, d * k);
    } else if d < 0.0 {
      ProductPositive(-d, k, (-d) * k);
    }
  }

  /** With enough trades and both kinds of outcome the fraction is (p*w - q*l) / w wherever that lies in
      [0, 1], and the nearer bound elsewhere; otherwise it is zero. */
  lemma KellyMagnitude(e: Edge)
    ensures e.trades < 20 || e.avgWin <= 0.0 || e.avgLoss <= 0.0 ==> e.Kelly() == 0.0
    ensures e.trades >= 20 && e.avgWin > 0.0 && e.avgLoss > 0.0 ==>
              var gain := e.winRate * e.avgWin - (1.0 - e.winRate) * e.avgLoss;
              && (gain <= 0.0 ==> e.Kelly() == 0.0)
              && (gain >= e.avgWin ==> e.Kelly() == 1.0)
              && (0.0 <= gain <= e.avgWin ==> e.Kelly() * e.avgWin == gain)
  {
    if e.trades >= 20 && e.avgWin > 0.0 && e.avgLoss > 0.0 {
      var gain := e.winRate * e.avgWin - (1.0 - e.winRate) * e.avgLoss;
      PositiveQuotient(e.avgWin, e.avgLoss);
      StarTimesWin(e.winRate, e.avgWin, e.avgLoss, e.avgWin / e.avgLoss, e.Star());
      ClampScaled(e.Star(), e.avgWin, gain);
    }
  }

  lemma StarTimesWin(p: real, w: real, l: real, b: real, star: real)
    requires w > 0.0 && l > 0.0 && b > 0.0 && b == w / l && star == (p * b - (1.0 - p)) / b
    ensures star * w == p * w - (1.0 - p) * l
  {
    assert b * l == w;
    assert star * b == p * b - (1.0 - p);
    assert star * (b * l) == (star * b) * l;
    assert (p * b) * l == p * (b * l);
  }

  lemma ClampScaled(star: real, w: real, gain: real)
    requires w > 0.0 && star * w == gain
    ensures var f := Max(0.0, Min(star, 1.0));
            && (gain <= 0.0 ==> f == 0.0) && (gain >= w ==> f == 1.0) && (0.0 <= gain <= w ==> f * w == gain)
  {
    SignOfMultiple(star, w);
    SignOfMultiple(star - 1.0, w);
    assert (star - 1.0) * w == gain - w;
  }

  /** The Kelly fraction is positive exactly when the expectation is. */
  lemma KellyPositiveExactly(e: Edge)
    requires e.trades >= 20 && e.avgWin > 0.0 && e.avgLoss > 0.0
    ensures e.Kelly() > 0.0 <==> e.Expected() > 0.0
    ensures 0.0 <= e.Kelly() <= 1.0
  {
    PositiveQuotient(e.avgWin, e.avgLoss);
    StarSign(e.winRate, e.avgWin, e.avgLoss, e.avgWin / e.avgLoss, e.Star(), e.Expected());
  }

  lemma StarSign(p: real, w: real, l: real, b: real, star: real, expected: real)
    requires w > 0.0 && l > 0.0 && b > 0.0 && b == w / l && star == (p * b - (1.0 - p)) / b
    requires expected == p * w - (1.0 - p) * l
    ensures star > 0.0 <==> expected > 0.0
  {
    assert b * l == w;
    assert star * b == p * b - (1.0 - p);
    var bl := b * l;
    assert star * bl == (star * b) * l;
    assert (p * b) * l == p * (b * l);
    assert star * bl == expected;
    if star > 0.0 {
      ProductPositive(star, bl, star * bl);
    } else {
      MulMono(star, 0.0, bl);
    }
  }

  function Scaled(f: real, factor: real): real {
    f * factor
  }

  /** The cap is the safety share of the fraction, or the highest cap allowed where that is less. */
  ghost predicate IsShareOf(cap: real, f: real, factor: real, most: real) {
    cap <= f * factor && cap <= most && (cap == f * factor || cap == most)
  }

  lemma ScaledCap(f: real, factor: real, most: real)
    ensures IsShareOf(Min(Scaled(f, factor), most), f, factor, most)
  {
  }

  lemma ScaledNonneg(f: real, factor: real)
    requires f >= 0.0 && factor >= 0.0
    ensures Scaled(f, factor) >= 0.0
  {
    ProductNonneg(f, factor, f * factor);
  }

  /** The size cap from the edge estimate, None when there is none to apply. */
  method KellyCap(c: Config, kind: ActionType, edge: Option<Edge>, sqrt: real -> real) returns (cap: Option<real>)
    requires c.Valid() && IsSqrt(sqrt)
    ensures cap == KellyLimit(c, kind, edge, sqrt)
    ensures cap.Some? ==> 0.0 <= cap.value <= c.maxKelly
    ensures cap.Some? ==> IsShareOf(cap.value, edge.value.Kelly(), c.kellySafetyFactor, c.maxKelly)
  {
    hide Edge.Value, Edge.Kelly, Scaled, IsShareOf;
    if c.kellySafetyFactor <= 0.0 || kind.Safe() {
      return None;
    }
    if edge.None? || edge.value.trades < 20 {
      return None;
    }
    if edge.value.Value(sqrt) < c.minEdge {
      return None;
    }
    var f := edge.value.Kelly();
    if f <= 0.0 {
      return None;
    }
    ScaledNonneg(f, c.kellySafetyFactor);
    ScaledCap(f, c.kellySafetyFactor, c.maxKelly);
    return Some(Min(Scaled(f, c.kellySafetyFactor), c.maxKelly));
  }

  ghost function KellyLimit(c: Config, kind: ActionType, edge: Option<Edge>, sqrt: real -> real): Option<real>
    requires IsSqrt(sqrt)
  {
    if || c.kellySafetyFactor <= 0.0 || kind.Safe() || edge.None? || edge.value.trades < 20
       || edge.value.Value(sqrt) < c.minEdge || edge.value.Kelly() <= 0.0
    then None
    else Some(Min(Scaled(edge.value.Kelly(), c.kellySafetyFactor), c.maxKelly))
  }

  // ----- the gate -----

  const TRACKER_DEFAULTS := VpinConfig(1000.0, 60, None, 0.6)

  datatype MarketStats = MarketStats(adv: real, volatility: real, halfSpread: real) {
    predicate Valid() {
      adv > 0.0 && volatility >= 0.0 && halfSpread >= 0.0
    }
  }

  /** Enough buckets have closed and the recent imbalance is at or above its threshold. */
  ghost predicate ToxicBook(c: Config, flows: seq<real>) {
    var w := Run(TRACKER_DEFAULTS.bucketVolume, flows);
    var recent := LastN(w.closed, TRACKER_DEFAULTS.historySize);
    && c.vetoOnToxicity && |recent| >= 4 && |recent| >= c.minToxicityBuckets
    && Mean(recent) >= Threshold(TRACKER_DEFAULTS, w)
  }

  /** The gate never formats a missing ratio: with the default tracker a toxic book has one. */
  lemma ToxicHasRatio(flows: seq<real>, s: VpinState)
    requires IsState(TRACKER_DEFAULTS, Run(TRACKER_DEFAULTS.bucketVolume, flows), s) && s.toxic
    ensures s.quartile.Some? && s.quartile.value >= 1.0
  {
    StateSound(TRACKER_DEFAULTS, flows, s);
  }

  class CircuitBreakerRiskGate {
    var config: Config
    var edges: map<string, Edge>
    var toxicity: map<string, VpinTracker>
    const impact: SquareRootImpactCalibrator
    var stats: map<string, MarketStats>
    var mismatches: set<string>

    ghost predicate Valid()
      reads this, toxicity.Values, impact
    {
      && config.Valid() && impact.Valid()
      && (forall s :: s in toxicity ==> toxicity[s].Valid() && toxicity[s].config == TRACKER_DEFAULTS)
      && (forall s, t :: s in toxicity && t in toxicity && s != t ==> toxicity[s] != toxicity[t])
      && (forall s :: s in stats ==> stats[s].Valid())
    }

    constructor (c: Config)
      requires c.Valid()
      ensures Valid() && config == c && edges == map[] && toxicity == map[] && stats == map[] && mismatches == {}
      ensures fresh(impact) && impact.observations == map[]
      ensures impact.minObservations == if c.minImpactEvidence >= 1 then c.minImpactEvidence else 1
    {
      config := c;
      edges, stats := map[], map[];
      toxicity := map[];
      mismatches := {};
      impact := new SquareRootImpactCalibrator(if c.minImpactEvidence >= 1 then c.minImpactEvidence else 1);
    }

    method SetReconciliationState(symbol: string, consistent: bool)
      requires Valid()
      modifies this`mismatches
      ensures Valid() && mismatches == if consistent then old(mismatches) - {symbol} else old(mismatches) + {symbol}
    {
      mismatches := if consistent then mismatches - {symbol} else mismatches + {symbol};
    }

    method UpdateEdgeEstimate(symbol: string, edge: Edge)
      requires Valid()
      modifies this`edges
      ensures Valid() && edges == old(edges)[symbol := edge]
    {
      edges := edges[symbol := edge];
    }

    method SetMarketStats(symbol: string, s: MarketStats) returns (r: Result<(), ()>)
      requires Valid()
      modifies this`stats
      ensures Valid()
      ensures r.Err? <==> !s.Valid()
      ensures stats == if s.Valid() then old(stats)[symbol := s] else old(stats)
    {
      hide Run, IsState, VpinTracker.Valid, Config.Valid, SquareRootImpactCalibrator.Valid;
      if s.adv <= 0.0 || s.volatility < 0.0 || s.halfSpread < 0.0 {
        return Err(());
      }
      stats := stats[symbol := s];
      return Ok(());
    }

    method RecordImpactFill(symbol: string, quantity: real, slippage: real) returns (r: Result<(), ()>)
      requires Valid()
      modifies impact
      ensures Valid()
      ensures r.Err? <==> symbol !in stats || quantity <= 0.0 || slippage < 0.0
      ensures r.Err? ==> impact.observations == old(impact.observations)
      ensures r.Ok? ==>
                var s := stats[symbol];
                && impact.FillsOf(symbol) ==
                   old(impact.FillsOf(symbol)) + [Fill(quantity, s.adv, s.volatility, slippage, s.halfSpread)]
                && forall t :: t != symbol ==> impact.FillsOf(t) == old(impact.FillsOf(t))
    {
      if symbol !in stats {
        return Err(());
      }
      var s := stats[symbol];
      if quantity <= 0.0 || slippage < 0.0 {
        return Err(());
      }
      impact.Observe(symbol, Fill(quantity, s.adv, s.volatility, slippage, s.halfSpread));
      return Ok(());
    }

    ghost function FlowsOf(symbol: string): seq<real>
      reads this, toxicity.Values
    {
      if symbol in toxicity then toxicity[symbol].flows else []
    }

    method RecordToxicityFlow(symbol: string, signedFlow: real)
      requires Valid()
      modifies this`toxicity, toxicity.Values
      ensures Valid()
      ensures fresh(toxicity.Values - old(toxicity.Values))
      ensures FlowsOf(symbol) == old(FlowsOf(symbol)) + [signedFlow]
      ensures forall t :: t != symbol ==> FlowsOf(t) == old(FlowsOf(t))
    {
      hide Run, IsState, VpinTracker.Valid;
      if symbol !in toxicity {
        AddTracker(symbol);
      }
      var tracker := toxicity[symbol];
      tracker.Record(signedFlow);
    }

    method AddTracker(symbol: string)
      requires Valid() && symbol !in toxicity
      modifies this`toxicity
      ensures Valid() && symbol in toxicity && fresh(toxicity[symbol]) && toxicity[symbol].flows == []
      ensures toxicity == old(toxicity)[symbol := toxicity[symbol]]
    {
      hide Run, IsState, VpinTracker.Valid;
      var tracker := new VpinTracker(TRACKER_DEFAULTS);
      toxicity := toxicity[symbol := tracker];
    }

    /** The order would cost more of the intended reward than the configured share. */
    ghost predicate ImpactTooHigh(p: Proposal, a: Action, mark: Option<real>, sqrt: real -> real)
      requires Valid()
      reads this, toxicity.Values, impact
    {
      && config.vetoOnImpact && mark.Some? && mark.value > 0.0
      && p.plan.Some? && p.plan.value.takeProfit.distance.Some? && p.plan.value.takeProfit.distance.value > 0.0
      && p.symbol in stats
      && Quantity(a.size, p.context.equity, mark.value) > 0.0
      && var s := stats[p.symbol];
      && exists k :: IsEstimate(impact, p.symbol, s, Quantity(a.size, p.context.equity, mark.value), sqrt, k)
           && k > config.maxImpactToReward * (p.plan.value.takeProfit.distance.value * 10000.0)
    }

    method ImpactVeto(p: Proposal, a: Action, mark: Option<real>, sqrt: real -> real) returns (veto: bool)
      requires Valid()
      ensures veto <==> ImpactTooHigh(p, a, mark, sqrt)
    {
      hide IsCalibration, ImpactAt, Vpin.Run, Quantity;
      if !config.vetoOnImpact || mark.None? || mark.value <= 0.0 {
        return false;
      }
      if p.plan.None? || p.plan.value.takeProfit.distance.None? {
        return false;
      }
      var reward := p.plan.value.takeProfit.distance.value * 10000.0;
      if reward <= 0.0 || p.symbol !in stats {
        return false;
      }
      var s := stats[p.symbol];
      var quantity := Quantity(a.size, p.context.equity, mark.value);
      if quantity <= 0.0 {
        return false;
      }
      var estimate := impact.EstimateImpact(p.symbol, quantity, s.adv, s.volatility, s.halfSpread, sqrt);
      if estimate.value.None? {
        NoEstimate(impact, p.symbol, s, quantity, sqrt);
        return false;
      }
      EstimateUnique(impact, p.symbol, s, quantity, sqrt, estimate.value.value);
      return estimate.value.value > config.maxImpactToReward * reward;
    }

    /** No new risk: what the gate rejects a risk-increasing action for. */
    ghost predicate Blocked(p: Proposal, a: Action, mark: Option<real>, sqrt: real -> real)
      requires Valid()
      reads this, toxicity.Values, impact
    {
      || (config.blockOnMismatch && p.symbol in mismatches)
      || ToxicBook(config, FlowsOf(p.symbol))
      || ImpactTooHigh(p, a, mark, sqrt)
      || p.plan.None? || (config.requireBracket && p.plan.value.IsOpenEnded())
      || BreakerTripped(config, p.context)
      || Exhausted(config, p.context)
    }

    ghost function KellyFor(p: Proposal, a: Action, sqrt: real -> real): Option<real>
      requires IsSqrt(sqrt)
      reads this
    {
      KellyLimit(config, a.kind, if p.symbol in edges then Some(edges[p.symbol]) else None, sqrt)
    }

    method IsToxic(symbol: string) returns (toxic: bool)
      requires Valid()
      ensures toxic <==> ToxicBook(config, FlowsOf(symbol))
    {
      if symbol !in toxicity {
        return false;
      }
      var s := toxicity[symbol].State();
      return config.vetoOnToxicity && s.toxic && s.buckets >= config.minToxicityBuckets;
    }

    method Evaluate(p: Proposal, mark: Option<real>, sqrt: real -> real) returns (d: Decision)
      requires Valid() && p.Valid() && IsSqrt(sqrt)
      ensures p.Primary().None? || p.Primary().value.kind.Safe() ==> d == Decision(Approved, None)
      ensures p.Primary().Some? && !p.Primary().value.kind.Safe() ==>
                var a := p.Primary().value;
                && (d.verdict == Rejected <==> Blocked(p, a, mark, sqrt))
                && (d.verdict == Rejected ==> d.size == Some(0.0))
                && (d.verdict != Rejected ==>
                     && p.plan.Some? && d.size.Some?
                     && IsLargestFit(config, p.context, p.plan.value.StopDistance(), KellyFor(p, a, sqrt), a.size,
                                     d.size.value))
                && (d.verdict != Rejected ==>
                     IsSized(config, p.context, p.plan.value, KellyFor(p, a, sqrt), a.size, d.size.value))
                && (d.verdict == Reduced <==> d.verdict != Rejected && d.size.value < a.size)
    {
      hide Run, ToxicBook, IsCalibration, ImpactAt, KellyLimit, IsLargestFit, IsSized, Exhausted, Available,
           ImpactTooHigh, Plan.HasBracket, Plan.IsOpenEnded, BreakerTripped, Fits;
      var primary := p.Primary();
      if primary.None? {
        return Decision(Approved, None);
      }
      var a := primary.value;
      if a.kind == StandAside {
        return Decision(Approved, None);
      }
      if a.kind in {Exit, ScaleOut, ReduceRisk} {
        return Decision(Approved, None);
      }
      if config.blockOnMismatch && p.symbol in mismatches {
        return Decision(Rejected, Some(0.0));
      }
      var toxic := IsToxic(p.symbol);
      if toxic {
        return Decision(Rejected, Some(0.0));
      }
      var veto := ImpactVeto(p, a, mark, sqrt);
      if veto {
        return Decision(Rejected, Some(0.0));
      }
      if p.plan.Some? {
        p.plan.value.BracketExactly();
      }
      if config.requireBracket && (p.plan.None? || !p.plan.value.HasBracket()) {
        return Decision(Rejected, Some(0.0));
      }
      var tripped := CircuitBreakerViolation(config, p.context);
      if tripped {
        return Decision(Rejected, Some(0.0));
      }
      if p.plan.None? {
        return Decision(Rejected, Some(0.0));
      }
      var kelly := KellyCap(config, a.kind, if p.symbol in edges then Some(edges[p.symbol]) else None, sqrt);
      d := Size(config, p.context, p.plan.value.StopDistance(), a.size, kelly);
      if d.verdict != Rejected {
        LargestIsSized(config, p.context, p.plan.value, kelly, a.size, d.size.value);
      }
    }
  }

  function Quantity(size: real, equity: real, mark: real): real
    requires mark > 0.0
  {
    size * equity / mark
  }

  /** `k` is the calibrated cost of an order. */
  ghost predicate IsEstimate(c: SquareRootImpactCalibrator, symbol: string, s: MarketStats, quantity: real,
                             sqrt: real -> real, k: real)
    requires c.Valid() && s.Valid()
    reads c
  {
    && |c.FillsOf(symbol)| >= c.minObservations
    && exists cal :: IsCalibration(symbol, c.FillsOf(symbol), sqrt, cal)
         && k == Max(0.0, ImpactAt(cal.eta, s.volatility, s.halfSpread, quantity / s.adv, sqrt))
  }

  lemma EstimateUnique(c: SquareRootImpactCalibrator, symbol: string, s: MarketStats, quantity: real,
                       sqrt: real -> real, k: real)
    requires c.Valid() && s.Valid() && IsEstimate(c, symbol, s, quantity, sqrt, k)
    ensures forall l :: IsEstimate(c, symbol, s, quantity, sqrt, l) ==> l == k
  {
    hide IsCalibration;
    forall a, b | IsCalibration(symbol, c.FillsOf(symbol), sqrt, a) && IsCalibration(symbol, c.FillsOf(symbol), sqrt, b)
      ensures a.eta == b.eta
    {
      CalibrationUnique(symbol, c.FillsOf(symbol), sqrt, a, b);
    }
  }

  lemma NoEstimate(c: SquareRootImpactCalibrator, symbol: string, s: MarketStats, quantity: real, sqrt: real -> real)
    requires c.Valid() && s.Valid()
    requires |c.FillsOf(symbol)| < c.minObservations || Correlations.IsConstant(Terms(c.FillsOf(symbol), sqrt))
    ensures forall k :: !IsEstimate(c, symbol, s, quantity, sqrt, k)
  {
  }
}
