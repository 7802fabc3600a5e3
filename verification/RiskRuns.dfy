/** What the gate's sizing guarantees over whole runs of approved trades. */
module RiskRuns {
  import opened RealMath
  import opened Grouping
  import opened Wrappers
  import opened RiskGate

  // ----- open risk -----

  /** What happens to the book: a fill books its size times its stop, a close gives risk back. */
  datatype Step = Booked(symbol: string, size: real, stop: real) | Released(symbol: string, amount: real)

  /** Open risk per symbol; a symbol that is not listed has none. */
  type Exposure = map<string, real>

  function RiskOf(e: Exposure, symbol: string): real {
    if symbol in e then e[symbol] else 0.0
  }

  function Total(e: Exposure, symbols: seq<string>): real {
    if |symbols| == 0 then 0.0 else Total(e, symbols[..|symbols| - 1]) + RiskOf(e, symbols[|symbols| - 1])
  }

  function After(e: Exposure, step: Step): Exposure {
    match step
    case Booked(symbol, size, stop) => e[symbol := RiskOf(e, symbol) + Risk(size, stop)]
    case Released(symbol, amount) => e[symbol := RiskOf(e, symbol) - amount]
  }

  /** A fill was approved by the gate for the risk on the book at that time, whatever the rest
      of its context; a close gives back no more than is open. */
  ghost predicate Permitted(c: Config, e: Exposure, symbols: seq<string>, step: Step) {
    && step.symbol in symbols
    && match step
       case Booked(symbol, size, stop) =>
         && stop > 0.0
         && exists x: Context, kelly: Option<real>, requested: real ::
              && x.symbolRisk == RiskOf(e, symbol) && x.portfolioRisk == Total(e, symbols)
              && IsLargestFit(c, x, stop, kelly, requested, size)
       case Released(symbol, amount) => 0.0 <= amount <= RiskOf(e, symbol)
  }

  ghost predicate IsRun(c: Config, symbols: seq<string>, steps: seq<Step>) {
    forall k :: 0 <= k < |steps| ==> Permitted(c, Replay(steps[..k]), symbols, steps[k])
  }

  function Replay(steps: seq<Step>): Exposure {
    if |steps| == 0 then map[] else After(Replay(steps[..|steps| - 1]), steps[|steps| - 1])
  }

  lemma {:induction false} TotalOutside(e: Exposure, symbols: seq<string>, symbol: string, v: real)
    requires symbol !in symbols
    ensures Total(e[symbol := v], symbols) == Total(e, symbols)
  {
    if |symbols| > 0 {
      TotalOutside(e, symbols[..|symbols| - 1], symbol, v);
    }
  }

  lemma {:induction false} TotalMoves(e: Exposure, symbols: seq<string>, symbol: string, v: real)
    requires Distinct(symbols) && symbol in symbols
    ensures Total(e[symbol := v], symbols) == Total(e, symbols) + v - RiskOf(e, symbol)
  {
    var init, last := symbols[..|symbols| - 1], symbols[|symbols| - 1];
    if last == symbol {
      TotalOutside(e, init, symbol, v);
    } else {
      assert symbol in init;
      TotalMoves(e, init, symbol, v);
    }
  }

  // ----- the book as a ledger -----

  /** What a step adds to the open risk of its symbol. */
  function Change(step: Step): real {
    match step
    case Booked(_, size, stop) => Risk(size, stop)
    case Released(_, amount) => -amount
  }

  function Flow(steps: seq<Step>): real {
    if |steps| == 0 then 0.0 else Flow(steps[..|steps| - 1]) + Change(steps[|steps| - 1])
  }

  function FlowIn(steps: seq<Step>, symbol: string): real {
    if |steps| == 0 then 0.0
    else
      var last := steps[|steps| - 1];
      FlowIn(steps[..|steps| - 1], symbol) + if last.symbol == symbol then Change(last) else 0.0
  }

  /** The open risk of a symbol is what its fills booked less what its closes gave back, and over all
      symbols of the run that of all fills and closes. */
  lemma {:induction false} OpenIsBookedLessReleased(steps: seq<Step>, symbols: seq<string>, symbol: string)
    requires Distinct(symbols) && forall k :: 0 <= k < |steps| ==> steps[k].symbol in symbols
    ensures RiskOf(Replay(steps), symbol) == FlowIn(steps, symbol)
    ensures Total(Replay(steps), symbols) == Flow(steps)
  {
    hide Total, Risk;
    if |steps| == 0 {
      NothingOpen(symbols);
    } else {
      var init, last := steps[..|steps| - 1], steps[|steps| - 1];
      OpenIsBookedLessReleased(init, symbols, symbol);
      var e := Replay(init);
      TotalMoves(e, symbols, last.symbol, RiskOf(After(e, last), last.symbol));
    }
  }

  /** In every run of fills and closes, no symbol and not the whole portfolio ever carries more
      risk than its budget, and no risk is negative. */
  lemma {:induction false} BudgetsHoldForever(c: Config, symbols: seq<string>, steps: seq<Step>)
    requires c.Valid() && Distinct(symbols) && IsRun(c, symbols, steps)
    ensures forall s :: 0.0 <= RiskOf(Replay(steps), s) <= c.maxRiskPerSymbol
    ensures Total(Replay(steps), symbols) <= c.maxPortfolioRisk
  {
    if |steps| == 0 {
      NothingOpen(symbols);
    } else {
      var init, step := steps[..|steps| - 1], steps[|steps| - 1];
      assert forall k :: 0 <= k < |init| ==> init[..k] == steps[..k];
      BudgetsHoldForever(c, symbols, init);
      var e := Replay(init);
      assert Permitted(c, e, symbols, step);
      StepKeeps(c, symbols, e, step);
    }
  }

  lemma {:induction false} NothingOpen(symbols: seq<string>)
    ensures Total(map[], symbols) == 0.0
  {
    if |symbols| > 0 {
      NothingOpen(symbols[..|symbols| - 1]);
    }
  }

  lemma StepKeeps(c: Config, symbols: seq<string>, e: Exposure, step: Step)
    requires c.Valid() && Distinct(symbols) && Permitted(c, e, symbols, step)
    requires forall s :: 0.0 <= RiskOf(e, s) <= c.maxRiskPerSymbol
    requires Total(e, symbols) <= c.maxPortfolioRisk
    ensures forall s :: 0.0 <= RiskOf(After(e, step), s) <= c.maxRiskPerSymbol
    ensures Total(After(e, step), symbols) <= c.maxPortfolioRisk
  {
    var v := RiskOf(After(e, step), step.symbol);
    TotalMoves(e, symbols, step.symbol, v);
    if step.Booked? {
      var x: Context, kelly: Option<real>, requested: real :|
        && x.symbolRisk == RiskOf(e, step.symbol) && x.portfolioRisk == Total(e, symbols)
        && IsLargestFit(c, x, step.stop, kelly, requested, step.size);
      ApprovedFits(c, x, step.stop, kelly, requested, step.size);
    }
    assert 0.0 <= v <= c.maxRiskPerSymbol;
    forall s ensures 0.0 <= RiskOf(After(e, step), s) <= c.maxRiskPerSymbol {
      assert s != step.symbol ==> RiskOf(After(e, step), s) == RiskOf(e, s);
    }
  }

  /** An approved size keeps every limit itself. */
  lemma ApprovedFits(c: Config, x: Context, stop: real, kelly: Option<real>, requested: real, size: real)
    requires IsLargestFit(c, x, stop, kelly, requested, size) && stop > 0.0
    ensures Fits(c, x, stop, kelly, size) && Risk(size, stop) >= 0.0
  {
    ProductNonneg(size, stop, Risk(size, stop));
  }

  /** The gate lets a size through in this context, for some request and some edge estimate. */
  ghost predicate Approves(c: Config, x: Context, stop: real, size: real) {
    && !BreakerTripped(c, x) && !Exhausted(c, x)
    && exists kelly: Option<real>, requested: real ::
         0.0 < requested <= 1.0 && IsLargestFit(c, x, stop, kelly, requested, size)
  }

  /** What the gate decides on a proposal whose context reports the open risk, when it does not
      reject it, is an approval and such a fill. */
  method DecisionIsPermitted(gate: CircuitBreakerRiskGate, e: Exposure, symbols: seq<string>, p: Proposal,
                             mark: Option<real>, sqrt: real -> real)
    returns (d: Decision)
    requires gate.Valid() && p.Valid() && IsSqrt(sqrt) && p.symbol in symbols
    requires p.Primary().Some? && !p.Primary().value.kind.Safe()
    requires p.context.symbolRisk == RiskOf(e, p.symbol) && p.context.portfolioRisk == Total(e, symbols)
    ensures d.verdict == Rejected <==> gate.Blocked(p, p.Primary().value, mark, sqrt)
    ensures d.verdict != Rejected ==>
              && p.plan.Some? && d.size.Some?
              && Approves(gate.config, p.context, p.plan.value.StopDistance(), d.size.value)
              && Permitted(gate.config, e, symbols, Booked(p.symbol, d.size.value, p.plan.value.StopDistance()))
  {
    hide IsLargestFit, ToxicBook, BreakerTripped, Exhausted, CircuitBreakerRiskGate.ImpactTooHigh, KellyLimit, Total;
    d := gate.Evaluate(p, mark, sqrt);
    PrimaryInRange(p);
  }

  lemma PrimaryInRange(p: Proposal)
    requires p.Valid() && p.Primary().Some?
    ensures 0.0 < p.Primary().value.size <= 1.0
  {
    assert p.Primary().value in p.actions;
  }

  /** A fill can be closed again for all it risks, which leaves every symbol with the risk it had. */
  lemma ClosingUndoes(c: Config, e: Exposure, symbols: seq<string>, symbol: string, size: real, stop: real)
    requires Permitted(c, e, symbols, Booked(symbol, size, stop)) && RiskOf(e, symbol) >= 0.0
    ensures var t, closing := After(e, Booked(symbol, size, stop)), Released(symbol, Risk(size, stop));
            && Permitted(c, t, symbols, closing)
            && forall s :: RiskOf(After(t, closing), s) == RiskOf(e, s)
  {
    hide IsLargestFit, Total, Risk;
    FillRisks(c, e, symbols, symbol, size, stop);
  }

  lemma FillRisks(c: Config, e: Exposure, symbols: seq<string>, symbol: string, size: real, stop: real)
    requires Permitted(c, e, symbols, Booked(symbol, size, stop))
    ensures Risk(size, stop) >= 0.0
  {
    var x: Context, kelly: Option<real>, requested: real :| IsLargestFit(c, x, stop, kelly, requested, size);
    ApprovedFits(c, x, stop, kelly, requested, size);
  }

  // ----- realised losses -----

  function Lose(x: Context, loss: real): Context {
    x.(dailyLoss := x.dailyLoss + loss, monthlyLoss := x.monthlyLoss + loss, totalLoss := x.totalLoss + loss,
       drawdown := x.drawdown + loss)
  }

  /** Trades taken one at a time, each losing at most what its bracket risks. */
  ghost predicate LosingStreak(c: Config, x: Context, losses: seq<real>) {
    forall k :: 0 <= k < |losses| ==> LossBracketed(c, StreakAt(x, losses[..k]), losses[k])
  }

  ghost predicate LossBracketed(c: Config, x: Context, loss: real) {
    exists stop: real, kelly: Option<real>, requested: real, size: real ::
      stop > 0.0 && loss <= Risk(size, stop) && IsLargestFit(c, x, stop, kelly, requested, size)
  }

  function StreakAt(x: Context, losses: seq<real>): Context {
    if |losses| == 0 then x else Lose(StreakAt(x, losses[..|losses| - 1]), losses[|losses| - 1])
  }

  /** Over a streak every loss measure grows by all losses together. */
  lemma {:induction false} StreakAddsUp(x: Context, losses: seq<real>)
    ensures var y, lost := StreakAt(x, losses), Sum(losses);
            y == x.(dailyLoss := x.dailyLoss + lost, monthlyLoss := x.monthlyLoss + lost,
                    totalLoss := x.totalLoss + lost, drawdown := x.drawdown + lost)
  {
    if |losses| > 0 {
      StreakAddsUp(x, losses[..|losses| - 1]);
    }
  }

  lemma AvailableBelow(c: Config, x: Context)
    requires !BreakerTripped(c, x)
    ensures 0.0 < Available(c, x)
    ensures Available(c, x) <= c.maxDailyLoss - x.dailyLoss && Available(c, x) <= c.maxMonthlyLoss - x.monthlyLoss
    ensures Available(c, x) <= c.maxDrawdown - x.drawdown && Available(c, x) <= c.maxTotalLoss - x.totalLoss
  {
  }

  lemma PartOfBudget(fraction: real, available: real, budget: real)
    requires fraction < 1.0 && available > 0.0 && budget == fraction * available
    ensures budget < available
  {
    MulStrict(fraction, 1.0, available);
  }

  /** One bracketed loss leaves every breaker untripped when less than the whole budget is staked. */
  lemma BracketedLossKeepsTrading(c: Config, x: Context, loss: real)
    requires c.Valid() && c.maxFractionOfBudget < 1.0 && !BreakerTripped(c, x) && LossBracketed(c, x, loss)
    ensures !BreakerTripped(c, Lose(x, loss))
  {
    hide Available, Risk;
    var stop: real, kelly: Option<real>, requested: real, size: real :|
      stop > 0.0 && loss <= Risk(size, stop) && IsLargestFit(c, x, stop, kelly, requested, size);
    ApprovedFits(c, x, stop, kelly, requested, size);
    AvailableBelow(c, x);
    PartOfBudget(c.maxFractionOfBudget, Available(c, x), Budget(c, x));
  }

  /** However many bracketed losses follow one another, they alone never trip a loss breaker. */
  lemma {:induction false} LosingStreakNeverTrips(c: Config, x: Context, losses: seq<real>)
    requires c.Valid() && c.maxFractionOfBudget < 1.0 && !BreakerTripped(c, x) && LosingStreak(c, x, losses)
    ensures !BreakerTripped(c, StreakAt(x, losses))
  {
    if |losses| > 0 {
      var init := losses[..|losses| - 1];
      assert forall k :: 0 <= k < |init| ==> init[..k] == losses[..k];
      LosingStreakNeverTrips(c, x, init);
      assert LossBracketed(c, StreakAt(x, losses[..|init|]), losses[|init|]);
      BracketedLossKeepsTrading(c, StreakAt(x, init), losses[|init|]);
    }
  }

  /** The budget is divided per trade, not across open trades: with the default limits and four
      percent lost today, the gate approves two positions in different symbols that each risk one
      percent, and the two stops together reach the daily limit. */
  lemma ConcurrentLossesTrip()
    ensures var first := Context(1.0, 0.0, 0.04, 0.04, 0.04, 0.04, 0.0, 0.0);
            var second := first.(openExposure := 0.05, portfolioRisk := 0.01);
            && !BreakerTripped(DEFAULTS, first) && !Exhausted(DEFAULTS, first) && !Exhausted(DEFAULTS, second)
            && IsLargestFit(DEFAULTS, first, 0.2, None, 0.05, 0.05)
            && IsLargestFit(DEFAULTS, second, 0.2, None, 0.05, 0.05)
            && BreakerTripped(DEFAULTS, Lose(Lose(first, Risk(0.05, 0.2)), Risk(0.05, 0.2)))
  {
  }

  lemma RiskOrder(size: real, d: real, e: real)
    requires size >= 0.0
    ensures d <= e ==> Risk(size, d) <= Risk(size, e)
    ensures size > 0.0 && d < e ==> Risk(size, d) < Risk(size, e)
    ensures Risk(1.0, d) == d
  {
    var p, q := Risk(size, d), Risk(size, e);
    assert q - p == (e - d) * size;
    if d <= e {
      ProductNonneg(e - d, size, q - p);
    }
    if size > 0.0 && d < e {
      ProductPositive(e - d, size, q - p);
    }
  }

  lemma RiskMono(s: real, t: real, d: real)
    requires s <= t && d >= 0.0
    ensures Risk(s, d) <= Risk(t, d)
  {
    MulMono(s, t, d);
  }
}
