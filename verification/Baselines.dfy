/** The baseline strategies, the metrics computed from a simulation, and the evaluation
    that validates its inputs before it simulates. */
module Baselines {
  import opened Wrappers
  import opened RealMath
  import opened Backtesting
  import opened BacktestLaws

  function Compare(x: real, y: real): real {
    if x > y then 1.0 else if x < y then -1.0 else 0.0
  }

  /** The windows are the ones the strategies' constructors accept. */
  datatype Strategy =
    | AlwaysFlat
    | AlwaysLong
    | MovingAverageCrossover(fast: nat, slow: nat)
    | Momentum(lookback: nat)
  {
    predicate WellFormed() {
      match this
      case MovingAverageCrossover(fast, slow) => 1 <= fast < slow
      case Momentum(lookback) => 1 <= lookback
      case _ => true
    }

    function TargetAt(prices: seq<real>, i: nat): real
      requires WellFormed() && i < |prices|
    {
      match this
      case AlwaysFlat => 0.0
      case AlwaysLong => 1.0
      case MovingAverageCrossover(fast, slow) =>
        if i + 1 < slow then 0.0
        else Compare(Mean(prices[i + 1 - fast..i + 1]), Mean(prices[i + 1 - slow..i + 1]))
      case Momentum(lookback) =>
        if i < lookback then 0.0 else Compare(prices[i], prices[i - lookback])
    }

    function Targets(prices: seq<real>): (t: seq<real>)
      requires WellFormed()
      ensures |t| == |prices| && forall i :: 0 <= i < |t| ==> t[i] == TargetAt(prices, i) && IsTarget(t[i])
    {
      seq(|prices|, i requires 0 <= i < |prices| => TargetAt(prices, i))
    }
  }

  /** The two reference strategies never trade, and hold from the first bar to the last. */
  lemma ReferenceTargets(prices: seq<real>)
    ensures AlwaysFlat.Targets(prices) == seq(|prices|, _ => 0.0)
    ensures AlwaysLong.Targets(prices) == seq(|prices|, _ => 1.0)
  {
  }

  /** A crossover is long exactly while the average over the fast window is above that over the slow
      one, short exactly while it is below, and waits until the slow window is full. */
  lemma CrossoverDirection(fast: nat, slow: nat, prices: seq<real>, i: nat)
    requires 1 <= fast < slow && i < |prices|
    ensures var t := MovingAverageCrossover(fast, slow).TargetAt(prices, i);
            && (i + 1 < slow ==> t == 0.0)
            && (i + 1 >= slow ==>
                 var recent, all := Sum(prices[i + 1 - fast..i + 1]), Sum(prices[i + 1 - slow..i + 1]);
                 && (t > 0.0 <==> recent * slow as real > all * fast as real)
                 && (t < 0.0 <==> recent * slow as real < all * fast as real))
  {
    if i + 1 >= slow {
      var recent, all := Sum(prices[i + 1 - fast..i + 1]), Sum(prices[i + 1 - slow..i + 1]);
      MeansCompare(recent, fast as real, all, slow as real);
    }
  }

  lemma MeansCompare(a: real, m: real, b: real, n: real)
    requires m > 0.0 && n > 0.0
    ensures a / m > b / n <==> a * n > b * m
    ensures a / m < b / n <==> a * n < b * m
  {
    var x, y := a / m, b / n;
    assert x * m == a && y * n == b;
    var k := m * n;
    ProductPositive(m, n, k);
    assert a * n == x * k && b * m == y * k;
    if x > y {
      MulStrict(y, x, k);
    } else if x < y {
      MulStrict(x, y, k);
    }
  }

  /** Momentum is long exactly while the price is above the one a lookback ago, short exactly while it
      is below. */
  lemma MomentumDirection(lookback: nat, prices: seq<real>, i: nat)
    requires 1 <= lookback && i < |prices|
    ensures var t := Momentum(lookback).TargetAt(prices, i);
            && (i < lookback ==> t == 0.0)
            && (i >= lookback ==>
                 (t > 0.0 <==> prices[i] > prices[i - lookback]) && (t < 0.0 <==> prices[i] < prices[i - lookback]))
  {
  }

  /** `MovingAverageCrossoverBaseline.targets`. */
  method CrossoverTargets(fast: nat, slow: nat, prices: seq<real>) returns (targets: seq<real>)
    requires 1 <= fast < slow
    ensures targets == MovingAverageCrossover(fast, slow).Targets(prices)
  {
    targets := [];
    for i := 0 to |prices|
      invariant |targets| == i
      invariant forall k :: 0 <= k < i ==> targets[k] == MovingAverageCrossover(fast, slow).TargetAt(prices, k)
    {
      if i + 1 < slow {
        targets := targets + [0.0];
      } else {
        var fastMean := Sum(prices[i + 1 - fast..i + 1]) / fast as real;
        var slowMean := Sum(prices[i + 1 - slow..i + 1]) / slow as real;
        if fastMean > slowMean {
          targets := targets + [1.0];
        } else if fastMean < slowMean {
          targets := targets + [-1.0];
        } else {
          targets := targets + [0.0];
        }
      }
    }
  }

  /** `MomentumBaseline.targets`. */
  method MomentumTargets(lookback: nat, prices: seq<real>) returns (targets: seq<real>)
    requires 1 <= lookback
    ensures targets == Momentum(lookback).Targets(prices)
  {
    targets := [];
    for i := 0 to |prices|
      invariant |targets| == i
      invariant forall k :: 0 <= k < i ==> targets[k] == Momentum(lookback).TargetAt(prices, k)
    {
      if i < lookback {
        targets := targets + [0.0];
      } else if prices[i] > prices[i - lookback] {
        targets := targets + [1.0];
      } else if prices[i] < prices[i - lookback] {
        targets := targets + [-1.0];
      } else {
        targets := targets + [0.0];
      }
    }
  }

  // ----- no look-ahead -----

  lemma TargetIsPrefixStable(s: Strategy, prices: seq<real>, n: nat, i: nat)
    requires s.WellFormed() && i < n <= |prices|
    ensures s.TargetAt(prices[..n], i) == s.TargetAt(prices, i)
  {
    match s {
      case MovingAverageCrossover(fast, slow) =>
        if i + 1 >= slow {
          assert prices[..n][i + 1 - fast..i + 1] == prices[i + 1 - fast..i + 1];
          assert prices[..n][i + 1 - slow..i + 1] == prices[i + 1 - slow..i + 1];
        }
      case _ =>
    }
  }

  /** The targets of a prefix are the prefix of the targets: no later price matters. */
  lemma TargetsArePrefixStable(s: Strategy, prices: seq<real>, n: nat)
    requires s.WellFormed() && n <= |prices|
    ensures s.Targets(prices[..n]) == s.Targets(prices)[..n]
  {
    hide Strategy.TargetAt;
    forall i | 0 <= i < n ensures s.Targets(prices[..n])[i] == s.Targets(prices)[..n][i] {
      TargetIsPrefixStable(s, prices, n, i);
    }
  }

  /** Backtests of one strategy at one cost over two price series that agree on their first n bars
      give equal targets and equal equity on those bars, except where one series ends and its own
      closing cost is charged. */
  lemma NoLookAhead(s: Strategy, b: Backtest, c: Backtest, n: nat, i: nat)
    requires s.WellFormed() && b.Valid() && c.Valid() && b.rate == c.rate && b.start == c.start
    requires b.targets == s.Targets(b.prices) && c.targets == s.Targets(c.prices)
    requires n <= |b.prices| && n <= |c.prices| && b.prices[..n] == c.prices[..n] && i < n && i < |c.prices| - 1
    ensures b.targets[i] == c.targets[i]
    ensures b.CurveAt(i) == if i == |b.prices| - 1 && b.targets[i] != 0.0
                            then c.CurveAt(i) - b.Cost(c.CurveAt(i)) else c.CurveAt(i)
  {
    TargetsArePrefixStable(s, b.prices, n);
    TargetsArePrefixStable(s, c.prices, n);
    assert AgreeUpTo(b, c, n);
    BarsAgree(b, c, n, i);
    if i > 0 {
      CurvesAgree(b, c, n, i);
    }
  }

  // ----- what a crossover compares -----

  lemma {:induction false} SumConcat(v: seq<real>, w: seq<real>)
    ensures Sum(v + w) == Sum(v) + Sum(w)
  {
    if |w| == 0 {
      assert v + w == v;
    } else {
      var w' := w[..|w| - 1];
      SumConcat(v, w');
      assert (v + w)[..|v + w| - 1] == v + w';
    }
  }

  /** The crossover is long exactly when the last `fast` prices average above the
      `slow - fast` prices before them, although the two windows it compares overlap. */
  lemma CrossoverComparesRecentWithOlder(fast: nat, slow: nat, prices: seq<real>, i: nat)
    requires 1 <= fast < slow <= i + 1 && i < |prices|
    ensures MovingAverageCrossover(fast, slow).TargetAt(prices, i)
         == Compare(Mean(prices[i + 1 - fast..i + 1]), Mean(prices[i + 1 - slow..i + 1 - fast]))
  {
    var older, recent := prices[i + 1 - slow..i + 1 - fast], prices[i + 1 - fast..i + 1];
    assert prices[i + 1 - slow..i + 1] == older + recent;
    SumConcat(older, recent);
    MixtureOrder(Mean(recent), Mean(older), Mean(older + recent), fast as real, (slow - fast) as real);
  }

  lemma MixtureOrder(x: real, y: real, m: real, f: real, g: real)
    requires f > 0.0 && g > 0.0 && m * (f + g) == x * f + y * g
    ensures Compare(x, m) == Compare(x, y)
  {
    assert (x - m) * (f + g) == (x - y) * g;
    SameSign(x - m, f + g, (x - m) * (f + g));
    SameSign(x - y, g, (x - y) * g);
  }

  lemma SameSign(d: real, k: real, p: real)
    requires k > 0.0 && p == d * k
    ensures (p > 0.0 <==> d > 0.0) && (p < 0.0 <==> d < 0.0)
  {
    if d > 0.0 {
      ProductPositive(d, k, p);
    } else if d < 0.0 {
      ProductPositive(-d, k, -p);
    }
  }

  // ----- drawdown -----

  /** The highest value seen up to and including bar i. */
  function PeakAt(e: seq<real>, i: nat): (p: real)
    requires i < |e|
    ensures forall k :: 0 <= k <= i ==> e[k] <= p
    ensures exists k :: 0 <= k <= i && e[k] == p
  {
    if i == 0 then e[0] else Max(PeakAt(e, i - 1), e[i])
  }

  function Fall(peak: real, value: real): real {
    if peak > 0.0 then (peak - value) / peak else 0.0
  }

  function DrawdownAt(e: seq<real>, i: nat): real
    requires i < |e|
  {
    Fall(PeakAt(e, i), e[i])
  }

  /** A running peak is updated by the larger value, and the fall is measured from it. */
  lemma RunningPeak(e: seq<real>, i: nat)
    requires i < |e|
    ensures i > 0 ==> PeakAt(e, i) == if e[i] > PeakAt(e, i - 1) then e[i] else PeakAt(e, i - 1)
    ensures i == 0 ==> PeakAt(e, 0) == e[0]
    ensures DrawdownAt(e, i) == Fall(PeakAt(e, i), e[i])
  {
  }

  lemma NoFallAtStart(e: seq<real>)
    requires |e| > 0
    ensures DrawdownAt(e, 0) == 0.0
  {
  }

  /** `_max_drawdown_pct`: the deepest fall from a running peak, in percent. */
  method MaxDrawdownPct(equity: seq<real>) returns (pct: real)
    requires |equity| > 0
    ensures forall i :: 0 <= i < |equity| ==> DrawdownAt(equity, i) * 100.0 <= pct
    ensures pct >= 0.0
    ensures exists i :: 0 <= i < |equity| && DrawdownAt(equity, i) * 100.0 == pct
  {
    hide Fall, PeakAt, DrawdownAt;
    var peak := equity[0];
    var worst := 0.0;
    ghost var at := 0;
    NoFallAtStart(equity);
    for i := 0 to |equity|
      invariant i > 0 ==> peak == PeakAt(equity, i - 1)
      invariant i == 0 ==> peak == equity[0]
      invariant worst >= 0.0 && 0 <= at < |equity| && DrawdownAt(equity, at) == worst
      invariant forall k :: 0 <= k < i ==> DrawdownAt(equity, k) <= worst
    {
      var value := equity[i];
      if value > peak {
        peak := value;
      }
      RunningPeak(equity, i);
      var drawdown := Fall(peak, value);
      if drawdown > worst {
        worst := drawdown;
        at := i;
      }
    }
    pct := worst * 100.0;
    assert DrawdownAt(equity, at) * 100.0 == pct;
  }

  /** On a curve that is never negative the running-peak drawdown is the worst fall between
      any two bars, whichever earlier bar it is measured from. */
  lemma DrawdownIsWorstFall(e: seq<real>, i: nat, j: nat)
    requires i <= j < |e| && e[i] > 0.0 && e[j] >= 0.0
    ensures (e[i] - e[j]) / e[i] <= DrawdownAt(e, j) <= 1.0
    ensures exists k :: 0 <= k <= j && e[k] > 0.0 && DrawdownAt(e, j) == (e[k] - e[j]) / e[k]
  {
    var p, v := PeakAt(e, j), e[j];
    assert e[i] <= p;
    FallFromHigher(e[i], p, v);
  }

  lemma FallRatio(x: real, v: real, a: real)
    requires x > 0.0 && a == v / x
    ensures a * x == v && (x - v) / x == 1.0 - a
  {
    DivUnique(x - v, x, 1.0 - a);
  }

  /** A larger divisor gives a smaller share. */
  lemma ShareOrder(x: real, p: real, v: real, a: real, b: real)
    requires 0.0 < x <= p && v >= 0.0 && a * x == v && b * p == v
    ensures 0.0 <= b <= a
  {
    NonnegativeFactor(a, x, v);
    NonnegativeFactor(b, p, v);
    if b > a {
      MulStrict(a, b, p);
      MulMono(x, p, a);
    }
  }

  lemma NonnegativeFactor(a: real, x: real, v: real)
    requires x > 0.0 && v >= 0.0 && a * x == v
    ensures a >= 0.0
  {
    if a < 0.0 {
      MulStrict(a, 0.0, x);
    }
  }

  lemma FallFromHigher(x: real, p: real, v: real)
    requires 0.0 < x <= p && v >= 0.0
    ensures (x - v) / x <= (p - v) / p <= 1.0
  {
    FallRatio(x, v, v / x);
    FallRatio(p, v, v / p);
    ShareOrder(x, p, v, v / x, v / p);
  }

  // ----- the evaluation -----

  datatype Report = Report(
    finalEquity: real, totalReturnPct: real, buyAndHoldReturnPct: real, excessReturnPct: real,
    maxDrawdownPct: real, numTrades: nat, winRate: real, transactionCostPct: real,
    exposurePct: real, curve: seq<real>)

  function FirstError(targets: seq<real>, prices: seq<real>, start: real): Option<Error> {
    if start <= 0.0 then Some(BadStartingEquity)
    else if |prices| < 2 then Some(TooFewBars)
    else if exists i :: 0 <= i < |prices| && prices[i] <= 0.0 then Some(NonPositivePrice)
    else if |targets| != |prices| then Some(WrongTargetCount)
    else if exists i :: 0 <= i < |targets| && !IsTarget(targets[i]) then Some(InvalidTarget)
    else None
  }

  lemma NoErrorIffValid(rate: real, targets: seq<real>, prices: seq<real>, start: real)
    ensures FirstError(targets, prices, start).None? <==> Backtest(rate, prices, targets, start).Valid()
  {
  }

  /** What a report must say about the backtest it was computed from. */
  ghost predicate Describes(b: Backtest, q: Report)
    requires b.Valid()
  {
    var n := |b.prices|;
    && q.numTrades == |b.Runs()|
    && q.totalReturnPct == (Pow(1.0 - b.rate, 2 * q.numTrades) * b.Growth(0, n - 1) - 1.0) * 100.0
    && q.finalEquity == b.CurveAt(n - 1)
    && q.excessReturnPct == q.totalReturnPct - q.buyAndHoldReturnPct
    && q.buyAndHoldReturnPct == (BuyAndHold(b.rate, b.prices, b.start) / b.start - 1.0) * 100.0
    && q.transactionCostPct * b.start == (b.start + b.Pnl(n - 1) - q.finalEquity) * 100.0
    && q.exposurePct * (n - 1) as real == b.Exposure(n - 1) as real * 100.0
    && IsWinRate(b, q.winRate)
    && |q.curve| == n && (forall i :: 0 <= i < n ==> q.curve[i] == b.CurveAt(i))
    && (forall i :: 0 <= i < n ==> DrawdownAt(q.curve, i) * 100.0 <= q.maxDrawdownPct)
    && (exists i :: 0 <= i < n && DrawdownAt(q.curve, i) * 100.0 == q.maxDrawdownPct)
  }

  /** The share of round trips with a positive net return, and 1 when there is none. */
  ghost predicate IsWinRate(b: Backtest, rate: real)
    requires b.Valid()
  {
    exists trades, wins :: b.Booked(b.Runs(), trades, wins) && 0.0 <= rate <= 1.0 &&
                           if |trades| == 0 then rate == 1.0 else rate * |trades| as real == wins as real
  }

  /** The metrics `evaluate` computes from a finished simulation. */
  method Score(b: Backtest, s: Simulation) returns (q: Report)
    requires b.Valid() && b.Booked(b.Runs(), s.trades, s.wins) && s.exposure == b.Exposure(|b.prices| - 1)
    requires |s.curve| == |b.prices| && forall i :: 0 <= i < |s.curve| ==> s.curve[i] == b.CurveAt(i)
    requires s.curve[|b.prices| - 1] == b.Compounded(2 * |s.trades|, |b.prices| - 1)
    requires s.curve[|b.prices| - 1] + s.costsPaid == b.start + b.Pnl(|b.prices| - 1)
    ensures Describes(b, q)
  {
    hide Pow, Backtest.Growth, Backtest.Compounded, Backtest.CurveAt, Backtest.Pnl, Backtest.Runs, Backtest.Exposure,
         Backtest.Booked, BuyAndHold, DrawdownAt, IsWinRate;
    var n := |b.prices|;
    b.BookedLength(b.Runs(), s.trades, s.wins);
    var final := s.curve[n - 1];
    var reference := BuyAndHold(b.rate, b.prices, b.start);
    var totalReturn := (final / b.start - 1.0) * 100.0;
    var referenceReturn := (reference / b.start - 1.0) * 100.0;
    var drawdown := MaxDrawdownPct(s.curve);
    var winRate := if |s.trades| > 0 then s.wins as real / |s.trades| as real else 1.0;
    var exposurePct := (s.exposure as real / (n - 1) as real) * 100.0;
    var costPct := (s.costsPaid / b.start) * 100.0;
    EquityRatio(b, 2 * |s.trades|, n - 1);
    WinRateHolds(b, s, winRate);
    PercentOf(s.exposure as real, (n - 1) as real);
    PercentOf(s.costsPaid, b.start);
    return Report(final, totalReturn, referenceReturn, totalReturn - referenceReturn, drawdown, |s.trades|,
                  winRate, costPct, exposurePct, s.curve);
  }

  lemma WinRateHolds(b: Backtest, s: Simulation, rate: real)
    requires b.Valid() && b.Booked(b.Runs(), s.trades, s.wins)
    requires rate == if |s.trades| > 0 then s.wins as real / |s.trades| as real else 1.0
    ensures IsWinRate(b, rate)
  {
    hide Backtest.Booked, Backtest.Runs;
    b.WinsWithinTrades(b.Runs(), s.trades, s.wins);
    if |s.trades| > 0 {
      QuotientBounds(s.wins as real, |s.trades| as real, 0.0, 1.0);
    }
  }

  /** The total return is the final equity over the starting equity, less one, in percent. */
  lemma TotalReturnIsFinal(b: Backtest, q: Report)
    requires b.Valid() && Describes(b, q)
    ensures q.totalReturnPct == (q.finalEquity / b.start - 1.0) * 100.0
  {
    hide Pow, Describes, Backtest.Growth, Backtest.Compounded, Backtest.CurveAt, Backtest.Runs;
    FinalFills(b);
    DescribedReturn(b, q);
    EquityRatio(b, 2 * |b.Runs()|, |b.prices| - 1);
  }

  lemma DescribedReturn(b: Backtest, q: Report)
    requires b.Valid() && Describes(b, q)
    ensures var last := |b.prices| - 1;
            && q.finalEquity == b.CurveAt(last)
            && q.totalReturnPct == (Pow(1.0 - b.rate, 2 * |b.Runs()|) * b.Growth(0, last) - 1.0) * 100.0
  {
    hide Pow, Backtest.Growth, Backtest.CurveAt, Backtest.Runs, BuyAndHold, DrawdownAt, Backtest.Pnl,
         Backtest.Exposure, IsWinRate;
  }

  lemma FinalFills(b: Backtest)
    requires b.Valid()
    ensures b.CurveAt(|b.prices| - 1) == b.Compounded(2 * |b.Runs()|, |b.prices| - 1)
  {
  }

  lemma PercentOf(x: real, y: real)
    requires y != 0.0
    ensures (x / y) * 100.0 * y == x * 100.0
  {
    assert (x / y) * y == x;
  }

  /** `evaluate` for the targets a strategy returned: refuse bad inputs in a fixed order,
      simulate, and report in percent of the starting equity. */
  method Evaluate(rate: real, targets: seq<real>, prices: seq<real>, start: real)
    returns (r: Result<Report, Error>)
    ensures var b := Backtest(rate, prices, targets, start);
            && (FirstError(targets, prices, start).None? <==> b.Valid())
            && (r.Err? <==> !b.Valid() || b.OpensOnNothing())
            && (!b.Valid() ==> r == Err(FirstError(targets, prices, start).value))
            && (b.Valid() && r.Err? ==> r.error == DivisionByZero)
            && (r.Ok? ==> Describes(b, r.value))
  {
    hide Backtest.OpensOnNothing, Describes;
    if start <= 0.0 {
      return Err(BadStartingEquity);
    }
    if |prices| < 2 {
      return Err(TooFewBars);
    }
    if exists i :: 0 <= i < |prices| && prices[i] <= 0.0 {
      return Err(NonPositivePrice);
    }
    if |targets| != |prices| {
      return Err(WrongTargetCount);
    }
    if exists i :: 0 <= i < |targets| && !IsTarget(targets[i]) {
      return Err(InvalidTarget);
    }
    var b := Backtest(rate, prices, targets, start);
    var simulated := Simulate(b);
    if simulated.Err? {
      return Err(simulated.error);
    }
    var report := Score(b, simulated.value);
    return Ok(report);
  }

  lemma EquityRatio(b: Backtest, fills: nat, i: nat)
    requires b.Valid() && i < |b.prices|
    ensures b.Compounded(fills, i) / b.start == Pow(1.0 - b.rate, fills) * b.Growth(0, i)
  {
    hide Pow, Backtest.Growth;
    var p, g := Pow(1.0 - b.rate, fills), b.Growth(0, i);
    assert b.start * p * g == (p * g) * b.start;
    DivCancel(p * g, b.start);
  }

  /** The exposure counts all n bars but is divided by n-1, so it passes 100 percent
      exactly when no bar is flat. */
  lemma ExposureAboveHundred(b: Backtest, pct: real)
    requires b.Valid() && pct * (|b.prices| - 1) as real == b.Exposure(|b.prices| - 1) as real * 100.0
    ensures pct > 100.0 <==> forall i :: 0 <= i < |b.targets| ==> b.targets[i] != 0.0
  {
    hide Backtest.Exposure;
    var last := |b.prices| - 1;
    ExposureBound(b, last);
    AboveHundred(pct, last as real, b.Exposure(last) as real);
  }

  lemma AboveHundred(pct: real, bars: real, exposed: real)
    requires bars > 0.0 && pct * bars == exposed * 100.0
    ensures pct > 100.0 <==> exposed > bars
  {
    if pct > 100.0 {
      MulStrict(100.0, pct, bars);
    } else {
      MulMono(pct, 100.0, bars);
    }
  }

  lemma {:induction false} ExposureBound(b: Backtest, i: nat)
    requires b.Valid() && i < |b.targets|
    ensures b.Exposure(i) <= i + 1
    ensures b.Exposure(i) == i + 1 <==> forall k :: 0 <= k <= i ==> b.targets[k] != 0.0
  {
    if i > 0 {
      ExposureBound(b, i - 1);
    }
  }
}
