/** What the costed simulation guarantees over every price and target series. */
module BacktestLaws {
  import opened RealMath
  import opened Backtesting
  import opened Wrappers

  // ----- the round trips are the maximal runs of one non-zero target -----

  ghost predicate IsMaximalRun(b: Backtest, s: Span)
    requires b.Valid()
  {
    && s.open <= s.close < |b.targets|
    && b.IsRunStart(s.open)
    && (forall k :: s.open <= k < s.close ==> b.targets[k] == b.targets[s.open])
    && (s.close == |b.targets| - 1 || b.targets[s.close] != b.targets[s.open])
  }

  /** Maximal runs one after the other, the last one closed by bar `limit`. */
  ghost predicate Successive(b: Backtest, runs: seq<Span>, limit: nat)
    requires b.Valid()
  {
    && (forall j :: 0 <= j < |runs| ==> IsMaximalRun(b, runs[j]) && runs[j].close <= limit)
    && (forall j, k :: 0 <= j < k < |runs| ==> runs[j].open < runs[j].close <= runs[k].open)
    && (forall j :: 0 <= j < |runs| ==> runs[j].open < runs[j].close)
  }

  lemma {:induction false} ClosedRunsSuccessive(b: Backtest, i: nat)
    requires b.Valid() && i < |b.targets|
    ensures Successive(b, b.ClosedRuns(i), b.RunStart(i))
  {
    hide IsMaximalRun;
    if i > 0 {
      ClosedRunsSuccessive(b, i - 1);
      var runs, a := b.ClosedRuns(i - 1), b.RunStart(i - 1);
      if b.targets[i] == b.targets[i - 1] {
        assert b.RunStart(i) == a && b.ClosedRuns(i) == runs;
      } else {
        assert b.RunStart(i) == i;
        if b.targets[i - 1] != 0.0 {
          EndedRunMaximal(b, i);
          SuccessiveAppend(b, runs, a, i);
          assert b.ClosedRuns(i) == runs + [Span(a, i)];
        } else {
          assert b.ClosedRuns(i) == runs;
        }
      }
    }
  }

  lemma EndedRunMaximal(b: Backtest, i: nat)
    requires b.Valid() && 1 <= i < |b.targets| && b.targets[i - 1] != 0.0 && b.targets[i] != b.targets[i - 1]
    ensures IsMaximalRun(b, Span(b.RunStart(i - 1), i))
  {
  }

  lemma SuccessiveAppend(b: Backtest, runs: seq<Span>, a: nat, i: nat)
    requires b.Valid() && Successive(b, runs, a) && a < i && IsMaximalRun(b, Span(a, i))
    ensures Successive(b, runs + [Span(a, i)], i)
  {
    hide IsMaximalRun;
    var more := runs + [Span(a, i)];
    forall j | 0 <= j < |more| ensures IsMaximalRun(b, more[j]) && more[j].open < more[j].close <= i {
      assert j < |runs| ==> more[j] == runs[j];
    }
  }

  /** Each round trip covers one maximal run of a non-zero target, and round trips follow
      each other without overlap. */
  ghost predicate AreRoundTrips(b: Backtest, runs: seq<Span>)
    requires b.Valid()
  {
    && (forall j :: 0 <= j < |runs| ==> IsMaximalRun(b, runs[j]))
    && (forall j, k :: 0 <= j < k < |runs| ==> runs[j].open < runs[j].close <= runs[k].open)
  }

  lemma RunsAreMaximal(b: Backtest)
    requires b.Valid()
    ensures AreRoundTrips(b, b.Runs())
  {
    hide Backtest.ClosedRuns, Backtest.RunStart, IsMaximalRun;
    var last := |b.targets| - 1;
    ClosedRunsSuccessive(b, last);
    if b.targets[last] != 0.0 {
      LastRunMaximal(b);
      LastRoundTrip(b, b.ClosedRuns(last), b.RunStart(last), last);
    } else {
      assert b.Runs() == b.ClosedRuns(last);
    }
  }

  lemma LastRoundTrip(b: Backtest, runs: seq<Span>, a: nat, last: nat)
    requires b.Valid() && Successive(b, runs, a) && a <= last && IsMaximalRun(b, Span(a, last))
    ensures AreRoundTrips(b, runs + [Span(a, last)])
  {
    hide IsMaximalRun;
    var more := runs + [Span(a, last)];
    forall j | 0 <= j < |more| ensures IsMaximalRun(b, more[j]) && (j < |runs| ==> more[j] == runs[j]) {
    }
  }

  lemma LastRunMaximal(b: Backtest)
    requires b.Valid() && b.targets[|b.targets| - 1] != 0.0
    ensures IsMaximalRun(b, Span(b.RunStart(|b.targets| - 1), |b.targets| - 1))
  {
  }

  /** A round trip is opened at exactly the bars that start a run. */
  lemma RunsOpenAtRunStarts(b: Backtest, a: nat)
    requires b.Valid()
    ensures b.IsRunStart(a) <==> OpensAt(b.Runs(), a)
  {
    var last := |b.targets| - 1;
    var closed, runs := b.ClosedRuns(last), b.Runs();
    if b.IsRunStart(a) {
      b.RunStartsClose(a, last);
      if b.RunStart(last) == a {
        assert runs[|closed|].open == a;
      } else {
        var j :| 0 <= j < |closed| && closed[j].open == a;
        assert runs[j].open == a;
      }
    }
    if OpensAt(runs, a) {
      var j :| 0 <= j < |runs| && runs[j].open == a;
      RunsAreMaximal(b);
      assert IsMaximalRun(b, runs[j]);
    }
  }

  // ----- when the simulation cannot finish -----

  lemma {:induction false} GrowthZero(b: Backtest, i: nat)
    requires b.Valid() && i < |b.prices|
    ensures b.Growth(0, i) == 0.0 <==> exists k :: 1 <= k <= i && b.Factor(k) == 0.0
  {
    if i > 0 {
      GrowthZero(b, i - 1);
      hide Backtest.Factor;
      ProductZero(b.Growth(0, i - 1), b.Factor(i), b.Growth(0, i));
    }
  }

  lemma ProductZero(x: real, y: real, p: real)
    requires p == x * y
    ensures p == 0.0 <==> x == 0.0 || y == 0.0
  {
    if x != 0.0 && y != 0.0 {
      if p == 0.0 {
        DivCancel(y, x);
      }
    }
  }

  /** A factor vanishes only for a short held while the price exactly doubles. */
  lemma FactorZero(b: Backtest, k: nat)
    requires b.Valid() && 1 <= k < |b.prices|
    ensures b.Factor(k) == 0.0 <==> b.targets[k - 1] == -1.0 && b.prices[k] == 2.0 * b.prices[k - 1]
    ensures b.Factor(k) <= 0.0 <==> b.targets[k - 1] == -1.0 && b.prices[k] >= 2.0 * b.prices[k - 1]
  {
    var p, q := b.prices[k - 1], b.prices[k];
    var c := b.Change(k);
    assert c * p == q - p;
    assert IsTarget(b.targets[k - 1]);
    if c > 1.0 {
      MulStrict(1.0, c, p);
    } else if c < 1.0 {
      MulStrict(c, 1.0, p);
    }
    if c <= -1.0 {
      MulMono(c, -1.0, p);
    }
  }

  ghost predicate ShortThroughDoubling(b: Backtest, k: nat)
    requires b.Valid()
  {
    1 <= k < |b.prices| && b.targets[k - 1] == -1.0 && b.prices[k] == 2.0 * b.prices[k - 1]
  }

  /** The simulation divides by zero exactly when a position is opened while the whole cost
      rate is 1, or opened at or after a bar that held a short through an exact doubling. */
  lemma DivisionByZeroExactly(b: Backtest)
    requires b.Valid()
    ensures b.OpensOnNothing() <==>
            exists a :: b.IsRunStart(a) && (b.rate == 1.0 || exists k: nat :: k <= a && ShortThroughDoubling(b, k))
  {
    forall a | b.IsRunStart(a)
      ensures b.EquityAt(a) == 0.0 <==> b.rate == 1.0 || exists k: nat :: k <= a && ShortThroughDoubling(b, k)
    {
      EquityZero(b, a);
    }
  }

  lemma EquityZero(b: Backtest, a: nat)
    requires b.Valid() && b.IsRunStart(a)
    ensures b.EquityAt(a) == 0.0 <==> b.rate == 1.0 || exists k: nat :: k <= a && ShortThroughDoubling(b, k)
  {
    var q, f := 1.0 - b.rate, b.Fills(a);
    b.FillsCountRuns(a);
    assert f > 0;
    if b.rate == 1.0 {
      assert Pow(q, f) == q * Pow(q, f - 1);
    } else {
      PowNonzero(q, f);
    }
    assert Pow(q, f) == 0.0 <==> b.rate == 1.0;
    GrowthZero(b, a);
    ProductZero(b.start, Pow(q, f), b.start * Pow(q, f));
    ProductZero(b.start * Pow(q, f), b.Growth(0, a), b.EquityAt(a));
    forall k | 1 <= k <= a ensures b.Factor(k) == 0.0 <==> ShortThroughDoubling(b, k) {
      FactorZero(b, k);
    }
    if k: nat :| 1 <= k <= a && b.Factor(k) == 0.0 {
      assert ShortThroughDoubling(b, k);
    }
    if k: nat :| k <= a && ShortThroughDoubling(b, k) {
      assert 1 <= k <= a && b.Factor(k) == 0.0;
    }
  }

  /** A short through a doubling followed by a long: the account is empty when the long opens. */
  lemma VanishedAccount(b: Backtest)
    requires b == Backtest(0.0, [1.0, 2.0, 2.0], [-1.0, 1.0, 1.0], 1.0)
    ensures b.Valid() && b.OpensOnNothing()
  {
    assert ShortThroughDoubling(b, 1);
    assert b.IsRunStart(1);
    DivisionByZeroExactly(b);
  }

  /** The simulation of these accepted inputs fails. */
  method DivisionByZeroOccurs() returns (r: Result<Simulation, Error>)
    ensures r == Err(DivisionByZero)
  {
    var b := Backtest(0.0, [1.0, 2.0, 2.0], [-1.0, 1.0, 1.0], 1.0);
    VanishedAccount(b);
    hide Backtest.OpensOnNothing;
    r := Simulate(b);
  }

  // ----- buy and hold -----

  /** `_buy_and_hold`: pay to enter, scale by the price ratio, pay to leave. */
  function BuyAndHold(rate: real, prices: seq<real>, start: real): real
    requires |prices| > 0 && prices[0] > 0.0
  {
    var entered := start - rate * start;
    var held := entered * prices[|prices| - 1] / prices[0];
    held - rate * held
  }

  lemma {:induction false} LongGrowth(b: Backtest, i: nat)
    requires b.Valid() && i < |b.prices| && forall k :: 0 <= k < |b.targets| ==> b.targets[k] == 1.0
    ensures b.Growth(0, i) * b.prices[0] == b.prices[i]
    ensures b.RunStart(i) == 0 && b.ClosedRuns(i) == []
  {
    if i > 0 {
      LongGrowth(b, i - 1);
      var g, p, c := b.Growth(0, i - 1), b.prices[i - 1], b.Change(i);
      assert c * p == b.prices[i] - p;
      LongStep(g, b.Factor(i), c, p, b.prices[0], b.prices[i]);
    }
  }

  lemma LongStep(g: real, f: real, c: real, p: real, first: real, next: real)
    requires f == 1.0 + c && g * first == p && c * p == next - p
    ensures (g * f) * first == next
  {
    assert (g * f) * first == (g * first) * f;
  }

  lemma PowTwo(q: real)
    ensures Pow(q, 2) == q * q
  {
    assert Pow(q, 2) == q * Pow(q, 1) && Pow(q, 1) == q * Pow(q, 0);
  }

  lemma LongRuns(b: Backtest)
    requires b.Valid() && forall k :: 0 <= k < |b.targets| ==> b.targets[k] == 1.0
    ensures b.Runs() == [Span(0, |b.targets| - 1)]
  {
    hide Backtest.RunStart, Backtest.ClosedRuns, Backtest.Growth;
    LongGrowth(b, |b.targets| - 1);
  }

  /** A strategy that is always long ends with exactly the buy-and-hold reference. */
  lemma AlwaysLongIsBuyAndHold(b: Backtest)
    requires b.Valid() && forall k :: 0 <= k < |b.targets| ==> b.targets[k] == 1.0
    ensures b.Runs() == [Span(0, |b.targets| - 1)]
    ensures b.CurveAt(|b.prices| - 1) == BuyAndHold(b.rate, b.prices, b.start)
  {
    hide Backtest.Runs, Backtest.Growth, Pow, Backtest.RunStart, Backtest.ClosedRuns, BuyAndHold;
    var last := |b.prices| - 1;
    LongRuns(b);
    LongGrowth(b, last);
    PowTwo(1.0 - b.rate);
    BuyAndHoldArithmetic(b.start, b.rate, b.Growth(0, last), Pow(1.0 - b.rate, 2), b.prices);
  }

  lemma BuyAndHoldArithmetic(s: real, c: real, g: real, qq: real, prices: seq<real>)
    requires |prices| > 0 && prices[0] > 0.0 && g * prices[0] == prices[|prices| - 1] && qq == (1.0 - c) * (1.0 - c)
    ensures BuyAndHold(c, prices, s) == s * qq * g
  {
    HeldToTheEnd(s, c, g, qq, prices[0], prices[|prices| - 1]);
  }

  lemma HeldToTheEnd(s: real, c: real, g: real, qq: real, p: real, r: real)
    requires p > 0.0 && g * p == r && qq == (1.0 - c) * (1.0 - c)
    ensures var held := (s - c * s) * r / p; held - c * held == s * qq * g
  {
    var e := s - c * s;
    assert e * r == (e * g) * p;
    DivCancel(e * g, p);
    var held := e * g;
    assert e == s * (1.0 - c);
    assert held - c * held == (1.0 - c) * (s * (1.0 - c) * g);
  }

  // ----- the cost rate -----

  /** Runs depend on the targets only. */
  lemma {:induction false} StartIgnoresRate(b: Backtest, c: Backtest, i: nat)
    requires b.Valid() && c == b.(rate := c.rate) && i < |b.targets|
    ensures c.RunStart(i) == b.RunStart(i)
  {
    if i > 0 {
      StartIgnoresRate(b, c, i - 1);
    }
  }

  lemma {:induction false} RunsIgnoreRate(b: Backtest, c: Backtest, i: nat)
    requires b.Valid() && c == b.(rate := c.rate) && i < |b.targets|
    ensures c.RunStart(i) == b.RunStart(i) && c.ClosedRuns(i) == b.ClosedRuns(i)
  {
    hide Backtest.RunStart;
    StartIgnoresRate(b, c, i);
    if i > 0 {
      RunsIgnoreRate(b, c, i - 1);
    }
  }

  lemma {:induction false} GrowthIgnoresRate(b: Backtest, c: Backtest, i: nat)
    requires b.Valid() && c == b.(rate := c.rate) && i < |b.targets|
    ensures c.Growth(0, i) == b.Growth(0, i)
  {
    hide Backtest.Factor;
    if i > 0 {
      GrowthIgnoresRate(b, c, i - 1);
      FactorIgnoresRate(b, c, i);
    }
  }

  lemma FactorIgnoresRate(b: Backtest, c: Backtest, i: nat)
    requires b.Valid() && c == b.(rate := c.rate) && 1 <= i < |b.targets|
    ensures c.Factor(i) == b.Factor(i)
  {
  }

  lemma SameRuns(b: Backtest, c: Backtest)
    requires b.Valid() && c == b.(rate := c.rate)
    ensures c.Valid() && c.Runs() == b.Runs() && c.Growth(0, |b.prices| - 1) == b.Growth(0, |b.prices| - 1)
  {
    hide Backtest.Growth, Backtest.ClosedRuns, Backtest.RunStart;
    RunsIgnoreRate(b, c, |b.prices| - 1);
    GrowthIgnoresRate(b, c, |b.prices| - 1);
  }

  /** Raising the cost rate lowers final equity exactly when the uncosted growth is positive. */
  lemma HigherCostsLowerEquity(b: Backtest, c: Backtest)
    requires b.Valid() && c == b.(rate := c.rate) && b.rate < c.rate <= 1.0
    ensures var last := |b.prices| - 1;
            && (|b.Runs()| > 0 ==> (c.CurveAt(last) < b.CurveAt(last) <==> b.Growth(0, last) > 0.0))
            && (|b.Runs()| == 0 ==> c.CurveAt(last) == b.CurveAt(last) == b.start)
  {
    hide Pow, Backtest.Growth, Backtest.Runs, Backtest.CurveAt, Backtest.Compounded;
    var last := |b.prices| - 1;
    SameRuns(b, c);
    var n, g := |b.Runs()|, b.Growth(0, last);
    FinalValue(b, n, g);
    FinalValue(c, n, g);
    if n == 0 {
      AllFlat(b, last);
      Backtest.PowSmall(1.0 - c.rate);
      Backtest.PowSmall(1.0 - b.rate);
    } else {
      PowStrict(1.0 - c.rate, 1.0 - b.rate, 2 * n);
      CostArithmetic(b.start, Pow(1.0 - c.rate, 2 * n), Pow(1.0 - b.rate, 2 * n), g,
                     c.CurveAt(last), b.CurveAt(last));
    }
  }

  lemma FinalValue(b: Backtest, n: nat, g: real)
    requires b.Valid() && n == |b.Runs()| && g == b.Growth(0, |b.prices| - 1)
    ensures b.CurveAt(|b.prices| - 1) == b.start * Pow(1.0 - b.rate, 2 * n) * g
  {
  }

  lemma CostArithmetic(s: real, p: real, q: real, g: real, x: real, y: real)
    requires s > 0.0 && p < q && x == s * p * g && y == s * q * g
    ensures x < y <==> g > 0.0
  {
    var d := s * (q - p);
    ProductPositive(s, q - p, d);
    assert y - x == d * g;
    if g > 0.0 {
      ProductPositive(d, g, d * g);
    } else {
      MulMono(g, 0.0, d);
    }
  }

  lemma AllFlat(b: Backtest, last: nat)
    requires b.Valid() && last == |b.targets| - 1 && |b.Runs()| == 0
    ensures b.Growth(0, last) == 1.0
  {
    FlatSoFar(b, last);
  }

  lemma {:induction false} FlatSoFar(b: Backtest, i: nat)
    requires b.Valid() && i < |b.targets| && |b.ClosedRuns(i)| == 0 && b.targets[i] == 0.0
    ensures b.Growth(0, i) == 1.0
  {
    if i > 0 {
      assert b.targets[i - 1] == 0.0;
      FlatSoFar(b, i - 1);
    }
  }

  /** Growth is positive whenever no short is held through a doubling or worse. */
  lemma {:induction false} GrowthPositive(b: Backtest, i: nat)
    requires b.Valid() && i < |b.prices|
    requires forall k :: 1 <= k <= i ==> b.targets[k - 1] != -1.0 || b.prices[k] < 2.0 * b.prices[k - 1]
    ensures b.Growth(0, i) > 0.0
  {
    if i > 0 {
      GrowthPositive(b, i - 1);
      FactorZero(b, i);
      hide Backtest.Factor;
      ProductPositive(b.Growth(0, i - 1), b.Factor(i), b.Growth(0, i));
    }
  }

  // ----- no look-ahead -----

  /** Two backtests that agree on their first n bars. */
  ghost predicate AgreeUpTo(b: Backtest, c: Backtest, n: nat)
    requires b.Valid() && c.Valid()
  {
    && n <= |b.prices| && n <= |c.prices|
    && b.rate == c.rate && b.start == c.start
    && b.prices[..n] == c.prices[..n]
    && b.targets[..n] == c.targets[..n]
  }

  lemma BarsAgree(b: Backtest, c: Backtest, n: nat, i: nat)
    requires b.Valid() && c.Valid() && AgreeUpTo(b, c, n) && i < n
    ensures b.targets[i] == c.targets[i] && b.prices[i] == c.prices[i]
  {
    assert b.targets[i] == b.targets[..n][i] == c.targets[i];
    assert b.prices[i] == b.prices[..n][i] == c.prices[i];
  }

  lemma FactorAgrees(b: Backtest, c: Backtest, n: nat, i: nat)
    requires b.Valid() && c.Valid() && AgreeUpTo(b, c, n) && 1 <= i < n
    ensures b.Factor(i) == c.Factor(i) && b.FillsAt(i) == c.FillsAt(i)
  {
    BarsAgree(b, c, n, i);
    BarsAgree(b, c, n, i - 1);
  }

  lemma {:induction false} EquityAgrees(b: Backtest, c: Backtest, n: nat, i: nat)
    requires b.Valid() && c.Valid() && AgreeUpTo(b, c, n) && i < n
    ensures b.Fills(i) == c.Fills(i) && b.Growth(0, i) == c.Growth(0, i)
    ensures b.EquityAt(i) == c.EquityAt(i)
  {
    hide Backtest.Factor, Pow;
    if i == 0 {
      BarsAgree(b, c, n, 0);
    } else {
      EquityAgrees(b, c, n, i - 1);
      FactorAgrees(b, c, n, i);
    }
  }

  /** Equity curves agree on the common bars, except where one series ends earlier and
      its open position is charged the closing cost. */
  lemma CurvesAgree(b: Backtest, c: Backtest, n: nat, i: nat)
    requires b.Valid() && c.Valid() && AgreeUpTo(b, c, n) && 0 < i < n && i < |c.prices| - 1
    ensures i < |b.prices| - 1 ==> b.CurveAt(i) == c.CurveAt(i)
    ensures i == |b.prices| - 1 ==>
              b.CurveAt(i) == c.CurveAt(i) - if b.targets[i] != 0.0 then b.Cost(c.CurveAt(i)) else 0.0
  {
    EquityAgrees(b, c, n, i);
    if i == |b.prices| - 1 {
      var e := b.EquityAt(i);
      b.FinalEquity(i, e, if b.targets[i] != 0.0 then e - b.Cost(e) else e);
    }
  }
}
