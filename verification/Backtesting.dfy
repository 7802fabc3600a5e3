/** The costed backtest every strategy is measured with: the positions a strategy
    asks for, the loop that trades them, and the closed form of what is left. */
module Backtesting {
  import opened Wrappers
  import opened RealMath

  predicate IsTarget(t: real) {
    t == -1.0 || t == 0.0 || t == 1.0
  }

  datatype Error = BadStartingEquity | TooFewBars | NonPositivePrice | WrongTargetCount | InvalidTarget | DivisionByZero

  /** A round trip: the bar the position was opened at and the bar it was closed at. */
  datatype Span = Span(open: nat, close: nat)

  datatype Simulation = Simulation(curve: seq<real>, costsPaid: real, trades: seq<real>, wins: nat, exposure: nat)

  ghost predicate OpensAt(runs: seq<Span>, a: nat) {
    exists j :: 0 <= j < |runs| && runs[j].open == a
  }

  /** The profit of a position of the given direction over one bar. */
  function BarPnl(notional: real, price: real, prev: real, position: real): real
    requires prev > 0.0
  {
    var change := (price - prev) / prev;
    notional * change * position
  }

  /** A round trip's return on the equity it was opened with. */
  function BlockReturn(equity: real, blockEquity: real): real
    requires blockEquity != 0.0
  {
    equity / blockEquity - 1.0
  }

  function CountPositive(v: seq<real>): nat {
    if |v| == 0 then 0 else CountPositive(v[..|v| - 1]) + (if v[|v| - 1] > 0.0 then 1 else 0)
  }

  lemma {:induction false} PositivesBounded(v: seq<real>)
    ensures CountPositive(v) <= |v|
  {
    if |v| > 0 {
      PositivesBounded(v[..|v| - 1]);
    }
  }

  /** One backtest: the per-side cost rate (half-spread plus taker fee), the price
      series, the target position of each bar, and the starting equity. */
  datatype Backtest = Backtest(rate: real, prices: seq<real>, targets: seq<real>, start: real) {

    ghost predicate Valid() {
      && |prices| == |targets| >= 2
      && (forall i :: 0 <= i < |prices| ==> prices[i] > 0.0)
      && (forall i :: 0 <= i < |targets| ==> IsTarget(targets[i]))
      && start > 0.0
    }

    /** The cost of one fill of the given notional. */
    function Cost(notional: real): real {
      rate * notional
    }

    ghost function Change(k: nat): real
      requires Valid() && 1 <= k < |prices|
    {
      (prices[k] - prices[k - 1]) / prices[k - 1]
    }

    /** What one unit of equity becomes over bar k: the position is the target of bar k-1. */
    ghost function Factor(k: nat): real
      requires Valid() && 1 <= k < |prices|
    {
      1.0 + targets[k - 1] * Change(k)
    }

    /** The product of the factors of bars a+1 .. i. */
    ghost function Growth(a: nat, i: nat): real
      requires Valid() && a <= i < |prices|
    {
      if i == a then 1.0 else Growth(a, i - 1) * Factor(i)
    }

    /** The fills executed at bar i: one to open, one to close, two to flip. */
    ghost function FillsAt(i: nat): nat
      requires Valid() && i < |targets|
    {
      if i == 0 then if targets[0] != 0.0 then 1 else 0
      else if targets[i] == targets[i - 1] then 0
      else (if targets[i - 1] != 0.0 then 1 else 0) + (if targets[i] != 0.0 then 1 else 0)
    }

    ghost function Fills(i: nat): nat
      requires Valid() && i < |targets|
    {
      (if i == 0 then 0 else Fills(i - 1)) + FillsAt(i)
    }

    /** The starting equity compounded over bars 1 .. i and charged for `fills` fills. */
    ghost function Compounded(fills: nat, i: nat): real
      requires Valid() && i < |prices|
    {
      start * Pow(1.0 - rate, fills) * Growth(0, i)
    }

    /** Equity once the fills of bar i are paid. */
    ghost function EquityAt(i: nat): real
      requires Valid() && i < |prices|
    {
      Compounded(Fills(i), i)
    }

    /** Equity at bar i once the position held since bar i-1 is marked, before any fill. */
    ghost function Marked(i: nat): real
      requires Valid() && 1 <= i < |prices|
    {
      EquityAt(i - 1) * Factor(i)
    }

    /** Profit and loss summed over bars 1 .. i, before costs. */
    ghost function Pnl(i: nat): real
      requires Valid() && i < |prices|
    {
      if i == 0 then 0.0 else Pnl(i - 1) + EquityAt(i - 1) * (targets[i - 1] * Change(i))
    }

    ghost predicate IsRunStart(a: nat)
      requires Valid()
    {
      a < |targets| && targets[a] != 0.0 && (a == 0 || targets[a - 1] != targets[a])
    }

    /** The first bar of the run of equal targets that holds bar i. */
    ghost function RunStart(i: nat): (a: nat)
      requires Valid() && i < |targets|
      ensures a <= i && (a == 0 || targets[a - 1] != targets[a])
      ensures forall k :: a <= k <= i ==> targets[k] == targets[i]
    {
      if i == 0 || targets[i - 1] != targets[i] then i else RunStart(i - 1)
    }

    /** Round trips completed by bar i, oldest first. */
    ghost function ClosedRuns(i: nat): seq<Span>
      requires Valid() && i < |targets|
    {
      if i == 0 then []
      else ClosedRuns(i - 1) +
           if targets[i - 1] != 0.0 && targets[i] != targets[i - 1]
           then [Span(RunStart(i - 1), i)] else []
    }

    /** All round trips: a position still open at the last bar is closed there. */
    ghost function Runs(): seq<Span>
      requires Valid()
    {
      var last := |targets| - 1;
      ClosedRuns(last) + if targets[last] != 0.0 then [Span(RunStart(last), last)] else []
    }

    /** The return of a round trip relative to the equity it was opened with. */
    ghost function SpanReturn(s: Span): real
      requires Valid() && s.open <= s.close < |prices|
    {
      (1.0 - rate) * Growth(s.open, s.close) - 1.0
    }

    ghost function Exposure(i: nat): nat
      requires Valid() && i < |targets|
    {
      (if i == 0 then 0 else Exposure(i - 1)) + if targets[i] != 0.0 then 1 else 0
    }

    /** Some position is opened with no equity left, so that its return cannot be computed. */
    ghost predicate OpensOnNothing()
      requires Valid()
    {
      exists a :: IsRunStart(a) && EquityAt(a) == 0.0
    }

    /** The reported equity curve: it starts before the first fill and ends after the last one. */
    ghost function CurveAt(i: nat): real
      requires Valid() && i < |prices|
    {
      if i == 0 then start else if i < |prices| - 1 then EquityAt(i) else Compounded(2 * |Runs()|, i)
    }

    // ----- the simulation loop, one fact at a time -----

    static lemma Regroup(s: real, a: real, b: real, g: real, f: real, p: real, h: real)
      requires p == a * b && h == g * f
      ensures s * p * h == s * a * g * f * b
    {
      MulRegroup(s, a, b, g, f);
    }

    lemma EquityStep(i: nat)
      requires Valid() && 1 <= i < |prices|
      ensures EquityAt(i) == Marked(i) * Pow(1.0 - rate, FillsAt(i))
    {
      hide Factor, Pow;
      var q := 1.0 - rate;
      PowAdd(q, Fills(i - 1), FillsAt(i));
      Regroup(start, Pow(q, Fills(i - 1)), Pow(q, FillsAt(i)), Growth(0, i - 1), Factor(i), Pow(q, Fills(i)),
              Growth(0, i));
    }

    lemma EquityAtZero()
      requires Valid()
      ensures EquityAt(0) == if targets[0] != 0.0 then start - rate * start else start
    {
      assert Fills(0) == FillsAt(0);
      assert Pow(1.0 - rate, 1) == 1.0 - rate;
    }

    /** While the target does not change nothing is paid, so equity follows the factors alone. */
    lemma {:induction false} EquityInRun(a: nat, i: nat)
      requires Valid() && a <= i < |prices|
      requires forall k :: a <= k <= i ==> targets[k] == targets[a]
      ensures EquityAt(i) == EquityAt(a) * Growth(a, i)
    {
      hide Factor, EquityAt;
      if a < i {
        EquityInRun(a, i - 1);
        EquityStep(i);
        assert FillsAt(i) == 0;
        MulAssoc(EquityAt(a), Growth(a, i - 1), Factor(i));
      }
    }

    lemma {:induction false} FillsCountRuns(i: nat)
      requires Valid() && i < |targets|
      ensures Fills(i) == 2 * |ClosedRuns(i)| + if targets[i] != 0.0 then 1 else 0
    {
      if i > 0 {
        FillsCountRuns(i - 1);
      }
    }

    lemma NetReturn(marked: real, block: real, g: real)
      requires block != 0.0 && marked == block * g
      ensures (marked - Cost(marked)) / block == (1.0 - rate) * g
    {
      assert marked - rate * marked == ((1.0 - rate) * g) * block;
      DivCancel((1.0 - rate) * g, block);
    }

    /** Equity marked inside a run is the opening equity grown to the bar. */
    lemma MarkedInRun(last: nat, close: nat, marked: real)
      requires Valid() && last <= close < |prices| && close <= last + 1
      requires marked == if close == last then EquityAt(last) else Marked(close)
      ensures marked == EquityAt(RunStart(last)) * Growth(RunStart(last), close)
    {
      hide Factor, EquityAt, RunStart;
      EquityInRun(RunStart(last), last);
      if close > last {
        MulAssoc(EquityAt(RunStart(last)), Growth(RunStart(last), last), Factor(close));
      }
    }

    /** The return computed when the run holding bar `last` is closed with equity `marked`. */
    lemma CloseReturn(last: nat, close: nat, marked: real)
      requires Valid() && last <= close < |prices| && close <= last + 1
      requires EquityAt(RunStart(last)) != 0.0
      requires marked == if close == last then EquityAt(last) else Marked(close)
      ensures BlockReturn(marked - Cost(marked), EquityAt(RunStart(last))) == SpanReturn(Span(RunStart(last), close))
    {
      hide Growth, EquityAt, RunStart, Marked;
      MarkedInRun(last, close, marked);
      NetReturn(marked, EquityAt(RunStart(last)), Growth(RunStart(last), close));
    }

    /** Marking the open position adds its profit and loss. */
    lemma MarkStep(i: nat, equity: real, position: real, openNotional: real, blockEquity: real)
      requires Valid() && 1 <= i < |prices|
      requires Holds(i - 1, equity, position, openNotional, blockEquity)
      ensures Marked(i) == if position == 0.0 then equity
                           else equity + BarPnl(openNotional, prices[i], prices[i - 1], position)
      ensures Marked(i) - equity == Pnl(i) - Pnl(i - 1)
    {
      hide EquityAt;
      MarkArithmetic(equity, targets[i - 1], Change(i));
    }

    static lemma MarkArithmetic(e: real, t: real, c: real)
      ensures e * (1.0 + t * c) == e + e * (t * c)
      ensures e * c * t == e * (t * c)
    {
    }

    /** The fills of bar i turn the marked equity into the equity after bar i. */
    lemma PayStep(i: nat, marked: real, once: real, twice: real)
      requires Valid() && 1 <= i < |prices| && marked == Marked(i)
      requires once == marked - Cost(marked) && twice == once - Cost(once)
      ensures EquityAt(i) == if FillsAt(i) == 0 then marked else if FillsAt(i) == 1 then once else twice
    {
      hide EquityAt, Marked, Pow;
      EquityStep(i);
      PowSmall(1.0 - rate);
      PayArithmetic(marked, rate);
    }

    static lemma PowSmall(q: real)
      ensures Pow(q, 0) == 1.0 && Pow(q, 1) == q && Pow(q, 2) == q * q
    {
      assert Pow(q, 1) == q * Pow(q, 0);
    }

    static lemma PayArithmetic(m: real, c: real)
      ensures m * (1.0 - c) == m - c * m
      ensures m * ((1.0 - c) * (1.0 - c)) == (m - c * m) - c * (m - c * m)
    {
    }

    /** How bar i extends the round trips closed so far and the exposure. */
    lemma BarStep(i: nat)
      requires Valid() && 1 <= i < |prices|
      ensures prices[i - 1] > 0.0 && |targets| == |prices|
      ensures ClosedRuns(i) == ClosedRuns(i - 1) +
                if targets[i - 1] != 0.0 && targets[i] != targets[i - 1]
                then [Span(RunStart(i - 1), i)] else []
      ensures Exposure(i) == Exposure(i - 1) + if targets[i] != 0.0 then 1 else 0
    {
    }

    /** The loop facts after the opening fill at bar 0. */
    lemma Opening(equity: real, position: real, openNotional: real, blockEquity: real)
      requires Valid() && position == targets[0]
      requires equity == if position != 0.0 then start - Cost(start) else start
      requires position != 0.0 ==> openNotional == blockEquity == equity
      ensures Holds(0, equity, position, openNotional, blockEquity)
      ensures Booked(ClosedRuns(0), [], 0)
      ensures Pnl(0) == 0.0 && Exposure(0) == if position != 0.0 then 1 else 0
    {
      EquityAtZero();
    }

    /** What the loop knows after bar i about the open position and the equity. */
    ghost predicate Holds(i: nat, equity: real, position: real, openNotional: real, blockEquity: real)
      requires Valid() && i < |prices|
    {
      && equity == EquityAt(i)
      && position == targets[i]
      && (position != 0.0 ==> openNotional == equity && blockEquity == EquityAt(RunStart(i)))
    }

    /** The four ways a bar can move the position keep `Holds`. */
    lemma HoldsStep(i: nat, equity: real, position: real, openNotional: real, block: real, marked: real)
      requires Valid() && 1 <= i < |prices| && Holds(i - 1, equity, position, openNotional, block)
      requires marked == Marked(i)
      ensures position == targets[i - 1] && (position != 0.0 ==> block == EquityAt(RunStart(i - 1)))
      ensures var once := marked - Cost(marked);
              var twice := once - Cost(once);
              if targets[i] == position
              then Holds(i, marked, position, if position != 0.0 then marked else openNotional, block)
              else if position == 0.0 then Holds(i, once, targets[i], once, once)
              else if targets[i] == 0.0 then Holds(i, once, 0.0, 0.0, block)
              else Holds(i, twice, targets[i], twice, twice)
    {
      hide EquityAt, Marked;
      var once := marked - Cost(marked);
      PayStep(i, marked, once, once - Cost(once));
    }

    /** What the loop knows after bar i about the closed positions. */
    ghost predicate Booked(runs: seq<Span>, trades: seq<real>, wins: nat)
      requires Valid()
    {
      && |trades| == |runs|
      && wins == CountPositive(trades)
      && forall j :: 0 <= j < |runs| ==>
        && runs[j].open <= runs[j].close < |prices|
        && trades[j] == SpanReturn(runs[j])
        && IsRunStart(runs[j].open) && EquityAt(runs[j].open) != 0.0
    }

    lemma BookedLength(runs: seq<Span>, trades: seq<real>, wins: nat)
      requires Valid() && Booked(runs, trades, wins)
      ensures |trades| == |runs|
    {
    }

    lemma WinsWithinTrades(runs: seq<Span>, trades: seq<real>, wins: nat)
      requires Valid() && Booked(runs, trades, wins)
      ensures wins <= |trades|
    {
      PositivesBounded(trades);
    }

    lemma BookOne(runs: seq<Span>, trades: seq<real>, wins: nat, s: Span)
      requires Valid() && Booked(runs, trades, wins)
      requires s.open <= s.close < |prices| && IsRunStart(s.open) && EquityAt(s.open) != 0.0
      ensures Booked(runs + [s], trades + [SpanReturn(s)], wins + if SpanReturn(s) > 0.0 then 1 else 0)
    {
      assert (trades + [SpanReturn(s)])[..|trades|] == trades;
    }

    /** Every bar at which a position is opened starts one of the round trips. */
    lemma {:induction false} RunStartsClose(a: nat, i: nat)
      requires Valid() && a <= i < |targets| && IsRunStart(a)
      ensures OpensAt(ClosedRuns(i), a) || RunStart(i) == a
    {
      if a == i {
        assert RunStart(i) == a;
      } else {
        RunStartsClose(a, i - 1);
        var before, now := ClosedRuns(i - 1), ClosedRuns(i);
        if RunStart(i - 1) == a {
          if targets[i] != targets[i - 1] {
            assert now[|before|].open == a;
          } else {
            assert RunStart(i) == a;
          }
        } else {
          var j :| 0 <= j < |before| && before[j].open == a;
          assert now[j].open == a;
        }
      }
    }

    /** Once every round trip is booked, no position was opened on nothing. */
    lemma AllBooked(trades: seq<real>, wins: nat)
      requires Valid() && Booked(Runs(), trades, wins)
      ensures !OpensOnNothing()
    {
      var last := |targets| - 1;
      var closed, runs := ClosedRuns(last), Runs();
      forall a | IsRunStart(a) ensures EquityAt(a) != 0.0 {
        RunStartsClose(a, last);
        if RunStart(last) == a {
          assert runs[|closed|].open == a;
        } else {
          var j :| 0 <= j < |closed| && closed[j].open == a;
          assert runs[j].open == a;
        }
      }
    }

    /** Closing a position at bar `close` books its return, and fails on an empty position. */
    lemma CloseOne(last: nat, close: nat, marked: real, runs: seq<Span>, trades: seq<real>, wins: nat)
      requires Valid() && last <= close < |prices| && close <= last + 1 && targets[last] != 0.0
      requires marked == if close == last then EquityAt(last) else Marked(close)
      requires Booked(runs, trades, wins)
      ensures EquityAt(RunStart(last)) == 0.0 ==> OpensOnNothing()
      ensures EquityAt(RunStart(last)) != 0.0 ==>
                var t := BlockReturn(marked - Cost(marked), EquityAt(RunStart(last)));
                Booked(runs + [Span(RunStart(last), close)], trades + [t], wins + if t > 0.0 then 1 else 0)
    {
      hide EquityAt, Marked, SpanReturn, Booked;
      var a := RunStart(last);
      assert IsRunStart(a);
      if EquityAt(a) != 0.0 {
        CloseReturn(last, close, marked);
        BookOne(runs, trades, wins, Span(a, close));
      }
    }

    /** The closing cost at the last bar is the second half of the last round trip. */
    lemma FinalEquity(last: nat, equity: real, final: real)
      requires Valid() && last == |prices| - 1 && equity == EquityAt(last)
      requires final == if targets[last] != 0.0 then equity - Cost(equity) else equity
      ensures final == Compounded(2 * |Runs()|, last)
    {
      hide Compounded;
      FillsCountRuns(last);
      if targets[last] != 0.0 {
        assert 2 * |Runs()| == Fills(last) + 1;
        OneMoreFill(Fills(last), last);
      } else {
        assert 2 * |Runs()| == Fills(last);
      }
    }

    lemma OneMoreFill(fills: nat, i: nat)
      requires Valid() && i < |prices|
      ensures Compounded(fills + 1, i) == Compounded(fills, i) - rate * Compounded(fills, i)
    {
      hide Growth;
      var q := 1.0 - rate;
      assert Pow(q, fills + 1) == q * Pow(q, fills);
      hide Pow;
      FinalArithmetic(start, Pow(q, fills), Pow(q, fills + 1), Growth(0, i), rate);
    }

    static lemma FinalArithmetic(s: real, p: real, p': real, g: real, c: real)
      requires p' == (1.0 - c) * p
      ensures s * p' * g == s * p * g - c * (s * p * g)
    {
    }
  }

  /** The locals of the simulation loop after some bar. */
  datatype Book = Book(equity: real, position: real, openNotional: real, blockEquity: real,
                       costsPaid: real, trades: seq<real>, wins: nat, exposure: nat)

  /** The loop invariant: after bar i the book agrees with the closed forms. */
  ghost predicate Agrees(b: Backtest, i: nat, k: Book)
    requires b.Valid() && i < |b.prices|
  {
    && b.Holds(i, k.equity, k.position, k.openNotional, k.blockEquity)
    && b.Booked(b.ClosedRuns(i), k.trades, k.wins)
    && k.equity + k.costsPaid == b.start + b.Pnl(i)
    && k.exposure == b.Exposure(i)
  }

  /** Closing a position: charge the exit cost, book the return, count the win. */
  method CloseTrade(b: Backtest, k: Book, ghost last: nat, ghost close: nat, ghost runs: seq<Span>)
    returns (r: Result<Book, Error>)
    requires b.Valid() && last <= close < |b.prices| && close <= last + 1 && b.targets[last] != 0.0
    requires k.equity == if close == last then b.EquityAt(last) else b.Marked(close)
    requires k.blockEquity == b.EquityAt(b.RunStart(last))
    requires b.Booked(runs, k.trades, k.wins)
    ensures r.Err? ==> b.OpensOnNothing() && r.error == DivisionByZero
    ensures r.Ok? ==>
              && r.value == k.(equity := k.equity - b.Cost(k.equity), costsPaid := k.costsPaid + b.Cost(k.equity),
                               openNotional := 0.0, trades := r.value.trades, wins := r.value.wins)
              && b.Booked(runs + [Span(b.RunStart(last), close)], r.value.trades, r.value.wins)
  {
    hide *;
    b.CloseOne(last, close, k.equity, runs, k.trades, k.wins);
    var cost := b.Cost(k.equity);
    if k.blockEquity == 0.0 {
      return Err(DivisionByZero);
    }
    var blockReturn := BlockReturn(k.equity - cost, k.blockEquity);
    return Ok(k.(equity := k.equity - cost, costsPaid := k.costsPaid + cost, openNotional := 0.0,
                 trades := k.trades + [blockReturn], wins := if blockReturn > 0.0 then k.wins + 1 else k.wins));
  }

  /** Opening a position: charge the entry cost and remember the equity it starts with. */
  function OpenTrade(b: Backtest, k: Book): Book {
    var equity := k.equity - b.Cost(k.equity);
    k.(equity := equity, costsPaid := k.costsPaid + b.Cost(k.equity), openNotional := equity, blockEquity := equity)
  }

  /** What the invariant after bar i-1 and the price of bar i say about the marked position. */
  lemma BarFacts(b: Backtest, i: nat, k: Book)
    requires b.Valid() && 1 <= i < |b.prices| && Agrees(b, i - 1, k)
    ensures |b.targets| == |b.prices| && b.prices[i - 1] > 0.0 && k.position == b.targets[i - 1]
    ensures k.position != 0.0 ==>
              k.openNotional == k.equity && k.blockEquity == b.EquityAt(b.RunStart(i - 1))
    ensures b.Marked(i) == if k.position == 0.0 then k.equity
                           else k.equity + BarPnl(k.openNotional, b.prices[i], b.prices[i - 1], k.position)
    ensures b.Booked(b.ClosedRuns(i - 1), k.trades, k.wins)
  {
    hide BarPnl, Backtest.EquityAt, Backtest.Marked, Backtest.Booked, Backtest.ClosedRuns, Backtest.RunStart,
         Backtest.Pnl, Backtest.Exposure;
    b.BarStep(i);
    b.MarkStep(i, k.equity, k.position, k.openNotional, k.blockEquity);
  }

  /** The book after bar i agrees with the closed forms if it moved as the loop body moves it. */
  lemma BarAgrees(b: Backtest, i: nat, before: Book, k: Book)
    requires b.Valid() && 1 <= i < |b.prices| && Agrees(b, i - 1, before)
    requires var once := b.Marked(i) - b.Cost(b.Marked(i));
             var twice := once - b.Cost(once);
             var was, now := before.position, b.targets[i];
             && k.position == now
             && k.equity + k.costsPaid == b.Marked(i) + before.costsPaid
             && k.exposure == before.exposure + (if now != 0.0 then 1 else 0)
             && (now == was ==> k.equity == b.Marked(i) && k.blockEquity == before.blockEquity)
             && (now == was && now != 0.0 ==> k.openNotional == k.equity)
             && (now != was && was == 0.0 ==> k.equity == once && k.openNotional == once && k.blockEquity == once)
             && (now != was && now == 0.0 ==> k.equity == once)
             && (now != was && was != 0.0 && now != 0.0 ==>
                  k.equity == twice && k.openNotional == twice && k.blockEquity == twice)
             && b.Booked(b.ClosedRuns(i - 1) + if was != 0.0 && now != was then [Span(b.RunStart(i - 1), i)] else [],
                         k.trades, k.wins)
    ensures Agrees(b, i, k)
  {
    hide Backtest.EquityAt, Backtest.Marked, Backtest.Booked, Backtest.ClosedRuns, Backtest.RunStart, Backtest.Pnl,
         Backtest.Exposure, Backtest.Cost;
    b.BarStep(i);
    b.MarkStep(i, before.equity, before.position, before.openNotional, before.blockEquity);
    b.HoldsStep(i, before.equity, before.position, before.openNotional, before.blockEquity, b.Marked(i));
  }

  lemma OpenTradeFacts(b: Backtest, k: Book)
    ensures var once := k.equity - b.Cost(k.equity);
            OpenTrade(b, k) == k.(equity := once, costsPaid := k.costsPaid + b.Cost(k.equity),
                                  openNotional := once, blockEquity := once)
  {
  }

  /** The loop body: mark the open position over bar i, then move to the target of bar i. */
  method TradeBar(b: Backtest, i: nat, before: Book) returns (r: Result<Book, Error>)
    requires b.Valid() && 1 <= i < |b.prices| && Agrees(b, i - 1, before)
    ensures r.Err? ==> b.OpensOnNothing() && r.error == DivisionByZero
    ensures r.Ok? ==> Agrees(b, i, r.value)
  {
    hide *;
    BarFacts(b, i, before);
    var k := before;
    if k.position != 0.0 {
      var equity := k.equity + BarPnl(k.openNotional, b.prices[i], b.prices[i - 1], k.position);
      k := k.(equity := equity, openNotional := equity);
    }
    var target := b.targets[i];
    if target != k.position {
      if k.position == 0.0 {
        OpenTradeFacts(b, k);
        k := OpenTrade(b, k);
      } else {
        r := CloseTrade(b, k, i - 1, i, b.ClosedRuns(i - 1));
        if r.Err? {
          return;
        }
        OpenTradeFacts(b, r.value);
        // Close, or flip by reopening at the same price.
        k := if target == 0.0 then r.value else OpenTrade(b, r.value);
      }
      k := k.(position := target);
    }
    k := if k.position != 0.0 then k.(exposure := k.exposure + 1) else k;
    assert b.ClosedRuns(i - 1) + [] == b.ClosedRuns(i - 1);
    BarAgrees(b, i, before, k);
    return Ok(k);
  }

  /** The end of the series: a position still open is closed at the last bar. */
  method CloseOut(b: Backtest, k: Book) returns (r: Result<Book, Error>)
    requires b.Valid() && Agrees(b, |b.prices| - 1, k)
    ensures r.Err? <==> b.OpensOnNothing()
    ensures r.Err? ==> r.error == DivisionByZero
    ensures r.Ok? ==>
              && r.value.equity == b.Compounded(2 * |r.value.trades|, |b.prices| - 1)
              && r.value.equity + r.value.costsPaid == b.start + b.Pnl(|b.prices| - 1)
              && b.Booked(b.Runs(), r.value.trades, r.value.wins)
              && r.value.exposure == b.Exposure(|b.prices| - 1)
  {
    ghost var last := |b.prices| - 1;
    ghost var closed := b.ClosedRuns(last);
    assert b.Runs() == closed + if k.position != 0.0 then [Span(b.RunStart(last), last)] else [];
    assert k.position == b.targets[last];
    assert k.position == 0.0 ==> b.Runs() == closed;
    hide Backtest.Booked, Backtest.EquityAt, Backtest.Compounded, Backtest.OpensOnNothing, Backtest.Pnl, Backtest.Cost,
         Backtest.Runs, Backtest.ClosedRuns, Backtest.Exposure;
    r := Ok(k);
    if k.position != 0.0 {
      r := CloseTrade(b, k, last, last, closed);
      if r.Err? {
        return;
      }
    }
    b.FinalEquity(last, k.equity, r.value.equity);
    b.AllBooked(r.value.trades, r.value.wins);
    b.BookedLength(b.Runs(), r.value.trades, r.value.wins);
  }

  /** `_simulate`: walk the bars, trading each change of target at the per-side cost. */
  method Simulate(b: Backtest) returns (r: Result<Simulation, Error>)
    requires b.Valid()
    ensures r.Err? <==> b.OpensOnNothing()
    ensures r.Err? ==> r.error == DivisionByZero
    ensures r.Ok? ==>
              var s, n := r.value, |b.prices|;
              && |s.curve| == n
              && (forall i :: 0 <= i < n ==> s.curve[i] == b.CurveAt(i))
              && s.curve[n - 1] == b.Compounded(2 * |s.trades|, n - 1)
              && s.curve[n - 1] + s.costsPaid == b.start + b.Pnl(n - 1)
              && b.Booked(b.Runs(), s.trades, s.wins)
              && s.exposure == b.Exposure(n - 1)
  {
    hide Agrees, OpenTrade, Backtest.EquityAt, Backtest.CurveAt, Backtest.Compounded, Backtest.Pnl, Backtest.Booked,
         Backtest.Exposure, Backtest.OpensOnNothing, Backtest.Runs;
    var k := Book(b.start, b.targets[0], 0.0, 0.0, 0.0, [], 0, 0);
    var curve := [k.equity];
    if k.position != 0.0 {
      k := OpenTrade(b, k).(exposure := 1);
    }
    StartAgrees(b, k);

    var i := 1;
    while i < |b.prices|
      invariant 1 <= i <= |b.prices| && |curve| == i && curve[0] == b.start
      invariant Agrees(b, i - 1, k)
      invariant forall j :: 1 <= j < i ==> curve[j] == b.EquityAt(j)
    {
      var next := TradeBar(b, i, k);
      if next.Err? {
        return Err(next.error);
      }
      k := next.value;
      AgreedEquity(b, i, k);
      curve := curve + [k.equity];
      i := i + 1;
    }

    var closed := CloseOut(b, k);
    if closed.Err? {
      return Err(closed.error);
    }
    k := closed.value;
    b.BookedLength(b.Runs(), k.trades, k.wins);
    CurveEnds(b, curve, k.equity);
    curve := curve[|curve| - 1 := k.equity];
    return Ok(Simulation(curve, k.costsPaid, k.trades, k.wins, k.exposure));
  }

  /** Before the loop the book agrees with the first bar. */
  lemma StartAgrees(b: Backtest, k: Book)
    requires b.Valid()
    requires var first := Book(b.start, b.targets[0], 0.0, 0.0, 0.0, [], 0, 0);
             k == if first.position != 0.0 then OpenTrade(b, first).(exposure := 1) else first
    ensures Agrees(b, 0, k)
  {
    hide Backtest.Holds, Backtest.Booked, Backtest.Pnl, Backtest.Exposure;
    b.Opening(k.equity, k.position, k.openNotional, k.blockEquity);
  }

  lemma AgreedEquity(b: Backtest, i: nat, k: Book)
    requires b.Valid() && i < |b.prices| && Agrees(b, i, k)
    ensures k.equity == b.EquityAt(i)
  {
    hide Backtest.EquityAt;
  }

  lemma CurveEnds(b: Backtest, curve: seq<real>, final: real)
    requires b.Valid() && |curve| == |b.prices| && curve[0] == b.start
    requires forall j :: 1 <= j < |curve| ==> curve[j] == b.EquityAt(j)
    requires final == b.Compounded(2 * |b.Runs()|, |b.prices| - 1)
    ensures forall i :: 0 <= i < |curve| ==> curve[|curve| - 1 := final][i] == b.CurveAt(i)
  {
    hide Backtest.EquityAt, Backtest.Compounded, Backtest.Runs;
  }
}
