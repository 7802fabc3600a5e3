/** What the reported trade returns say about the account: each leaves the opening fee out. */
module RoundTrips {
  import opened RealMath
  import opened Wrappers
  import opened Backtesting

  /** What a round trip with this reported return multiplies the account by: both fees and the move. */
  function TripFactor(rate: real, tripReturn: real): real {
    (1.0 - rate) * (1.0 + tripReturn)
  }

  ghost predicate AreTrips(b: Backtest, runs: seq<Span>)
    requires b.Valid()
  {
    forall j :: 0 <= j < |runs| ==> runs[j].open <= runs[j].close < |b.prices|
  }

  /** The factors of all these round trips, one after another. */
  ghost function Trips(b: Backtest, runs: seq<Span>): real
    requires b.Valid() && AreTrips(b, runs)
  {
    if |runs| == 0 then 1.0
    else Trips(b, runs[..|runs| - 1]) * TripFactor(b.rate, b.SpanReturn(runs[|runs| - 1]))
  }

  lemma OneTripMore(b: Backtest, runs: seq<Span>, s: Span)
    requires b.Valid() && AreTrips(b, runs) && s.open <= s.close < |b.prices|
    ensures AreTrips(b, runs + [s])
    ensures Trips(b, runs + [s]) == Trips(b, runs) * TripFactor(b.rate, b.SpanReturn(s))
  {
    hide Backtest.SpanReturn, TripFactor;
    assert (runs + [s])[..|runs|] == runs;
  }

  lemma {:induction false} ClosedAreTrips(b: Backtest, i: nat)
    requires b.Valid() && i < |b.targets|
    ensures AreTrips(b, b.ClosedRuns(i))
  {
    if i > 0 {
      ClosedAreTrips(b, i - 1);
    }
  }

  /** What the position open at a bar has multiplied the account by: its opening fee and its growth. */
  ghost function OpenPart(b: Backtest, i: nat): real
    requires b.Valid() && i < |b.targets|
  {
    if b.targets[i] == 0.0 then 1.0 else (1.0 - b.rate) * b.Growth(b.RunStart(i), i)
  }

  function Account(start: real, trips: real, open: real): real {
    start * trips * open
  }

  /** The account once the fills of a bar are paid: the start, the finished trips, the open one. */
  ghost predicate Accounts(b: Backtest, i: nat)
    requires b.Valid() && i < |b.targets|
  {
    && AreTrips(b, b.ClosedRuns(i))
    && b.EquityAt(i) == Account(b.start, Trips(b, b.ClosedRuns(i)), OpenPart(b, i))
  }

  /** Over one bar the open part grows by the bar's factor, before any fill. */
  ghost function Carried(b: Backtest, i: nat): real
    requires b.Valid() && 1 <= i < |b.targets|
  {
    OpenPart(b, i - 1) * b.Factor(i)
  }

  lemma CarriedOpen(b: Backtest, i: nat)
    requires b.Valid() && 1 <= i < |b.targets|
    ensures b.targets[i - 1] == 0.0 ==> Carried(b, i) == 1.0
    ensures b.targets[i - 1] != 0.0 ==> Carried(b, i) == (1.0 - b.rate) * b.Growth(b.RunStart(i - 1), i)
  {
    if b.targets[i - 1] == 0.0 {
      assert b.Factor(i) == 1.0;
    } else {
      MulAssoc(1.0 - b.rate, b.Growth(b.RunStart(i - 1), i - 1), b.Factor(i));
    }
  }

  lemma ClosingFactor(b: Backtest, i: nat)
    requires b.Valid() && 1 <= i < |b.targets| && b.targets[i - 1] != 0.0
    ensures TripFactor(b.rate, b.SpanReturn(Span(b.RunStart(i - 1), i))) == Carried(b, i) * (1.0 - b.rate)
  {
    CarriedOpen(b, i);
    hide Backtest.Growth, Backtest.RunStart, Carried;
    NetTwice(1.0 - b.rate, b.Growth(b.RunStart(i - 1), i));
  }

  lemma NetTwice(q: real, g: real)
    ensures q * (1.0 + (q * g - 1.0)) == (q * g) * q
  {
  }

  lemma PowSmall(q: real)
    ensures Pow(q, 0) == 1.0 && Pow(q, 1) == q && Pow(q, 2) == q * q
  {
    assert Pow(q, 1) == q * Pow(q, 0) && Pow(q, 2) == q * Pow(q, 1);
  }

  /** The bar's fills, by what happens to the position. */
  lemma BarFills(b: Backtest, i: nat)
    requires b.Valid() && 1 <= i < |b.targets|
    ensures var q, was, now := 1.0 - b.rate, b.targets[i - 1], b.targets[i];
            Pow(q, b.FillsAt(i)) ==
            if was == now then 1.0 else if was == 0.0 || now == 0.0 then q else q * q
  {
    PowSmall(1.0 - b.rate);
    hide Pow;
  }

  lemma MarkedAccount(b: Backtest, i: nat)
    requires b.Valid() && 1 <= i < |b.targets| && Accounts(b, i - 1)
    ensures b.Marked(i) == Account(b.start, Trips(b, b.ClosedRuns(i - 1)), Carried(b, i))
  {
    hide Trips, OpenPart, Backtest.EquityAt, Backtest.Factor;
    MulAssoc(b.start * Trips(b, b.ClosedRuns(i - 1)), OpenPart(b, i - 1), b.Factor(i));
  }

  /** What is open after the bar's fills. */
  lemma OpenAfter(b: Backtest, i: nat)
    requires b.Valid() && 1 <= i < |b.targets|
    ensures var was, now := b.targets[i - 1], b.targets[i];
            OpenPart(b, i) == if now == was then Carried(b, i) else if now == 0.0 then 1.0 else 1.0 - b.rate
  {
    CarriedOpen(b, i);
    OpensAnew(b, i);
  }

  lemma EquityAfter(b: Backtest, i: nat)
    requires b.Valid() && 1 <= i < |b.targets| && Accounts(b, i - 1)
    ensures var q, was, now := 1.0 - b.rate, b.targets[i - 1], b.targets[i];
            b.EquityAt(i) ==
            Account(b.start, Trips(b, b.ClosedRuns(i - 1)), Carried(b, i))
            * if was == now then 1.0 else if was == 0.0 || now == 0.0 then q else q * q
  {
    hide Trips, Carried, OpenPart, Backtest.EquityAt, Backtest.Marked, Pow, Backtest.FillsAt, Account;
    MarkedAccount(b, i);
    b.EquityStep(i);
    BarFills(b, i);
  }

  lemma NoneClosed(b: Backtest, i: nat)
    requires b.Valid() && 1 <= i < |b.targets|
    requires b.targets[i] == b.targets[i - 1] || b.targets[i - 1] == 0.0
    ensures b.ClosedRuns(i) == b.ClosedRuns(i - 1)
  {
  }

  lemma OpeningFee(s: real, t: real, x: real, q: real)
    ensures Account(s, t, x) * 1.0 == Account(s, t, x)
    ensures Account(s, t, 1.0) * q == Account(s, t, q)
  {
  }

  /** A bar at which no trip ends. */
  lemma AccountKept(b: Backtest, i: nat)
    requires b.Valid() && 1 <= i < |b.targets| && Accounts(b, i - 1)
    requires b.targets[i] == b.targets[i - 1] || b.targets[i - 1] == 0.0
    ensures Accounts(b, i)
  {
    hide Trips, Carried, OpenPart, Account, Backtest.EquityAt, Backtest.Growth, Backtest.RunStart, Backtest.ClosedRuns,
         AreTrips;
    EquityAfter(b, i);
    OpenAfter(b, i);
    CarriedOpen(b, i);
    NoneClosed(b, i);
    OpeningFee(b.start, Trips(b, b.ClosedRuns(i)), Carried(b, i), 1.0 - b.rate);
  }

  lemma OneClosedMore(b: Backtest, i: nat)
    requires b.Valid() && 1 <= i < |b.targets| && AreTrips(b, b.ClosedRuns(i - 1))
    requires b.targets[i] != b.targets[i - 1] && b.targets[i - 1] != 0.0
    ensures AreTrips(b, b.ClosedRuns(i))
    ensures Trips(b, b.ClosedRuns(i))
            == Trips(b, b.ClosedRuns(i - 1)) * TripFactor(b.rate, b.SpanReturn(Span(b.RunStart(i - 1), i)))
  {
    hide Trips, TripFactor, Backtest.SpanReturn, AreTrips;
    OneTripMore(b, b.ClosedRuns(i - 1), Span(b.RunStart(i - 1), i));
  }

  /** A bar at which a trip ends. */
  lemma AccountClosed(b: Backtest, i: nat)
    requires b.Valid() && 1 <= i < |b.targets| && Accounts(b, i - 1)
    requires b.targets[i] != b.targets[i - 1] && b.targets[i - 1] != 0.0
    ensures Accounts(b, i)
  {
    hide Trips, Carried, OpenPart, TripFactor, Account, Backtest.EquityAt, Backtest.RunStart, Backtest.SpanReturn,
         Backtest.ClosedRuns, AreTrips;
    EquityAfter(b, i);
    OpenAfter(b, i);
    ClosingFactor(b, i);
    OneClosedMore(b, i);
    FillsOnClose(b.start, Trips(b, b.ClosedRuns(i - 1)), Carried(b, i), 1.0 - b.rate,
                 TripFactor(b.rate, b.SpanReturn(Span(b.RunStart(i - 1), i))), Trips(b, b.ClosedRuns(i)));
  }

  lemma FillsOnClose(s: real, t: real, x: real, q: real, factor: real, trips: real)
    requires factor == x * q && trips == t * factor
    ensures Account(s, t, x) * q == Account(s, trips, 1.0)
    ensures Account(s, t, x) * (q * q) == Account(s, trips, q)
  {
    assert s * t * x * q == s * t * factor;
    assert s * t * x * (q * q) == s * t * factor * q;
  }

  /** A position opened at a bar has only paid its fee. */
  lemma OpensAnew(b: Backtest, i: nat)
    requires b.Valid() && i < |b.targets|
    ensures b.targets[i] != 0.0 && b.IsRunStart(i) ==> OpenPart(b, i) == 1.0 - b.rate
  {
  }

  lemma AccountStarts(b: Backtest)
    requires b.Valid()
    ensures Accounts(b, 0)
  {
    b.EquityAtZero();
    OpensAnew(b, 0);
    if b.targets[0] == 0.0 {
      FlatOpen(b, 0);
    }
    hide Backtest.EquityAt, OpenPart;
  }

  lemma FlatOpen(b: Backtest, i: nat)
    requires b.Valid() && i < |b.targets| && b.targets[i] == 0.0
    ensures OpenPart(b, i) == 1.0
  {
  }

  lemma {:induction false} AccountAt(b: Backtest, i: nat)
    requires b.Valid() && i < |b.targets|
    ensures Accounts(b, i)
  {
    hide Accounts;
    if i == 0 {
      AccountStarts(b);
    } else {
      AccountAt(b, i - 1);
      if b.targets[i] == b.targets[i - 1] || b.targets[i - 1] == 0.0 {
        AccountKept(b, i);
      } else {
        AccountClosed(b, i);
      }
    }
  }

  /** The account after the closing cost at the end of the series. */
  lemma AccountEnds(b: Backtest)
    requires b.Valid()
    ensures var last := |b.prices| - 1; var equity := b.EquityAt(last);
            b.CurveAt(last) == if b.targets[last] != 0.0 then equity * (1.0 - b.rate) else equity
  {
    var last := |b.prices| - 1;
    var equity := b.EquityAt(last);
    b.FinalEquity(last, equity, if b.targets[last] != 0.0 then equity - b.Cost(equity) else equity);
    hide Backtest.EquityAt, Backtest.Compounded;
    assert equity - b.rate * equity == equity * (1.0 - b.rate);
  }

  lemma AllRuns(b: Backtest)
    requires b.Valid()
    ensures var last := |b.targets| - 1;
            && AreTrips(b, b.ClosedRuns(last)) && AreTrips(b, b.Runs())
            && Trips(b, b.Runs())
               == if b.targets[last] == 0.0 then Trips(b, b.ClosedRuns(last))
                  else Trips(b, b.ClosedRuns(last)) * TripFactor(b.rate, b.SpanReturn(Span(b.RunStart(last), last)))
  {
    hide Trips, TripFactor, Backtest.SpanReturn, Backtest.ClosedRuns;
    var last := |b.targets| - 1;
    ClosedAreTrips(b, last);
    OneTripMore(b, b.ClosedRuns(last), Span(b.RunStart(last), last));
    assert b.ClosedRuns(last) + [] == b.ClosedRuns(last);
  }

  /** The final equity is the start times, for every round trip, one more fee and its reported
      return. */
  lemma FinalFromTrips(b: Backtest)
    requires b.Valid()
    ensures AreTrips(b, b.Runs())
    ensures b.CurveAt(|b.prices| - 1) == b.start * Trips(b, b.Runs())
  {
    hide Trips, OpenPart, TripFactor, Account, AreTrips, Backtest.EquityAt, Backtest.CurveAt, Backtest.RunStart,
         Backtest.SpanReturn, Backtest.ClosedRuns, Backtest.Runs;
    var last := |b.prices| - 1;
    AccountAt(b, last);
    AccountEnds(b);
    AllRuns(b);
    WholeAccount(b.start, Trips(b, b.Runs()));
    if b.targets[last] != 0.0 {
      LastFactor(b);
      FillsOnClose(b.start, Trips(b, b.ClosedRuns(last)), OpenPart(b, last), 1.0 - b.rate,
                   TripFactor(b.rate, b.SpanReturn(Span(b.RunStart(last), last))), Trips(b, b.Runs()));
    } else {
      FlatOpen(b, last);
    }
  }

  lemma WholeAccount(start: real, trips: real)
    ensures Account(start, trips, 1.0) == start * trips
  {
  }

  lemma LastFactor(b: Backtest)
    requires b.Valid() && b.targets[|b.targets| - 1] != 0.0
    ensures var last := |b.targets| - 1;
            TripFactor(b.rate, b.SpanReturn(Span(b.RunStart(last), last))) == OpenPart(b, last) * (1.0 - b.rate)
  {
    var last := |b.targets| - 1;
    hide Backtest.Growth, Backtest.RunStart;
    NetTwice(1.0 - b.rate, b.Growth(b.RunStart(last), last));
  }

  /** A trip that is counted as a win still lowers the account exactly when its reported return does
      not pay the opening fee. */
  lemma CountedWinLosesExactly(rate: real, tripReturn: real)
    ensures tripReturn > 0.0 && TripFactor(rate, tripReturn) < 1.0
            <==> 0.0 < tripReturn && (1.0 - rate) * tripReturn < rate
  {
    assert TripFactor(rate, tripReturn) == 1.0 - rate + (1.0 - rate) * tripReturn;
  }

  const RISE := Backtest(0.1, [1.0, 1.15, 1.15], [1.0, 0.0, 0.0], 1.0)

  lemma RiseRuns()
    ensures RISE.Valid() && RISE.Runs() == [Span(0, 1)] && RISE.RunStart(0) == 0
  {
    assert RISE.ClosedRuns(1) == [Span(0, 1)];
  }

  lemma RiseReturn()
    ensures RISE.Valid() && RISE.SpanReturn(Span(0, 1)) == 0.035
  {
    assert RISE.Change(1) == 0.15;
    assert RISE.Growth(0, 0) == 1.0 && RISE.Factor(1) == 1.15;
  }

  lemma RiseFinal()
    ensures RISE.Valid() && RISE.CurveAt(2) == 0.9315
  {
    RiseRuns();
    RiseReturn();
    FinalFromTrips(RISE);
    hide Backtest.Runs, Backtest.CurveAt, Backtest.SpanReturn;
    assert [Span(0, 1)][..0] == [];
    assert Trips(RISE, [Span(0, 1)]) == Trips(RISE, []) * TripFactor(0.1, 0.035);
  }

  lemma RiseOpens()
    ensures RISE.Valid() && !RISE.OpensOnNothing()
  {
    RISE.EquityAtZero();
    hide Backtest.EquityAt;
    forall a | RISE.IsRunStart(a) ensures RISE.EquityAt(a) != 0.0 {
      assert a == 0;
    }
  }

  lemma OneWin(trades: seq<real>)
    requires |trades| == 1 && trades[0] > 0.0
    ensures CountPositive(trades) == 1
  {
    assert CountPositive(trades[..0]) == 0;
  }

  /** One trip at a fee of a tenth over a rise of 15 percent: it is counted as a win, and the account
      ends below its start. */
  method WinningTripLoses() returns (r: Result<Simulation, Error>)
    ensures r.Ok? && |r.value.curve| == 3 && r.value.trades == [0.035] && r.value.wins == 1
    ensures RISE.Valid() && RISE.Booked(RISE.Runs(), r.value.trades, r.value.wins)
    ensures RISE.start == 1.0 && r.value.curve[2] == RISE.CurveAt(2) == 0.9315
  {
    hide Backtest.Runs, Backtest.CurveAt, Backtest.SpanReturn, Backtest.OpensOnNothing, Backtest.Compounded,
         Backtest.EquityAt, Backtest.Pnl, Backtest.Exposure, CountPositive;
    RiseRuns();
    RiseReturn();
    RiseFinal();
    RiseOpens();
    r := Simulate(RISE);
    OneWin(r.value.trades);
  }
}
