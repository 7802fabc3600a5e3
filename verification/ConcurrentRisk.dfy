/** Positions that are open together: when their stops, or any run of approved trades and bracketed
    losses, can trip a loss breaker. */
module ConcurrentRisk {
  import opened RealMath
  import opened Wrappers
  import opened RiskGate
  import opened RiskRuns
  import opened Grouping

  datatype Position = Position(symbol: string, size: real, stop: real) {
    /** What being stopped out costs. */
    function Loss(): real {
      Risk(size, stop)
    }
  }

  datatype Event = Opened(p: Position) | Closed(at: nat, loss: real)

  /** The realised losses and the open positions. */
  datatype Account = Account(x: Context, held: seq<Position>)

  function OpenSize(held: seq<Position>): real {
    if |held| == 0 then 0.0 else OpenSize(held[..|held| - 1]) + held[|held| - 1].size
  }

  function OpenRisk(held: seq<Position>): real {
    if |held| == 0 then 0.0 else OpenRisk(held[..|held| - 1]) + held[|held| - 1].Loss()
  }

  function SymbolRisk(held: seq<Position>, symbol: string): real {
    if |held| == 0 then 0.0
    else SymbolRisk(held[..|held| - 1], symbol)
         + if held[|held| - 1].symbol == symbol then held[|held| - 1].Loss() else 0.0
  }

  /** The risk context a proposal in this symbol is evaluated with. */
  function ContextOf(a: Account, symbol: string): Context {
    a.x.(openExposure := OpenSize(a.held), symbolRisk := SymbolRisk(a.held, symbol), portfolioRisk := OpenRisk(a.held))
  }

  /** A position is opened as the gate approves it, with a stop no farther than `reach`; closing it
      costs at most what its bracket risks. */
  ghost predicate Enabled(c: Config, reach: real, a: Account, e: Event) {
    match e
    case Opened(p) => 0.0 < p.stop <= reach && Approves(c, ContextOf(a, p.symbol), p.stop, p.size)
    case Closed(at, loss) => at < |a.held| && 0.0 <= loss <= a.held[at].Loss()
  }

  function After(a: Account, e: Event): Account {
    match e
    case Opened(p) => Account(a.x, a.held + [p])
    case Closed(at, loss) =>
      if at < |a.held| then Account(Lose(a.x, loss), a.held[..at] + a.held[at + 1..]) else a
  }

  function At(x: Context, events: seq<Event>): Account {
    if |events| == 0 then Account(x, []) else After(At(x, events[..|events| - 1]), events[|events| - 1])
  }

  ghost predicate IsTrading(c: Config, reach: real, x: Context, events: seq<Event>) {
    forall k :: 0 <= k < |events| ==> Enabled(c, reach, At(x, events[..k]), events[k])
  }

  lemma TradingStep(c: Config, reach: real, x: Context, events: seq<Event>, e: Event)
    requires IsTrading(c, reach, x, events) && Enabled(c, reach, At(x, events), e)
    ensures IsTrading(c, reach, x, events + [e]) && At(x, events + [e]) == After(At(x, events), e)
  {
    hide Enabled, After;
    var more := events + [e];
    assert more[..|events|] == events;
    forall k | 0 <= k < |more| ensures Enabled(c, reach, At(x, more[..k]), more[k]) {
      assert k < |events| ==> more[..k] == events[..k];
    }
  }

  lemma TradingPrefix(c: Config, reach: real, x: Context, events: seq<Event>)
    requires IsTrading(c, reach, x, events) && |events| > 0
    ensures var n := |events| - 1;
            IsTrading(c, reach, x, events[..n]) && Enabled(c, reach, At(x, events[..n]), events[n])
  {
    hide Enabled, At;
    var init := events[..|events| - 1];
    forall k | 0 <= k < |init| ensures Enabled(c, reach, At(x, init[..k]), init[k]) {
      assert init[..k] == events[..k];
    }
  }

  // ----- what every account keeps -----

  /** A limit of zero under which no position carries risk. */
  predicate ZeroRisk(c: Config) {
    c.maxRiskPerTrade == 0.0 || c.maxRiskPerSymbol == 0.0 || c.maxFractionOfBudget == 0.0 || c.maxPositionSize == 0.0
  }

  ghost predicate Sound(c: Config, reach: real, p: Position) {
    && p.size >= 0.0 && 0.0 < p.stop <= reach && p.Loss() >= 0.0
    && (ZeroRisk(c) ==> p.Loss() == 0.0)
  }

  ghost predicate Bounded(c: Config, reach: real, held: seq<Position>) {
    && (forall i :: 0 <= i < |held| ==> Sound(c, reach, held[i]))
    && OpenRisk(held) <= c.maxPortfolioRisk && OpenSize(held) <= c.maxOpenExposure
  }

  lemma {:induction false} Without(held: seq<Position>, at: nat)
    requires at < |held|
    ensures var rest := held[..at] + held[at + 1..];
            && OpenRisk(rest) == OpenRisk(held) - held[at].Loss()
            && OpenSize(rest) == OpenSize(held) - held[at].size
  {
    var n := |held| - 1;
    var rest := held[..at] + held[at + 1..];
    hide Position.Loss;
    if at == n {
      assert rest == held[..n];
    } else {
      Without(held[..n], at);
      assert held[..n][..at] + held[..n][at + 1..] == rest[..n - 1];
      assert rest[n - 1] == held[n];
    }
  }

  lemma {:induction false} OpenBounds(c: Config, reach: real, held: seq<Position>)
    requires forall i :: 0 <= i < |held| ==> Sound(c, reach, held[i])
    ensures 0.0 <= OpenRisk(held) <= Risk(OpenSize(held), reach) && OpenSize(held) >= 0.0
    ensures ZeroRisk(c) ==> OpenRisk(held) == 0.0
    ensures forall i :: 0 <= i < |held| ==> held[i].Loss() <= OpenRisk(held)
  {
    hide Risk, ZeroRisk;
    if |held| == 0 {
      RiskLinear(0.0, 0.0, reach);
    } else {
      var init, p := held[..|held| - 1], held[|held| - 1];
      OpenBounds(c, reach, init);
      RiskLinear(OpenSize(init), p.size, reach);
      RiskOrder(p.size, p.stop, reach);
      forall i | 0 <= i < |held| ensures held[i].Loss() <= OpenRisk(held) {
        assert i < |init| ==> init[i] == held[i];
      }
    }
  }

  lemma RiskLinear(s: real, t: real, stop: real)
    ensures Risk(s + t, stop) == Risk(s, stop) + Risk(t, stop)
    ensures Risk(0.0, stop) == 0.0
  {
  }

  lemma OpenedIsSound(c: Config, reach: real, a: Account, p: Position)
    requires c.Valid() && Bounded(c, reach, a.held) && Enabled(c, reach, a, Opened(p))
    ensures Sound(c, reach, p)
    ensures OpenRisk(a.held) + p.Loss() <= c.maxPortfolioRisk && OpenSize(a.held) + p.size <= c.maxOpenExposure
  {
    hide Available, Budget, OpenRisk, OpenSize, SymbolRisk;
    var x := ContextOf(a, p.symbol);
    SymbolBounds(c, reach, a.held, p.symbol);
    var kelly: Option<real>, requested: real :|
      0.0 < requested <= 1.0 && IsLargestFit(c, x, p.stop, kelly, requested, p.size);
    ApprovedFits(c, x, p.stop, kelly, requested, p.size);
    if ZeroRisk(c) {
      NoRoom(c, x, kelly, p);
    }
  }

  lemma NoRoom(c: Config, x: Context, kelly: Option<real>, p: Position)
    requires c.Valid() && ZeroRisk(c) && p.size >= 0.0 && p.Loss() >= 0.0 && x.symbolRisk >= 0.0
    requires Fits(c, x, p.stop, kelly, p.size)
    ensures p.Loss() == 0.0
  {
    hide Available, Risk;
    RiskLinear(0.0, 0.0, p.stop);
    assert c.maxFractionOfBudget == 0.0 ==> Budget(c, x) == 0.0;
  }

  lemma {:induction false} SymbolBounds(c: Config, reach: real, held: seq<Position>, symbol: string)
    requires forall i :: 0 <= i < |held| ==> Sound(c, reach, held[i])
    ensures SymbolRisk(held, symbol) >= 0.0
  {
    hide Position.Loss, ZeroRisk;
    if |held| > 0 {
      SymbolBounds(c, reach, held[..|held| - 1], symbol);
    }
  }

  lemma {:induction false} TradingBounded(c: Config, reach: real, x: Context, events: seq<Event>)
    requires c.Valid() && IsTrading(c, reach, x, events)
    ensures Bounded(c, reach, At(x, events).held)
  {
    if |events| > 0 {
      var init, e := events[..|events| - 1], events[|events| - 1];
      TradingPrefix(c, reach, x, events);
      TradingBounded(c, reach, x, init);
      hide IsTrading;
      StepBounded(c, reach, At(x, init), e);
    }
  }

  lemma StepBounded(c: Config, reach: real, a: Account, e: Event)
    requires c.Valid() && Bounded(c, reach, a.held) && Enabled(c, reach, a, e)
    ensures Bounded(c, reach, After(a, e).held)
  {
    hide OpenRisk, OpenSize, Sound, Enabled, Position.Loss;
    match e {
      case Opened(p) =>
        OpenedIsSound(c, reach, a, p);
        OneMoreHeld(a.held, p);
      case Closed(at, loss) =>
        ClosedIsSound(c, reach, a, at, loss);
        Without(a.held, at);
    }
  }

  lemma OneMoreHeld(held: seq<Position>, p: Position)
    ensures OpenRisk(held + [p]) == OpenRisk(held) + p.Loss() && OpenSize(held + [p]) == OpenSize(held) + p.size
  {
    assert (held + [p])[..|held|] == held;
  }

  lemma ClosedIsSound(c: Config, reach: real, a: Account, at: nat, loss: real)
    requires Bounded(c, reach, a.held) && Enabled(c, reach, a, Closed(at, loss))
    ensures at < |a.held| && a.held[at].size >= 0.0 && a.held[at].Loss() >= 0.0
  {
    assert Sound(c, reach, a.held[at]);
  }

  // ----- risk by symbol -----

  function SymbolsOf(held: seq<Position>): (s: seq<string>)
    ensures |s| == |held| && forall i :: 0 <= i < |held| ==> s[i] == held[i].symbol
  {
    seq(|held|, i requires 0 <= i < |held| => held[i].symbol)
  }

  function LossesOf(held: seq<Position>): (v: seq<real>)
    ensures |v| == |held| && forall i :: 0 <= i < |held| ==> v[i] == held[i].Loss()
  {
    seq(|held|, i requires 0 <= i < |held| => held[i].Loss())
  }

  /** The risk of a symbol is that of its own positions. */
  lemma {:induction false} SymbolRiskIsGroup(held: seq<Position>, symbol: string)
    ensures SymbolRisk(held, symbol) == GroupSum(SymbolsOf(held), LossesOf(held), symbol)
    ensures OpenRisk(held) == Sum(LossesOf(held))
  {
    hide GroupSum, Position.Loss;
    var symbols, losses := SymbolsOf(held), LossesOf(held);
    if |held| == 0 {
      NothingHeld(symbols, losses, symbol);
    } else {
      var n := |held| - 1;
      SymbolRiskIsGroup(held[..n], symbol);
      assert SymbolsOf(held[..n]) == symbols[..n] && LossesOf(held[..n]) == losses[..n];
      GroupSumStep(symbols, losses, symbol);
    }
  }

  lemma NothingHeld(symbols: seq<string>, losses: seq<real>, symbol: string)
    requires |symbols| == |losses| == 0
    ensures GroupSum(symbols, losses, symbol) == 0.0
  {
  }

  /** Over all symbols held the risks add up to the portfolio's. */
  lemma SymbolsAddUp(held: seq<Position>, symbols: seq<string>)
    requires Distinct(symbols) && forall i :: 0 <= i < |held| ==> held[i].symbol in symbols
    ensures SymbolTotal(held, symbols) == OpenRisk(held)
  {
    hide TotalOver, OpenRisk;
    SymbolRiskIsGroup(held, "");
    GroupsReconcile(SymbolsOf(held), LossesOf(held), symbols);
    TotalIsGrouped(held, symbols);
  }

  function SymbolTotal(held: seq<Position>, symbols: seq<string>): real {
    if |symbols| == 0 then 0.0
    else SymbolTotal(held, symbols[..|symbols| - 1]) + SymbolRisk(held, symbols[|symbols| - 1])
  }

  lemma {:induction false} TotalIsGrouped(held: seq<Position>, symbols: seq<string>)
    ensures SymbolTotal(held, symbols) == TotalOver(SymbolsOf(held), LossesOf(held), symbols)
  {
    hide GroupSum, SymbolRisk;
    if |symbols| > 0 {
      TotalIsGrouped(held, symbols[..|symbols| - 1]);
      SymbolRiskIsGroup(held, symbols[|symbols| - 1]);
    }
  }

  lemma {:induction false} SymbolWithout(held: seq<Position>, at: nat, symbol: string)
    requires at < |held|
    ensures SymbolRisk(held[..at] + held[at + 1..], symbol) ==
            SymbolRisk(held, symbol) - if held[at].symbol == symbol then held[at].Loss() else 0.0
  {
    var n := |held| - 1;
    var rest := held[..at] + held[at + 1..];
    hide Position.Loss;
    if at == n {
      assert rest == held[..n];
    } else {
      SymbolWithout(held[..n], at, symbol);
      assert held[..n][..at] + held[..n][at + 1..] == rest[..n - 1];
      assert rest[n - 1] == held[n];
    }
  }

  /** Over every run the positions open in one symbol together risk no more than its limit. */
  lemma {:induction false} SymbolLimitKept(c: Config, reach: real, x: Context, events: seq<Event>, symbol: string)
    requires c.Valid() && IsTrading(c, reach, x, events)
    ensures SymbolRisk(At(x, events).held, symbol) <= c.maxRiskPerSymbol
  {
    hide SymbolRisk, Enabled, After, Bounded;
    if |events| == 0 {
      NoneHeld(symbol);
    } else {
      var n := |events| - 1;
      TradingPrefix(c, reach, x, events);
      SymbolLimitKept(c, reach, x, events[..n], symbol);
      TradingBounded(c, reach, x, events[..n]);
      hide IsTrading;
      StepKeepsSymbol(c, reach, At(x, events[..n]), events[n], symbol);
    }
  }

  lemma StepKeepsSymbol(c: Config, reach: real, a: Account, e: Event, symbol: string)
    requires c.Valid() && Bounded(c, reach, a.held) && Enabled(c, reach, a, e)
    requires SymbolRisk(a.held, symbol) <= c.maxRiskPerSymbol
    ensures SymbolRisk(After(a, e).held, symbol) <= c.maxRiskPerSymbol
  {
    hide SymbolRisk, Bounded, Enabled, Position.Loss;
    match e {
      case Opened(p) =>
        OpenedKeepsSymbol(c, reach, a, p, symbol);
      case Closed(at, loss) =>
        ClosedIsSound(c, reach, a, at, loss);
        SymbolWithout(a.held, at, symbol);
    }
  }

  lemma NoneHeld(symbol: string)
    ensures SymbolRisk([], symbol) == 0.0
  {
  }

  lemma OpenedKeepsSymbol(c: Config, reach: real, a: Account, p: Position, symbol: string)
    requires c.Valid() && Bounded(c, reach, a.held) && Enabled(c, reach, a, Opened(p))
    requires SymbolRisk(a.held, symbol) <= c.maxRiskPerSymbol
    ensures SymbolRisk(a.held + [p], symbol) <= c.maxRiskPerSymbol
  {
    hide Available, Budget, OpenRisk, OpenSize, Sound;
    var x := ContextOf(a, p.symbol);
    var kelly: Option<real>, requested: real :|
      0.0 < requested <= 1.0 && IsLargestFit(c, x, p.stop, kelly, requested, p.size);
    ApprovedFits(c, x, p.stop, kelly, requested, p.size);
    assert (a.held + [p])[..|a.held|] == a.held;
  }

  // ----- positions stopped together -----

  ghost predicate Unrealised(events: seq<Event>) {
    forall k :: 0 <= k < |events| && events[k].Closed? ==> events[k].loss == 0.0
  }

  lemma {:induction false} NothingRealised(c: Config, reach: real, x: Context, events: seq<Event>)
    requires IsTrading(c, reach, x, events) && Unrealised(events)
    ensures At(x, events).x == x
  {
    if |events| > 0 {
      TradingPrefix(c, reach, x, events);
      NothingRealised(c, reach, x, events[..|events| - 1]);
    }
  }

  lemma TripsAtAvailable(c: Config, x: Context, loss: real)
    requires !BreakerTripped(c, x)
    ensures BreakerTripped(c, Lose(x, loss)) <==> loss >= Available(c, x)
    ensures Available(c, x) > 0.0
    ensures 0.0 <= loss <= Available(c, x) ==> Available(c, Lose(x, loss)) == Available(c, x) - loss
  {
  }

  /** All positions a run can hold together, stopped out at once, stay below the breakers. */
  predicate SafeTogether(c: Config, x: Context, reach: real) {
    || c.maxPortfolioRisk < Available(c, x) || Risk(c.maxOpenExposure, reach) < Available(c, x)
    || ZeroRisk(c)
  }

  lemma SafeTogetherHolds(c: Config, x: Context, reach: real, events: seq<Event>)
    requires c.Valid() && !BreakerTripped(c, x) && reach > 0.0 && SafeTogether(c, x, reach)
    requires IsTrading(c, reach, x, events)
    ensures OpenRisk(At(x, events).held) < Available(c, x)
  {
    hide Available, Risk, IsTrading;
    var held := At(x, events).held;
    TradingBounded(c, reach, x, events);
    OpenBounds(c, reach, held);
    RiskMono(OpenSize(held), c.maxOpenExposure, reach);
    TripsAtAvailable(c, x, 0.0);
  }

  // ----- filling the book -----

  /** n equal positions in n symbols, told apart by the length of their names. */
  function Ladder(n: nat, size: real, stop: real): (held: seq<Position>)
    ensures |held| == n && forall i :: 0 <= i < n ==> held[i] == Position(seq(i, _ => 's'), size, stop)
  {
    seq(n, i requires 0 <= i < n => Position(seq(i, _ => 's'), size, stop))
  }

  function Multiple(n: nat, u: real): real {
    n as real * u
  }

  lemma {:induction false} LadderTotals(n: nat, size: real, stop: real)
    ensures OpenSize(Ladder(n, size, stop)) == Multiple(n, size)
    ensures OpenRisk(Ladder(n, size, stop)) == Multiple(n, Risk(size, stop))
    ensures SymbolRisk(Ladder(n, size, stop), seq(n, _ => 's')) == 0.0
  {
    hide Risk, SymbolRisk, Multiple, Ladder, OpenSize, OpenRisk, Position.Loss;
    LadderSymbols(n, size, stop, n);
    OneMore(0, size);
    OneMore(0, Risk(size, stop));
    if n == 0 {
      NoRungs(size, stop);
    } else {
      LadderTotals(n - 1, size, stop);
      LadderStep(n - 1, size, stop);
      OneMoreHeld(Ladder(n - 1, size, stop), Position(seq(n - 1, _ => 's'), size, stop));
      OneMore(n - 1, size);
      OneMore(n - 1, Risk(size, stop));
    }
  }

  lemma NoRungs(size: real, stop: real)
    ensures OpenSize(Ladder(0, size, stop)) == OpenRisk(Ladder(0, size, stop)) == 0.0
  {
  }

  lemma LadderStep(n: nat, size: real, stop: real)
    ensures var p := Position(seq(n, _ => 's'), size, stop);
            Ladder(n + 1, size, stop) == Ladder(n, size, stop) + [p] && p.Loss() == Risk(size, stop)
  {
  }

  lemma OneMore(n: nat, u: real)
    ensures Multiple(n + 1, u) == Multiple(n, u) + u
    ensures Multiple(0, u) == 0.0
  {
  }

  lemma {:induction false} LadderSymbols(n: nat, size: real, stop: real, other: nat)
    requires other >= n
    ensures SymbolRisk(Ladder(n, size, stop), seq(other, _ => 's')) == 0.0
  {
    if n > 0 {
      LadderSymbols(n - 1, size, stop, other);
      assert Ladder(n, size, stop)[..n - 1] == Ladder(n - 1, size, stop);
      assert |seq(n - 1, _ => 's')| != |seq(other, _ => 's')|;
    }
  }

  /** Equal sizes small enough for every cap per trade are approved one after another while the
      whole ladder fits exposure and portfolio. */
  ghost predicate LadderFits(c: Config, x: Context, reach: real, n: nat, size: real) {
    && 0.0 < size <= c.maxPositionSize && Risk(size, reach) <= c.maxRiskPerTrade
    && Risk(size, reach) <= c.maxRiskPerSymbol && Risk(size, reach) <= Budget(c, x)
    && Multiple(n, size) <= c.maxOpenExposure && Multiple(n, Risk(size, reach)) <= c.maxPortfolioRisk
  }

  lemma RungApproved(c: Config, x: Context, reach: real, n: nat, size: real, k: nat)
    requires c.Valid() && !BreakerTripped(c, x) && reach > 0.0 && k < n && LadderFits(c, x, reach, n, size)
    ensures var a := Account(x, Ladder(k, size, reach));
            Enabled(c, reach, a, Opened(Position(seq(k, _ => 's'), size, reach)))
  {
    hide Risk, Available, Budget, SymbolRisk, OpenRisk, OpenSize, Ladder, IsLargestFit, Multiple;
    var a, p := Account(x, Ladder(k, size, reach)), Position(seq(k, _ => 's'), size, reach);
    var y := ContextOf(a, p.symbol);
    LadderTotals(k, size, reach);
    TripsAtAvailable(c, x, 0.0);
    SameLosses(c, x, y);
    RungFits(c, x, y, reach, n, size, k);
  }

  /** The k-th rung is the largest fit when no more than it is requested. */
  lemma RungFits(c: Config, x: Context, y: Context, reach: real, n: nat, size: real, k: nat)
    requires c.Valid() && reach > 0.0 && k < n && LadderFits(c, x, reach, n, size) && Budget(c, y) == Budget(c, x)
    requires y.openExposure == Multiple(k, size) && y.portfolioRisk == Multiple(k, Risk(size, reach))
    requires y.symbolRisk == 0.0
    ensures IsLargestFit(c, y, reach, None, size, size)
    ensures y.openExposure < c.maxOpenExposure && y.symbolRisk < c.maxRiskPerSymbol
    ensures y.portfolioRisk < c.maxPortfolioRisk
  {
    hide Risk, Budget, Multiple;
    RiskOrder(size, 0.0, reach);
    RiskNone(size);
    MultipleBelow(k, n, size);
    MultipleBelow(k, n, Risk(size, reach));
    forall s | 0.0 <= s <= size ensures Fits(c, y, reach, None, s) {
      RiskMono(s, size, reach);
    }
  }

  lemma RiskNone(size: real)
    ensures Risk(size, 0.0) == 0.0
  {
  }

  lemma MultipleBelow(k: nat, n: nat, u: real)
    requires k < n && u > 0.0
    ensures Multiple(k, u) + u <= Multiple(n, u) && Multiple(k, u) < Multiple(n, u)
  {
    OneMore(k, u);
    MulMono((k + 1) as real, n as real, u);
  }

  lemma SameLosses(c: Config, x: Context, y: Context)
    requires y == x.(openExposure := y.openExposure, symbolRisk := y.symbolRisk, portfolioRisk := y.portfolioRisk)
    ensures Available(c, y) == Available(c, x) && Budget(c, y) == Budget(c, x)
    ensures BreakerTripped(c, y) <==> BreakerTripped(c, x)
  {
  }

  /** Opening the whole ladder after a run that left nothing open. */
  lemma {:induction false} Climb(c: Config, reach: real, x: Context, events: seq<Event>, n: nat, size: real, k: nat)
    returns (more: seq<Event>)
    requires c.Valid() && reach > 0.0 && IsTrading(c, reach, x, events) && At(x, events).held == []
    requires !BreakerTripped(c, At(x, events).x) && LadderFits(c, At(x, events).x, reach, n, size) && k <= n
    ensures IsTrading(c, reach, x, more) && At(x, more) == Account(At(x, events).x, Ladder(k, size, reach))
    ensures Unrealised(events) ==> Unrealised(more)
  {
    hide IsTrading, Enabled, LadderFits, At;
    if k == 0 {
      return events;
    }
    more := Climb(c, reach, x, events, n, size, k - 1);
    var e := Opened(Position(seq(k - 1, _ => 's'), size, reach));
    RungApproved(c, At(x, events).x, reach, n, size, k - 1);
    TradingStep(c, reach, x, more, e);
    more := more + [e];
    assert Ladder(k - 1, size, reach) + [e.p] == Ladder(k, size, reach);
  }

  /** A ladder whose stops together cost exactly a given amount. */
  lemma LadderTo(c: Config, x: Context, reach: real, amount: real) returns (n: nat, size: real)
    requires c.Valid() && !BreakerTripped(c, x) && reach > 0.0 && !ZeroRisk(c)
    requires 0.0 < amount <= c.maxPortfolioRisk && amount <= Risk(c.maxOpenExposure, reach)
    ensures LadderFits(c, x, reach, n, size) && Multiple(n, Risk(size, reach)) == amount
  {
    hide Available, Risk, Budget, Multiple;
    TripsAtAvailable(c, x, 0.0);
    BudgetPositive(c, x);
    RiskOrder(c.maxPositionSize, 0.0, reach);
    RiskNone(c.maxPositionSize);
    var cap := Min(Min(c.maxRiskPerTrade, c.maxRiskPerSymbol), Min(Budget(c, x), Risk(c.maxPositionSize, reach)));
    var u: real;
    n, u := Pieces(amount, cap);
    size := u / reach;
    SizeOf(u, reach, size);
    SizeOrder(size, c.maxPositionSize, reach);
    LadderSize(n, u, reach, size, amount, c.maxOpenExposure);
  }

  /** A ladder whose stops together cost exactly what is available. */
  lemma LadderToAvailable(c: Config, x: Context, reach: real) returns (n: nat, size: real)
    requires c.Valid() && !BreakerTripped(c, x) && reach > 0.0 && !SafeTogether(c, x, reach)
    ensures LadderFits(c, x, reach, n, size) && Multiple(n, Risk(size, reach)) == Available(c, x)
  {
    hide LadderFits, Risk, Multiple;
    TripsAtAvailable(c, x, 0.0);
    hide Available;
    n, size := LadderTo(c, x, reach, Available(c, x));
  }

  lemma BudgetPositive(c: Config, x: Context)
    requires c.maxFractionOfBudget > 0.0 && Available(c, x) > 0.0
    ensures Budget(c, x) > 0.0
  {
    ProductPositive(c.maxFractionOfBudget, Available(c, x), Budget(c, x));
  }

  /** A positive amount in equal pieces no larger than a positive cap. */
  lemma Pieces(amount: real, cap: real) returns (n: nat, u: real)
    requires amount > 0.0 && cap > 0.0
    ensures n >= 1 && 0.0 < u <= cap && Multiple(n, u) == amount
  {
    PositiveQuotient(amount, cap);
    var q := amount / cap;
    n := q.Floor + 1;
    u := amount / n as real;
    PositiveQuotient(amount, n as real);
    PiecesBelow(amount, cap, q, n as real, u);
  }

  lemma PiecesBelow(amount: real, cap: real, q: real, n: real, u: real)
    requires cap > 0.0 && q > 0.0 && n > q && q == amount / cap && u == amount / n
    ensures u <= cap && n * u == amount
  {
    assert u * n == amount && q * cap == amount;
    MulStrict(q, n, cap);
    if u > cap {
      MulStrict(cap, u, n);
    }
  }

  lemma SizeOf(u: real, reach: real, size: real)
    requires u > 0.0 && reach > 0.0 && size == u / reach
    ensures size > 0.0 && Risk(size, reach) == u
  {
    PositiveQuotient(u, reach);
  }

  lemma SizeOrder(s: real, t: real, reach: real)
    requires reach > 0.0 && Risk(s, reach) <= Risk(t, reach)
    ensures s <= t
  {
    if s > t {
      MulStrict(t, s, reach);
    }
  }

  lemma LadderSize(n: nat, u: real, reach: real, size: real, amount: real, exposure: real)
    requires reach > 0.0 && Risk(size, reach) == u && Multiple(n, u) == amount && amount <= Risk(exposure, reach)
    ensures Multiple(n, size) <= exposure
  {
    MulAssoc(n as real, size, reach);
    SizeOrder(Multiple(n, size), exposure, reach);
  }

  /** Positions opened under one loss context and then all stopped out can trip a breaker exactly
      when the least remaining loss budget is within the portfolio limit and within what the open
      exposure can lose at the farthest stop, and no cap per trade is zero. */
  lemma StopsTogetherTripExactly(c: Config, x: Context, reach: real)
    requires c.Valid() && !BreakerTripped(c, x) && reach > 0.0
    ensures (forall events :: IsTrading(c, reach, x, events) && Unrealised(events) ==>
              !BreakerTripped(c, Lose(x, OpenRisk(At(x, events).held))))
            <==> SafeTogether(c, x, reach)
  {
    hide Available, IsTrading, OpenRisk, LadderFits, BreakerTripped, Risk, SafeTogether, Multiple;
    if SafeTogether(c, x, reach) {
      forall events | IsTrading(c, reach, x, events) && Unrealised(events)
        ensures !BreakerTripped(c, Lose(x, OpenRisk(At(x, events).held)))
      {
        SafeTogetherHolds(c, x, reach, events);
        TripsAtAvailable(c, x, OpenRisk(At(x, events).held));
      }
    } else {
      var n, size := LadderToAvailable(c, x, reach);
      NoEvents(c, reach, x);
      var events := Climb(c, reach, x, [], n, size, n);
      LadderTotals(n, size, reach);
      TripsAtAvailable(c, x, OpenRisk(At(x, events).held));
    }
  }

  lemma NoEvents(c: Config, reach: real, x: Context)
    ensures IsTrading(c, reach, x, []) && Unrealised([]) && At(x, []) == Account(x, [])
  {
  }

  // ----- one position at a time -----

  ghost predicate OneAtATime(x: Context, events: seq<Event>) {
    forall k :: 0 <= k <= |events| ==> |At(x, events[..k]).held| <= 1
  }

  /** A limit of zero under which nothing can be lost. */
  predicate NothingToLose(c: Config) {
    ZeroRisk(c) || c.maxPortfolioRisk == 0.0 || c.maxOpenExposure == 0.0
  }

  lemma NoLoss(c: Config, reach: real, held: seq<Position>)
    requires c.Valid() && reach > 0.0 && Bounded(c, reach, held) && NothingToLose(c)
    ensures forall i :: 0 <= i < |held| ==> held[i].Loss() <= 0.0
  {
    hide Risk, ZeroRisk, Sound, Position.Loss;
    OpenBounds(c, reach, held);
    RiskMono(OpenSize(held), c.maxOpenExposure, reach);
    RiskLinear(0.0, 0.0, reach);
  }

  lemma {:induction false} NothingLost(c: Config, reach: real, x: Context, events: seq<Event>)
    requires c.Valid() && reach > 0.0 && NothingToLose(c) && IsTrading(c, reach, x, events)
    ensures At(x, events).x == x
  {
    if |events| > 0 {
      var init := events[..|events| - 1];
      TradingPrefix(c, reach, x, events);
      NothingLost(c, reach, x, init);
      TradingBounded(c, reach, x, init);
      hide IsTrading, Bounded;
      NoLoss(c, reach, At(x, init).held);
    }
  }

  /** A single open position risks less than what is available when it is opened. */
  lemma OpenedBelowAvailable(c: Config, reach: real, a: Account, p: Position)
    requires c.Valid() && c.maxFractionOfBudget < 1.0 && Enabled(c, reach, a, Opened(p))
    ensures !BreakerTripped(c, a.x) && p.Loss() < Available(c, a.x)
  {
    hide Available, OpenRisk, OpenSize, SymbolRisk;
    var x := ContextOf(a, p.symbol);
    var kelly: Option<real>, requested: real :|
      0.0 < requested <= 1.0 && IsLargestFit(c, x, p.stop, kelly, requested, p.size);
    ApprovedFits(c, x, p.stop, kelly, requested, p.size);
    SameLosses(c, a.x, x);
    TripsAtAvailable(c, a.x, 0.0);
    PartOfBudget(c.maxFractionOfBudget, Available(c, x), Budget(c, x));
  }

  lemma {:induction false} OneAtATimeNeverTrips(c: Config, reach: real, x: Context, events: seq<Event>)
    requires c.Valid() && c.maxFractionOfBudget < 1.0 && !BreakerTripped(c, x)
    requires IsTrading(c, reach, x, events) && OneAtATime(x, events)
    ensures var a := At(x, events);
            !BreakerTripped(c, a.x) && forall i :: 0 <= i < |a.held| ==> a.held[i].Loss() < Available(c, a.x)
  {
    if |events| > 0 {
      var init, e := events[..|events| - 1], events[|events| - 1];
      TradingPrefix(c, reach, x, events);
      forall k | 0 <= k <= |init| ensures |At(x, init[..k]).held| <= 1 {
        assert init[..k] == events[..k];
      }
      assert events[..|events|] == events;
      OneAtATimeNeverTrips(c, reach, x, init);
      hide IsTrading, Available, BreakerTripped;
      var a := At(x, init);
      match e {
        case Opened(p) => OpenedBelowAvailable(c, reach, a, p);
        case Closed(at, loss) => TripsAtAvailable(c, a.x, loss);
      }
    }
  }

  /** Open one position and let its stop cost `loss`. */
  lemma LoseOnce(c: Config, reach: real, x: Context, events: seq<Event>, loss: real) returns (more: seq<Event>)
    requires c.Valid() && reach > 0.0 && IsTrading(c, reach, x, events) && At(x, events).held == []
    requires !BreakerTripped(c, At(x, events).x) && loss > 0.0
    requires LadderFits(c, At(x, events).x, reach, 1, loss / reach)
    ensures IsTrading(c, reach, x, more) && At(x, more) == Account(Lose(At(x, events).x, loss), [])
    ensures OneAtATime(x, events) ==> OneAtATime(x, more)
  {
    hide IsTrading, Enabled, LadderFits, At, Risk;
    var size := loss / reach;
    SizeOf(loss, reach, size);
    var p := Position(seq(0, _ => 's'), size, reach);
    RungApproved(c, At(x, events).x, reach, 1, size, 0);
    assert Ladder(0, size, reach) == [];
    TradingStep(c, reach, x, events, Opened(p));
    var mid := events + [Opened(p)];
    assert At(x, events).held + [p] == [p];
    CloseEnabled(c, reach, At(x, events).x, p, loss);
    TradingStep(c, reach, x, mid, Closed(0, loss));
    more := mid + [Closed(0, loss)];
    if OneAtATime(x, events) {
      forall k | 0 <= k <= |more| ensures |At(x, more[..k]).held| <= 1 {
        assert k <= |events| ==> more[..k] == events[..k];
        assert more[..|events| + 1] == mid && more[..|more|] == more;
      }
    }
  }

  lemma CloseEnabled(c: Config, reach: real, x: Context, p: Position, loss: real)
    requires 0.0 <= loss <= p.Loss()
    ensures var a := Account(x, [p]);
            Enabled(c, reach, a, Closed(0, loss)) && After(a, Closed(0, loss)) == Account(Lose(x, loss), [])
  {
  }

  /** What one position can lose when nothing else is open, the loss budget aside. */
  function LossCap(c: Config, reach: real): real {
    Min(Min(Min(c.maxRiskPerTrade, c.maxRiskPerSymbol), c.maxPortfolioRisk),
        Min(Risk(c.maxPositionSize, reach), Risk(c.maxOpenExposure, reach)))
  }

  lemma LossCapPositive(c: Config, reach: real)
    requires c.Valid() && reach > 0.0 && !NothingToLose(c)
    ensures LossCap(c, reach) > 0.0
  {
    ProductPositive(c.maxPositionSize, reach, Risk(c.maxPositionSize, reach));
    ProductPositive(c.maxOpenExposure, reach, Risk(c.maxOpenExposure, reach));
  }

  lemma LossFits(c: Config, x: Context, reach: real, loss: real)
    requires reach > 0.0 && 0.0 < loss <= LossCap(c, reach) && loss <= Budget(c, x)
    ensures LadderFits(c, x, reach, 1, loss / reach)
  {
    hide Risk, Budget;
    var size := loss / reach;
    SizeOf(loss, reach, size);
    SizeOrder(size, c.maxPositionSize, reach);
    SizeOrder(size, c.maxOpenExposure, reach);
  }

  /** Losing at most one position's cap at a time, what is available falls to any positive level. */
  lemma {:induction false} Bleed(c: Config, reach: real, x: Context, level: real, step: real, n: nat)
    returns (events: seq<Event>)
    requires c.Valid() && reach > 0.0 && !NothingToLose(c) && !BreakerTripped(c, x)
    requires level > 0.0 && 0.0 < step <= LossCap(c, reach) && step <= c.maxFractionOfBudget * level
    ensures IsTrading(c, reach, x, events) && OneAtATime(x, events) && At(x, events).held == []
    ensures var y := At(x, events).x;
            && !BreakerTripped(c, y)
            && (Available(c, y) <= level || Available(c, y) <= Available(c, x) - Multiple(n, step))
  {
    hide IsTrading, At, Available, BreakerTripped, LossCap, Multiple, LadderFits, Risk;
    if n == 0 {
      NoEvents(c, reach, x);
      OneMore(0, step);
      Nobody(x);
      return [];
    }
    events := Bleed(c, reach, x, level, step, n - 1);
    var y := At(x, events).x;
    if Available(c, y) > level {
      MulMono(level, Available(c, y), c.maxFractionOfBudget);
      TripsAtAvailable(c, y, step);
      StepWithin(c, y, step, level);
      LossFits(c, y, reach, step);
      events := LoseOnce(c, reach, x, events, step);
      OneMore(n - 1, step);
    }
  }

  lemma StepWithin(c: Config, y: Context, step: real, level: real)
    requires c.Valid() && Available(c, y) > level > 0.0 && step <= c.maxFractionOfBudget * level
    ensures step <= Budget(c, y) && step < Available(c, y)
  {
    hide Available;
    MulMono(level, Available(c, y), c.maxFractionOfBudget);
    MulMono(c.maxFractionOfBudget, 1.0, level);
  }

  lemma Nobody(x: Context)
    ensures OneAtATime(x, [])
  {
  }

  /** Some run of single losses brings what is available down to a level without tripping a breaker. */
  lemma BleedTo(c: Config, reach: real, x: Context, level: real) returns (events: seq<Event>)
    requires c.Valid() && reach > 0.0 && !NothingToLose(c) && !BreakerTripped(c, x) && level > 0.0
    ensures IsTrading(c, reach, x, events) && OneAtATime(x, events) && At(x, events).held == []
    ensures var y := At(x, events).x; !BreakerTripped(c, y) && Available(c, y) <= level
  {
    hide IsTrading, At, BreakerTripped, LossCap, Multiple, Risk;
    LossCapPositive(c, reach);
    var share := c.maxFractionOfBudget * level;
    ProductPositive(c.maxFractionOfBudget, level, share);
    var step := Min(LossCap(c, reach), share);
    TripsAtAvailable(c, x, 0.0);
    var n, u := Pieces(Available(c, x), step);
    MultipleMono(n, u, step);
    events := Bleed(c, reach, x, level, step, n);
  }

  lemma MultipleMono(n: nat, u: real, v: real)
    requires u <= v
    ensures Multiple(n, u) <= Multiple(n, v)
  {
    MulMono(u, v, n as real);
  }

  /** One position at a time, bracketed losses can trip a breaker exactly when the whole budget may
      be staked and no limit is zero. */
  lemma OneAtATimeTripsExactly(c: Config, x: Context, reach: real)
    requires c.Valid() && !BreakerTripped(c, x) && reach > 0.0
    ensures (forall events :: IsTrading(c, reach, x, events) && OneAtATime(x, events) ==>
              !BreakerTripped(c, At(x, events).x))
            <==> c.maxFractionOfBudget < 1.0 || NothingToLose(c)
  {
    hide IsTrading, At, BreakerTripped, NothingToLose, Available;
    if c.maxFractionOfBudget < 1.0 || NothingToLose(c) {
      forall events | IsTrading(c, reach, x, events) && OneAtATime(x, events)
        ensures !BreakerTripped(c, At(x, events).x)
      {
        if c.maxFractionOfBudget < 1.0 {
          OneAtATimeNeverTrips(c, reach, x, events);
        } else {
          NothingLost(c, reach, x, events);
        }
      }
    } else {
      hide LossCap;
      LossCapPositive(c, reach);
      var events := BleedTo(c, reach, x, LossCap(c, reach));
      var y := At(x, events).x;
      var rest := Available(c, y);
      TripsAtAvailable(c, y, rest);
      LossFits(c, y, reach, rest);
      events := LoseOnce(c, reach, x, events, rest);
      assert BreakerTripped(c, At(x, events).x);
    }
  }

  // ----- any run -----

  lemma LoseTwice(x: Context, a: real, b: real)
    ensures Lose(Lose(x, a), b) == Lose(x, a + b)
    ensures Lose(x, 0.0) == x
  {
  }

  /** Stop out a whole ladder from its last position on. */
  lemma {:induction false} CloseLadder(c: Config, reach: real, x: Context, events: seq<Event>, y: Context, n: nat,
                                       size: real)
    returns (more: seq<Event>)
    requires reach > 0.0 && size > 0.0
    requires IsTrading(c, reach, x, events) && At(x, events) == Account(y, Ladder(n, size, reach))
    ensures IsTrading(c, reach, x, more) && At(x, more) == Account(Lose(y, Multiple(n, Risk(size, reach))), [])
    decreases n
  {
    hide IsTrading, At, Risk, Multiple;
    var u := Risk(size, reach);
    OneMore(0, u);
    if n == 0 {
      LoseTwice(y, 0.0, 0.0);
      return events;
    }
    var e := Closed(n - 1, u);
    RiskOrder(size, 0.0, reach);
    RiskNone(size);
    TradingStep(c, reach, x, events, e);
    var rest := Ladder(n, size, reach);
    assert rest[..n - 1] + rest[n..] == Ladder(n - 1, size, reach);
    more := CloseLadder(c, reach, x, events + [e], Lose(y, u), n - 1, size);
    OneMore(n - 1, u);
    LoseTwice(y, u, Multiple(n - 1, u));
  }

  /** Over all runs of approved trades and bracketed losses, the losses alone can trip a breaker
      exactly when no limit is zero, whatever fraction of the budget may be staked: single losses
      first bring the budget down to what positions open together may lose. */
  lemma AnyRunTripsExactly(c: Config, x: Context, reach: real)
    requires c.Valid() && !BreakerTripped(c, x) && reach > 0.0
    ensures (forall events :: IsTrading(c, reach, x, events) ==> !BreakerTripped(c, At(x, events).x))
            <==> NothingToLose(c)
  {
    hide IsTrading, At, BreakerTripped, Available, OneAtATime;
    if NothingToLose(c) {
      hide NothingToLose;
      forall events | IsTrading(c, reach, x, events) ensures !BreakerTripped(c, At(x, events).x) {
        NothingLost(c, reach, x, events);
      }
    } else {
      var level := Min(c.maxPortfolioRisk, Risk(c.maxOpenExposure, reach));
      ProductPositive(c.maxOpenExposure, reach, Risk(c.maxOpenExposure, reach));
      hide Risk, LadderFits, Multiple;
      var events := BleedTo(c, reach, x, level);
      var y := At(x, events).x;
      var n, size := LadderToAvailable(c, y, reach);
      events := Climb(c, reach, x, events, n, size, n);
      LadderPositive(c, y, reach, n, size);
      events := CloseLadder(c, reach, x, events, y, n, size);
      TripsAtAvailable(c, y, Available(c, y));
      assert BreakerTripped(c, At(x, events).x);
    }
  }

  lemma LadderPositive(c: Config, x: Context, reach: real, n: nat, size: real)
    requires LadderFits(c, x, reach, n, size)
    ensures size > 0.0
  {
  }
}
