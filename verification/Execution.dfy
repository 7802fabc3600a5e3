/** From proposal to order: building the order, honouring the gate's size, and submitting. */
module Execution {
  import opened RealMath
  import opened Wrappers
  import opened RiskGate

  datatype Side = Buy | Sell {
    function Opposite(): Side {
      if Buy? then Sell else Buy
    }
  }

  /** An open position as the venue reports it; the side is None when it is not a known one. */
  datatype Position = Position(symbol: string, side: Option<Side>)

  datatype Order = Order(
    proposal: string, actionOrder: int, kind: ActionType, symbol: string, side: Side, quantity: real)

  datatype Outcome = NotTraded(reason: Reason) | Submitted(order: Order)

  datatype Reason = BySupervisor | NoOrder | ByGate | ByPropRules | NotAuthorized

  /** The side of the first position in the symbol whose side is known. */
  ghost predicate IsHeldSide(positions: seq<Position>, symbol: string, held: Option<Side>) {
    match held
    case Some(s) =>
      exists i :: 0 <= i < |positions| && positions[i] == Position(symbol, Some(s))
        && forall j :: 0 <= j < i ==> positions[j].symbol != symbol || positions[j].side.None?
    case None => forall j :: 0 <= j < |positions| ==> positions[j].symbol != symbol || positions[j].side.None?
  }

  method HeldSide(positions: seq<Position>, symbol: string) returns (held: Option<Side>)
    ensures IsHeldSide(positions, symbol, held)
  {
    for i := 0 to |positions|
      invariant forall j :: 0 <= j < i ==> positions[j].symbol != symbol || positions[j].side.None?
    {
      if positions[i].symbol == symbol && positions[i].side.Some? {
        assert positions[i] == Position(symbol, Some(positions[i].side.value));
        return positions[i].side;
      }
    }
    return None;
  }

  /** Entries name their side; additions follow the held side, exits oppose it, with buying and
      selling as their fallbacks. */
  ghost predicate IsOrderSide(kind: ActionType, positions: seq<Position>, symbol: string, side: Side) {
    exists held :: IsHeldSide(positions, symbol, held) &&
      match kind
      case EnterLong => side == Buy
      case EnterShort => side == Sell
      case ScaleIn => side == if held.Some? then held.value else Buy
      case _ => if held.Some? then side != held.value else side == Sell
  }

  /** The order a proposal asks for before the gate has seen it. */
  ghost predicate IsBuilt(p: Proposal, mark: real, positions: seq<Position>, o: Order) {
    && p.Primary().Some? && mark > 0.0
    && var a := p.Primary().value;
    && o.proposal == p.id && o.actionOrder == a.order && o.kind == a.kind && o.symbol == p.symbol
    && o.quantity * mark == a.size * p.context.equity
    && IsOrderSide(a.kind, positions, p.symbol, o.side)
  }

  /** A quantity with the sign of its side: bought is positive, sold is negative. */
  function Signed(side: Side, quantity: real): real {
    if side == Buy then quantity else -quantity
  }

  /** What a built order does to the position it is built for: an exit and a scale-out move it towards
      the other side, and so towards zero while they are no larger; a scale-in moves it away; an entry
      buys to go long and sells to go short. */
  lemma OrderMovesPosition(p: Proposal, mark: real, positions: seq<Position>, o: Order, held: Side, size: real)
    requires IsBuilt(p, mark, positions, o) && o.quantity > 0.0 && size > 0.0
    requires IsHeldSide(positions, p.symbol, Some(held))
    ensures o.kind in {Exit, ScaleOut} ==> Signed(o.side, o.quantity) * Signed(held, size) < 0.0
    ensures o.kind in {Exit, ScaleOut} && o.quantity <= size ==>
              Abs(Signed(held, size) + Signed(o.side, o.quantity)) == size - o.quantity
    ensures o.kind == ScaleIn ==> Abs(Signed(held, size) + Signed(o.side, o.quantity)) == size + o.quantity
    ensures o.kind == EnterLong ==> Signed(o.side, o.quantity) == o.quantity
    ensures o.kind == EnterShort ==> Signed(o.side, o.quantity) == -o.quantity
  {
    hide IsHeldSide;
    var other: Option<Side> := SideFor(o.kind, positions, p.symbol, o.side);
    HeldSideUnique(positions, p.symbol, Some(held), other);
    SignsMultiply(o.quantity, size);
  }

  lemma SideFor(kind: ActionType, positions: seq<Position>, symbol: string, side: Side) returns (held: Option<Side>)
    requires IsOrderSide(kind, positions, symbol, side)
    ensures IsHeldSide(positions, symbol, held)
    ensures kind == EnterLong ==> side == Buy
    ensures kind == EnterShort ==> side == Sell
    ensures kind == ScaleIn && held.Some? ==> side == held.value
    ensures kind in {Exit, ScaleOut} && held.Some? ==> side != held.value
  {
    hide IsHeldSide;
    held :| IsHeldSide(positions, symbol, held) &&
      match kind
      case EnterLong => side == Buy
      case EnterShort => side == Sell
      case ScaleIn => side == if held.Some? then held.value else Buy
      case _ => if held.Some? then side != held.value else side == Sell;
  }

  lemma HeldSideUnique(positions: seq<Position>, symbol: string, a: Option<Side>, b: Option<Side>)
    requires IsHeldSide(positions, symbol, a) && IsHeldSide(positions, symbol, b)
    ensures a == b
  {
  }

  lemma SignsMultiply(q: real, s: real)
    requires q > 0.0 && s > 0.0
    ensures (-q) * s < 0.0 && q * (-s) < 0.0
  {
  }

  predicate HasNoOrder(p: Proposal, mark: real) {
    || p.Primary().None? || p.Primary().value.kind in {StandAside, ReduceRisk}
    || mark <= 0.0 || p.context.equity <= 0.0
  }

  method BuildOrderRequest(p: Proposal, mark: real, positions: seq<Position>) returns (o: Option<Order>)
    requires p.Valid()
    ensures o.None? <==> HasNoOrder(p, mark)
    ensures o.Some? ==> p.Primary().Some? && o.value.quantity > 0.0 && IsBuilt(p, mark, positions, o.value)
  {
    hide IsHeldSide, IsOrderSide, Quantity;
    var primary := p.Primary();
    if primary.None? || primary.value.kind in {StandAside, ReduceRisk} {
      return None;
    }
    var a := primary.value;
    var side := SideOf(a.kind, positions, p.symbol);
    if mark <= 0.0 {
      return None;
    }
    PrimaryValid(p);
    QuantityValue(a.size, p.context.equity, mark);
    var quantity := Quantity(a.size, p.context.equity, mark);
    if quantity <= 0.0 {
      return None;
    }
    return Some(Order(p.id, a.order, a.kind, p.symbol, side, quantity));
  }

  method SideOf(kind: ActionType, positions: seq<Position>, symbol: string) returns (side: Side)
    ensures IsOrderSide(kind, positions, symbol, side)
  {
    hide IsHeldSide;
    var held := HeldSide(positions, symbol);
    match kind {
      case EnterLong => side := Buy;
      case EnterShort => side := Sell;
      case ScaleIn => side := if held.Some? then held.value else Buy;
      case _ => side := if held.Some? then held.value.Opposite() else Sell;
    }
  }

  lemma PrimaryValid(p: Proposal)
    requires p.Valid() && p.Primary().Some?
    ensures p.Primary().value.Valid()
  {
  }

  lemma QuantityValue(size: real, equity: real, mark: real)
    requires mark > 0.0
    ensures Quantity(size, equity, mark) * mark == size * equity
    ensures size > 0.0 ==> (Quantity(size, equity, mark) > 0.0 <==> equity > 0.0)
  {
    var q := Quantity(size, equity, mark);
    var v := size * equity;
    assert q * mark == v;
    if size > 0.0 && equity > 0.0 {
      ProductPositive(size, equity, v);
      if q <= 0.0 {
        MulMono(q, 0.0, mark);
      }
    } else if size > 0.0 {
      ProductNonneg(size, -equity, -v);
      if q > 0.0 {
        ProductPositive(q, mark, v);
      }
    }
  }

  /** The approved fraction as an absolute cap on the order; an approval outside (0, 1] leaves
      the order as it is. */
  method ApplyRiskReduction(o: Order, d: Decision, equity: real, mark: real) returns (r: Order)
    requires o.quantity > 0.0
    ensures r == o.(quantity := r.quantity) && 0.0 < r.quantity <= o.quantity
    ensures Reduces(d, equity, mark) ==>
              && r.quantity * mark <= d.size.value * equity
              && (r.quantity < o.quantity ==> r.quantity * mark == d.size.value * equity)
    ensures !Reduces(d, equity, mark) || mark <= 0.0 ==> r == o
  {
    hide Quantity;
    if d.size.None? || !(0.0 < d.size.value <= 1.0) || mark <= 0.0 {
      return o;
    }
    QuantityValue(d.size.value, equity, mark);
    var approved := Quantity(d.size.value, equity, mark);
    var reduced := Max(Min(o.quantity, approved), 0.0);
    if reduced <= 0.0 {
      return o;
    }
    MulMono(reduced, approved, mark);
    return o.(quantity := reduced);
  }

  predicate Reduces(d: Decision, equity: real, mark: real) {
    d.size.Some? && 0.0 < d.size.value <= 1.0 && mark > 0.0 && equity > 0.0
  }

  class ExecutionCore {
    const gate: CircuitBreakerRiskGate
    const paperMode: bool
    const liveAuthorized: bool
    var lastProposal: Option<Proposal>

    constructor (g: CircuitBreakerRiskGate, paper: bool, live: bool)
      ensures gate == g && paperMode == paper && liveAuthorized == live && lastProposal == None
    {
      gate, paperMode, liveAuthorized, lastProposal := g, paper, live, None;
    }

    /** The pipeline up to the submission of the order, and what the gate decided on the way. The
        supervisor's and the prop rules' answers are inputs. */
    method ProcessProposal(p: Proposal, mark: real, positions: seq<Position>, supervisorAllows: bool,
                           propRulesAllow: bool, sqrt: real -> real)
      returns (r: Outcome, d: Option<Decision>)
      requires gate.Valid() && p.Valid() && IsSqrt(sqrt)
      modifies this
      ensures lastProposal == Some(p)
      ensures d.Some? ==> IsDecision(gate, p, mark, sqrt, d.value)
      ensures r == NotTraded(BySupervisor) <==> !supervisorAllows
      ensures r == NotTraded(NoOrder) <==> supervisorAllows && HasNoOrder(p, mark)
      ensures d.Some? <==> supervisorAllows && !HasNoOrder(p, mark)
      ensures r == NotTraded(ByGate) <==> d.Some? && d.value.verdict == Rejected
      ensures r == NotTraded(ByPropRules) <==> d.Some? && d.value.verdict != Rejected && !propRulesAllow
      ensures r.Submitted? <==>
              && d.Some? && d.value.verdict != Rejected && propRulesAllow
              && (paperMode || liveAuthorized)
      ensures r.Submitted? ==> IsSubmission(p, mark, positions, d.value, r.order)
    {
      hide IsDecision, IsBuilt, IsSubmission, HasNoOrder, Reduces, Proposal.Valid, Proposal.Primary,
           CircuitBreakerRiskGate.Valid;
      lastProposal := Some(p);
      if !supervisorAllows {
        return NotTraded(BySupervisor), None;
      }
      var built := BuildOrderRequest(p, mark, positions);
      if built.None? {
        return NotTraded(NoOrder), None;
      }
      var decision := Decide(gate, p, mark, sqrt);
      d := Some(decision);
      if decision.verdict == Rejected {
        return NotTraded(ByGate), d;
      }
      var order := built.value;
      if decision.verdict == Reduced {
        order := ApplyRiskReduction(order, decision, p.context.equity, mark);
      }
      SubmissionOf(p, mark, positions, decision, built.value, order);
      if !propRulesAllow {
        return NotTraded(ByPropRules), d;
      }
      if !paperMode && !liveAuthorized {
        return NotTraded(NotAuthorized), d;
      }
      return Submitted(order), d;
    }
  }

  /** What the gate's decision promises, as `Evaluate` states it. */
  ghost predicate IsDecision(gate: CircuitBreakerRiskGate, p: Proposal, mark: real, sqrt: real -> real, d: Decision)
    requires gate.Valid() && p.Valid() && IsSqrt(sqrt)
    reads gate, gate.toxicity.Values, gate.impact
  {
    p.Primary().Some? &&
    var a := p.Primary().value;
    if a.kind.Safe() then d == Decision(Approved, None)
    else
      && (d.verdict == Rejected <==> gate.Blocked(p, a, Some(mark), sqrt))
      && (d.verdict != Rejected ==>
           && p.plan.Some? && d.size.Some?
           && IsLargestFit(gate.config, p.context, p.plan.value.StopDistance(), gate.KellyFor(p, a, sqrt), a.size,
                           d.size.value))
      && (d.verdict == Reduced <==> d.verdict != Rejected && d.size.value < a.size)
  }

  method Decide(gate: CircuitBreakerRiskGate, p: Proposal, mark: real, sqrt: real -> real) returns (d: Decision)
    requires gate.Valid() && p.Valid() && IsSqrt(sqrt) && p.Primary().Some?
    ensures IsDecision(gate, p, mark, sqrt, d)
  {
    hide CircuitBreakerRiskGate.Blocked, IsLargestFit;
    d := gate.Evaluate(p, Some(mark), sqrt);
  }

  /** A submitted order is the built one, with its quantity cut to the approved fraction when
      the gate reduced it to a positive one. */
  ghost predicate IsSubmission(p: Proposal, mark: real, positions: seq<Position>, d: Decision, o: Order) {
    exists b :: IsBuilt(p, mark, positions, b) && b.quantity > 0.0 && o == b.(quantity := o.quantity)
      && 0.0 < o.quantity <= b.quantity
      && (if d.verdict == Reduced && Reduces(d, p.context.equity, mark)
          then o.quantity * mark <= d.size.value * p.context.equity else o == b)
  }

  lemma SubmissionOf(p: Proposal, mark: real, positions: seq<Position>, d: Decision, b: Order, o: Order)
    requires IsBuilt(p, mark, positions, b) && b.quantity > 0.0 && o == b.(quantity := o.quantity)
    requires 0.0 < o.quantity <= b.quantity
    requires if d.verdict == Reduced && Reduces(d, p.context.equity, mark)
             then o.quantity * mark <= d.size.value * p.context.equity else o == b
    ensures IsSubmission(p, mark, positions, d, o)
  {
  }

  // ----- the gate and the builder compose -----

  /** A limit of the configuration that is zero and so caps every size at zero. */
  predicate ZeroLimit(c: Config, kelly: Option<real>) {
    || c.maxPositionSize == 0.0 || c.maxRiskPerTrade == 0.0 || c.maxFractionOfBudget == 0.0
    || (kelly.Some? && kelly.value == 0.0)
  }

  /** The full order, when the approval is not applied. */
  lemma SubmittedInFull(p: Proposal, mark: real, positions: seq<Position>, d: Decision, o: Order)
    requires IsSubmission(p, mark, positions, d, o) && !(d.verdict == Reduced && Reduces(d, p.context.equity, mark))
    ensures p.Primary().Some? && o.quantity > 0.0 && o.quantity * mark == p.Primary().value.size * p.context.equity
  {
    hide IsOrderSide, Reduces;
  }

  lemma SubmittedReduced(p: Proposal, mark: real, positions: seq<Position>, d: Decision, o: Order)
    requires IsSubmission(p, mark, positions, d, o) && d.verdict == Reduced && Reduces(d, p.context.equity, mark)
    ensures o.quantity * mark <= d.size.value * p.context.equity
  {
    hide IsBuilt;
  }

  lemma WithinApproval(p: Proposal, mark: real, positions: seq<Position>, d: Decision, o: Order, a: Action)
    requires IsSubmission(p, mark, positions, d, o) && mark > 0.0 && p.context.equity > 0.0
    requires p.Primary() == Some(a) && a.Valid() && d.size.Some? && 0.0 <= d.size.value <= a.size
    requires d.verdict == Reduced <==> d.size.value < a.size
    ensures o.quantity * mark <= d.size.value * p.context.equity <==> d.size.value != 0.0
  {
    hide IsSubmission;
    if Reduces(d, p.context.equity, mark) && d.verdict == Reduced {
      SubmittedReduced(p, mark, positions, d, o);
    } else {
      SubmittedInFull(p, mark, positions, d, o);
      if d.size.value == 0.0 {
        ProductPositive(o.quantity, mark, o.quantity * mark);
      }
    }
  }

  /** Every submitted risk-increasing order is worth at most the approved share of equity, exactly
      when none of the limits that apply is zero. With a zero limit the gate reduces to nothing,
      and the full order goes out. */
  lemma SubmittedWithinApprovalExactly(gate: CircuitBreakerRiskGate, p: Proposal, mark: real, positions: seq<Position>,
                                       sqrt: real -> real, d: Decision, o: Order)
    requires gate.Valid() && p.Valid() && IsSqrt(sqrt) && !HasNoOrder(p, mark)
    requires IsDecision(gate, p, mark, sqrt, d) && d.verdict != Rejected && IsSubmission(p, mark, positions, d, o)
    requires !p.Primary().value.kind.Safe()
    ensures d.size.Some?
    ensures o.quantity * mark <= d.size.value * p.context.equity <==>
            !ZeroLimit(gate.config, gate.KellyFor(p, p.Primary().value, sqrt))
  {
    hide IsLargestFit, IsSubmission, ZeroLimit, Exhausted, KellyLimit, ToxicBook, BreakerTripped,
         CircuitBreakerRiskGate.ImpactTooHigh, CircuitBreakerRiskGate.KellyFor;
    var a := p.Primary().value;
    var kelly, stop := gate.KellyFor(p, a, sqrt), p.plan.value.StopDistance();
    PrimaryValid(p);
    KellyBounds(gate, p, a, sqrt);
    FitRange(gate.config, p.context, stop, kelly, a.size, d.size.value);
    ZeroExactly(gate.config, p.context, stop, kelly, a.size, d.size.value);
    WithinApproval(p, mark, positions, d, o, a);
  }

  lemma FitRange(c: Config, x: Context, stop: real, kelly: Option<real>, requested: real, size: real)
    requires IsLargestFit(c, x, stop, kelly, requested, size)
    ensures 0.0 <= size <= requested
  {
  }

  lemma KellyBounds(gate: CircuitBreakerRiskGate, p: Proposal, a: Action, sqrt: real -> real)
    requires gate.Valid() && IsSqrt(sqrt)
    ensures var k := gate.KellyFor(p, a, sqrt); k.Some? ==> 0.0 <= k.value
  {
    hide Edge.Value, Edge.Kelly;
    if p.symbol in gate.edges && gate.edges[p.symbol].Kelly() > 0.0 && gate.config.kellySafetyFactor > 0.0 {
      ScaledNonneg(gate.edges[p.symbol].Kelly(), gate.config.kellySafetyFactor);
    }
  }

  /** When nothing is exhausted, the largest fitting size is zero exactly at a zero limit. */
  lemma ZeroExactly(c: Config, x: Context, stop: real, kelly: Option<real>, requested: real, size: real)
    requires c.Valid() && stop > 0.0 && requested > 0.0 && !Exhausted(c, x)
    requires (kelly.Some? ==> kelly.value >= 0.0) && IsLargestFit(c, x, stop, kelly, requested, size)
    ensures size == 0.0 <==> ZeroLimit(c, kelly)
  {
    hide Fits, Available;
    if ZeroLimit(c, kelly) {
      assert Fits(c, x, stop, kelly, size);
      ZeroLimitFits(c, x, stop, kelly, size);
    } else {
      var s := SmallFit(c, x, stop, kelly, requested);
      assert Fits(c, x, stop, kelly, s);
    }
  }

  lemma ZeroLimitFits(c: Config, x: Context, stop: real, kelly: Option<real>, size: real)
    requires stop > 0.0 && size >= 0.0 && Fits(c, x, stop, kelly, size) && ZeroLimit(c, kelly)
    ensures size == 0.0
  {
    if size > 0.0 {
      ProductPositive(size, stop, Risk(size, stop));
    }
  }

  /** Some positive size keeps every limit. */
  lemma SmallFit(c: Config, x: Context, stop: real, kelly: Option<real>, requested: real) returns (s: real)
    requires c.Valid() && stop > 0.0 && requested > 0.0 && !Exhausted(c, x)
    requires (kelly.Some? ==> kelly.value >= 0.0) && !ZeroLimit(c, kelly)
    ensures 0.0 < s <= requested && Fits(c, x, stop, kelly, s)
  {
    hide Fits, Available, Risk;
    ProductPositive(c.maxFractionOfBudget, Available(c, x), Budget(c, x));
    var room := Min(Min(Min(c.maxRiskPerTrade, c.maxRiskPerSymbol - x.symbolRisk),
                        c.maxPortfolioRisk - x.portfolioRisk),
                    Budget(c, x));
    hide Budget;
    var unit := room / stop;
    PositiveQuotient(room, stop);
    var free := Min(c.maxOpenExposure - x.openExposure, c.maxPositionSize);
    s := Min(Min(Min(unit, free), requested), if kelly.Some? then kelly.value else requested);
    PerUnit(room, stop, s);
    SmallFits(c, x, stop, kelly, s, room);
  }

  lemma SmallFits(c: Config, x: Context, stop: real, kelly: Option<real>, s: real, room: real)
    requires Risk(s, stop) <= room && room <= c.maxRiskPerTrade && room <= c.maxRiskPerSymbol - x.symbolRisk
    requires room <= c.maxPortfolioRisk - x.portfolioRisk && room <= Budget(c, x)
    requires s <= c.maxOpenExposure - x.openExposure && s <= c.maxPositionSize && (kelly.Some? ==> s <= kelly.value)
    ensures Fits(c, x, stop, kelly, s)
  {
  }

  // ----- a zero limit -----

  const NO_POSITIONS := DEFAULTS.(maxPositionSize := 0.0)

  /** A tenth of an equity of 1000 in a plan that stops at one percent. */
  const ENTRY := Proposal("p", "x", [Action(EnterLong, 0.1, 1)], Context(1000.0, 0.0, 0.0, 0.0, 0.0, 0.0, 0.0, 0.0),
                          Some(Plan(Level(None, Some(0.01)), Level(None, Some(0.02)), 0.01)))

  lemma EntryRoom()
    ensures NO_POSITIONS.Valid() && !Exhausted(NO_POSITIONS, ENTRY.context)
    ensures !BreakerTripped(NO_POSITIONS, ENTRY.context) && ENTRY.plan.value.StopDistance() == 0.01
    ensures ENTRY.Valid() && ENTRY.Primary() == Some(Action(EnterLong, 0.1, 1)) && !HasNoOrder(ENTRY, 1.0)
  {
  }

  lemma QuietBook(c: Config)
    ensures !ToxicBook(c, [])
  {
  }

  lemma EntryNotBlocked(gate: CircuitBreakerRiskGate, sqrt: real -> real)
    requires gate.Valid() && IsSqrt(sqrt) && gate.config == NO_POSITIONS && gate.stats == map[]
    requires gate.toxicity == map[] && gate.mismatches == {}
    ensures !gate.Blocked(ENTRY, Action(EnterLong, 0.1, 1), Some(1.0), sqrt)
  {
    hide ToxicBook, BreakerTripped, Exhausted;
    EntryRoom();
    QuietBook(gate.config);
  }

  lemma EntryDecision(gate: CircuitBreakerRiskGate, sqrt: real -> real, d: Decision)
    requires gate.Valid() && IsSqrt(sqrt) && gate.config == NO_POSITIONS && gate.stats == map[]
    requires gate.toxicity == map[] && gate.mismatches == {} && gate.edges == map[]
    requires ENTRY.Valid() && IsDecision(gate, ENTRY, 1.0, sqrt, d)
    ensures d == Decision(Reduced, Some(0.0))
  {
    hide CircuitBreakerRiskGate.Blocked, IsLargestFit, Exhausted, BreakerTripped;
    EntryRoom();
    EntryNotBlocked(gate, sqrt);
    ZeroExactly(gate.config, ENTRY.context, 0.01, gate.KellyFor(ENTRY, ENTRY.actions[0], sqrt), 0.1, d.size.value);
  }

  lemma FullEntry(positions: seq<Position>, d: Decision, o: Order)
    requires d == Decision(Reduced, Some(0.0)) && IsSubmission(ENTRY, 1.0, positions, d, o)
    ensures o.quantity == 100.0
  {
    hide IsOrderSide;
    EntryRoom();
  }

  /** Under an accepted configuration that allows no position at all, the gate reduces the entry to
      size zero, and the order for the full hundred units is submitted. */
  method FullOrderAtZeroLimit(sqrt: real -> real) returns (r: Outcome, d: Option<Decision>)
    requires IsSqrt(sqrt)
    ensures d == Some(Decision(Reduced, Some(0.0)))
    ensures r.Submitted? && IsSubmission(ENTRY, 1.0, [], d.value, r.order) && r.order.quantity == 100.0
  {
    hide IsDecision, IsSubmission, BreakerTripped, Exhausted, HasNoOrder;
    EntryRoom();
    var gate := new CircuitBreakerRiskGate(NO_POSITIONS);
    var core := new ExecutionCore(gate, true, false);
    r, d := core.ProcessProposal(ENTRY, 1.0, [], true, true, sqrt);
    EntryDecision(gate, sqrt, d.value);
    FullEntry([], d.value, r.order);
  }
}
