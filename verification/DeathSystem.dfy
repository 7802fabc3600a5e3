/** How a strategy that stops working leaves the population: edge-decay triggers and retired
    campaigns demote its passport down the promotion chain until it is dead. */
module DeathSystem {
  import opened Wrappers
  import opened Passports
  import P = PaperAutonomy

  type Environment = P.Environment

  // ----- the promotion chain -----

  function Previous(e: Environment): Option<Environment> {
    match e
    case Research => None
    case Validation => Some(P.Research)
    case Paper => Some(P.Validation)
    case Canary => Some(P.Paper)
    case Production => Some(P.Canary)
  }

  function EnvironmentOf(s: Status): Option<Environment> {
    match s
    case Research => Some(P.Research)
    case Candidate => Some(P.Validation)
    case Paper => Some(P.Paper)
    case Canary => Some(P.Canary)
    case Live => Some(P.Production)
    case Retired => None
  }

  function StatusOf(e: Environment): Status {
    match e
    case Research => Status.Research
    case Validation => Candidate
    case Paper => Status.Paper
    case Canary => Status.Canary
    case Production => Live
  }

  /** Rungs above death: a retired passport is on none. */
  function Rung(s: Status): nat {
    match s
    case Retired => 0
    case Research => 1
    case Candidate => 2
    case Paper => 3
    case Canary => 4
    case Live => 5
  }

  function AtRung(n: int): Status {
    if n == 5 then Live else if n == 4 then Status.Canary else if n == 3 then Status.Paper
    else if n == 2 then Candidate else if n == 1 then Status.Research else Retired
  }

  // ----- the verdict -----

  datatype Action = Stay | Degrade | Demote | Retire {
    function Severity(): nat {
      match this
      case Stay => 0
      case Degrade => 1
      case Demote => 2
      case Retire => 3
    }
  }

  /** The monitor's advice. The recommended environment is None when none is named, or when the
      name is not one of the chain. */
  datatype Trigger = Trigger(triggered: bool, recommended: Option<Environment>)

  datatype Decision = Decision(action: Action, target: Option<Environment>)

  /** The trigger the edge monitor builds for a decayed passport of this status. */
  function TriggerFor(s: Status): Trigger {
    Trigger(true, if EnvironmentOf(s).Some? then Previous(EnvironmentOf(s).value) else None)
  }

  predicate CampaignRetired(p: Passport) {
    (p.paper.Some? && p.paper.value.retired) || (p.live.CanaryRun? && p.live.note.retired)
  }

  /** Two steps down, from the bottom of the chain to death; from the second rung there is only
      one step down, and the passport is left where it is. */
  function AfterCampaign(s: Status): Decision
    requires s != Retired
  {
    match s
    case Research => Decision(Retire, None)
    case Candidate => Decision(Demote, Some(P.Validation))
    case Paper => Decision(Demote, Some(P.Research))
    case Canary => Decision(Demote, Some(P.Validation))
    case Live => Decision(Demote, Some(P.Paper))
  }

  function AfterTrigger(t: Trigger): Decision {
    if t.recommended.None? then Decision(Retire, None) else Decision(Degrade, t.recommended)
  }

  /** The harshest of what each kind of evidence calls for; the trigger's where they are equal. */
  function Verdict(p: Passport, t: Option<Trigger>): Decision {
    var fired := t.Some? && t.value.triggered;
    if p.status == Retired || (!fired && !CampaignRetired(p)) then Decision(Stay, None)
    else if !CampaignRetired(p) then AfterTrigger(t.value)
    else if !fired || AfterCampaign(p.status).action.Severity() > AfterTrigger(t.value).action.Severity()
    then AfterCampaign(p.status)
    else AfterTrigger(t.value)
  }

  /** The decision is the first candidate of the severest action; without candidates it is to stay. */
  predicate IsHarshest(candidates: seq<Decision>, d: Decision) {
    if candidates == [] then d == Decision(Stay, None)
    else exists k :: 0 <= k < |candidates| && IsFirstHarshest(candidates, k) && d == candidates[k]
  }

  predicate IsFirstHarshest(candidates: seq<Decision>, k: nat)
    requires k < |candidates|
  {
    && (forall i :: 0 <= i < |candidates| ==> candidates[i].action.Severity() <= candidates[k].action.Severity())
    && (forall i :: 0 <= i < k ==> candidates[i].action.Severity() < candidates[k].action.Severity())
  }

  /** Candidates leave no choice. */
  lemma HarshestUnique(candidates: seq<Decision>, d: Decision, e: Decision)
    requires IsHarshest(candidates, d) && IsHarshest(candidates, e)
    ensures d == e
  {
    if candidates != [] {
      var k :| 0 <= k < |candidates| && IsFirstHarshest(candidates, k) && d == candidates[k];
      var j :| 0 <= j < |candidates| && IsFirstHarshest(candidates, j) && e == candidates[j];
      assert k == j;
    }
  }

  /** The severest action among the candidates, with the first target listed for it: retiring before
      demoting before degrading before staying. */
  method Harshest(candidates: seq<Decision>) returns (d: Decision)
    ensures IsHarshest(candidates, d)
    ensures forall c :: c in candidates && c.action == Retire ==> d.action == Retire
    ensures forall c :: c in candidates && c.action == Demote ==> d.action in {Demote, Retire}
    ensures forall c :: c in candidates && c.action == Degrade ==> d.action != Stay
  {
    if |candidates| == 0 {
      return Decision(Stay, None);
    }
    var first := 0;
    for i := 1 to |candidates|
      invariant 0 <= first < i
      invariant forall j :: 0 <= j < i ==> candidates[j].action.Severity() <= candidates[first].action.Severity()
      invariant forall j :: 0 <= j < first ==> candidates[j].action.Severity() < candidates[first].action.Severity()
    {
      if candidates[i].action.Severity() > candidates[first].action.Severity() {
        first := i;
      }
    }
    return candidates[first];
  }

  method Evaluate(p: Passport, trigger: Option<Trigger>) returns (d: Decision)
    ensures d == Verdict(p, trigger)
  {
    if p.status == Retired {
      return Decision(Stay, None);
    }
    hide IsHarshest, AfterCampaign, AfterTrigger;
    var environment := EnvironmentOf(p.status);
    var edge := EdgeCandidates(environment, trigger);
    var campaign := CampaignCandidates(p, environment);
    d := Harshest(edge + campaign);
    VerdictIsHarshest(p, trigger, edge, campaign);
    HarshestUnique(edge + campaign, d, Verdict(p, trigger));
  }

  /** What each kind of evidence calls for, when it calls for something. */
  function ByTrigger(trigger: Option<Trigger>): seq<Decision> {
    if trigger.Some? && trigger.value.triggered then [AfterTrigger(trigger.value)] else []
  }

  function ByCampaign(p: Passport): seq<Decision>
    requires p.status != Retired
  {
    if CampaignRetired(p) then [AfterCampaign(p.status)] else []
  }

  lemma VerdictIsHarshest(p: Passport, trigger: Option<Trigger>, edge: seq<Decision>, campaign: seq<Decision>)
    requires p.status != Retired && edge == ByTrigger(trigger) && campaign == ByCampaign(p)
    ensures IsHarshest(edge + campaign, Verdict(p, trigger))
  {
    hide IsHarshest, AfterCampaign, AfterTrigger, CampaignRetired;
    if edge == [] && campaign == [] {
      assert edge + campaign == [];
      NoneHarshest();
    } else if campaign == [] {
      assert edge + campaign == edge;
      OneHarshest(edge[0]);
    } else if edge == [] {
      assert edge + campaign == campaign;
      OneHarshest(campaign[0]);
    } else {
      assert edge + campaign == [edge[0], campaign[0]];
      TwoHarshest(edge[0], campaign[0]);
    }
  }

  lemma NoneHarshest()
    ensures IsHarshest([], Decision(Stay, None))
  {
  }

  lemma OneHarshest(d: Decision)
    ensures IsHarshest([d], d)
  {
    assert IsFirstHarshest([d], 0) && d == [d][0];
  }

  lemma TwoHarshest(d: Decision, e: Decision)
    ensures IsHarshest([d, e], if e.action.Severity() > d.action.Severity() then e else d)
  {
    if e.action.Severity() > d.action.Severity() {
      assert IsFirstHarshest([d, e], 1) && e == [d, e][1];
    } else {
      assert IsFirstHarshest([d, e], 0) && d == [d, e][0];
    }
  }

  method EdgeCandidates(environment: Option<Environment>, trigger: Option<Trigger>) returns (c: seq<Decision>)
    requires environment.Some?
    ensures c == ByTrigger(trigger)
  {
    if trigger.None? || !trigger.value.triggered {
      return [];
    }
    var target := trigger.value.recommended;
    if target.None? && environment.Some? {
      return [Decision(Retire, None)];
    }
    return [Decision(Degrade, target)];
  }

  method CampaignCandidates(p: Passport, environment: Option<Environment>) returns (c: seq<Decision>)
    requires p.status != Retired && environment == EnvironmentOf(p.status)
    ensures c == ByCampaign(p)
  {
    if !CampaignRetired(p) {
      return [];
    }
    var target := if environment.Some? then Previous(environment.value) else None;
    if target.None? {
      return [Decision(Retire, None)];
    }
    target := Previous(target.value);
    return [Decision(Demote, if target.Some? then target else environment)];
  }

  // ----- applying it -----

  /** The status a decision other than staying moves a passport to. */
  function StatusAfter(d: Decision): Status {
    if d.action == Retire || d.target.None? then Retired else StatusOf(d.target.value)
  }

  function Name(e: Environment): string {
    match e
    case Research => "research"
    case Validation => "validation"
    case Paper => "paper"
    case Canary => "canary"
    case Production => "production"
  }

  /** The rung a name stands for. */
  function Named(name: string): Option<Environment> {
    if name == "research" then Some(P.Research)
    else if name == "validation" then Some(P.Validation)
    else if name == "paper" then Some(P.Paper)
    else if name == "canary" then Some(P.Canary)
    else if name == "production" then Some(P.Production)
    else None
  }

  lemma NameReadBack(e: Environment)
    ensures Named(Name(e)) == Some(e)
  {
  }

  /** A verdict other than staying moves the passport to the rung it names, or to death when it retires the
      passport or names none; the rollback record names that same rung, and none exactly for the dead. */
  lemma RecordNamesTheRung(p: Passport, d: Decision)
    requires d.action != Stay
    ensures var q := Applied(p, d);
            && EnvironmentOf(q.status) == (if d.action == Retire then None else d.target)
            && q.live.Rollback?
            && (q.live.target.None? <==> q.status == Retired)
            && (q.live.target.Some? ==> Named(q.live.target.value) == EnvironmentOf(q.status))
  {
    if d.target.Some? {
      NameReadBack(d.target.value);
    }
  }

  function RollbackTarget(d: Decision): Option<string> {
    if d.action in {Degrade, Demote} && d.target.Some? then Some(Name(d.target.value)) else None
  }

  /** The passport after a verdict was applied to it: moved, and with its live section replaced
      by the rollback record. */
  function Applied(p: Passport, d: Decision): Passport {
    if d.action == Stay then p else p.(status := StatusAfter(d), live := Rollback(RollbackTarget(d)))
  }

  /** The record after a verdict was applied: one transition followed by one rollback record. */
  function Closed(was: Record, d: Decision, reason: string): Record {
    if d.action == Stay then was
    else
      var moved := Event(StatusChange, was.snapshot.status, StatusAfter(d), reason);
      var closed := Event(RollbackUpdate, StatusAfter(d), StatusAfter(d), reason);
      Record(was.issued, was.events + [moved] + [closed], Applied(was.snapshot, d))
  }

  /** A verdict other than STAY is recorded as one transition and one rollback record; it is refused
      for an unknown passport and a dead one. */
  method Apply(engine: EvidenceEngine, id: string, d: Decision, reason: string)
    returns (r: Result<Option<Passport>, ()>)
    requires engine.Valid()
    modifies engine
    ensures engine.Valid()
    ensures r.Err? <==> d.action != Stay && !old(engine.Alive(id))
    ensures r.Err? || id !in old(engine.records) ==> engine.records == old(engine.records)
    ensures r.Ok? && id in old(engine.records) ==>
              engine.records == old(engine.records)[id := Closed(old(engine.records)[id], d, reason)]
    ensures r.Ok? ==>
              r.value == if id !in old(engine.records) then None
                         else Some(old(engine.records)[id].snapshot.(status := engine.records[id].snapshot.status))
  {
    hide Record.Valid, StatusAfter, RollbackTarget;
    if d.action == Stay {
      return Ok(if id in engine.records then Some(engine.records[id].snapshot) else None);
    }
    var updated := engine.Transition(id, StatusAfter(d), reason);
    if updated.Err? {
      return Err(());
    }
    var rollback := engine.RecordRollback(id, RollbackTarget(d), reason);
    return Ok(Some(updated.value));
  }

  // ----- repeated evidence -----

  /** One round of evaluating and applying, with the monitor firing or not. */
  function Round(p: Passport, decayed: bool): Passport {
    Applied(p, Verdict(p, if decayed then Some(TriggerFor(p.status)) else None))
  }

  function Rounds(p: Passport, decayed: seq<bool>): Passport {
    if |decayed| == 0 then p else Round(Rounds(p, decayed[..|decayed| - 1]), decayed[|decayed| - 1])
  }

  function Firings(decayed: seq<bool>): nat {
    if |decayed| == 0 then 0
    else Firings(decayed[..|decayed| - 1]) + if decayed[|decayed| - 1] then 1 else 0
  }

  /** Evaluating and applying in the program, once per flag of the monitor, leaves the passport where
      the rounds lead; only its record changes, and nothing is lost from it. */
  method RunRounds(engine: EvidenceEngine, id: string, decayed: seq<bool>, reason: string)
    requires engine.Valid() && id in engine.records
    modifies engine
    ensures engine.Valid() && id in engine.records
    ensures engine.records == old(engine.records)[id := engine.records[id]]
    ensures engine.records[id].snapshot == Rounds(old(engine.records[id]).snapshot, decayed)
    ensures engine.records[id].Extends(old(engine.records[id]))
  {
    hide Record.Valid, Verdict, Applied, TriggerFor;
    for i := 0 to |decayed|
      invariant engine.Valid() && id in engine.records
      invariant engine.records == old(engine.records)[id := engine.records[id]]
      invariant engine.records[id].snapshot == Rounds(old(engine.records[id]).snapshot, decayed[..i])
      invariant engine.records[id].Extends(old(engine.records[id]))
    {
      var was := engine.records[id];
      var p := was.snapshot;
      var trigger := if decayed[i] then Some(TriggerFor(p.status)) else None;
      var d := Evaluate(p, trigger);
      DeadStay(p, trigger);
      var _ := Apply(engine, id, d, reason);
      ClosedSnapshot(was, d, reason);
      assert decayed[..i + 1][..i] == decayed[..i];
    }
    assert decayed[..|decayed|] == decayed;
  }

  lemma DeadStay(p: Passport, trigger: Option<Trigger>)
    ensures p.status == Retired ==> Verdict(p, trigger).action == Stay
  {
  }

  lemma ClosedSnapshot(was: Record, d: Decision, reason: string)
    ensures Closed(was, d, reason).snapshot == Applied(was.snapshot, d) && Closed(was, d, reason).Extends(was)
  {
  }

  /** A round never moves a passport up. */
  lemma NeverUp(p: Passport, decayed: bool)
    ensures Rung(Round(p, decayed).status) <= Rung(p.status)
    ensures p.status == Retired ==> Round(p, decayed) == p
  {
  }

  /** Without a retired campaign the passport descends exactly one rung per firing of the monitor,
      whatever rounds lie between, and so is dead after as many firings as it had rungs, which
      is at most five. */
  lemma {:induction false} DecayDescends(p: Passport, decayed: seq<bool>)
    requires !CampaignRetired(p)
    ensures Rounds(p, decayed).status == AtRung(Rung(p.status) - Firings(decayed))
    ensures !CampaignRetired(Rounds(p, decayed))
    ensures Rounds(p, decayed).status == Retired <==> Firings(decayed) >= Rung(p.status)
    ensures Rung(p.status) <= 5
  {
    hide Round, CampaignRetired, AtRung, Rung;
    RungOf(p.status);
    if |decayed| > 0 {
      var init, last := decayed[..|decayed| - 1], decayed[|decayed| - 1];
      DecayDescends(p, init);
      OneRoundDescends(Rounds(p, init), last);
      RungBack(Rung(p.status) - Firings(init));
    }
    RungBack(Rung(p.status) - Firings(decayed));
  }

  lemma OneRoundDescends(p: Passport, decayed: bool)
    requires !CampaignRetired(p)
    ensures Round(p, decayed).status == AtRung(Rung(p.status) - if decayed then 1 else 0)
    ensures !CampaignRetired(Round(p, decayed))
  {
  }

  lemma RungOf(s: Status)
    ensures Rung(s) <= 5 && AtRung(Rung(s)) == s
  {
  }

  lemma RungBack(n: int)
    requires n <= 5
    ensures Rung(AtRung(n)) == if n < 0 then 0 else n
    ensures AtRung(n) == Retired <==> n <= 0
    ensures n < 0 ==> AtRung(n) == AtRung(0) == AtRung(n - 1) == AtRung(-1)
  {
  }

  predicate PaperRetired(p: Passport) {
    p.paper.Some? && p.paper.value.retired
  }

  /** With a retired paper campaign on record every round demotes two rungs, and the second rung
      is left only from above: the passport dies exactly when it started on another path. */
  lemma {:induction false} PaperCampaignRounds(p: Passport, decayed: seq<bool>)
    requires PaperRetired(p)
    ensures PaperRetired(Rounds(p, decayed))
    ensures p.status in {Candidate, Status.Canary} && |decayed| > 0 ==> Rounds(p, decayed).status == Candidate
    ensures p.status in {Live, Status.Paper, Status.Research} ==>
              Rounds(p, decayed).status == AtRung(Rung(p.status) - 2 * |decayed|)
    ensures p.status == Retired ==> Rounds(p, decayed).status == Retired
  {
    if |decayed| > 0 {
      PaperCampaignRounds(p, decayed[..|decayed| - 1]);
    }
  }

  /** Repeated rounds over a retired paper campaign end in death exactly when the passport does
      not pass through the second rung, and then after at most three rounds. */
  lemma PaperCampaignKillsExactly(p: Passport)
    requires PaperRetired(p)
    ensures (exists decayed :: Rounds(p, decayed).status == Retired) <==> p.status !in {Candidate, Status.Canary}
    ensures p.status !in {Candidate, Status.Canary} ==>
              forall decayed: seq<bool> :: |decayed| >= 3 ==> Rounds(p, decayed).status == Retired
  {
    forall decayed: seq<bool>
      ensures p.status in {Candidate, Status.Canary} ==> Rounds(p, decayed).status != Retired
      ensures p.status !in {Candidate, Status.Canary} && |decayed| >= 3 ==> Rounds(p, decayed).status == Retired
    {
      PaperCampaignRounds(p, decayed);
    }
    var three := [false, false, false];
    if p.status !in {Candidate, Status.Canary} {
      assert |three| >= 3 && Rounds(p, three).status == Retired;
    }
  }

  /** More evidence can soften the outcome: with a decayed edge, a retired campaign leaves the
      passport on a higher rung than the decay alone would exactly on the second rung. */
  lemma CampaignSoftensExactly(p: Passport, q: Passport)
    requires p.status == q.status && CampaignRetired(p) && !CampaignRetired(q)
    ensures Rung(Round(p, true).status) > Rung(Round(q, true).status) <==> p.status == Candidate
    ensures Rung(Round(p, true).status) == Rung(Round(p, false).status)
  {
  }

  /** A retired canary campaign counts once: applying its verdict replaces the live section it is
      recorded in, and without other evidence the passport stays where that left it. */
  lemma {:induction false} CanaryCampaignCountsOnce(p: Passport, rounds: nat)
    requires p.live.CanaryRun? && p.live.note.retired && !PaperRetired(p) && p.status != Retired && rounds >= 1
    ensures var quiet := seq(rounds, _ => false);
            && Rounds(p, quiet).status == StatusAfter(AfterCampaign(p.status))
            && !CampaignRetired(Rounds(p, quiet))
  {
    var quiet := seq(rounds, _ => false);
    if rounds > 1 {
      CanaryCampaignCountsOnce(p, rounds - 1);
      assert quiet[..rounds - 1] == seq(rounds - 1, _ => false);
    } else {
      assert quiet[..0] == [];
    }
  }
}
