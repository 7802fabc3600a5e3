/** Strategy passports: verdicts from pooled evidence, and the engine that keeps one snapshot and
    one append-only ledger per passport. */
module Passports {
  import opened Wrappers

  datatype Status = Research | Candidate | Paper | Canary | Live | Retired

  datatype Verdict = Reject | Observe | PromoteToPaper

  // ----- the evidence verdict -----

  datatype Pooled = Pooled(deflatedSharpe: Option<real>, positiveFoldRate: real, beatsRate: real, meanDrawdownPct: real)

  /** The gates on fold rates and drawdown. */
  predicate PassesFolds(e: Pooled) {
    e.positiveFoldRate >= 0.5 && e.beatsRate >= 0.5 && e.meanDrawdownPct >= -25.0
  }

  /** `verdict_for_evidence`. */
  function VerdictFor(e: Pooled, pbo: Option<real>, maxPbo: real): Verdict {
    if pbo.Some? && pbo.value > maxPbo then Reject
    else if e.deflatedSharpe.None? then Observe
    else if e.deflatedSharpe.value <= 0.0 then Reject
    else if e.positiveFoldRate < 0.5 then Reject
    else if e.beatsRate < 0.5 then Reject
    else if e.meanDrawdownPct < -25.0 then Reject
    else PromoteToPaper
  }

  /** The same gates in the order they are documented in: missing evidence is judged last. */
  function DocumentedVerdict(e: Pooled, pbo: Option<real>, maxPbo: real): Verdict {
    if || (pbo.Some? && pbo.value > maxPbo)
       || (e.deflatedSharpe.Some? && e.deflatedSharpe.value <= 0.0)
       || !PassesFolds(e)
    then Reject
    else if e.deflatedSharpe.None? then Observe else PromoteToPaper
  }

  /** Promotion is only for evidence that passes every gate, and the code departs from the
      documented order exactly where failing folds come without a deflated Sharpe ratio. */
  lemma VerdictExactly(e: Pooled, pbo: Option<real>, maxPbo: real)
    ensures VerdictFor(e, pbo, maxPbo) == PromoteToPaper <==>
            && (pbo.Some? ==> pbo.value <= maxPbo)
            && e.deflatedSharpe.Some? && e.deflatedSharpe.value > 0.0 && PassesFolds(e)
    ensures VerdictFor(e, pbo, maxPbo) != DocumentedVerdict(e, pbo, maxPbo) <==>
            (pbo.Some? ==> pbo.value <= maxPbo) && e.deflatedSharpe.None? && !PassesFolds(e)
  {
  }

  // ----- ledger and snapshot -----

  datatype Kind =
    | StatusChange | EvidenceUpdate | PaperCampaignUpdate | RollbackUpdate | CanaryUpdate | CalibrationUpdate

  datatype Event = Event(kind: Kind, from: Status, to: Status, reason: string)

  /** A campaign outcome as it is attached to a passport. */
  datatype Note = Note(retired: bool, summary: string)

  datatype LiveEvidence =
    | NoLive | Rollback(target: Option<string>) | CanaryRun(note: Note) | Calibration(report: string)

  datatype Passport = Passport(
    status: Status, verdict: Verdict, evidence: Pooled, paper: Option<Note>, live: LiveEvidence)

  function LastStatus(issued: Status, events: seq<Event>): Status {
    if events == [] then issued else events[|events| - 1].to
  }

  /** Every event starts from the status the one before it left. */
  ghost predicate Chains(issued: Status, events: seq<Event>) {
    forall k :: 0 <= k < |events| ==> events[k].from == LastStatus(issued, events[..k])
  }

  /** A dead passport only receives the rollback records that close its audit, and stays dead. */
  ghost predicate DeathIsFinal(events: seq<Event>) {
    forall k :: 0 <= k < |events| && events[k].from == Retired ==>
      events[k].kind == RollbackUpdate && events[k].to == Retired
  }

  /** Only a transition or a re-evaluation moves the status, and a re-evaluation only to death. */
  ghost predicate KindsMove(events: seq<Event>) {
    forall k :: 0 <= k < |events| && events[k].from != events[k].to ==>
      || events[k].kind == StatusChange
      || (events[k].kind == EvidenceUpdate && events[k].to == Retired)
  }

  /** The record of one passport: how it was issued, what happened to it, and its snapshot. */
  datatype Record = Record(issued: Status, events: seq<Event>, snapshot: Passport) {
    ghost predicate Valid() {
      && Chains(issued, events) && DeathIsFinal(events) && KindsMove(events)
      && snapshot.status == LastStatus(issued, events)
      && issued in {Candidate, Retired}
    }

    /** The audit trail from some point on. */
    ghost predicate Extends(earlier: Record) {
      issued == earlier.issued && earlier.events <= events
    }

    /** A valid record that extends a dead one is dead, by rollback records alone. */
    lemma RetiredSince(earlier: Record)
      requires Valid() && earlier.Valid() && Extends(earlier) && earlier.snapshot.status == Retired
      ensures snapshot.status == Retired
      ensures forall k :: |earlier.events| <= k < |events| ==>
                events[k].kind == RollbackUpdate && events[k].to == Retired
    {
      assert events[..|earlier.events|] == earlier.events && events[..|events|] == events;
      RetiredFrom(|earlier.events|, |events|);
    }

    lemma {:induction false} RetiredFrom(a: nat, b: nat)
      requires Valid() && a <= b <= |events| && LastStatus(issued, events[..a]) == Retired
      ensures LastStatus(issued, events[..b]) == Retired
      ensures forall k :: a <= k < b ==> events[k].kind == RollbackUpdate && events[k].to == Retired
      decreases b
    {
      hide Valid, LastStatus;
      if a < b {
        RetiredFrom(a, b - 1);
        StillRetired(b - 1);
      }
    }

    lemma StillRetired(k: nat)
      requires Valid() && k < |events| && LastStatus(issued, events[..k]) == Retired
      ensures events[k].kind == RollbackUpdate && events[k].to == Retired
      ensures LastStatus(issued, events[..k + 1]) == Retired
    {
      assert events[k].from == LastStatus(issued, events[..k]);
      assert events[..k + 1][k] == events[k];
    }

    function Append(e: Event, updated: Passport): Record {
      Record(issued, events + [e], updated)
    }

    /** What the engine may record next. */
    predicate Allows(kind: Kind, to: Status) {
      && (snapshot.status == Retired ==> kind == RollbackUpdate && to == Retired)
      && (snapshot.status != to ==> kind == StatusChange || (kind == EvidenceUpdate && to == Retired))
    }

    lemma AppendValid(e: Event, updated: Passport)
      requires Valid() && e.from == snapshot.status && updated.status == e.to && Allows(e.kind, e.to)
      ensures Append(e, updated).Valid() && Append(e, updated).Extends(this)
    {
      hide Chains, LastStatus;
      ChainsOneMore(issued, events, e);
    }

    static lemma ChainsOneMore(issued: Status, events: seq<Event>, e: Event)
      requires Chains(issued, events) && e.from == LastStatus(issued, events)
      ensures Chains(issued, events + [e]) && LastStatus(issued, events + [e]) == e.to
    {
      hide LastStatus;
      var r := events + [e];
      assert r[..|events|] == events;
      forall k | 0 <= k < |r| ensures r[k].from == LastStatus(issued, r[..k]) {
        assert k < |events| ==> r[..k] == events[..k];
      }
      LastOneMore(issued, events, e);
    }

    static lemma LastOneMore(issued: Status, events: seq<Event>, e: Event)
      ensures LastStatus(issued, events + [e]) == e.to
    {
    }
  }

  // ----- every run of the engine -----

  /** One call of the engine. */
  datatype Operation =
    | Issue(id: string, pooled: Pooled, pbo: Option<real>)
    | Move(id: string, to: Status, reason: string)
    | Rerecord(id: string, pooled: Pooled, pbo: Option<real>, reason: string)
    | PaperCampaign(id: string, note: Note, reason: string)
    | RollBack(id: string, target: Option<string>, reason: string)
    | CanaryCampaign(id: string, note: Note, reason: string)
    | Calibrate(id: string, report: string, reason: string)
  {
    function Kind(): Kind {
      match this
      case Rerecord(_, _, _, _) => EvidenceUpdate
      case PaperCampaign(_, _, _) => PaperCampaignUpdate
      case RollBack(_, _, _) => RollbackUpdate
      case CanaryCampaign(_, _, _) => CanaryUpdate
      case Calibrate(_, _, _) => CalibrationUpdate
      case _ => StatusChange
    }

    /** The snapshot the call leaves. */
    function Updated(was: Passport, maxPbo: real): Passport
      requires !Issue?
    {
      match this
      case Move(_, to, _) => was.(status := to)
      case Rerecord(_, pooled, pbo, _) =>
        var v := VerdictFor(pooled, pbo, maxPbo);
        was.(status := if v == Reject then Retired else was.status, evidence := pooled, verdict := v)
      case PaperCampaign(_, note, _) => was.(paper := Some(note))
      case RollBack(_, target, _) => was.(live := Rollback(target))
      case CanaryCampaign(_, note, _) => was.(live := CanaryRun(note))
      case Calibrate(_, report, _) => was.(live := Calibration(report))
    }

    /** An id is issued once, and a dead passport accepts only the rollback record. */
    predicate Accepted(records: map<string, Record>) {
      if Issue? then id !in records
      else id in records && (RollBack? || records[id].snapshot.status != Retired)
    }

    /** The calls that kill a living passport. */
    predicate Kills(victim: string, maxPbo: real) {
      id == victim && ((Move? && to == Retired) || (Rerecord? && VerdictFor(pooled, pbo, maxPbo) == Reject))
    }
  }

  /** A passport as it is issued: a candidate, or dead on arrival, with an empty ledger. */
  function NewRecord(pooled: Pooled, v: Verdict): Record {
    var status := if v == Reject then Retired else Candidate;
    Record(status, [], Passport(status, v, pooled, None, NoLive))
  }

  function NextRecord(was: Record, maxPbo: real, op: Operation): Record
    requires !op.Issue?
  {
    var updated := op.Updated(was.snapshot, maxPbo);
    was.Append(Event(op.Kind(), was.snapshot.status, updated.status, op.reason), updated)
  }

  /** The store after one call; a refused call leaves it as it was. */
  function After(records: map<string, Record>, maxPbo: real, op: Operation): map<string, Record> {
    if !op.Accepted(records) then records
    else if op.Issue? then records[op.id := NewRecord(op.pooled, VerdictFor(op.pooled, op.pbo, maxPbo))]
    else records[op.id := NextRecord(records[op.id], maxPbo, op)]
  }

  function Ran(records: map<string, Record>, maxPbo: real, ops: seq<Operation>): map<string, Record> {
    if |ops| == 0 then records else After(Ran(records, maxPbo, ops[..|ops| - 1]), maxPbo, ops[|ops| - 1])
  }

  ghost predicate AllValid(records: map<string, Record>) {
    forall id :: id in records ==> records[id].Valid()
  }

  ghost predicate Grown(before: map<string, Record>, now: map<string, Record>) {
    forall id :: id in before ==> id in now && now[id].Extends(before[id])
  }

  lemma NextRecordKeeps(was: Record, maxPbo: real, op: Operation)
    requires was.Valid() && !op.Issue? && (op.RollBack? || was.snapshot.status != Retired)
    ensures NextRecord(was, maxPbo, op).Valid() && NextRecord(was, maxPbo, op).Extends(was)
  {
    hide Record.Valid, VerdictFor;
    var updated := op.Updated(was.snapshot, maxPbo);
    was.AppendValid(Event(op.Kind(), was.snapshot.status, updated.status, op.reason), updated);
  }

  lemma StepKeeps(records: map<string, Record>, maxPbo: real, op: Operation)
    requires AllValid(records)
    ensures AllValid(After(records, maxPbo, op)) && Grown(records, After(records, maxPbo, op))
  {
    hide VerdictFor, NextRecord;
    if op.Accepted(records) && !op.Issue? {
      NextRecordKeeps(records[op.id], maxPbo, op);
    }
  }

  /** Over every run of calls, accepted and refused, each passport's ledger stays a chain of allowed
      events that its snapshot agrees with, and what was recorded earlier is kept. */
  lemma {:induction false} RunKeeps(records: map<string, Record>, maxPbo: real, ops: seq<Operation>)
    requires AllValid(records)
    ensures AllValid(Ran(records, maxPbo, ops)) && Grown(records, Ran(records, maxPbo, ops))
  {
    hide Record.Valid, After;
    if |ops| > 0 {
      var last := Ran(records, maxPbo, ops[..|ops| - 1]);
      RunKeeps(records, maxPbo, ops[..|ops| - 1]);
      StepKeeps(last, maxPbo, ops[|ops| - 1]);
    }
  }

  /** Death is forever: whatever is called later, a retired passport stays retired, and all that is
      still recorded on it are rollback records. */
  lemma RetiredForever(records: map<string, Record>, maxPbo: real, ops: seq<Operation>, id: string)
    requires AllValid(records) && id in records && records[id].snapshot.status == Retired
    ensures id in Ran(records, maxPbo, ops)
    ensures var was, now := records[id], Ran(records, maxPbo, ops)[id];
            && was.events <= now.events && now.snapshot.status == Retired
            && forall k :: |was.events| <= k < |now.events| ==>
                 now.events[k].kind == RollbackUpdate && now.events[k].to == Retired
  {
    hide Record.Valid, Ran;
    RunKeeps(records, maxPbo, ops);
    Ran(records, maxPbo, ops)[id].RetiredSince(records[id]);
  }

  lemma StepKills(records: map<string, Record>, maxPbo: real, op: Operation, id: string)
    requires id in records
    ensures id in After(records, maxPbo, op)
    ensures After(records, maxPbo, op)[id].snapshot.status == Retired
            <==> records[id].snapshot.status == Retired || op.Kills(id, maxPbo)
  {
    hide VerdictFor;
  }

  /** A living passport is dead after a run exactly when some call of the run moved it to RETIRED or
      recorded evidence that is rejected. */
  lemma {:induction false} DiesExactly(records: map<string, Record>, maxPbo: real, ops: seq<Operation>, id: string)
    requires id in records && records[id].snapshot.status != Retired
    ensures id in Ran(records, maxPbo, ops)
    ensures Ran(records, maxPbo, ops)[id].snapshot.status == Retired
            <==> exists k :: 0 <= k < |ops| && ops[k].Kills(id, maxPbo)
  {
    hide After, VerdictFor;
    if |ops| > 0 {
      var last := |ops| - 1;
      DiesExactly(records, maxPbo, ops[..last], id);
      StepKills(Ran(records, maxPbo, ops[..last]), maxPbo, ops[last], id);
      hide Operation.Kills;
      assert forall k :: 0 <= k < last ==> ops[..last][k] == ops[k];
    }
  }

  class EvidenceEngine {
    /** The store: one record per passport id. */
    var records: map<string, Record>
    const maxPbo: real

    ghost predicate Valid()
      reads this
    {
      AllValid(records)
    }

    constructor (pboGate: real)
      ensures Valid() && records == map[] && maxPbo == pboGate
    {
      records, maxPbo := map[], pboGate;
    }

    predicate Alive(id: string)
      reads this
    {
      id in records && records[id].snapshot.status != Retired
    }

    /** One event was appended to one passport and its snapshot replaced; nothing else changed. */
    twostate predicate Recorded(id: string, kind: Kind, reason: string, updated: Passport)
      requires id in old(records)
      reads this
    {
      records == old(records)[id := old(records[id]).Append(
                                Event(kind, old(records[id]).snapshot.status, updated.status, reason), updated)]
    }

    method IssuePassport(id: string, pooled: Pooled, pbo: Option<real>) returns (r: Result<Passport, ()>)
      requires Valid()
      modifies this
      ensures Valid()
      ensures r.Err? <==> id in old(records)
      ensures r.Err? ==> records == old(records)
      ensures r.Ok? ==>
                var v := VerdictFor(pooled, pbo, maxPbo);
                && r.value == Passport(if v == Reject then Retired else Candidate, v, pooled, None, NoLive)
                && records == old(records)[id := Record(r.value.status, [], r.value)]
    {
      if id in records {
        return Err(());
      }
      var v := VerdictFor(pooled, pbo, maxPbo);
      var p := Passport(if v == Reject then Retired else Candidate, v, pooled, None, NoLive);
      records := records[id := Record(p.status, [], p)];
      return Ok(p);
    }

    /** Append the event, then replace the snapshot. */
    method Write(id: string, kind: Kind, reason: string, updated: Passport)
      requires Valid() && id in records
      requires records[id].Allows(kind, updated.status)
      modifies this
      ensures Valid() && Recorded(id, kind, reason, updated)
    {
      hide Record.Valid;
      var record := records[id];
      var e := Event(kind, record.snapshot.status, updated.status, reason);
      record.AppendValid(e, updated);
      records := records[id := record.Append(e, updated)];
    }

    method Transition(id: string, to: Status, reason: string) returns (r: Result<Passport, ()>)
      requires Valid()
      modifies this
      ensures Valid()
      ensures r.Err? <==> !old(Alive(id))
      ensures r.Err? ==> records == old(records)
      ensures r.Ok? ==>
                var was := old(records)[id].snapshot;
                r.value == was.(status := to) && Recorded(id, StatusChange, reason, r.value)
    {
      if id !in records || records[id].snapshot.status == Retired {
        return Err(());
      }
      var p := records[id].snapshot;
      var updated := p.(status := to);
      Write(id, StatusChange, reason, updated);
      return Ok(updated);
    }

    method RerecordEvidence(id: string, pooled: Pooled, pbo: Option<real>, reason: string)
      returns (r: Result<Passport, ()>)
      requires Valid()
      modifies this
      ensures Valid()
      ensures r.Err? <==> !old(Alive(id))
      ensures r.Err? ==> records == old(records)
      ensures r.Ok? ==>
                var was, v := old(records)[id].snapshot, VerdictFor(pooled, pbo, maxPbo);
                && r.value
                   == was.(status := if v == Reject then Retired else was.status, evidence := pooled, verdict := v)
                && Recorded(id, EvidenceUpdate, reason, r.value)
    {
      if id !in records || records[id].snapshot.status == Retired {
        return Err(());
      }
      var p, v := records[id].snapshot, VerdictFor(pooled, pbo, maxPbo);
      var updated := p.(status := if v == Reject then Retired else p.status, evidence := pooled, verdict := v);
      Write(id, EvidenceUpdate, reason, updated);
      return Ok(updated);
    }

    method RecordPaperCampaign(id: string, note: Note, reason: string) returns (r: Result<Passport, ()>)
      requires Valid()
      modifies this
      ensures Valid()
      ensures r.Err? <==> !old(Alive(id))
      ensures r.Err? ==> records == old(records)
      ensures r.Ok? ==>
                var was := old(records)[id].snapshot;
                r.value == was.(paper := Some(note)) && Recorded(id, PaperCampaignUpdate, reason, r.value)
    {
      if id !in records || records[id].snapshot.status == Retired {
        return Err(());
      }
      var p := records[id].snapshot;
      var updated := p.(paper := Some(note));
      Write(id, PaperCampaignUpdate, reason, updated);
      return Ok(updated);
    }

    /** The one operation a dead passport still accepts. The whole live section is replaced. */
    method RecordRollback(id: string, target: Option<string>, reason: string) returns (r: Result<Passport, ()>)
      requires Valid()
      modifies this
      ensures Valid()
      ensures r.Err? <==> id !in old(records)
      ensures r.Err? ==> records == old(records)
      ensures r.Ok? ==>
                var was := old(records)[id].snapshot;
                r.value == was.(live := Rollback(target)) && Recorded(id, RollbackUpdate, reason, r.value)
    {
      if id !in records {
        return Err(());
      }
      var p := records[id].snapshot;
      var updated := p.(live := Rollback(target));
      Write(id, RollbackUpdate, reason, updated);
      return Ok(updated);
    }

    method RecordCanary(id: string, note: Note, reason: string) returns (r: Result<Passport, ()>)
      requires Valid()
      modifies this
      ensures Valid()
      ensures r.Err? <==> !old(Alive(id))
      ensures r.Err? ==> records == old(records)
      ensures r.Ok? ==>
                var was := old(records)[id].snapshot;
                r.value == was.(live := CanaryRun(note)) && Recorded(id, CanaryUpdate, reason, r.value)
    {
      if id !in records || records[id].snapshot.status == Retired {
        return Err(());
      }
      var p := records[id].snapshot;
      var updated := p.(live := CanaryRun(note));
      Write(id, CanaryUpdate, reason, updated);
      return Ok(updated);
    }

    method RecordCalibration(id: string, report: string, reason: string) returns (r: Result<Passport, ()>)
      requires Valid()
      modifies this
      ensures Valid()
      ensures r.Err? <==> !old(Alive(id))
      ensures r.Err? ==> records == old(records)
      ensures r.Ok? ==>
                var was := old(records)[id].snapshot;
                r.value == was.(live := Calibration(report)) && Recorded(id, CalibrationUpdate, reason, r.value)
    {
      if id !in records || records[id].snapshot.status == Retired {
        return Err(());
      }
      var p := records[id].snapshot;
      var updated := p.(live := Calibration(report));
      Write(id, CalibrationUpdate, reason, updated);
      return Ok(updated);
    }

    /** Any of the calls above, refused ones included. */
    method Perform(op: Operation)
      requires Valid()
      modifies this
      ensures Valid() && records == After(old(records), maxPbo, op)
    {
      hide Record.Valid, VerdictFor;
      match op {
        case Issue(id, pooled, pbo) => var _ := IssuePassport(id, pooled, pbo);
        case Move(id, to, reason) => var _ := Transition(id, to, reason);
        case Rerecord(id, pooled, pbo, reason) => var _ := RerecordEvidence(id, pooled, pbo, reason);
        case PaperCampaign(id, note, reason) => var _ := RecordPaperCampaign(id, note, reason);
        case RollBack(id, target, reason) => var _ := RecordRollback(id, target, reason);
        case CanaryCampaign(id, note, reason) => var _ := RecordCanary(id, note, reason);
        case Calibrate(id, report, reason) => var _ := RecordCalibration(id, report, reason);
      }
    }

    /** A whole run of calls: the store ends where the run leads, no ledger loses an event, and the
        dead are still dead. */
    method PerformAll(ops: seq<Operation>)
      requires Valid()
      modifies this
      ensures Valid() && records == Ran(old(records), maxPbo, ops)
      ensures Grown(old(records), records)
      ensures forall id :: id in old(records) && old(records[id]).snapshot.status == Retired ==>
                id in records && records[id].snapshot.status == Retired
    {
      hide Record.Valid, After;
      for i := 0 to |ops|
        invariant Valid() && records == Ran(old(records), maxPbo, ops[..i])
      {
        assert ops[..i + 1][..i] == ops[..i];
        Perform(ops[i]);
      }
      assert ops[..|ops|] == ops;
      RunKeeps(old(records), maxPbo, ops);
      forall id | id in old(records) && old(records[id]).snapshot.status == Retired
        ensures id in records && records[id].snapshot.status == Retired
      {
        RetiredForever(old(records), maxPbo, ops, id);
      }
    }
  }
}
