/** The persisted campaign over the SQLite repository, whose `set_campaign_status` reads and judges
    the record first and writes it later, whatever it is by then. Every other store access is one
    step, as in `CampaignService`. */
module SplitStore {
  import P = PaperAutonomy
  import opened CampaignService

  /** The campaign, the calls whose write is judged and not done yet, and the operators' cancels in
      the same position. A pending write carries the days_run it has read. */
  datatype Split = Split(base: State, judged: map<nat, nat>, cancels: seq<nat>)

  datatype Access =
    | Plain(e: Event)           // an access that stays one step
    | Judged(r: nat)            // a call's set_campaign_status reads the record
    | Written(r: nat)           // and writes it
    | CancelJudged              // a cancel's set_campaign_status reads the record
    | CancelWritten(k: nat)     // and writes it

  const CREATED := Split(State(Pending, 0, [], []), map[], [])

  predicate SetsStatus(e: Event) {
    e.SetStart? || e.SetEnd? || e.CancelRequested?
  }

  ghost predicate Enabled(c: Campaign, s: Split, a: Access) {
    match a
    case Plain(e) => !SetsStatus(e) && c.Enabled(s.base, e)
    case Judged(r) => r < |s.base.runners| && s.base.runners[r].pc in {SettingStart, SettingEnd} && r !in s.judged
    case Written(r) => r < |s.base.runners| && r in s.judged
    case CancelJudged => true
    case CancelWritten(k) => k < |s.cancels|
  }

  /** The record and the call after the call's write, with the days_run it has read. */
  ghost function Landed(c: Campaign, s: State, r: nat, read: nat): State
    requires r < |s.runners|
  {
    if s.runners[r].pc == SettingStart then
      Campaign.Move(s.(status := Running, daysRun := read), r, c.Ready([]))
    else
      Campaign.Stop(s.(status := c.Verdict(s.runners[r].seen), daysRun := |s.runners[r].seen|), r)
  }

  ghost function After(c: Campaign, s: Split, a: Access): Split
    requires Enabled(c, s, a)
  {
    match a
    case Plain(e) => Split(c.After(s.base, e), if e.Raised? then s.judged - {e.r} else s.judged, s.cancels)
    case Judged(r) =>
      if s.base.status.Terminal() then s.(base := Campaign.Stop(s.base, r))
      else s.(judged := s.judged[r := s.base.daysRun])
    case Written(r) => Split(Landed(c, s.base, r, s.judged[r]), s.judged - {r}, s.cancels)
    case CancelJudged => if s.base.status.Terminal() then s else s.(cancels := s.cancels + [s.base.daysRun])
    case CancelWritten(k) =>
      Split(s.base.(status := Cancelled, daysRun := s.cancels[k]), s.judged, s.cancels[..k] + s.cancels[k + 1..])
  }

  ghost predicate Next(c: Campaign, s: Split, t: Split) {
    exists a :: Enabled(c, s, a) && t == After(c, s, a)
  }

  ghost predicate Steps(c: Campaign, run: seq<Split>) {
    |run| > 0 && forall i :: 0 <= i < |run| - 1 ==> Next(c, run[i], run[i + 1])
  }

  ghost predicate IsTrace(c: Campaign, run: seq<Split>) {
    Steps(c, run) && run[0] == CREATED
  }

  lemma StepAt(c: Campaign, run: seq<Split>, i: nat) returns (a: Access)
    requires Steps(c, run) && i + 1 < |run|
    ensures Enabled(c, run[i], a) && run[i + 1] == After(c, run[i], a)
  {
    hide Enabled, After;
    assert Next(c, run[i], run[i + 1]);
    a :| Enabled(c, run[i], a) && run[i + 1] == After(c, run[i], a);
  }

  /** Judging and writing with nothing in between is the one step of the store's interface. */
  lemma UndividedIsAtomic(c: Campaign, s: Split, r: nat)
    requires Enabled(c, s, Judged(r)) && !s.base.status.Terminal()
    ensures var t := After(c, s, Judged(r));
            && Enabled(c, t, Written(r)) && After(c, t, Written(r)).cancels == s.cancels
            && After(c, t, Written(r)).judged == s.judged
            && After(c, t, Written(r)).base
               == c.After(s.base, if s.base.runners[r].pc == SettingStart then SetStart(r) else SetEnd(r))
  {
    hide P.Over;
    assert s.judged[r := s.base.daysRun] - {r} == s.judged;
  }

  /** So is a cancel's, at any place among the pending ones. */
  lemma UndividedCancelIsAtomic(c: Campaign, s: Split)
    ensures s.base.status.Terminal() ==> After(c, s, CancelJudged).base == c.After(s.base, CancelRequested)
    ensures !s.base.status.Terminal() ==>
              var t := After(c, s, CancelJudged);
              && Enabled(c, t, CancelWritten(|s.cancels|))
              && After(c, t, CancelWritten(|s.cancels|))
                 == Split(c.After(s.base, CancelRequested), s.judged, s.cancels)
  {
    hide P.Over;
    if !s.base.status.Terminal() {
      var more := s.cancels + [s.base.daysRun];
      assert more[..|s.cancels|] + more[|s.cancels| + 1..] == s.cancels;
    }
  }

  // ----- what every state keeps -----

  ghost predicate SameRecord(s: State, t: State) {
    s.status == t.status && s.daysRun == t.daysRun
  }

  ghost predicate Inv(c: Campaign, s: Split) {
    && c.Inv(s.base)
    && (!c.IsOver(s.base) ==> s.base.daysRun == 0)
    && (forall r :: r in s.judged ==> JudgedSound(s, r))
    && (forall k :: 0 <= k < |s.cancels| ==> s.cancels[k] == 0)
  }

  ghost predicate JudgedSound(s: Split, r: nat)
    requires r in s.judged
  {
    r < |s.base.runners| && s.base.runners[r].pc in {SettingStart, SettingEnd} && s.judged[r] == 0
  }

  /** A one-step access leaves the calls with a judged write where they are. */
  lemma PlainLeaves(c: Campaign, s: State, e: Event, r: nat)
    requires c.Enabled(s, e) && !SetsStatus(e) && e != Raised(r)
    requires r < |s.runners| && s.runners[r].pc in {SettingStart, SettingEnd}
    ensures r < |c.After(s, e).runners| && c.After(s, e).runners[r] == s.runners[r]
  {
    hide P.Over;
  }

  lemma PlainKeeps(c: Campaign, s: Split, e: Event)
    requires Inv(c, s) && Enabled(c, s, Plain(e))
    ensures Inv(c, After(c, s, Plain(e)))
  {
    hide c.Inv, c.Enabled, c.After;
    c.StepKeeps(s.base, e);
    PlainRecord(c, s.base, e);
    var t := After(c, s, Plain(e));
    forall r | r in t.judged ensures JudgedSound(t, r) {
      assert JudgedSound(s, r);
      PlainLeaves(c, s.base, e, r);
    }
  }

  lemma PlainRecord(c: Campaign, s: State, e: Event)
    requires c.Enabled(s, e) && !SetsStatus(e)
    ensures SameRecord(s, c.After(s, e))
  {
    hide P.Over;
  }

  lemma JudgedKeeps(c: Campaign, s: Split, r: nat)
    requires Inv(c, s) && Enabled(c, s, Judged(r))
    ensures Inv(c, After(c, s, Judged(r)))
  {
    hide P.Over;
    c.StopKeeps(s.base, r);
    hide c.Inv;
    var t := After(c, s, Judged(r));
    forall q | q in t.judged ensures JudgedSound(t, q) {
      if q != r {
        assert JudgedSound(s, q);
      }
    }
  }

  /** The verdict of a late write is that of all stored days. */
  lemma VerdictIsWhole(c: Campaign, s: State, r: nat)
    requires c.Inv(s) && r < |s.runners| && s.runners[r].pc == SettingEnd
    ensures s.runners[r].seen == s.outcomes && P.IsWholeCampaign(c.limits, c.target, s.outcomes)
  {
    hide P.Over;
    c.RunnerOf(s, r);
    assert s.outcomes[..0] == [];
  }

  lemma StatusFree(c: Campaign, s: State, status: Status, daysRun: nat)
    requires c.Inv(s)
    requires status in {Completed, Status.Retired}
             ==> daysRun == |s.outcomes| && status == c.Verdict(s.outcomes)
                 && P.IsWholeCampaign(c.limits, c.target, s.outcomes)
    ensures c.Inv(s.(status := status, daysRun := daysRun))
  {
    hide P.Over;
  }

  lemma LandedKeeps(c: Campaign, s: State, r: nat)
    requires c.Inv(s) && r < |s.runners| && s.runners[r].pc in {SettingStart, SettingEnd}
    ensures c.Inv(Landed(c, s, r, 0))
  {
    hide P.Over, P.IsWholeCampaign;
    if s.runners[r].pc == SettingStart {
      StatusFree(c, s, Running, 0);
      c.RunnerOf(s, r);
      c.MoveKeeps(s.(status := Running, daysRun := 0), r, c.Ready([]), Running);
    } else {
      VerdictIsWhole(c, s, r);
      var seen := s.runners[r].seen;
      StatusFree(c, s, c.Verdict(seen), |seen|);
      c.StopKeeps(s.(status := c.Verdict(seen), daysRun := |seen|), r);
    }
  }

  lemma WrittenKeeps(c: Campaign, s: Split, r: nat)
    requires Inv(c, s) && Enabled(c, s, Written(r))
    ensures Inv(c, After(c, s, Written(r)))
  {
    hide P.Over;
    assert JudgedSound(s, r);
    LandedKeeps(c, s.base, r);
    hide c.Inv;
    var t := After(c, s, Written(r));
    forall q | q in t.judged ensures JudgedSound(t, q) {
      assert JudgedSound(s, q);
    }
  }

  lemma CancelKeeps(c: Campaign, s: Split, k: nat)
    requires Inv(c, s) && Enabled(c, s, CancelWritten(k))
    ensures Inv(c, After(c, s, CancelWritten(k)))
  {
    hide P.Over;
    StatusFree(c, s.base, Cancelled, s.cancels[k]);
    hide c.Inv;
    var t := After(c, s, CancelWritten(k));
    forall q | q in t.judged ensures JudgedSound(t, q) {
      assert JudgedSound(s, q);
    }
  }

  lemma CancelJudgedKeeps(c: Campaign, s: Split)
    requires Inv(c, s)
    ensures Inv(c, After(c, s, CancelJudged))
  {
    hide P.Over;
    hide c.Inv;
    var t := After(c, s, CancelJudged);
    forall q | q in t.judged ensures JudgedSound(t, q) {
      assert JudgedSound(s, q);
    }
  }

  lemma StepKeeps(c: Campaign, s: Split, a: Access)
    requires Inv(c, s) && Enabled(c, s, a)
    ensures Inv(c, After(c, s, a))
  {
    hide Inv, Enabled, After;
    match a {
      case Plain(e) => PlainKeeps(c, s, e);
      case Judged(r) => JudgedKeeps(c, s, r);
      case Written(r) => WrittenKeeps(c, s, r);
      case CancelJudged => CancelJudgedKeeps(c, s);
      case CancelWritten(k) => CancelKeeps(c, s, k);
    }
  }

  lemma {:induction false} Reachable(c: Campaign, run: seq<Split>, i: nat)
    requires Steps(c, run) && i < |run| && Inv(c, run[0])
    ensures Inv(c, run[i])
  {
    hide Enabled, After, Inv;
    if i > 0 {
      Reachable(c, run, i - 1);
      var a := StepAt(c, run, i - 1);
      StepKeeps(c, run[i - 1], a);
    }
  }

  lemma CreatedIsSound(c: Campaign)
    ensures Inv(c, CREATED)
  {
  }

  // ----- what survives the separate write -----

  /** Over the repository too, a campaign recorded as completed or retired has stored exactly the
      days 1 to days_run, once each, and they are the days a campaign runs. */
  lemma FinalRecordIsComplete(c: Campaign, states: seq<Split>, i: nat)
    requires IsTrace(c, states) && i < |states| && c.IsOver(states[i].base)
    ensures var s := states[i].base;
            && s.daysRun == |s.outcomes| && (forall k :: 0 <= k < |s.outcomes| ==> s.outcomes[k].day == k + 1)
            && P.IsWholeCampaign(c.limits, c.target, s.outcomes)
            && (s.status == Status.Retired <==> P.Retired(c.limits, s.outcomes))
  {
    CreatedIsSound(c);
    Reachable(c, states, i);
  }

  /** Once all days of a campaign are stored no access stores another. */
  lemma WholeStays(c: Campaign, s: Split, a: Access)
    requires Inv(c, s) && Enabled(c, s, a) && P.IsWholeCampaign(c.limits, c.target, s.base.outcomes)
    ensures After(c, s, a).base.outcomes == s.base.outcomes
  {
    hide P.Over;
    if a.Plain? && a.e.Stored? && !Campaign.DayStored(s.base.outcomes, a.e.o.day) {
      c.OnlyTheOwnerStores(s.base, a.e.r, a.e.o);
      c.RunnerOf(s.base, a.e.r);
    }
  }

  lemma {:induction false} WholeForever(c: Campaign, run: seq<Split>, j: nat)
    requires Steps(c, run) && j < |run| && Inv(c, run[0]) && P.IsWholeCampaign(c.limits, c.target, run[0].base.outcomes)
    ensures run[j].base.outcomes == run[0].base.outcomes
  {
    hide Enabled, After, Inv, P.IsWholeCampaign;
    if j > 0 {
      WholeForever(c, run, j - 1);
      Reachable(c, run, j - 1);
      var a := StepAt(c, run, j - 1);
      WholeStays(c, run[j - 1], a);
    }
  }

  /** Whatever is written over a finished record, its days stay as they were. */
  lemma FinishedDaysStay(c: Campaign, states: seq<Split>, i: nat, run: seq<Split>, j: nat)
    requires IsTrace(c, states) && i < |states| && c.IsOver(states[i].base)
    requires Steps(c, run) && run[0] == states[i] && j < |run|
    ensures run[j].base.outcomes == states[i].base.outcomes
  {
    hide P.IsWholeCampaign;
    CreatedIsSound(c);
    Reachable(c, states, i);
    WholeForever(c, run, j);
  }

  // ----- when a record is kept -----

  /** Nothing that can happen from here changes the record. */
  ghost predicate Kept(c: Campaign, s: Split) {
    forall run: seq<Split>, j :: Steps(c, run) && run[0] == s && 0 <= j < |run| ==> SameRecord(s.base, run[j].base)
  }

  lemma OneStep(c: Campaign, s: Split, a: Access)
    requires Enabled(c, s, a) && Kept(c, s)
    ensures SameRecord(s.base, After(c, s, a).base)
  {
    hide Enabled, After;
    var run := [s, After(c, s, a)];
    assert Next(c, run[0], run[1]);
    assert Steps(c, run) && run[0] == s;
    assert SameRecord(s.base, run[1].base);
  }

  /** No call has judged a write under a cancelled record, so all that can still land is another
      cancel. */
  ghost predicate QuietCancelled(s: Split) {
    s.base.status == Cancelled && s.judged == map[]
  }

  lemma QuietCancelledStep(c: Campaign, s: Split, a: Access)
    requires Inv(c, s) && Enabled(c, s, a) && QuietCancelled(s)
    ensures QuietCancelled(After(c, s, a)) && SameRecord(s.base, After(c, s, a).base)
    ensures s.base.outcomes <= After(c, s, a).base.outcomes
    ensures c.Potential(After(c, s, a).base) <= c.Potential(s.base)
  {
    hide P.Over;
    match a {
      case Plain(e) => c.CancelledStep(s.base, e);
      case Judged(r) => StopAddsNothing(c, s.base, r);
      case _ => NothingPending(c, s, a);
    }
  }

  lemma StopAddsNothing(c: Campaign, s: State, r: nat)
    requires r < |s.runners|
    ensures c.Potential(Campaign.Stop(s, r)) <= c.Potential(s)
  {
    var t := Campaign.Stop(s, r);
    if c.Pending1(t) {
      var i :| 0 <= i < |t.runners| && t.runners[i].pc == InDay && t.runners[i].seen == t.outcomes;
      assert t.runners[i] == s.runners[i];
    }
  }

  lemma NothingPending(c: Campaign, s: Split, a: Access)
    requires Enabled(c, s, a) && s.judged == map[] && !a.Plain? && !a.Judged?
    ensures c.Potential(After(c, s, a).base) <= c.Potential(s.base)
  {
  }

  lemma {:induction false} QuietCancelledRun(c: Campaign, run: seq<Split>, j: nat)
    requires Steps(c, run) && j < |run| && Inv(c, run[0]) && QuietCancelled(run[0])
    ensures QuietCancelled(run[j]) && SameRecord(run[0].base, run[j].base)
    ensures run[0].base.outcomes <= run[j].base.outcomes && c.Potential(run[j].base) <= c.Potential(run[0].base)
  {
    hide Enabled, After, Inv, c.Potential;
    if j > 0 {
      QuietCancelledRun(c, run, j - 1);
      Reachable(c, run, j - 1);
      var a := StepAt(c, run, j - 1);
      QuietCancelledStep(c, run[j - 1], a);
    }
  }

  /** A cancel is honoured over the repository from a state in which no call has judged a write:
      the record never changes again, and at most one more day is stored. */
  lemma QuietCancelIsHonoured(c: Campaign, states: seq<Split>, i: nat, run: seq<Split>, j: nat)
    requires IsTrace(c, states) && i < |states| && QuietCancelled(states[i])
    requires Steps(c, run) && run[0] == states[i] && j < |run|
    ensures SameRecord(states[i].base, run[j].base) && states[i].base.outcomes <= run[j].base.outcomes
    ensures |run[j].base.outcomes| <= |states[i].base.outcomes| + 1
  {
    hide Inv;
    CreatedIsSound(c);
    Reachable(c, states, i);
    QuietCancelledRun(c, run, j);
  }

  /** A cancelled record is kept whatever follows exactly when no call has judged a write. */
  lemma CancelledKeptExactly(c: Campaign, states: seq<Split>, i: nat)
    requires IsTrace(c, states) && i < |states| && states[i].base.status == Cancelled
    ensures Kept(c, states[i]) <==> states[i].judged == map[]
  {
    hide P.Over, Kept;
    var s := states[i];
    CreatedIsSound(c);
    Reachable(c, states, i);
    if s.judged == map[] {
      QuietKeeps(c, states, i);
    } else {
      var r :| r in s.judged;
      assert JudgedSound(s, r);
      if Kept(c, s) {
        OneStep(c, s, Written(r));
        assert false;
      }
    }
  }

  lemma QuietKeeps(c: Campaign, states: seq<Split>, i: nat)
    requires IsTrace(c, states) && i < |states| && QuietCancelled(states[i])
    ensures Kept(c, states[i])
  {
    hide Next, SameRecord;
    forall run: seq<Split>, j | Steps(c, run) && run[0] == states[i] && 0 <= j < |run|
      ensures SameRecord(states[i].base, run[j].base)
    {
      QuietCancelIsHonoured(c, states, i, run, j);
    }
  }

  /** No cancel and no start is waiting to be written over a finished record. */
  ghost predicate QuietFinished(c: Campaign, s: Split) {
    && c.IsOver(s.base) && s.cancels == []
    && forall r :: r in s.judged && r < |s.base.runners| ==> s.base.runners[r].pc == SettingEnd
  }

  lemma QuietFinishedStep(c: Campaign, s: Split, a: Access)
    requires Inv(c, s) && Enabled(c, s, a) && QuietFinished(c, s)
    ensures QuietFinished(c, After(c, s, a)) && SameRecord(s.base, After(c, s, a).base)
  {
    hide P.Over, P.IsWholeCampaign;
    match a {
      case Plain(e) => QuietFinishedPlain(c, s, e);
      case Written(r) =>
        assert JudgedSound(s, r);
        VerdictIsWhole(c, s.base, r);
      case _ =>
    }
  }

  lemma QuietFinishedPlain(c: Campaign, s: Split, e: Event)
    requires Inv(c, s) && Enabled(c, s, Plain(e)) && QuietFinished(c, s)
    ensures QuietFinished(c, After(c, s, Plain(e))) && SameRecord(s.base, After(c, s, Plain(e)).base)
  {
    hide c.Inv, c.Enabled, c.After;
    PlainRecord(c, s.base, e);
    var t := After(c, s, Plain(e));
    forall r | r in t.judged && r < |t.base.runners| ensures t.base.runners[r].pc == SettingEnd {
      assert JudgedSound(s, r);
      PlainLeaves(c, s.base, e, r);
    }
  }

  lemma {:induction false} QuietFinishedRun(c: Campaign, run: seq<Split>, j: nat)
    requires Steps(c, run) && j < |run| && Inv(c, run[0]) && QuietFinished(c, run[0])
    ensures QuietFinished(c, run[j]) && SameRecord(run[0].base, run[j].base)
  {
    hide Enabled, After, Inv, QuietFinished;
    if j > 0 {
      QuietFinishedRun(c, run, j - 1);
      Reachable(c, run, j - 1);
      var a := StepAt(c, run, j - 1);
      QuietFinishedStep(c, run[j - 1], a);
    }
  }

  /** A completed or retired record is kept whatever follows exactly when no cancel and no start
      has judged a write. */
  lemma FinishedKeptExactly(c: Campaign, states: seq<Split>, i: nat)
    requires IsTrace(c, states) && i < |states| && c.IsOver(states[i].base)
    ensures Kept(c, states[i])
            <==> states[i].cancels == []
                 && forall r :: r in states[i].judged && r < |states[i].base.runners|
                                ==> states[i].base.runners[r].pc == SettingEnd
  {
    hide P.Over, Kept, P.IsWholeCampaign;
    var s := states[i];
    CreatedIsSound(c);
    Reachable(c, states, i);
    if QuietFinished(c, s) {
      QuietFinishedKeeps(c, s);
    } else if Kept(c, s) {
      if s.cancels != [] {
        OneStep(c, s, CancelWritten(0));
        assert false;
      } else {
        var r :| r in s.judged && r < |s.base.runners| && s.base.runners[r].pc != SettingEnd;
        assert JudgedSound(s, r);
        OneStep(c, s, Written(r));
        assert false;
      }
    }
  }

  lemma QuietFinishedKeeps(c: Campaign, s: Split)
    requires Inv(c, s) && QuietFinished(c, s)
    ensures Kept(c, s)
  {
    hide Next, SameRecord, Inv, QuietFinished;
    forall run: seq<Split>, j | Steps(c, run) && run[0] == s && 0 <= j < |run| ensures SameRecord(s.base, run[j].base) {
      QuietFinishedRun(c, run, j);
    }
  }
}
