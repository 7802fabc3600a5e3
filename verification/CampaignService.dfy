/** A persisted paper campaign: any number of concurrent runs of one campaign, operators that
    cancel it, and a store whose status only moves forward, as a state machine over the
    service's store accesses. */
module CampaignService {
  import opened PaperAutonomy

  datatype Status = Pending | Running | Completed | Retired | Cancelled {
    predicate Terminal() {
      this in {Completed, Retired, Cancelled}
    }
  }

  /** Where one `run_campaign` call stands between two store accesses. */
  datatype Pc =
    | Entering     // about to read the record
    | Starting     // start_campaign is about to read the record
    | SettingStart // start_campaign is about to set RUNNING
    | Boundary     // about to check for a cancel before a day
    | InDay        // inside the day function, before the outcome is stored
    | Finishing    // about to check for a cancel before the verdict
    | SettingEnd   // about to set the verdict
    | Done         // returned or raised

  datatype Runner = Runner(pc: Pc, seen: seq<Outcome>)

  /** The record, the stored day outcomes in the order of storing, and the calls in progress. */
  datatype State = State(status: Status, daysRun: nat, outcomes: seq<Outcome>, runners: seq<Runner>)

  datatype Event =
    | Called                         // another run_campaign call
    | Entered(r: nat) | ReadStart(r: nat) | SetStart(r: nat)
    | Checked(r: nat) | Stored(r: nat, o: Outcome)
    | FinalChecked(r: nat) | SetEnd(r: nat)
    | Raised(r: nat)                 // the day function or the process fails
    | CancelRequested                // an operator's set of CANCELLED reaches the store

  /** The limits and the target of the campaign. */
  datatype Campaign = Campaign(limits: Limits, target: int) {

    ghost predicate Stops(seen: seq<Outcome>) {
      Over(limits, target, seen)
    }

    /** Where a call goes on once its days so far are stored. */
    ghost function Ready(seen: seq<Outcome>): Runner {
      Runner(if Stops(seen) then Finishing else Boundary, seen)
    }

    ghost function Verdict(seen: seq<Outcome>): Status {
      if PaperAutonomy.Retired(limits, seen) then Status.Retired else Completed
    }

    /** A day is stored once: the store refuses a second outcome for it. */
    static predicate DayStored(outcomes: seq<Outcome>, day: int) {
      exists k :: 0 <= k < |outcomes| && outcomes[k].day == day
    }

    ghost predicate Enabled(s: State, e: Event) {
      match e
      case Called => true
      case CancelRequested => true
      case Entered(r) => r < |s.runners| && s.runners[r].pc == Entering
      case ReadStart(r) => r < |s.runners| && s.runners[r].pc == Starting
      case SetStart(r) => r < |s.runners| && s.runners[r].pc == SettingStart
      case Checked(r) => r < |s.runners| && s.runners[r].pc == Boundary
      case Stored(r, o) => r < |s.runners| && s.runners[r].pc == InDay && o.day == |s.runners[r].seen| + 1
      case FinalChecked(r) => r < |s.runners| && s.runners[r].pc == Finishing
      case SetEnd(r) => r < |s.runners| && s.runners[r].pc == SettingEnd
      case Raised(r) => r < |s.runners|
    }

    static function Move(s: State, r: nat, to: Runner): State
      requires r < |s.runners|
    {
      s.(runners := s.runners[r := to])
    }

    static function Stop(s: State, r: nat): State
      requires r < |s.runners|
    {
      Move(s, r, s.runners[r].(pc := Done))
    }

    ghost function After(s: State, e: Event): State
      requires Enabled(s, e)
    {
      match e
      case Called => s.(runners := s.runners + [Runner(Entering, [])])
      case Raised(r) => Stop(s, r)
      case Entered(r) =>
        if s.status.Terminal() then Stop(s, r)
        else if s.status == Running then Move(s, r, Ready([])) else Move(s, r, Runner(Starting, []))
      case ReadStart(r) =>
        if s.status.Terminal() then Stop(s, r)
        else if s.status == Running then Move(s, r, Ready([])) else Move(s, r, Runner(SettingStart, []))
      case SetStart(r) =>
        if s.status.Terminal() then Stop(s, r) else Move(s.(status := Running), r, Ready([]))
      case Checked(r) =>
        if s.status == Cancelled then Stop(s, r) else Move(s, r, Runner(InDay, s.runners[r].seen))
      case Stored(r, o) =>
        if DayStored(s.outcomes, o.day) then Stop(s, r)
        else Move(s.(outcomes := s.outcomes + [o]), r, Ready(s.runners[r].seen + [o]))
      case FinalChecked(r) =>
        if s.status == Cancelled then Stop(s, r) else Move(s, r, Runner(SettingEnd, s.runners[r].seen))
      case SetEnd(r) =>
        if s.status.Terminal() then Stop(s, r)
        else Stop(s.(status := Verdict(s.runners[r].seen), daysRun := |s.runners[r].seen|), r)
      case CancelRequested => if s.status.Terminal() then s else s.(status := Cancelled)
    }

    /** A run of the machine from a created campaign. */
    ghost predicate IsTrace(states: seq<State>) {
      && |states| > 0 && states[0] == State(Pending, 0, [], [])
      && forall i :: 0 <= i < |states| - 1 ==> Next(states[i], states[i + 1])
    }

    ghost predicate Next(s: State, t: State) {
      exists e :: Enabled(s, e) && t == After(s, e)
    }

    lemma StepAt(states: seq<State>, i: nat) returns (e: Event)
      requires IsTrace(states) && i + 1 < |states|
      ensures Enabled(states[i], e) && states[i + 1] == After(states[i], e)
    {
      hide Enabled, After;
      assert Next(states[i], states[i + 1]);
      e :| Enabled(states[i], e) && states[i + 1] == After(states[i], e);
    }

    lemma Created(states: seq<State>)
      requires IsTrace(states)
      ensures |states| > 0 && states[0] == State(Pending, 0, [], [])
    {
    }

    // ----- what every state keeps -----

    /** Days are stored in order, without a gap or a repetition. */
    ghost predicate InOrder(outcomes: seq<Outcome>) {
      forall k :: 0 <= k < |outcomes| ==> outcomes[k].day == k + 1
    }

    ghost predicate NotBefore(seen: seq<Outcome>) {
      forall k :: 0 <= k < |seen| ==> !Stops(seen[..k])
    }

    /** A call has stored either nothing or everything that is stored. */
    ghost predicate RunnerSound(s: State, r: Runner) {
      && (r.seen == [] || r.seen == s.outcomes)
      && (r.pc in {Entering, Starting, SettingStart} ==> r.seen == [])
      && (r.pc in {Boundary, InDay} ==> !Stops(r.seen))
      && (r.pc in {Finishing, SettingEnd} ==> Stops(r.seen))
    }

    ghost predicate OneOwner(s: State) {
      forall i, j :: 0 <= i < j < |s.runners| ==> s.runners[i].seen == [] || s.runners[j].seen == []
    }

    ghost predicate Inv(s: State) {
      && InOrder(s.outcomes) && NotBefore(s.outcomes)
      && (forall i :: 0 <= i < |s.runners| ==> RunnerSound(s, s.runners[i]))
      && OneOwner(s)
      && (s.status in {Completed, Status.Retired} ==> Finished(s))
    }

    /** What the record of a completed or retired campaign says. */
    ghost predicate Finished(s: State) {
      && s.daysRun == |s.outcomes| && s.status == Verdict(s.outcomes)
      && IsWholeCampaign(limits, target, s.outcomes)
    }

    lemma StoredExactly(outcomes: seq<Outcome>, day: int)
      requires InOrder(outcomes) && day >= 1
      ensures DayStored(outcomes, day) <==> day <= |outcomes|
    {
      if day <= |outcomes| {
        assert outcomes[day - 1].day == day;
      }
    }

    /** The call that stores a new day has stored all the days before it. */
    lemma OnlyTheOwnerStores(s: State, r: nat, o: Outcome)
      requires Inv(s) && Enabled(s, Stored(r, o)) && !DayStored(s.outcomes, o.day)
      ensures s.runners[r].seen == s.outcomes && o.day == |s.outcomes| + 1
      ensures forall i :: 0 <= i < |s.runners| && i != r ==> s.runners[i].seen == []
    {
      StoredExactly(s.outcomes, o.day);
      assert RunnerSound(s, s.runners[r]);
    }

    lemma StoreKeeps(s: State, r: nat, o: Outcome)
      requires Inv(s) && Enabled(s, Stored(r, o))
      ensures Inv(After(s, Stored(r, o)))
    {
      hide Over;
      var t := After(s, Stored(r, o));
      if !DayStored(s.outcomes, o.day) {
        OnlyTheOwnerStores(s, r, o);
        assert RunnerSound(s, s.runners[r]);
        forall k | 0 <= k < |t.outcomes| ensures !Stops(t.outcomes[..k]) {
          assert t.outcomes[..k] == s.outcomes[..k];
          assert s.outcomes[..|s.outcomes|] == s.outcomes;
        }
      } else {
        StopKeeps(s, r);
      }
    }

    lemma StopKeeps(s: State, r: nat)
      requires Inv(s) && r < |s.runners|
      ensures Inv(Stop(s, r))
    {
    }

    lemma EndKeeps(s: State, r: nat)
      requires Inv(s) && Enabled(s, SetEnd(r))
      ensures Inv(After(s, SetEnd(r)))
    {
      hide Over;
      var seen := s.runners[r].seen;
      assert RunnerSound(s, s.runners[r]);
      if !s.status.Terminal() {
        assert s.outcomes[..0] == [];
        assert seen == s.outcomes;
      }
    }

    /** Moving one call to a sound place without storing anything. */
    lemma MoveKeeps(s: State, r: nat, to: Runner, status: Status)
      requires Inv(s) && r < |s.runners| && to.seen == s.runners[r].seen && RunnerSound(s, to)
      requires status == s.status || status !in {Completed, Status.Retired}
      ensures Inv(Move(s.(status := status), r, to))
    {
      hide Over;
    }

    lemma EarlyStepKeeps(s: State, e: Event)
      requires Inv(s) && Enabled(s, e) && !e.Stored? && !e.SetEnd? && !e.Called? && !e.CancelRequested?
      ensures Inv(After(s, e))
    {
      hide Over, Inv;
      var r := e.r;
      RunnerOf(s, r);
      var t := After(s, e);
      if t == Stop(s, r) {
        StopKeeps(s, r);
      } else {
        MoveKeeps(s, r, t.runners[r], t.status);
      }
    }

    lemma RunnerOf(s: State, r: nat)
      requires Inv(s) && r < |s.runners|
      ensures RunnerSound(s, s.runners[r])
    {
    }

    lemma OutsideKeeps(s: State, e: Event)
      requires Inv(s) && Enabled(s, e) && (e.Called? || e.CancelRequested?)
      ensures Inv(After(s, e))
    {
      hide Over;
    }

    lemma StepKeeps(s: State, e: Event)
      requires Inv(s) && Enabled(s, e)
      ensures Inv(After(s, e))
    {
      hide Inv, Enabled, After;
      match e {
        case Stored(r, o) => StoreKeeps(s, r, o);
        case SetEnd(r) => EndKeeps(s, r);
        case Called => OutsideKeeps(s, e);
        case CancelRequested => OutsideKeeps(s, e);
        case _ => EarlyStepKeeps(s, e);
      }
    }

    lemma {:induction false} Reachable(states: seq<State>, i: nat)
      requires IsTrace(states) && i < |states|
      ensures Inv(states[i])
    {
      hide Enabled, After, IsTrace, Inv;
      if i == 0 {
        Created(states);
        CreatedIsSound();
      } else {
        Reachable(states, i - 1);
        var e := StepAt(states, i - 1);
        StepKeeps(states[i - 1], e);
      }
    }

    lemma CreatedIsSound()
      ensures Inv(State(Pending, 0, [], []))
    {
    }

    /** In every interleaving of runs and cancels, a campaign recorded as completed or retired has
        stored exactly the days 1 to days_run, once each, and they are the days a campaign runs:
        up to the first breach, or the whole window. */
    lemma FinalRecordIsComplete(states: seq<State>, i: nat)
      requires IsTrace(states) && i < |states| && states[i].status in {Completed, Status.Retired}
      ensures var s := states[i];
              && s.daysRun == |s.outcomes| && (forall k :: 0 <= k < |s.outcomes| ==> s.outcomes[k].day == k + 1)
              && IsWholeCampaign(limits, target, s.outcomes)
              && (s.status == Status.Retired <==> PaperAutonomy.Retired(limits, s.outcomes))
    {
      Reachable(states, i);
    }

    // ----- terminal records -----

    /** Some call is inside a day whose outcome the store would accept. */
    ghost predicate Pending1(s: State) {
      exists i :: 0 <= i < |s.runners| && s.runners[i].pc == InDay && s.runners[i].seen == s.outcomes
    }

    ghost function Potential(s: State): nat {
      |s.outcomes| + if Pending1(s) then 1 else 0
    }

    /** Under a cancelled record no call enters a day. */
    lemma NoNewDay(s: State, e: Event)
      requires Inv(s) && Enabled(s, e) && s.status == Cancelled && !e.Stored?
      ensures After(s, e).status == Cancelled && After(s, e).outcomes == s.outcomes
      ensures Pending1(After(s, e)) ==> Pending1(s)
    {
      hide Over;
      var t := After(s, e);
      if Pending1(t) {
        var i :| 0 <= i < |t.runners| && t.runners[i].pc == InDay && t.runners[i].seen == t.outcomes;
        assert i < |s.runners| && t.runners[i] == s.runners[i];
      }
    }

    lemma CancelledStep(s: State, e: Event)
      requires Inv(s) && Enabled(s, e) && s.status == Cancelled
      ensures var t := After(s, e);
              && t.status == Cancelled && t.daysRun == s.daysRun
              && s.outcomes <= t.outcomes && Potential(t) <= Potential(s)
    {
      hide Over;
      match e {
        case Stored(r, o) =>
          if DayStored(s.outcomes, o.day) {
            var t := After(s, e);
            if Pending1(t) {
              var i :| 0 <= i < |t.runners| && t.runners[i].pc == InDay && t.runners[i].seen == t.outcomes;
              assert t.runners[i] == s.runners[i];
            }
          } else {
            OnlyTheOwnerStores(s, r, o);
            assert s.runners[r].pc == InDay && s.runners[r].seen == s.outcomes;
            assert !Pending1(After(s, e));
          }
        case _ => NoNewDay(s, e);
      }
    }

    lemma {:induction false} CancelledRun(states: seq<State>, i: nat, j: nat)
      requires IsTrace(states) && i <= j < |states| && states[i].status == Cancelled
      ensures states[j].status == Cancelled && states[j].daysRun == states[i].daysRun
      ensures states[i].outcomes <= states[j].outcomes && Potential(states[j]) <= Potential(states[i])
    {
      hide Inv, Enabled, After, Potential, IsTrace;
      if i < j {
        CancelledRun(states, i, j - 1);
        Reachable(states, j - 1);
        var e := StepAt(states, j - 1);
        CancelledStep(states[j - 1], e);
      }
    }

    /** Once cancelled, a record never changes again, no stored day is lost, and at most one more
        day is stored, however many calls were running. */
    lemma CancelIsHonoured(states: seq<State>, i: nat, j: nat)
      requires IsTrace(states) && i <= j < |states| && states[i].status == Cancelled
      ensures states[j].status == Cancelled && states[j].daysRun == states[i].daysRun
      ensures states[i].outcomes <= states[j].outcomes && |states[j].outcomes| <= |states[i].outcomes| + 1
    {
      CancelledRun(states, i, j);
    }

    lemma FinishedStep(s: State, e: Event)
      requires Inv(s) && Enabled(s, e) && s.status in {Completed, Status.Retired}
      ensures var t := After(s, e); t.status == s.status && t.daysRun == s.daysRun && t.outcomes == s.outcomes
    {
      hide Over;
      if e.Stored? && !DayStored(s.outcomes, e.o.day) {
        OnlyTheOwnerStores(s, e.r, e.o);
        assert RunnerSound(s, s.runners[e.r]);
      }
    }

    /** A completed or retired campaign is never reopened, and its corpus never grows. */
    lemma {:induction false} FinishedIsFinal(states: seq<State>, i: nat, j: nat)
      requires IsTrace(states) && i <= j < |states| && states[i].status in {Completed, Status.Retired}
      ensures states[j].status == states[i].status && states[j].daysRun == states[i].daysRun
      ensures states[j].outcomes == states[i].outcomes
    {
      hide Inv, Enabled, After, IsTrace;
      if i < j {
        FinishedIsFinal(states, i, j - 1);
        Reachable(states, j - 1);
        var e := StepAt(states, j - 1);
        FinishedStep(states[j - 1], e);
      }
    }

    // ----- restarting -----

    /** A run of the machine from any state. */
    ghost predicate Steps(states: seq<State>) {
      |states| > 0 && forall i :: 0 <= i < |states| - 1 ==> Next(states[i], states[i + 1])
    }

    ghost predicate IsOver(s: State) {
      s.status in {Completed, Status.Retired}
    }

    /** Days are stored, and every call that stored one has returned or failed without setting a
        verdict. */
    ghost predicate Stranded(s: State) {
      && s.outcomes != [] && !IsOver(s)
      && forall i :: 0 <= i < |s.runners| && s.runners[i].pc != Done ==> s.runners[i].seen == []
    }

    /** A call that has stored days and can still go on. */
    ghost predicate OwnerAlive(s: State) {
      exists i :: 0 <= i < |s.runners| && s.runners[i].pc != Done && s.runners[i].seen != []
    }

    lemma StrandedStep(s: State, e: Event)
      requires Inv(s) && Enabled(s, e) && Stranded(s)
      ensures Stranded(After(s, e)) && After(s, e).outcomes == s.outcomes
    {
      hide Over;
      assert s.outcomes[..0] == [];
      match e {
        case Stored(r, o) => StoredExactly(s.outcomes, o.day);
        case _ =>
      }
    }

    lemma {:induction false} StrandedForever(run: seq<State>, j: nat)
      requires Steps(run) && j < |run| && Inv(run[0]) && Stranded(run[0])
      ensures Inv(run[j]) && Stranded(run[j]) && run[j].outcomes == run[0].outcomes
    {
      hide Inv, Enabled, After, Stranded;
      if j > 0 {
        StrandedForever(run, j - 1);
        assert Next(run[j - 1], run[j]);
        var e :| Enabled(run[j - 1], e) && run[j] == After(run[j - 1], e);
        StepKeeps(run[j - 1], e);
        StrandedStep(run[j - 1], e);
      }
    }

    /** Losing the call that stored the days so far, before the verdict, strands the campaign. */
    lemma DeathStrands(s: State, r: nat)
      requires Inv(s) && r < |s.runners| && s.runners[r].seen != [] && !IsOver(s)
      ensures Stranded(After(s, Raised(r)))
    {
      RunnerOf(s, r);
    }

    /** A campaign whose run dies after its first stored day can be run again but never finishes:
        the first day of every new run is refused by the store, so the record can only stay as it
        is or be cancelled, and no day is added. */
    lemma InterruptedNeverFinishes(states: seq<State>, i: nat, r: nat, j: nat)
      requires IsTrace(states) && i < j < |states| && !IsOver(states[i])
      requires r < |states[i].runners| && states[i].runners[r].seen != []
      requires states[i + 1] == After(states[i], Raised(r))
      ensures !IsOver(states[j]) && states[j].outcomes == states[i].outcomes
    {
      hide Over, NotBefore, RunnerSound, OneOwner;
      Reachable(states, i);
      DeathStrands(states[i], r);
      Reachable(states, i + 1);
      var run := states[i + 1..];
      assert Steps(run) by {
        forall k | 0 <= k < |run| - 1 ensures Next(run[k], run[k + 1]) {
          assert Next(states[i + 1 + k], states[i + 2 + k]);
        }
      }
      StrandedForever(run, j - i - 1);
    }

    // ----- what can still finish -----

    ghost predicate CanFinish(s: State) {
      exists run :: Steps(run) && run[0] == s && IsOver(run[|run| - 1])
    }

    lemma NowOver(s: State)
      requires IsOver(s)
      ensures CanFinish(s)
    {
      assert Steps([s]) && [s][0] == s;
    }

    /** What can finish after a step can finish before it. */
    lemma FinishBefore(s: State, e: Event)
      requires Enabled(s, e) && CanFinish(After(s, e))
      ensures CanFinish(s)
    {
      hide Enabled, After, IsOver;
      var t := After(s, e);
      assert Next(s, t);
      var rest :| Steps(rest) && rest[0] == t && IsOver(rest[|rest| - 1]);
      var run := [s] + rest;
      forall i | 0 <= i < |run| - 1 ensures Next(run[i], run[i + 1]) {
        if i > 0 {
          assert Next(rest[i - 1], rest[i]);
        }
      }
      assert Steps(run) && run[0] == s && run[|run| - 1] == rest[|rest| - 1];
    }

    /** A call inside the days that has stored all that is stored, under an open record. */
    ghost predicate Going(s: State, r: nat) {
      && Inv(s) && !s.status.Terminal() && r < |s.runners| && s.runners[r].seen == s.outcomes
      && s.runners[r].pc in {Boundary, InDay, Finishing, SettingEnd}
    }

    /** The days a call has left at most. */
    ghost function DaysLeft(s: State): nat {
      if Stops(s.outcomes) || |s.outcomes| >= target then 0 else target - |s.outcomes|
    }

    function Stage(pc: Pc): nat {
      match pc
      case Boundary => 3
      case InDay => 2
      case Finishing => 1
      case _ => 0
    }

    /** The event by which a going call takes its next step, with a day of any result. */
    ghost function Onward(s: State, r: nat): Event
      requires r < |s.runners|
    {
      match s.runners[r].pc
      case Boundary => Checked(r)
      case InDay => Stored(r, Outcome(|s.outcomes| + 1, 0.0, 0.0, 0, 0))
      case Finishing => FinalChecked(r)
      case _ => SetEnd(r)
    }

    /** A going call moves on to a later place, or to a later day, or sets the verdict. */
    ghost predicate Advances(s: State, t: State, r: nat)
      requires r < |s.runners|
    {
      && Going(t, r)
      && (DaysLeft(t) < DaysLeft(s)
          || (DaysLeft(t) == DaysLeft(s) && Stage(t.runners[r].pc) < Stage(s.runners[r].pc)))
    }

    lemma OnwardKeeps(s: State, r: nat)
      requires Going(s, r)
      ensures var e := Onward(s, r);
              && Enabled(s, e)
              && if s.runners[r].pc == SettingEnd then IsOver(After(s, e)) else Advances(s, After(s, e), r)
    {
      hide Over, Inv;
      var e := Onward(s, r);
      StepKeeps(s, e);
      RunnerOf(s, r);
      if s.runners[r].pc == InDay {
        NextDayStored(s, r);
      }
    }

    lemma NextDayStored(s: State, r: nat)
      requires Going(s, r) && s.runners[r].pc == InDay
      ensures Enabled(s, Onward(s, r)) && Advances(s, After(s, Onward(s, r)), r)
    {
      hide Over, NotBefore, OneOwner;
      var e := Onward(s, r);
      StoredExactly(s.outcomes, e.o.day);
      OverAtTarget(s.outcomes);
      RunnerOf(s, r);
      StepKeeps(s, e);
    }

    lemma OverAtTarget(seen: seq<Outcome>)
      ensures |seen| >= target ==> Stops(seen)
    {
    }

    lemma {:induction false} GoingFinishes(s: State, r: nat)
      requires Going(s, r)
      ensures CanFinish(s)
      decreases DaysLeft(s), Stage(s.runners[r].pc)
    {
      hide Inv, Over, Enabled, After, CanFinish, IsOver;
      var e := Onward(s, r);
      OnwardKeeps(s, r);
      if s.runners[r].pc == SettingEnd {
        NowOver(After(s, e));
      } else {
        GoingFinishes(After(s, e), r);
      }
      FinishBefore(s, e);
    }

    /** With no day stored, a fresh call takes an open campaign to its end. */
    lemma FreshFinishes(s: State)
      requires Inv(s) && !s.status.Terminal() && s.outcomes == []
      ensures CanFinish(s)
    {
      hide Over, CanFinish;
      var r := |s.runners|;
      var s1 := After(s, Called);
      StepKeeps(s, Called);
      var s2 := After(s1, Entered(r));
      StepKeeps(s1, Entered(r));
      if s.status == Running {
        GoingFinishes(s2, r);
      } else {
        var s3 := After(s2, ReadStart(r));
        StepKeeps(s2, ReadStart(r));
        var s4 := After(s3, SetStart(r));
        StepKeeps(s3, SetStart(r));
        GoingFinishes(s4, r);
        FinishBefore(s3, SetStart(r));
        FinishBefore(s2, ReadStart(r));
      }
      FinishBefore(s1, Entered(r));
      FinishBefore(s, Called);
    }

    /** From every reachable open record, the campaign can still be finished exactly when no day is
        stored yet or the call that stored the days is still going. */
    lemma FinishableExactly(states: seq<State>, i: nat)
      requires IsTrace(states) && i < |states| && !states[i].status.Terminal()
      ensures CanFinish(states[i]) <==> states[i].outcomes == [] || OwnerAlive(states[i])
    {
      hide Over, NotBefore, Enabled, After;
      var s := states[i];
      Reachable(states, i);
      if s.outcomes == [] {
        FreshFinishes(s);
      } else if OwnerAlive(s) {
        var r :| 0 <= r < |s.runners| && s.runners[r].pc != Done && s.runners[r].seen != [];
        RunnerOf(s, r);
        GoingFinishes(s, r);
      } else if CanFinish(s) {
        var run :| Steps(run) && run[0] == s && IsOver(run[|run| - 1]);
        StrandedForever(run, |run| - 1);
        assert false;
      }
    }

    // ----- what a cancel does -----

    lemma CancelledAlongRun(run: seq<State>, j: nat)
      requires Steps(run) && j < |run| && Inv(run[0]) && run[0].status == Cancelled
      ensures Inv(run[j]) && run[j].status == Cancelled && run[j].daysRun == run[0].daysRun
      ensures run[0].outcomes <= run[j].outcomes && Potential(run[j]) <= Potential(run[0])
    {
      hide Inv, Enabled, After, Potential;
      if j > 0 {
        CancelledAlongRun(run, j - 1);
        assert Next(run[j - 1], run[j]);
        var e :| Enabled(run[j - 1], e) && run[j] == After(run[j - 1], e);
        StepKeeps(run[j - 1], e);
        CancelledStep(run[j - 1], e);
      }
    }

    /** A cancel of an open record stops the campaign: whatever any call does afterwards, the record
        stays CANCELLED, so that nothing finishes it, every stored day is kept, and at most one more
        is stored. */
    lemma CancelStops(states: seq<State>, i: nat, run: seq<State>, j: nat)
      requires IsTrace(states) && i < |states| && !states[i].status.Terminal()
      requires Steps(run) && run[0] == After(states[i], CancelRequested) && j < |run|
      ensures run[j].status == Cancelled && !CanFinish(run[j])
      ensures states[i].outcomes <= run[j].outcomes && |run[j].outcomes| <= |states[i].outcomes| + 1
    {
      hide Inv, Over;
      Reachable(states, i);
      StepKeeps(states[i], CancelRequested);
      CancelledAlongRun(run, j);
      CancelledCannotFinish(run[j]);
    }

    /** A call that reads or sets a cancelled record ends there, with everything else as it was: only a day
        already begun goes on. On a completed or retired record the same holds of entering, starting and
        setting a status. */
    lemma CancelEndsCalls(s: State, e: Event)
      requires Enabled(s, e) && s.status.Terminal() && !e.Called? && !e.CancelRequested? && !e.Stored?
      requires s.status == Cancelled || !(e.Checked? || e.FinalChecked?)
      ensures After(s, e) == s.(runners := s.runners[e.r := Runner(Done, s.runners[e.r].seen)])
    {
    }

    lemma CancelledCannotFinish(s: State)
      requires Inv(s) && s.status == Cancelled
      ensures !CanFinish(s)
    {
      hide Inv;
      if CanFinish(s) {
        var run :| Steps(run) && run[0] == s && IsOver(run[|run| - 1]);
        CancelledAlongRun(run, |run| - 1);
        assert false;
      }
    }
  }
}
