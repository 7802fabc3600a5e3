/** Runs of the persisted campaign that lose a status or strand a campaign, step by step. */
module CampaignTraces {
  import P = PaperAutonomy
  import opened CampaignService
  import opened SplitStore

  const ONE_DAY := Campaign(P.Limits(0, 0.0, 0, 0.0, 0, 0.0, 0.0, 0.0), 1)
  const FLAT_DAY := P.Outcome(1, 0.0, 0.0, 0, 0)

  /** A flat day without orders breaches nothing. */
  lemma FlatDayCompletes()
    ensures ONE_DAY.Verdict([FLAT_DAY]) == Completed
  {
    var os := [FLAT_DAY];
    assert os[..0] == [];
    assert P.Failed(os) == 0 && P.Orders(os) == 0;
    var path := P.Path(os);
    assert P.Path(os[..0]) == [1.0] && P.Grown(1.0, 0.0) == 1.0;
    assert path == [1.0, 1.0];
    assert P.FallPct(path, 0) == 0.0 && P.FallPct(path, 1) == 0.0;
    assert P.Returns(os) == P.Expected(os);
  }

  lemma OneDayStops()
    ensures !ONE_DAY.Stops([]) && ONE_DAY.Stops([FLAT_DAY])
  {
  }

  // ----- the parts the traces share -----

  /** A campaign whose first call stands at `pc`, with other calls and judged writes around it. */
  function At(status: Status, days: seq<P.Outcome>, pc: Pc, others: seq<Runner>, judged: map<nat, nat>,
              cancels: seq<nat>): Split
  {
    Split(State(status, if status == Completed then |days| else 0, days, [Runner(pc, days)] + others), judged, cancels)
  }

  ghost predicate Ends(states: seq<Split>, s: Split) {
    IsTrace(ONE_DAY, states) && states[|states| - 1] == s
  }

  lemma Started()
    ensures Ends([CREATED], CREATED)
  {
  }

  lemma Grow(states: seq<Split>, s: Split, a: Access, t: Split) returns (more: seq<Split>)
    requires Ends(states, s) && Enabled(ONE_DAY, s, a) && After(ONE_DAY, s, a) == t
    ensures Ends(more, t) && more == states + [t]
  {
    hide Enabled, After;
    more := states + [t];
    assert Next(ONE_DAY, s, t);
    forall i | 0 <= i < |more| - 1 ensures Next(ONE_DAY, more[i], more[i + 1]) {
      assert i < |states| - 1 ==> Next(ONE_DAY, states[i], states[i + 1]);
    }
  }

  lemma FirstMoves(to: Runner, from: Runner, others: seq<Runner>)
    ensures ([from] + others)[0 := to] == [to] + others
  {
  }

  /** A step of the first call that leaves the record as it is. */
  lemma FirstSteps(states: seq<Split>, status: Status, days: seq<P.Outcome>, pc: Pc, to: Pc, others: seq<Runner>,
                   judged: map<nat, nat>, cancels: seq<nat>, e: Event)
    returns (more: seq<Split>)
    requires Ends(states, At(status, days, pc, others, judged, cancels)) && status in {Pending, Running}
    requires || (e == Entered(0) && pc == Entering && to == Starting && status == Pending && days == [])
             || (e == ReadStart(0) && pc == Starting && to == SettingStart && status == Pending && days == [])
             || (e == Checked(0) && pc == Boundary && to == InDay)
             || (e == FinalChecked(0) && pc == Finishing && to == SettingEnd)
    ensures Ends(more, At(status, days, to, others, judged, cancels))
  {
    hide Ends, P.Over;
    FirstMoves(Runner(to, days), Runner(pc, days), others);
    more := Grow(states, At(status, days, pc, others, judged, cancels), Plain(e),
                 At(status, days, to, others, judged, cancels));
  }

  /** The first call's write is judged. */
  lemma FirstJudged(states: seq<Split>, status: Status, days: seq<P.Outcome>, pc: Pc, others: seq<Runner>,
                    judged: map<nat, nat>, cancels: seq<nat>)
    returns (more: seq<Split>)
    requires Ends(states, At(status, days, pc, others, judged, cancels)) && status in {Pending, Running}
    requires pc in {SettingStart, SettingEnd} && 0 !in judged
    ensures Ends(more, At(status, days, pc, others, judged[0 := 0], cancels))
  {
    hide Ends, P.Over;
    more := Grow(states, At(status, days, pc, others, judged, cancels), Judged(0),
                 At(status, days, pc, others, judged[0 := 0], cancels));
  }

  /** The first call's start lands. */
  lemma StartLands(states: seq<Split>, others: seq<Runner>, judged: map<nat, nat>)
    returns (more: seq<Split>)
    requires 0 !in judged && Ends(states, At(Pending, [], SettingStart, others, judged[0 := 0], []))
    ensures Ends(more, At(Running, [], Boundary, others, judged, []))
  {
    hide Ends, P.Over;
    OneDayStops();
    FirstMoves(Runner(Boundary, []), Runner(SettingStart, []), others);
    assert judged[0 := 0] - {0} == judged;
    more := Grow(states, At(Pending, [], SettingStart, others, judged[0 := 0], []), Written(0),
                 At(Running, [], Boundary, others, judged, []));
  }

  /** The first call's day is stored. */
  lemma DayIsStored(states: seq<Split>, others: seq<Runner>, judged: map<nat, nat>) returns (more: seq<Split>)
    requires Ends(states, At(Running, [], InDay, others, judged, []))
    ensures Ends(more, At(Running, [FLAT_DAY], Finishing, others, judged, []))
  {
    hide Ends, P.Over;
    OneDayStops();
    FirstMoves(Runner(Finishing, [FLAT_DAY]), Runner(InDay, []), others);
    assert !Campaign.DayStored([], 1) && [] + [FLAT_DAY] == [FLAT_DAY];
    more := Grow(states, At(Running, [], InDay, others, judged, []), Plain(Stored(0, FLAT_DAY)),
                 At(Running, [FLAT_DAY], Finishing, others, judged, []));
  }

  /** A running first call stores its day and judges its verdict. */
  lemma ToVerdict(states: seq<Split>, others: seq<Runner>, judged: map<nat, nat>) returns (more: seq<Split>)
    requires 0 !in judged && Ends(states, At(Running, [], Boundary, others, judged, []))
    ensures Ends(more, At(Running, [FLAT_DAY], SettingEnd, others, judged[0 := 0], []))
  {
    hide Ends, At;
    more := FirstSteps(states, Running, [], Boundary, InDay, others, judged, [], Checked(0));
    more := DayIsStored(more, others, judged);
    more := FirstSteps(more, Running, [FLAT_DAY], Finishing, SettingEnd, others, judged, [], FinalChecked(0));
    more := FirstJudged(more, Running, [FLAT_DAY], SettingEnd, others, judged, []);
  }

  /** The first call's verdict lands, whatever the record says by then. */
  lemma VerdictLands(states: seq<Split>, status: Status, others: seq<Runner>, judged: map<nat, nat>, cancels: seq<nat>)
    returns (more: seq<Split>)
    requires 0 !in judged && status != Completed
    requires Ends(states, At(status, [FLAT_DAY], SettingEnd, others, judged[0 := 0], cancels))
    ensures Ends(more, At(Completed, [FLAT_DAY], Done, others, judged, cancels)) && |more| == |states| + 1
    ensures more[..|states|] == states
  {
    hide Ends, P.Over, P.Retired;
    FlatDayCompletes();
    FirstMoves(Runner(Done, [FLAT_DAY]), Runner(SettingEnd, [FLAT_DAY]), others);
    assert judged[0 := 0] - {0} == judged;
    more := Grow(states, At(status, [FLAT_DAY], SettingEnd, others, judged[0 := 0], cancels), Written(0),
                 At(Completed, [FLAT_DAY], Done, others, judged, cancels));
  }

  /** An operator's cancel is judged while the verdict is. */
  lemma CancelIsJudged(states: seq<Split>, judged: map<nat, nat>) returns (more: seq<Split>)
    requires Ends(states, At(Running, [FLAT_DAY], SettingEnd, [], judged, []))
    ensures Ends(more, At(Running, [FLAT_DAY], SettingEnd, [], judged, [0]))
  {
    hide Ends, P.Over;
    more := Grow(states, At(Running, [FLAT_DAY], SettingEnd, [], judged, []), CancelJudged,
                 At(Running, [FLAT_DAY], SettingEnd, [], judged, [0]));
  }

  lemma CancelLands(states: seq<Split>, status: Status, pc: Pc, judged: map<nat, nat>) returns (more: seq<Split>)
    requires Ends(states, At(status, [FLAT_DAY], pc, [], judged, [0]))
    ensures Ends(more, At(Cancelled, [FLAT_DAY], pc, [], judged, [])) && |more| == |states| + 1
    ensures more[..|states|] == states
  {
    hide Ends, P.Over;
    assert [0][..0] + [0][1..] == [];
    more := Grow(states, At(status, [FLAT_DAY], pc, [], judged, [0]), CancelWritten(0),
                 At(Cancelled, [FLAT_DAY], pc, [], judged, []));
  }

  // ----- one call -----

  lemma OneCallStarts() returns (states: seq<Split>)
    ensures Ends(states, At(Running, [], Boundary, [], map[], []))
  {
    hide Ends, P.Over;
    Started();
    states := Grow([CREATED], CREATED, Plain(Called), At(Pending, [], Entering, [], map[], []));
    states := FirstSteps(states, Pending, [], Entering, Starting, [], map[], [], Entered(0));
    states := FirstSteps(states, Pending, [], Starting, SettingStart, [], map[], [], ReadStart(0));
    states := FirstJudged(states, Pending, [], SettingStart, [], map[], []);
    states := StartLands(states, [], map[]);
  }

  lemma VerdictAndCancelJudged() returns (states: seq<Split>)
    ensures Ends(states, At(Running, [FLAT_DAY], SettingEnd, [], map[][0 := 0], [0]))
  {
    hide Ends, At;
    states := OneCallStarts();
    states := ToVerdict(states, [], map[]);
    states := CancelIsJudged(states, map[][0 := 0]);
  }

  /** The record of a campaign is CANCELLED after the operator's write and COMPLETED after the next
      access: the call had judged its verdict before. */
  lemma CancelIsLost() returns (states: seq<Split>, i: nat)
    ensures IsTrace(ONE_DAY, states) && i + 1 < |states|
    ensures states[i].base.status == Cancelled && states[i + 1].base.status == Completed
  {
    var judged := VerdictAndCancelJudged();
    var before := CancelLands(judged, Running, SettingEnd, map[][0 := 0]);
    states := VerdictLands(before, Cancelled, [], map[], []);
    i := |before| - 1;
    assert states[i] == states[..|before|][i];
  }

  /** The record is COMPLETED and CANCELLED after the next access: the operator's write had been
      judged before the verdict landed. */
  lemma CompletionIsLost() returns (states: seq<Split>, i: nat)
    ensures IsTrace(ONE_DAY, states) && i + 1 < |states|
    ensures states[i].base.status == Completed && states[i + 1].base.status == Cancelled
  {
    var judged := VerdictAndCancelJudged();
    var before := VerdictLands(judged, Running, [], map[], [0]);
    states := CancelLands(before, Completed, Done, map[]);
    i := |before| - 1;
    assert states[i] == states[..|before|][i];
  }

  // ----- two calls -----

  const SECOND := Runner(SettingStart, [])

  /** Both calls judge their start before either writes it. */
  lemma TwoCallsJudged() returns (states: seq<Split>)
    ensures Ends(states, At(Pending, [], SettingStart, [SECOND], map[1 := 0][0 := 0], []))
  {
    hide Ends, P.Over;
    Started();
    states := Grow([CREATED], CREATED, Plain(Called), At(Pending, [], Entering, [], map[], []));
    states := FirstSteps(states, Pending, [], Entering, Starting, [], map[], [], Entered(0));
    states := FirstSteps(states, Pending, [], Starting, SettingStart, [], map[], [], ReadStart(0));
    states := SecondEnters(states);
    states := FirstJudged(states, Pending, [], SettingStart, [SECOND], map[1 := 0], []);
  }

  lemma SecondEnters(states: seq<Split>) returns (more: seq<Split>)
    requires Ends(states, At(Pending, [], SettingStart, [], map[], []))
    ensures Ends(more, At(Pending, [], SettingStart, [SECOND], map[1 := 0], []))
  {
    hide Ends, P.Over;
    more := Grow(states, At(Pending, [], SettingStart, [], map[], []), Plain(Called),
                 At(Pending, [], SettingStart, [Runner(Entering, [])], map[], []));
    more := Grow(more, At(Pending, [], SettingStart, [Runner(Entering, [])], map[], []), Plain(Entered(1)),
                 At(Pending, [], SettingStart, [Runner(Starting, [])], map[], []));
    more := Grow(more, At(Pending, [], SettingStart, [Runner(Starting, [])], map[], []), Plain(ReadStart(1)),
                 At(Pending, [], SettingStart, [SECOND], map[], []));
    more := Grow(more, At(Pending, [], SettingStart, [SECOND], map[], []), Judged(1),
                 At(Pending, [], SettingStart, [SECOND], map[1 := 0], []));
  }

  /** The record is COMPLETED and RUNNING again after the next access: a second call had judged its
      start while the campaign was pending. */
  lemma CompletionIsReopened() returns (states: seq<Split>, i: nat)
    ensures IsTrace(ONE_DAY, states) && i + 1 < |states|
    ensures states[i].base.status == Completed && states[i + 1].base.status == Running
  {
    hide P.Over;
    var before := TwoCallsJudged();
    before := StartLands(before, [SECOND], map[1 := 0]);
    before := ToVerdict(before, [SECOND], map[1 := 0]);
    before := VerdictLands(before, Running, [SECOND], map[1 := 0], []);
    var s := At(Completed, [FLAT_DAY], Done, [SECOND], map[1 := 0], []);
    states := Grow(before, s, Written(1), After(ONE_DAY, s, Written(1)));
    i := |before| - 1;
  }

  // ----- a death -----

  /** One call of the campaign over an atomic store. */
  function Alone(status: Status, days: seq<P.Outcome>, pc: Pc): State {
    State(status, 0, days, [Runner(pc, days)])
  }

  lemma Follows(s: State, e: Event, t: State)
    requires ONE_DAY.Enabled(s, e) && ONE_DAY.After(s, e) == t
    ensures ONE_DAY.Next(s, t)
  {
    hide ONE_DAY.Enabled, ONE_DAY.After;
  }

  lemma AloneStarts()
    ensures ONE_DAY.Next(State(Pending, 0, [], []), Alone(Pending, [], Entering))
    ensures ONE_DAY.Next(Alone(Pending, [], Entering), Alone(Pending, [], Starting))
    ensures ONE_DAY.Next(Alone(Pending, [], Starting), Alone(Pending, [], SettingStart))
  {
    hide P.Over, ONE_DAY.Next;
    Follows(State(Pending, 0, [], []), Called, Alone(Pending, [], Entering));
    Follows(Alone(Pending, [], Entering), Entered(0), Alone(Pending, [], Starting));
    Follows(Alone(Pending, [], Starting), ReadStart(0), Alone(Pending, [], SettingStart));
  }

  lemma AloneRuns()
    ensures ONE_DAY.Next(Alone(Pending, [], SettingStart), Alone(Running, [], Boundary))
  {
    hide P.Over, ONE_DAY.Next;
    OneDayStops();
    Follows(Alone(Pending, [], SettingStart), SetStart(0), Alone(Running, [], Boundary));
  }

  lemma AloneDies()
    ensures ONE_DAY.Next(Alone(Running, [], Boundary), Alone(Running, [], InDay))
    ensures ONE_DAY.Next(Alone(Running, [], InDay), Alone(Running, [FLAT_DAY], Finishing))
    ensures ONE_DAY.Next(Alone(Running, [FLAT_DAY], Finishing), Alone(Running, [FLAT_DAY], Done))
    ensures ONE_DAY.After(Alone(Running, [FLAT_DAY], Finishing), Raised(0)) == Alone(Running, [FLAT_DAY], Done)
  {
    hide P.Over, ONE_DAY.Next;
    OneDayStops();
    assert !Campaign.DayStored([], 1) && [] + [FLAT_DAY] == [FLAT_DAY];
    Follows(Alone(Running, [], Boundary), Checked(0), Alone(Running, [], InDay));
    Follows(Alone(Running, [], InDay), Stored(0, FLAT_DAY), Alone(Running, [FLAT_DAY], Finishing));
    Follows(Alone(Running, [FLAT_DAY], Finishing), Raised(0), Alone(Running, [FLAT_DAY], Done));
  }

  /** The process dies between the last day and the verdict. The campaign stays RUNNING with all its
      days stored, and nothing finishes it any more. */
  lemma DeathStrandsCampaign() returns (states: seq<State>, i: nat)
    ensures ONE_DAY.IsTrace(states) && i + 1 < |states|
    ensures states[i].status == Running && |states[i].runners| == 1 && states[i].runners[0].seen == [FLAT_DAY]
    ensures states[i + 1] == ONE_DAY.After(states[i], Raised(0))
    ensures ONE_DAY.Stops(states[i + 1].outcomes) && !ONE_DAY.CanFinish(states[i + 1])
  {
    AloneStarts();
    AloneRuns();
    AloneDies();
    OneDayStops();
    hide ONE_DAY.Next, ONE_DAY.CanFinish, P.Over, ONE_DAY.After;
    states := [State(Pending, 0, [], []), Alone(Pending, [], Entering), Alone(Pending, [], Starting),
               Alone(Pending, [], SettingStart), Alone(Running, [], Boundary), Alone(Running, [], InDay),
               Alone(Running, [FLAT_DAY], Finishing), Alone(Running, [FLAT_DAY], Done)];
    i := 6;
    ONE_DAY.FinishableExactly(states, 7);
  }
}
