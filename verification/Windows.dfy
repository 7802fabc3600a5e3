/** The rolling event window kept per symbol: appended to, sorted in place and pruned on the
    left at every event. */
module Windows {
  import opened Wrappers
  import opened StableSorting

  /** `symbol` is the payload's symbol field, None when it is missing or not a string. */
  datatype Event = Event(key: string, symbol: Option<string>, timestamp: int)

  datatype Snapshot = Snapshot(events: seq<Event>, start: int, end: int)

  datatype WindowError = KeyError | ValueError

  predicate ByTime(a: Event, b: Event) {
    a.timestamp <= b.timestamp
  }

  function Since(cutoff: int): Event -> bool {
    (e: Event) => e.timestamp >= cutoff
  }

  function At(t: int): Event -> bool {
    (e: Event) => e.timestamp == t
  }

  /** The latest timestamp in any history. */
  function Newest(history: seq<Event>): int
    requires |history| > 0
  {
    Sort(history, ByTime)[|history| - 1].timestamp
  }

  /** What the window ought to be: the whole history in time order, from the cutoff on. */
  function Window(history: seq<Event>, duration: int): seq<Event> {
    if |history| == 0 then [] else Filter(Sort(history, ByTime), Since(Newest(history) - duration))
  }

  // ----- filtering sorted events -----

  lemma TimeIsPreorder()
    ensures IsPreorder(ByTime)
  {
  }

  lemma {:induction false} FilterTwice(s: seq<Event>, a: int, b: int)
    requires a <= b
    ensures Filter(Filter(s, Since(a)), Since(b)) == Filter(s, Since(b))
  {
    if |s| > 0 {
      var init, last := s[..|s| - 1], s[|s| - 1];
      FilterTwice(init, a, b);
      if last.timestamp >= a {
        FilterStep(Filter(init, Since(a)), last, Since(b));
      } else {
        assert Filter(init, Since(a)) + [] == Filter(init, Since(a));
      }
    }
  }

  lemma {:induction false} FilterEverything(s: seq<Event>, p: Event -> bool)
    requires KeepsAll(s, p)
    ensures Filter(s, p) == s
  {
    hide Filter, KeepsAll;
    if |s| == 0 {
      KeepNone(s, p);
    } else {
      var n := |s| - 1;
      KeepsPrefix(s, p);
      KeepLast(s, p);
      FilterEverything(s[..n], p);
      assert s[..n] + [s[n]] == s;
    }
  }

  predicate KeepsAll(s: seq<Event>, p: Event -> bool) {
    forall i :: 0 <= i < |s| ==> p(s[i])
  }

  lemma KeepsPrefix(s: seq<Event>, p: Event -> bool)
    requires |s| > 0 && KeepsAll(s, p)
    ensures KeepsAll(s[..|s| - 1], p) && p(s[|s| - 1])
  {
  }

  lemma KeepNone(s: seq<Event>, p: Event -> bool)
    requires |s| == 0
    ensures Filter(s, p) == s
  {
  }

  lemma KeepLast(s: seq<Event>, p: Event -> bool)
    requires |s| > 0 && p(s[|s| - 1])
    ensures Filter(s, p) == Filter(s[..|s| - 1], p) + [s[|s| - 1]]
  {
  }

  lemma {:induction false} FilterWithoutFirst(s: seq<Event>, p: Event -> bool)
    requires |s| > 0 && !p(s[0])
    ensures Filter(s, p) == Filter(s[1..], p)
  {
    if |s| > 1 {
      FilterWithoutFirst(s[..|s| - 1], p);
      assert s[..|s| - 1][1..] == s[1..][..|s| - 2];
    }
  }

  lemma {:induction false} FilterMembers(s: seq<Event>, p: Event -> bool)
    ensures forall x :: x in Filter(s, p) <==> x in s && p(x)
  {
    if |s| > 0 {
      FilterMembers(s[..|s| - 1], p);
      assert s == s[..|s| - 1] + [s[|s| - 1]];
    }
  }

  lemma {:induction false} FilterSorted(s: seq<Event>, p: Event -> bool)
    requires IsSorted(s, ByTime)
    ensures IsSorted(Filter(s, p), ByTime)
  {
    if |s| > 0 {
      var init, last := s[..|s| - 1], s[|s| - 1];
      FilterSorted(init, p);
      var f := Filter(init, p);
      forall i | 0 <= i < |f| ensures ByTime(f[i], last) {
        assert f[i] in init;
      }
    }
  }

  // ----- the incremental window -----

  lemma SortAppend(s: seq<Event>, e: Event)
    ensures Sort(s + [e], ByTime) == Insert(Sort(s, ByTime), e, ByTime)
  {
    assert (s + [e])[..|s|] == s;
  }

  /** The last of a sorted insertion is the later of the two. */
  lemma InsertLast(s: seq<Event>, e: Event)
    ensures var r := Insert(s, e, ByTime);
            r[|r| - 1] == if |s| == 0 || ByTime(s[|s| - 1], e) then e else s[|s| - 1]
  {
  }

  lemma NewestStep(history: seq<Event>, e: Event)
    requires |history| > 0
    ensures Newest(history + [e]) == if Newest(history) <= e.timestamp then e.timestamp else Newest(history)
  {
    SortAppend(history, e);
    InsertLast(Sort(history, ByTime), e);
  }

  lemma WindowSorted(history: seq<Event>, duration: int)
    ensures IsSorted(Window(history, duration), ByTime)
  {
    if |history| > 0 {
      TimeIsPreorder();
      SortSorts(history, ByTime);
      FilterSorted(Sort(history, ByTime), Since(Newest(history) - duration));
    }
  }

  lemma NewestBounds(history: seq<Event>)
    requires |history| > 0
    ensures forall x :: x in Sort(history, ByTime) ==> x.timestamp <= Newest(history)
  {
    TimeIsPreorder();
    SortSorts(history, ByTime);
  }

  /** With a negative duration nothing is ever kept. */
  lemma NothingKept(history: seq<Event>, duration: int)
    requires duration < 0
    ensures Window(history, duration) == []
  {
    if |history| > 0 {
      NewestBounds(history);
      FilterNothing(Sort(history, ByTime), Since(Newest(history) - duration));
    }
  }

  /** The newest event survives every pruning. */
  lemma NewestKept(history: seq<Event>, duration: int)
    requires duration >= 0 && |history| > 0
    ensures var w := Window(history, duration);
            |w| > 0 && w[|w| - 1] == Sort(history, ByTime)[|history| - 1] && w[|w| - 1].timestamp == Newest(history)
  {
    var s := Sort(history, ByTime);
    assert Since(Newest(history) - duration)(s[|s| - 1]);
  }

  /** Pruning the stored window plus one event is as good as filtering the whole history. */
  lemma WindowStep(history: seq<Event>, e: Event, duration: int)
    ensures var sorted := Sort(Window(history, duration) + [e], ByTime);
            && IsSorted(sorted, ByTime) && |sorted| > 0
            && Window(history + [e], duration) == Filter(sorted, Since(sorted[|sorted| - 1].timestamp - duration))
  {
    hide Sort, Filter, Insert;
    var w := Window(history, duration);
    TimeIsPreorder();
    SortSorts(w + [e], ByTime);
    WindowSorted(history, duration);
    SortAppend(w, e);
    SortOfSorted(w, ByTime);
    InsertLast(w, e);
    if |history| == 0 {
      assert history + [e] == [e] == w + [e];
    } else if duration < 0 {
      NothingKept(history, duration);
      NothingKept(history + [e], duration);
      var sorted := Sort(w + [e], ByTime);
      NewestBounds(w + [e]);
      FilterNothing(sorted, Since(sorted[|sorted| - 1].timestamp - duration));
    } else {
      WindowStepKept(history, e, duration);
    }
  }

  lemma WindowStepKept(history: seq<Event>, e: Event, duration: int)
    requires duration >= 0 && |history| > 0
    ensures var w := Window(history, duration);
            var cutoff := Insert(w, e, ByTime)[|w|].timestamp - duration;
            Window(history + [e], duration) == Filter(Insert(w, e, ByTime), Since(cutoff))
  {
    hide Sort, Filter, Insert;
    var w, s := Window(history, duration), Sort(history, ByTime);
    TimeIsPreorder();
    SortSorts(history, ByTime);
    SortAppend(history, e);
    NewestStep(history, e);
    NewestKept(history, duration);
    InsertLast(w, e);
    WindowSorted(history, duration);
    var newest := Newest(history + [e]);
    FilterInsert(s, e, ByTime, Since(newest - duration));
    FilterInsert(w, e, ByTime, Since(newest - duration));
    FilterTwice(s, Newest(history) - duration, newest - duration);
  }

  // ----- the manager -----

  class InMemoryWindowManager {
    const duration: int
    var eventsBySymbol: map<string, seq<Event>>
    /** Every event added per symbol since it was last cleared, in order of arrival. */
    ghost var history: map<string, seq<Event>>

    ghost predicate Valid()
      reads this
    {
      && (forall s :: s in eventsBySymbol <==> s in history)
      && forall s :: s in history ==> |history[s]| > 0 && eventsBySymbol[s] == Window(history[s], duration)
    }

    ghost function HistoryOf(symbol: string): seq<Event>
      reads this
    {
      if symbol in history then history[symbol] else []
    }

    constructor (windowDuration: int)
      ensures Valid() && duration == windowDuration && history == map[]
    {
      duration := windowDuration;
      eventsBySymbol, history := map[], map[];
    }

    method Add(event: Event) returns (r: Result<(), WindowError>)
      requires Valid()
      modifies this
      ensures Valid()
      ensures r.Err? <==> event.symbol.None?
      ensures r.Err? ==> r.error == KeyError && history == old(history) && eventsBySymbol == old(eventsBySymbol)
      ensures r.Ok? ==>
                history == old(history)[event.symbol.value := old(HistoryOf(event.symbol.value)) + [event]]
    {
      if event.symbol.None? {
        return Err(KeyError);
      }
      Store(event.symbol.value, event);
      return Ok(());
    }

    method Store(symbol: string, event: Event)
      requires Valid()
      modifies this
      ensures Valid() && history == old(history)[symbol := old(HistoryOf(symbol)) + [event]]
    {
      hide Window;
      var stored := if symbol in eventsBySymbol then eventsBySymbol[symbol] else [];
      ghost var h := HistoryOf(symbol);
      NoHistory(duration);
      var events := Advance(stored, event, duration, h);
      eventsBySymbol := eventsBySymbol[symbol := events];
      history := history[symbol := h + [event]];
    }

    method GetSnapshot(symbol: string) returns (r: Result<Snapshot, WindowError>)
      requires Valid()
      ensures r == Err(KeyError) <==> symbol !in history
      ensures r == Err(ValueError) <==> symbol in history && duration < 0
      ensures r.Ok? ==> symbol in history && IsSnapshot(history[symbol], duration, r.value)
    {
      if symbol !in eventsBySymbol {
        return Err(KeyError);
      }
      hide Window, Newest, Sort, Filter;
      var events := eventsBySymbol[symbol];
      if duration < 0 {
        NothingKept(history[symbol], duration);
      } else {
        NewestKept(history[symbol], duration);
      }
      if |events| == 0 {
        return Err(ValueError);
      }
      return Ok(Snapshot(events, events[0].timestamp, events[|events| - 1].timestamp));
    }

    method Clear(symbol: string)
      requires Valid()
      modifies this
      ensures Valid()
      ensures history == old(history) - {symbol}
    {
      eventsBySymbol := eventsBySymbol - {symbol};
      history := history - {symbol};
    }
  }

  ghost predicate IsSnapshot(history: seq<Event>, duration: int, s: Snapshot)
    requires |history| > 0
  {
    && s.events == Window(history, duration) && |s.events| > 0
    && s.start == s.events[0].timestamp && s.end == Newest(history)
  }

  lemma NoHistory(duration: int)
    ensures Window([], duration) == []
  {
  }

  /** Append, sort in place, prune on the left. */
  method Advance(stored: seq<Event>, event: Event, duration: int, ghost history: seq<Event>)
    returns (events: seq<Event>)
    requires stored == Window(history, duration)
    ensures events == Window(history + [event], duration)
  {
    hide Window, Sort, Filter;
    WindowStep(history, event, duration);
    events := Sort(stored + [event], ByTime);
    var cutoff := events[|events| - 1].timestamp - duration;
    events := Prune(events, cutoff);
  }

  /** The loop that pops old events off the left of a sorted window keeps exactly the others. */
  method Prune(sorted: seq<Event>, cutoff: int) returns (events: seq<Event>)
    requires IsSorted(sorted, ByTime)
    ensures events == Filter(sorted, Since(cutoff))
  {
    hide Filter;
    events := sorted;
    while |events| > 0 && events[0].timestamp < cutoff
      invariant IsSorted(events, ByTime)
      invariant Filter(events, Since(cutoff)) == Filter(sorted, Since(cutoff))
    {
      FilterWithoutFirst(events, Since(cutoff));
      events := events[1..];
    }
    forall x | x in events ensures Since(cutoff)(x) {
      var i :| 0 <= i < |events| && events[i] == x;
      assert i > 0 ==> ByTime(events[0], events[i]);
    }
    FilterEverything(events, Since(cutoff));
  }

  // ----- what a window holds -----

  /** A window holds exactly the events of its history within the duration of the newest one, in
      time order, and events of one timestamp in their order of arrival. */
  lemma WindowContents(history: seq<Event>, duration: int, t: int)
    requires |history| > 0
    ensures var w := Window(history, duration);
            && IsSorted(w, ByTime)
            && (forall x :: x in w <==> x in history && x.timestamp >= Newest(history) - duration)
            && (t >= Newest(history) - duration ==> Filter(w, At(t)) == Filter(history, At(t)))
  {
    hide Sort, Filter;
    var s := Sort(history, ByTime);
    TimeIsPreorder();
    SortSorts(history, ByTime);
    WindowSorted(history, duration);
    FilterMembers(s, Since(Newest(history) - duration));
    if t >= Newest(history) - duration {
      SortIsStable(history, ByTime, At(t));
      FilterAtSince(s, t, Newest(history) - duration);
    }
  }

  lemma {:induction false} FilterAtSince(s: seq<Event>, t: int, cutoff: int)
    requires t >= cutoff
    ensures Filter(Filter(s, Since(cutoff)), At(t)) == Filter(s, At(t))
  {
    if |s| > 0 {
      var init, last := s[..|s| - 1], s[|s| - 1];
      FilterAtSince(init, t, cutoff);
      if last.timestamp >= cutoff {
        FilterStep(Filter(init, Since(cutoff)), last, At(t));
      } else {
        assert Filter(init, Since(cutoff)) + [] == Filter(init, Since(cutoff));
      }
    }
  }

  /** Late arrival is repaired: histories that differ only in how events of different timestamps
      interleave give the same window. */
  lemma ArrivalOrderForgotten(h: seq<Event>, k: seq<Event>, duration: int)
    requires forall t :: Filter(h, At(t)) == Filter(k, At(t))
    ensures Window(h, duration) == Window(k, duration)
  {
    hide Sort, Filter;
    TimeIsPreorder();
    SortSorts(h, ByTime);
    SortSorts(k, ByTime);
    forall t ensures Filter(Sort(h, ByTime), At(t)) == Filter(Sort(k, ByTime), At(t)) {
      assert Filter(h, At(t)) == Filter(k, At(t));
      SortIsStable(h, ByTime, At(t));
      SortIsStable(k, ByTime, At(t));
    }
    SortedByClasses(Sort(h, ByTime), Sort(k, ByTime));
  }

  lemma LastOfClass(s: seq<Event>)
    requires |s| > 0
    ensures var last := s[|s| - 1]; Filter(s, At(last.timestamp)) == Filter(s[..|s| - 1], At(last.timestamp)) + [last]
  {
  }

  lemma NoLaterClass(s: seq<Event>, t: int)
    requires IsSorted(s, ByTime) && |s| > 0 && s[|s| - 1].timestamp < t
    ensures Filter(s, At(t)) == []
  {
    forall x | x in s ensures !At(t)(x) {
      var i :| 0 <= i < |s| && s[i] == x;
      assert i < |s| - 1 ==> ByTime(s[i], s[|s| - 1]);
    }
    FilterNothing(s, At(t));
  }

  /** A sorted sequence is determined by its events of each timestamp. */
  lemma {:induction false} SortedByClasses(s: seq<Event>, k: seq<Event>)
    requires IsSorted(s, ByTime) && IsSorted(k, ByTime)
    requires forall t :: Filter(s, At(t)) == Filter(k, At(t))
    ensures s == k
  {
    hide Filter;
    if |s| == 0 && |k| == 0 {
    } else if |s| == 0 {
      assert |Filter(s, At(k[|k| - 1].timestamp))| == 0;
      LastOfClass(k);
    } else if |k| == 0 {
      assert |Filter(k, At(s[|s| - 1].timestamp))| == 0;
      LastOfClass(s);
    } else {
      var a, b := s[|s| - 1], k[|k| - 1];
      var s', k' := s[..|s| - 1], k[..|k| - 1];
      LastOfClass(s);
      LastOfClass(k);
      assert Filter(s, At(a.timestamp)) == Filter(k, At(a.timestamp));
      assert Filter(s, At(b.timestamp)) == Filter(k, At(b.timestamp));
      if a.timestamp < b.timestamp {
        NoLaterClass(s, b.timestamp);
      } else if b.timestamp < a.timestamp {
        NoLaterClass(k, a.timestamp);
      }
      var f := Filter(s, At(a.timestamp));
      assert f[|f| - 1] == a && f[|f| - 1] == b;
      forall t ensures Filter(s', At(t)) == Filter(k', At(t)) {
        assert Filter(s, At(t)) == Filter(k, At(t));
        FilterStep(s', a, At(t));
        FilterStep(k', b, At(t));
        assert s == s' + [a] && k == k' + [b];
        if t == a.timestamp {
          assert (Filter(s', At(t)) + [a])[..|Filter(s', At(t))|] == Filter(s', At(t));
          assert (Filter(k', At(t)) + [b])[..|Filter(k', At(t))|] == Filter(k', At(t));
        } else {
          assert Filter(s', At(t)) + [] == Filter(s', At(t)) && Filter(k', At(t)) + [] == Filter(k', At(t));
        }
      }
      SortedByClasses(s', k');
      assert s == s' + [a] && k == k' + [b];
    }
  }
}
