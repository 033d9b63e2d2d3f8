/** How many calls the limiter lets through in an interval that need not line up with its
    windows. Readings of the clock never go back; beyond that they are arbitrary. */
module LimiterWindows {
  import opened MapSums
  import opened Counting
  import opened LimiterModel
  import opened LimiterSafety

  function Readings(step: Step): seq<int> {
    match step
    case Reserve(_, _, now) => [now]
    case AbandonWait(_) => []
    case Consume(_, now) => [now]
    case AdjustDown(_, _, nows) => nows
    case SignalComplete(_, nows) => nows
    case Release(_, nows) => nows
    case Stats(now) => [now]
    case Tick(now, nows) => [now] + nows
  }

  predicate Forward(clock: int, readings: seq<int>)
    decreases |readings|
  {
    readings == [] || (clock <= readings[0] && Forward(readings[0], readings[1..]))
  }

  function Latest(clock: int, readings: seq<int>): int {
    if readings == [] then clock else readings[|readings| - 1]
  }

  predicate WellTimed(clock: int, steps: seq<Step>)
    decreases |steps|
  {
    steps == [] || (Forward(clock, Readings(steps[0])) && WellTimed(Latest(clock, Readings(steps[0])), steps[1..]))
  }

  function Recorded(step: Step, outcome: Outcome): seq<int> {
    if step.Consume? && outcome == Done then [step.now] else []
  }

  /** The instants at which a run let a call through. */
  ghost function ConsumeTimes(s: State, steps: seq<Step>): seq<int>
    requires Runnable(s, steps)
    decreases |steps|
  {
    if steps == [] then []
    else
      var r := Apply(s, steps[0]);
      Recorded(steps[0], r.1) + ConsumeTimes(r.0, steps[1..])
  }

  // ---------- windows are disjoint and each holds at most the limit ----------

  ghost predicate Spaced(windows: seq<Window>, window: int, limit: int) {
    && (forall i, j :: 0 <= i < j < |windows| ==> windows[i].start + window <= windows[j].start)
    && (forall i :: 0 <= i < |windows| ==> |windows[i].consumedAt| <= limit)
    && (forall i, t :: 0 <= i < |windows| && t in windows[i].consumedAt ==>
          windows[i].start <= t < windows[i].start + window)
  }

  ghost predicate Timeline(s: State, clock: int) {
    && s.window > 0
    && |s.windows| > 0
    && s.windows[|s.windows| - 1].start == s.windowStart <= clock
    && |s.windows[|s.windows| - 1].consumedAt| == s.consumed
    && Spaced(s.windows, s.window, s.limit)
  }

  lemma {:induction false} ForwardLatest(clock: int, readings: seq<int>)
    requires Forward(clock, readings)
    ensures clock <= Latest(clock, readings)
    decreases |readings|
  {
    if readings != [] {
      ForwardLatest(readings[0], readings[1..]);
    }
  }

  lemma ResetKeepsTimeline(s: State, clock: int, now: int)
    requires Capacity(s) && Timeline(s, clock) && clock <= now
    ensures Timeline(ResetWindow(s, now), now)
    ensures !Elapsed(ResetWindow(s, now), now)
  {
    OutstandingNonNegative(s);
  }

  lemma {:induction false} TryGrantKeepsTimeline(s: State, clock: int, nows: seq<int>)
    requires |s.queue| <= |nows| && Capacity(s) && Timeline(s, clock) && Forward(clock, nows)
    ensures Timeline(TryGrantWaiting(s, nows), Latest(clock, nows))
    decreases |s.queue|
  {
    hide Spaced, Fits, TotalReserved, Elapsed;
    ForwardLatest(clock, nows);
    if s.queue != [] {
      ForwardLatest(nows[0], nows[1..]);
      var r := ResetWindow(s, nows[0]);
      var next := r.queue[0];
      ResetKeepsTimeline(s, clock, nows[0]);
      ResetKeepsCapacity(s, nows[0]);
      if Fits(r, next.requestedSlots) {
        GrantKeepsCapacity(r, next.workflowID, next.requestedSlots);
        var granted := Grant(r, next.workflowID, next.requestedSlots);
        var g := granted.(queue := r.queue[1..], closed := r.closed + [next.ready]);
        TryGrantKeepsTimeline(g, nows[0], nows[1..]);
      }
    }
  }

  lemma RecordKeepsSpaced(windows: seq<Window>, window: int, limit: int, now: int)
    requires Spaced(windows, window, limit) && windows != []
    requires var last := windows[|windows| - 1]; last.start <= now < last.start + window && |last.consumedAt| < limit
    ensures Spaced(RecordConsume(windows, now), window, limit)
  {
    var after, n := RecordConsume(windows, now), |windows| - 1;
    assert after[n].consumedAt == windows[n].consumedAt + [now];
    assert forall i :: 0 <= i < n ==> after[i] == windows[i];
  }

  lemma ConsumeKeepsTimeline(s: State, clock: int, id: string, now: int)
    requires Capacity(s) && Timeline(s, clock) && clock <= now
    ensures Timeline(ConsumeStep(s, id, now).0, now)
  {
    var after := ConsumeStep(s, id, now).0;
    ConsumeKeepsCapacity(s, id, now);
    OutstandingNonNegative(after);
    if after != s {
      ResetKeepsTimeline(s, clock, now);
      var r := ResetWindow(s, now);
      RecordKeepsSpaced(r.windows, r.window, r.limit, now);
    }
  }

  lemma TickKeepsTimeline(s: State, clock: int, now: int, nows: seq<int>)
    requires |s.queue| <= |nows| && Capacity(s) && Timeline(s, clock) && clock <= now && Forward(now, nows)
    ensures Timeline(TickStep(s, now, nows), Latest(now, nows))
  {
    ForwardLatest(now, nows);
    ResetKeepsTimeline(s, clock, now);
    ResetKeepsCapacity(s, now);
    if s.queue != [] && Elapsed(s, now) {
      TryGrantKeepsTimeline(ResetWindow(s, now), now, nows);
    }
  }

  /** Replacing or dropping one reservation and then granting from the queue. */
  lemma FreeingKeepsTimeline(s: State, clock: int, id: string, r: Reservation, nows: seq<int>)
    requires |s.queue| <= |nows| && Capacity(s) && Timeline(s, clock) && Forward(clock, nows) && id in s.active
    requires r.slotsConsumed == s.active[id].slotsConsumed <= r.slotsReserved <= s.active[id].slotsReserved
    ensures Timeline(TryGrantWaiting(s.(active := s.active[id := r]), nows), Latest(clock, nows))
    ensures Timeline(TryGrantWaiting(s.(active := s.active - {id}), nows), Latest(clock, nows))
  {
    ReplaceKeepsCapacity(s, id, r);
    hide Capacity, Spaced, TryGrantWaiting, TotalReserved;
    TryGrantKeepsTimeline(s.(active := s.active[id := r]), clock, nows);
    TryGrantKeepsTimeline(s.(active := s.active - {id}), clock, nows);
  }

  lemma ReserveKeepsTimeline(s: State, clock: int, id: string, count: int, now: int)
    requires Capacity(s) && Timeline(s, clock) && clock <= now
    ensures Timeline(ReserveStep(s, id, count, now).0, now)
  {
    ResetKeepsTimeline(s, clock, now);
    hide Capacity, Fits, Spaced;
  }

  lemma AdjustDownKeepsTimeline(s: State, clock: int, id: string, newTotal: int, nows: seq<int>)
    requires |s.queue| <= |nows| && Capacity(s) && Timeline(s, clock) && Forward(clock, nows)
    ensures Timeline(AdjustDownStep(s, id, newTotal, nows).0, Latest(clock, nows))
  {
    ForwardLatest(clock, nows);
    if id in s.active && s.active[id].slotsConsumed <= newTotal < s.active[id].slotsReserved {
      FreeingKeepsTimeline(s, clock, id, s.active[id].(slotsReserved := newTotal), nows);
    }
  }

  lemma SignalCompleteKeepsTimeline(s: State, clock: int, id: string, nows: seq<int>)
    requires |s.queue| <= |nows| && Capacity(s) && Timeline(s, clock) && Forward(clock, nows)
    ensures Timeline(SignalCompleteStep(s, id, nows).0, Latest(clock, nows))
  {
    ForwardLatest(clock, nows);
    if id in s.active {
      FreeingKeepsTimeline(s, clock, id, s.active[id].(completed := true), nows);
    }
  }

  lemma ReleaseKeepsTimeline(s: State, clock: int, id: string, nows: seq<int>)
    requires |s.queue| <= |nows| && Capacity(s) && Timeline(s, clock) && Forward(clock, nows)
    ensures Timeline(ReleaseStep(s, id, nows).0, Latest(clock, nows))
  {
    ForwardLatest(clock, nows);
    if id in s.active {
      FreeingKeepsTimeline(s, clock, id, s.active[id], nows);
    }
  }

  lemma StepKeepsTimeline(s: State, clock: int, step: Step)
    requires EnoughReadings(s, step) && Capacity(s) && Timeline(s, clock) && Forward(clock, Readings(step))
    ensures Timeline(Apply(s, step).0, Latest(clock, Readings(step)))
  {
    match step
    case Reserve(id, count, now) => ReserveKeepsTimeline(s, clock, id, count, now);
    case AbandonWait(id) =>
    case Consume(id, now) => ConsumeKeepsTimeline(s, clock, id, now);
    case AdjustDown(id, newTotal, nows) => AdjustDownKeepsTimeline(s, clock, id, newTotal, nows);
    case SignalComplete(id, nows) => SignalCompleteKeepsTimeline(s, clock, id, nows);
    case Release(id, nows) => ReleaseKeepsTimeline(s, clock, id, nows);
    case Stats(now) => ResetKeepsTimeline(s, clock, now);
    case Tick(now, nows) =>
      assert ([now] + nows)[1..] == nows;
      TickKeepsTimeline(s, clock, now, nows);
  }

  // ---------- the recorded windows are the calls that were let through ----------

  function Flatten(windows: seq<Window>): seq<int>
    decreases |windows|
  {
    if windows == [] then []
    else Flatten(windows[..|windows| - 1]) + windows[|windows| - 1].consumedAt
  }

  lemma ResetKeepsFlatten(s: State, now: int)
    ensures Flatten(ResetWindow(s, now).windows) == Flatten(s.windows)
  {
    if Elapsed(s, now) {
      var w := s.windows + [Window(now, [])];
      assert w[..|w| - 1] == s.windows;
    }
  }

  lemma {:induction false} TryGrantKeepsFlatten(s: State, nows: seq<int>)
    requires |s.queue| <= |nows|
    ensures Flatten(TryGrantWaiting(s, nows).windows) == Flatten(s.windows)
    decreases |s.queue|
  {
    if s.queue != [] {
      var r := ResetWindow(s, nows[0]);
      var next := r.queue[0];
      ResetKeepsFlatten(s, nows[0]);
      if Fits(r, next.requestedSlots) {
        TryGrantKeepsFlatten(
          Grant(r, next.workflowID, next.requestedSlots).(queue := r.queue[1..], closed := r.closed + [next.ready]),
          nows[1..]);
      }
    }
  }

  lemma RecordAppends(windows: seq<Window>, now: int)
    requires windows != []
    ensures Flatten(RecordConsume(windows, now)) == Flatten(windows) + [now]
  {
    var r := RecordConsume(windows, now);
    assert r[..|r| - 1] == windows[..|windows| - 1];
  }

  lemma ConsumeRecords(s: State, id: string, now: int)
    requires s.windows != []
    ensures var r := ConsumeStep(s, id, now);
            Flatten(r.0.windows) == Flatten(s.windows) + (if r.1 == Done then [now] else [])
  {
    ResetKeepsFlatten(s, now);
    RecordAppends(ResetWindow(s, now).windows, now);
  }

  lemma OtherStepsRecordNothing(s: State, step: Step)
    requires EnoughReadings(s, step) && !step.Consume?
    ensures Flatten(Apply(s, step).0.windows) == Flatten(s.windows)
  {
    match step
    case Reserve(id, count, now) => ResetKeepsFlatten(s, now);
    case AbandonWait(id) =>
    case AdjustDown(id, newTotal, nows) =>
      if id in s.active {
        TryGrantKeepsFlatten(s.(active := s.active[id := s.active[id].(slotsReserved := newTotal)]), nows);
      }
    case SignalComplete(id, nows) =>
      if id in s.active {
        TryGrantKeepsFlatten(s.(active := s.active[id := s.active[id].(completed := true)]), nows);
      }
    case Release(id, nows) => TryGrantKeepsFlatten(s.(active := s.active - {id}), nows);
    case Stats(now) => ResetKeepsFlatten(s, now);
    case Tick(now, nows) =>
      ResetKeepsFlatten(s, now);
      TryGrantKeepsFlatten(ResetWindow(s, now), nows);
  }

  lemma StepRecords(s: State, step: Step)
    requires EnoughReadings(s, step) && s.windows != []
    ensures Flatten(Apply(s, step).0.windows) == Flatten(s.windows) + Recorded(step, Apply(s, step).1)
  {
    if step.Consume? {
      ConsumeRecords(s, step.id, step.now);
    } else {
      OtherStepsRecordNothing(s, step);
    }
  }

  lemma {:induction false} RunKeepsSpaced(s: State, clock: int, steps: seq<Step>)
    requires Runnable(s, steps) && WellTimed(clock, steps) && Capacity(s) && Timeline(s, clock)
    ensures Spaced(Run(s, steps).windows, s.window, s.limit)
    decreases |steps|
  {
    if steps != [] {
      StepKeepsTimeline(s, clock, steps[0]);
      StepKeepsCapacity(s, steps[0]);
      StepKeepsLimit(s, steps[0]);
      RunKeepsSpaced(Apply(s, steps[0]).0, Latest(clock, Readings(steps[0])), steps[1..]);
    }
  }

  lemma StepKeepsBoth(s: State, clock: int, step: Step)
    requires EnoughReadings(s, step) && Capacity(s) && Timeline(s, clock) && Forward(clock, Readings(step))
    ensures Capacity(Apply(s, step).0) && Timeline(Apply(s, step).0, Latest(clock, Readings(step)))
  {
    StepKeepsTimeline(s, clock, step);
    StepKeepsCapacity(s, step);
  }

  lemma TimelineHasWindow(s: State, clock: int)
    requires Timeline(s, clock)
    ensures s.windows != []
  {
  }

  lemma {:induction false} RunRecords(s: State, clock: int, steps: seq<Step>)
    requires Runnable(s, steps) && WellTimed(clock, steps) && Capacity(s) && Timeline(s, clock)
    ensures Flatten(Run(s, steps).windows) == Flatten(s.windows) + ConsumeTimes(s, steps)
    decreases |steps|
  {
    hide Capacity, Timeline, Recorded, Latest, Apply, Flatten, Readings;
    if steps != [] {
      var next, rest := Apply(s, steps[0]).0, steps[1..];
      assert Flatten(next.windows) == Flatten(s.windows) + Recorded(steps[0], Apply(s, steps[0]).1) by {
        TimelineHasWindow(s, clock);
        StepRecords(s, steps[0]);
      }
      assert Flatten(Run(next, rest).windows) == Flatten(next.windows) + ConsumeTimes(next, rest) by {
        StepKeepsBoth(s, clock, steps[0]);
        RunRecords(next, Latest(clock, Readings(steps[0])), rest);
      }
    }
  }

  // ---------- counting over an interval ----------

  function CeilDiv(a: int, b: int): int
    requires b > 0
  {
    (a + b - 1) / b
  }

  /** The last window's contribution, by where it lies. */
  lemma SplitLast(windows: seq<Window>, window: int, limit: int, from: int, until: int)
    requires Spaced(windows, window, limit) && windows != []
    ensures var n := |windows| - 1;
            && Spaced(windows[..n], window, limit)
            && CountIn(Flatten(windows), from, until)
               <= CountIn(Flatten(windows[..n]), from, until) + limit
            && (windows[n].start + window <= from || until <= windows[n].start ==>
                  CountIn(Flatten(windows), from, until) == CountIn(Flatten(windows[..n]), from, until))
  {
    var n := |windows| - 1;
    var last := windows[n];
    CountConcat(Flatten(windows[..n]), last.consumedAt, from, until);
    CountAtMost(last.consumedAt, from, until);
    if last.start + window <= from || until <= last.start {
      forall i | 0 <= i < |last.consumedAt| ensures !(from <= last.consumedAt[i] < until) {
        assert last.consumedAt[i] in windows[n].consumedAt;
      }
      CountNone(last.consumedAt, from, until);
    }
  }

  lemma {:induction false} NothingBefore(windows: seq<Window>, window: int, limit: int, from: int, until: int)
    requires window > 0 && Spaced(windows, window, limit)
    requires windows == [] || windows[|windows| - 1].start + window <= from
    ensures CountIn(Flatten(windows), from, until) == 0
    decreases |windows|
  {
    if windows != [] {
      SplitLast(windows, window, limit, from, until);
      NothingBefore(windows[..|windows| - 1], window, limit, from, until);
    }
  }

  lemma ReachGrows(limit: int, window: int, from: int, earlier: int, last: int)
    requires window > 0 && limit >= 0 && earlier + window <= last
    ensures limit * (CeilDiv(earlier - from, window) + 1) + limit <= limit * (CeilDiv(last - from, window) + 1)
  {
    DivBelow(earlier - from + window - 1, last - from + window - 1, window);
    var a, b := CeilDiv(earlier - from, window) + 1, CeilDiv(last - from, window);
    MulMonotone(a, b, limit);
    assert limit * (b + 1) == limit * b + limit;
  }

  lemma ReachAtLeastOne(limit: int, window: int, distance: int)
    requires window > 0 && limit >= 0 && distance + window > 0
    ensures limit <= limit * (CeilDiv(distance, window) + 1)
  {
    DivMonotone(0, distance + window - 1, window);
    MulMonotone(1, CeilDiv(distance, window) + 1, limit);
  }

  lemma ReachMonotone(limit: int, window: int, a: int, b: int)
    requires window > 0 && limit >= 0 && a <= b
    ensures limit * (CeilDiv(a, window) + 1) <= limit * (CeilDiv(b, window) + 1)
  {
    DivMonotone(a + window - 1, b + window - 1, window);
    MulMonotone(CeilDiv(a, window) + 1, CeilDiv(b, window) + 1, limit);
  }

  /** Windows that still overlap the interval start less than a window before it, one window
      apart, so their number is bounded by where the last of them starts. */
  lemma {:induction false} CountUpTo(windows: seq<Window>, window: int, limit: int, from: int, until: int)
    requires window > 0 && limit >= 0 && Spaced(windows, window, limit) && windows != []
    requires windows[|windows| - 1].start + window > from
    ensures CountIn(Flatten(windows), from, until)
         <= limit * (CeilDiv(windows[|windows| - 1].start - from, window) + 1)
    decreases |windows|
  {
    var n := |windows| - 1;
    var before, last := windows[..n], windows[n].start;
    SplitLast(windows, window, limit, from, until);
    ReachAtLeastOne(limit, window, last - from);
    if before == [] || before[n - 1].start + window <= from {
      NothingBefore(before, window, limit, from, until);
    } else {
      CountUpTo(before, window, limit, from, until);
      ReachGrows(limit, window, from, before[n - 1].start, last);
    }
  }

  lemma {:induction false} CountWithin(windows: seq<Window>, window: int, limit: int, from: int, until: int)
    requires window > 0 && limit >= 0 && Spaced(windows, window, limit) && from < until
    ensures CountIn(Flatten(windows), from, until) <= limit * (CeilDiv(until - from, window) + 1)
    decreases |windows|
  {
    hide CeilDiv, CountIn, Flatten;
    ReachAtLeastOne(limit, window, until - from);
    if windows == [] {
      NothingBefore(windows, window, limit, from, until);
    } else {
      var last := windows[|windows| - 1].start;
      SplitLast(windows, window, limit, from, until);
      if last >= until {
        CountWithin(windows[..|windows| - 1], window, limit, from, until);
      } else if last + window <= from {
        NothingBefore(windows, window, limit, from, until);
      } else {
        CountUpTo(windows, window, limit, from, until);
        ReachMonotone(limit, window, last - from, until - from);
      }
    }
  }

  /** In any half-open interval of length L, over any run, at most (ceil(L / window) + 1) * limit
      calls are let through, however the interval lies across the windows. */
  lemma SlidingBound(limit: int, window: int, start: int, steps: seq<Step>, from: int, length: int)
    requires limit >= 0 && length > 0
    requires Runnable(Initial(limit, window, start), steps) && WellTimed(start, steps)
    ensures var w := Initial(limit, window, start).window;
            && w > 0
            && CountIn(ConsumeTimes(Initial(limit, window, start), steps), from, from + length)
               <= limit * (CeilDiv(length, w) + 1)
  {
    hide Run, ConsumeTimes, CountIn, CeilDiv, Flatten, Spaced, Apply, Runnable, WellTimed;
    var s := Initial(limit, window, start);
    Begins(limit, window, start);
    RunRecords(s, start, steps);
    RunKeepsSpaced(s, start, steps);
    assert Flatten(s.windows) + ConsumeTimes(s, steps) == ConsumeTimes(s, steps);
    CountWithin(Run(s, steps).windows, s.window, limit, from, from + length);
  }

  lemma Begins(limit: int, window: int, start: int)
    requires limit >= 0
    ensures var s := Initial(limit, window, start);
            s.limit == limit && s.window > 0 && Capacity(s) && Timeline(s, start) && Flatten(s.windows) == []
  {
    assert [Window(start, [])][..0] == [];
  }

  /** In particular a sliding interval as long as a window sees at most twice the limit. */
  lemma TwiceTheLimitPerWindowLength(limit: int, window: int, start: int, steps: seq<Step>, from: int)
    requires limit >= 0
    requires Runnable(Initial(limit, window, start), steps) && WellTimed(start, steps)
    ensures var s := Initial(limit, window, start);
            CountIn(ConsumeTimes(s, steps), from, from + s.window) <= 2 * limit
  {
    hide Run, ConsumeTimes, CountIn, Runnable, WellTimed;
    var w := Initial(limit, window, start).window;
    SlidingBound(limit, window, start, steps, from, w);
    assert w + w - 1 == 1 * w + (w - 1);
    assert CeilDiv(w, w) == 1;
  }
}
