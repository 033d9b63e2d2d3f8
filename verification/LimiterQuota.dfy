/** How much of the quota a sliding interval as long as a window can see: exactly twice the limit
    in the worst case, and no more than the limit only for degenerate limiters. */
module LimiterQuota {
  import opened Counting
  import opened LimiterModel
  import opened LimiterSafety
  import opened LimiterWindows
  import opened MapSums

  // ---------- running one list of steps after another ----------

  lemma {:induction false} RunConcat(s: State, a: seq<Step>, b: seq<Step>)
    requires Runnable(s, a) && Runnable(Run(s, a), b)
    ensures Runnable(s, a + b) && Run(s, a + b) == Run(Run(s, a), b)
    ensures ConsumeTimes(s, a + b) == ConsumeTimes(s, a) + ConsumeTimes(Run(s, a), b)
    decreases |a|
  {
    hide Apply, Recorded;
    if a == [] {
      assert a + b == b;
    } else {
      assert (a + b)[0] == a[0] && (a + b)[1..] == a[1..] + b;
      RunConcat(Apply(s, a[0]).0, a[1..], b);
    }
  }

  lemma TimedTwo(clock: int, a: Step, b: Step)
    requires Forward(clock, Readings(a)) && Forward(Latest(clock, Readings(a)), Readings(b))
    ensures WellTimed(clock, [a, b])
  {
    var two, one := [a, b], [b];
    assert two[1..] == one && one[1..] == [];
    assert WellTimed(Latest(clock, Readings(a)), one);
  }

  lemma RunTwo(s: State, a: Step, b: Step)
    requires EnoughReadings(s, a) && EnoughReadings(Apply(s, a).0, b)
    ensures Runnable(s, [a, b]) && Run(s, [a, b]) == Apply(Apply(s, a).0, b).0
  {
    hide Apply;
    var two, one := [a, b], [b];
    assert two[1..] == one && one[1..] == [];
    var mid := Apply(s, a).0;
    assert Runnable(mid, one) && Run(mid, one) == Apply(mid, b).0;
  }

  function LastReading(clock: int, steps: seq<Step>): int
    decreases |steps|
  {
    if steps == [] then clock else LastReading(Latest(clock, Readings(steps[0])), steps[1..])
  }

  lemma {:induction false} TimedConcat(clock: int, a: seq<Step>, b: seq<Step>)
    requires WellTimed(clock, a) && WellTimed(LastReading(clock, a), b)
    ensures WellTimed(clock, a + b) && LastReading(clock, a + b) == LastReading(LastReading(clock, a), b)
    decreases |a|
  {
    if a == [] {
      assert a + b == b;
    } else {
      assert (a + b)[0] == a[0] && (a + b)[1..] == a[1..] + b;
      TimedConcat(Latest(clock, Readings(a[0])), a[1..], b);
    }
  }

  // ---------- spending a reservation at one instant ----------

  function Consumes(id: string, n: nat, at: int): seq<Step>
    decreases n
  {
    if n == 0 then [] else [Consume(id, at)] + Consumes(id, n - 1, at)
  }

  function Spent(s: State, id: string, n: nat): State
    requires id in s.active
  {
    s.(consumed := s.consumed + n,
       active := s.active[id := s.active[id].(slotsConsumed := s.active[id].slotsConsumed + n)])
  }

  lemma ConsumeOnce(s: State, id: string, at: int)
    requires id != "" && id in s.active && s.active[id].slotsConsumed < s.active[id].slotsReserved
    requires !Elapsed(s, at)
    ensures var r := Apply(s, Consume(id, at)); r.1 == Done && r.0.(windows := s.windows) == Spent(s, id, 1)
  {
  }

  lemma SpentAgain(s: State, next: State, id: string, n: nat)
    requires id in s.active && next.(windows := s.windows) == Spent(s, id, 1)
    ensures id in next.active && Spent(next, id, n).(windows := s.windows) == Spent(s, id, n + 1)
  {
    assert next.active == Spent(s, id, 1).active && next.consumed == s.consumed + 1;
    assert Spent(next, id, n).active == Spent(s, id, n + 1).active;
  }

  /** n calls in a row on one reservation, within the window, are all let through. */
  lemma {:induction false} ConsumesRun(s: State, id: string, n: nat, at: int)
    requires id != "" && id in s.active && s.active[id].slotsConsumed + n <= s.active[id].slotsReserved
    requires !Elapsed(s, at)
    ensures Runnable(s, Consumes(id, n, at))
    ensures Run(s, Consumes(id, n, at)).(windows := s.windows) == Spent(s, id, n)
    ensures ConsumeTimes(s, Consumes(id, n, at)) == seq(n, i => at)
    decreases n
  {
    hide Apply;
    var steps := Consumes(id, n, at);
    if n == 0 {
      assert Spent(s, id, 0).active == s.active;
    } else {
      var next := Apply(s, steps[0]).0;
      assert steps[1..] == Consumes(id, n - 1, at);
      ConsumeOnce(s, id, at);
      SpentAgain(s, next, id, n - 1);
      ConsumesRun(next, id, n - 1, at);
      assert seq(n, i => at) == [at] + seq(n - 1, i => at);
    }
  }

  lemma {:induction false} ConsumesTimed(clock: int, id: string, n: nat, at: int)
    requires clock <= at
    ensures WellTimed(clock, Consumes(id, n, at)) && clock <= LastReading(clock, Consumes(id, n, at)) <= at
    decreases n
  {
    if n > 0 {
      assert Consumes(id, n, at)[1..] == Consumes(id, n - 1, at);
      assert [at][1..] == [];
      ConsumesTimed(at, id, n - 1, at);
    }
  }

  lemma {:induction false} CountAll(n: nat, at: int, from: int, until: int)
    requires from <= at < until
    ensures CountIn(seq(n, i => at), from, until) == n
    decreases n
  {
    if n > 0 {
      assert seq(n, i => at)[1..] == seq(n - 1, i => at);
      CountAll(n - 1, at, from, until);
    }
  }

  // ---------- the worst case ----------

  function Burst(id: string, limit: nat, reserveAt: int, consumeAt: int): seq<Step> {
    [Reserve(id, limit, reserveAt)] + Consumes(id, limit, consumeAt)
  }

  /** A limiter with nothing reserved and nobody waiting, in a fresh or an elapsed window, lets a
      whole limit's worth of calls through at one instant. */
  lemma BurstRuns(s: State, id: string, limit: nat, reserveAt: int, consumeAt: int)
    requires s.limit == limit >= 1 && s.window > 0 && s.active == map[] && s.queue == [] && id != ""
    requires s.consumed == 0 || Elapsed(s, reserveAt)
    requires reserveAt <= consumeAt && consumeAt - ResetWindow(s, reserveAt).windowStart < s.window
    ensures Runnable(s, Burst(id, limit, reserveAt, consumeAt))
    ensures var r := Run(s, Burst(id, limit, reserveAt, consumeAt));
            && r.limit == limit && r.window == s.window && r.queue == [] && r.consumed == limit
            && r.active == map[id := Reservation(limit, limit, false)]
            && r.windowStart == ResetWindow(s, reserveAt).windowStart
    ensures ConsumeTimes(s, Burst(id, limit, reserveAt, consumeAt)) == seq(limit, i => consumeAt)
  {
    var steps := Burst(id, limit, reserveAt, consumeAt);
    var r := ResetWindow(s, reserveAt);
    assert TotalReserved(map[]) == 0;
    assert Fits(r, limit);
    var next := Apply(s, steps[0]).0;
    assert next == Grant(r, id, limit);
    assert steps[1..] == Consumes(id, limit, consumeAt);
    ConsumesRun(next, id, limit, consumeAt);
    assert Spent(next, id, limit).active == map[id := Reservation(limit, limit, false)];
  }

  lemma BurstTimed(clock: int, id: string, limit: nat, reserveAt: int, consumeAt: int)
    requires clock <= reserveAt <= consumeAt
    ensures WellTimed(clock, Burst(id, limit, reserveAt, consumeAt))
    ensures LastReading(clock, Burst(id, limit, reserveAt, consumeAt)) <= consumeAt
  {
    var steps := Burst(id, limit, reserveAt, consumeAt);
    assert steps[1..] == Consumes(id, limit, consumeAt);
    assert [reserveAt][1..] == [];
    ConsumesTimed(reserveAt, id, limit, consumeAt);
  }

  /** A full window at its last instant, then a full window at its first. */
  function WorstCase(limit: nat, w: int, start: int): seq<Step> {
    Burst("a", limit, start, start + w - 1) + ([Release("a", [])] + Burst("b", limit, start + w, start + w))
  }

  /** For any limit and any window longer than one tick some run has exactly twice the limit in an
      interval as long as a window: the bound is reached. */
  lemma TwiceTheLimitIsReached(limit: nat, window: int, start: int)
    requires limit >= 1 && Initial(limit, window, start).window >= 2
    ensures var s := Initial(limit, window, start);
            var steps := WorstCase(limit, s.window, start);
            && Runnable(s, steps) && WellTimed(start, steps)
            && CountIn(ConsumeTimes(s, steps), start + s.window - 1, start + s.window - 1 + s.window) == 2 * limit
  {
    hide Runnable, ConsumeTimes, CountIn, WellTimed;
    var s := Initial(limit, window, start);
    WorstCaseRuns(limit, window, start);
    WorstCaseTimed(limit, s.window, start);
    var from, until := start + s.window - 1, start + s.window - 1 + s.window;
    CountConcat(seq(limit, i => start + s.window - 1), seq(limit, i => start + s.window), from, until);
    CountAll(limit, start + s.window - 1, from, until);
    CountAll(limit, start + s.window, from, until);
  }

  lemma WorstCaseRuns(limit: nat, window: int, start: int)
    requires limit >= 1
    ensures var s := Initial(limit, window, start);
            && Runnable(s, WorstCase(limit, s.window, start))
            && ConsumeTimes(s, WorstCase(limit, s.window, start)) ==
               seq(limit, i => start + s.window - 1) + seq(limit, i => start + s.window)
  {
    hide Run, Runnable, ConsumeTimes, Burst, Apply, Elapsed;
    var s := Initial(limit, window, start);
    var w := s.window;
    var first := Burst("a", limit, start, start + w - 1);
    var rest := [Release("a", [])] + Burst("b", limit, start + w, start + w);
    BurstRuns(s, "a", limit, start, start + w - 1);
    ReleaseThenBurst(Run(s, first), limit, start + w);
    RunConcat(s, first, rest);
  }

  lemma ReleaseThenBurst(mid: State, limit: nat, at: int)
    requires mid.limit == limit >= 1 && mid.window > 0 && mid.active.Keys == {"a"} && mid.queue == []
    requires mid.windowStart + mid.window == at
    ensures var rest := [Release("a", [])] + Burst("b", limit, at, at);
            Runnable(mid, rest) && ConsumeTimes(mid, rest) == seq(limit, i => at)
  {
    var second := Burst("b", limit, at, at);
    var rest := [Release("a", [])] + second;
    var freed := Apply(mid, rest[0]).0;
    assert freed == mid.(active := map[]);
    BurstRuns(freed, "b", limit, at, at);
    assert rest[1..] == second;
    assert Recorded(rest[0], Apply(mid, rest[0]).1) == [];
  }

  lemma WorstCaseTimed(limit: nat, w: int, start: int)
    requires w >= 1
    ensures WellTimed(start, WorstCase(limit, w, start))
  {
    var first, second := Burst("a", limit, start, start + w - 1), Burst("b", limit, start + w, start + w);
    BurstTimed(start, "a", limit, start, start + w - 1);
    var clock := LastReading(start, first);
    BurstTimed(clock, "b", limit, start + w, start + w);
    var rest := [Release("a", [])] + second;
    assert rest[1..] == second;
    TimedConcat(start, first, rest);
  }

  // ---------- exactly when the quota holds ----------

  ghost predicate WithinQuota(limit: int, window: int, start: int, steps: seq<Step>, from: int) {
    var s := Initial(limit, window, start);
    Runnable(s, steps) && WellTimed(start, steps) ==> CountIn(ConsumeTimes(s, steps), from, from + s.window) <= limit
  }

  /** Whatever the run, no interval as long as a window sees more than the limit. */
  ghost predicate QuotaHolds(limit: int, window: int) {
    forall start: int, steps: seq<Step>, from: int :: WithinQuota(limit, window, start, steps, from)
  }

  /** Windows one tick long hold one instant each. */
  lemma {:induction false} OneInstant(windows: seq<Window>, limit: int, at: int)
    requires limit >= 0 && Spaced(windows, 1, limit)
    ensures CountIn(Flatten(windows), at, at + 1) <= limit
    decreases |windows|
  {
    if windows != [] {
      hide CountIn, Flatten;
      var n := |windows| - 1;
      SplitLast(windows, 1, limit, at, at + 1);
      assert n > 0 ==> windows[n - 1].start + 1 <= windows[n].start;
      hide Spaced;
      if windows[n].start == at {
        NothingBefore(windows[..n], 1, limit, at, at + 1);
      } else {
        OneInstant(windows[..n], limit, at);
      }
    }
  }

  lemma OneTickWindowsKeepTheQuota(limit: int, window: int, start: int, steps: seq<Step>, from: int)
    requires limit >= 0 && Initial(limit, window, start).window == 1
    requires Runnable(Initial(limit, window, start), steps) && WellTimed(start, steps)
    ensures CountIn(ConsumeTimes(Initial(limit, window, start), steps), from, from + 1) <= limit
  {
    hide Run, ConsumeTimes, CountIn, Flatten, Spaced, Apply, Runnable, WellTimed;
    var s := Initial(limit, window, start);
    Begins(limit, window, start);
    RunRecords(s, start, steps);
    RunKeepsSpaced(s, start, steps);
    assert Flatten(s.windows) + ConsumeTimes(s, steps) == ConsumeTimes(s, steps);
    OneInstant(Run(s, steps).windows, limit, from);
  }

  lemma QuotaBroken(limit: nat, window: int)
    requires limit >= 1 && Initial(limit, window, 0).window >= 2
    ensures !QuotaHolds(limit, window)
  {
    hide Runnable, WellTimed, ConsumeTimes, CountIn, WorstCase;
    TwiceTheLimitIsReached(limit, window, 0);
    var s := Initial(limit, window, 0);
    var steps := WorstCase(limit, s.window, 0);
    assert !WithinQuota(limit, window, 0, steps, s.window - 1);
  }

  /** The quota holds for every interval as long as a window exactly when nothing is ever let
      through, or a window is a single tick of the clock. */
  lemma QuotaHoldsExactlyWhen(limit: int, window: int)
    requires limit >= 0
    ensures QuotaHolds(limit, window) <==> limit == 0 || Initial(limit, window, 0).window == 1
  {
    var w := Initial(limit, window, 0).window;
    if limit == 0 || w == 1 {
      forall start: int, steps: seq<Step>, from: int ensures WithinQuota(limit, window, start, steps, from) {
        var s := Initial(limit, window, start);
        if Runnable(s, steps) && WellTimed(start, steps) {
          if limit == 0 {
            TwiceTheLimitPerWindowLength(limit, window, start, steps, from);
          } else {
            OneTickWindowsKeepTheQuota(limit, window, start, steps, from);
          }
        }
      }
    } else {
      QuotaBroken(limit, window);
    }
  }
}
