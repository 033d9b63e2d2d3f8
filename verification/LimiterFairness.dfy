/** Who is served when: requests that pass the queue, and waiters a reset leaves asleep. */
module LimiterFairness {
  import opened LimiterModel
  import opened LimiterQuota
  import opened LimiterSafety
  import opened LimiterWindows
  import opened MapSums

  /** A fresh request is granted on the spot exactly when it is valid and fits the window it finds
      or opens, whoever is waiting; the queue stays as it is. It passes a waiting head either by
      asking for less, or because the head fits too and nobody has woken it. A valid request that
      does not fit joins the end of the queue with a channel of its own; an invalid one changes
      nothing. */
  lemma GrantedExactlyWhen(s: State, id: string, count: int, now: int)
    ensures var r := ReserveStep(s, id, count, now);
            && (r.1 == Done <==> id != "" && count > 0 && id !in s.active && Fits(ResetWindow(s, now), count))
            && (r.1 == Done ==> r.0.queue == s.queue && r.0.closed == s.closed)
            && (r.1 == Done && s.queue != [] ==>
                  || count < s.queue[0].requestedSlots
                  || Fits(ResetWindow(s, now), s.queue[0].requestedSlots))
            && (r.1.Waiting? ==>
                  && r.0.queue == s.queue + [Waiter(id, count, s.channels)] && r.1.ready == s.channels
                  && r.0.channels == s.channels + 1 && r.0.active == s.active && r.0.closed == s.closed)
            && (r.1.Failed? ==> r.0 == s && (id == "" || count <= 0 || id in s.active))
  {
  }

  /** A granting pass wakes the head of the queue exactly when it fits the window open then. */
  lemma PassWakesHeadExactlyWhen(s: State, nows: seq<int>)
    requires s.queue != [] && |s.queue| <= |nows|
    ensures |TryGrantWaiting(s, nows).queue| < |s.queue| <==> Fits(ResetWindow(s, nows[0]), s.queue[0].requestedSlots)
  {
    hide Sum;
    var r := ResetWindow(s, nows[0]);
    var next := r.queue[0];
    if Fits(r, next.requestedSlots) {
      var granted := Grant(r, next.workflowID, next.requestedSlots);
      var g := granted.(queue := r.queue[1..], closed := r.closed + [next.ready]);
      var k := GrantPassIsPrefix(g, nows[1..]);
      assert TryGrantWaiting(s, nows) == TryGrantWaiting(g, nows[1..]);
    }
  }

  // ---------- freeing slots wakes the queue ----------

  /** What the window open at `now` has used, whoever opens it. */
  function UsedAt(s: State, now: int): int { if now - s.windowStart >= s.window then 0 else s.consumed }

  /** The head of the queue has been granted and signalled. */
  ghost predicate HeadWoken(s: State, r: State) {
    s.queue != [] && |r.queue| < |s.queue| && s.closed + [s.queue[0].ready] <= r.closed
  }

  /** Whoever still waits at the head does not fit. */
  ghost predicate NobodyLeftWho(r: State) {
    r.queue != [] ==> r.consumed + TotalReserved(r.active) + r.queue[0].requestedSlots > r.limit
  }

  /** A granting pass over a changed set of reservations: the head is woken, or the queue and the
      signalled channels stay as they are; and nobody who fits is left at the head. */
  lemma PassWakes(s: State, nows: seq<int>)
    requires s.queue != [] && |s.queue| <= |nows|
    ensures var r := TryGrantWaiting(s, nows);
            && (HeadWoken(s, r) <==>
                  UsedAt(s, nows[0]) + TotalReserved(s.active) + s.queue[0].requestedSlots <= s.limit)
            && (!HeadWoken(s, r) ==> r.queue == s.queue && r.closed == s.closed)
            && NobodyLeftWho(r)
  {
    hide Sum;
    PassWakesHeadExactlyWhen(s, nows);
    var k := GrantPassIsPrefix(s, nows);
    var r := TryGrantWaiting(s, nows);
    if k > 0 {
      assert s.queue[..k][0] == s.queue[0];
      assert Tickets(s.queue[..k])[0] == s.queue[0].ready;
    } else {
      assert Tickets(s.queue[..0]) == [];
    }
  }

  /** Releasing a reservation wakes the head of the queue exactly when it fits the window open then
      without the released slots, and leaves nobody asleep who fits. */
  lemma ReleaseWakesHeadExactlyWhen(s: State, id: string, nows: seq<int>)
    requires s.queue != [] && |s.queue| <= |nows| && id != "" && id in s.active
    ensures var r := ReleaseStep(s, id, nows);
            && r.1 == Done
            && (HeadWoken(s, r.0) <==>
                  UsedAt(s, nows[0]) + TotalReserved(s.active) - s.active[id].slotsReserved
                  + s.queue[0].requestedSlots <= s.limit)
            && NobodyLeftWho(r.0)
  {
    SumExtract(s.active, Reserved, id);
    PassWakes(s.(active := s.active - {id}), nows);
    hide Sum, TryGrantWaiting;
  }

  /** Shrinking one wakes the head exactly when it fits without the slots given up. */
  lemma ShrinkingWakesHeadExactlyWhen(s: State, id: string, newTotal: int, nows: seq<int>)
    requires s.queue != [] && |s.queue| <= |nows| && id != "" && id in s.active
    requires s.active[id].slotsConsumed <= newTotal < s.active[id].slotsReserved
    ensures var r := AdjustDownStep(s, id, newTotal, nows);
            && r.1 == Done
            && (HeadWoken(s, r.0) <==>
                  UsedAt(s, nows[0]) + TotalReserved(s.active) - (s.active[id].slotsReserved - newTotal)
                  + s.queue[0].requestedSlots <= s.limit)
            && NobodyLeftWho(r.0)
  {
    var smaller := s.active[id].(slotsReserved := newTotal);
    SumUpdate(s.active, Reserved, id, smaller);
    PassWakes(s.(active := s.active[id := smaller]), nows);
    hide Sum, TryGrantWaiting;
  }

  /** Completion frees nothing, but it too leaves nobody asleep who fits. */
  lemma CompletionWakesHeadExactlyWhen(s: State, id: string, nows: seq<int>)
    requires s.queue != [] && |s.queue| <= |nows| && id != "" && id in s.active
    ensures var r := SignalCompleteStep(s, id, nows);
            && r.1 == Done
            && (HeadWoken(s, r.0) <==>
                  UsedAt(s, nows[0]) + TotalReserved(s.active) + s.queue[0].requestedSlots <= s.limit)
            && NobodyLeftWho(r.0)
  {
    var completed := s.active[id].(completed := true);
    SumUpdate(s.active, Reserved, id, completed);
    PassWakes(s.(active := s.active[id := completed]), nows);
    hide Sum, TryGrantWaiting;
  }

  /** Once a window has elapsed the watcher wakes the head exactly when it fits beside what is
      reserved, and leaves nobody asleep who fits; before that it does nothing. */
  lemma TickWakesHeadExactlyWhen(s: State, now: int, nows: seq<int>)
    requires s.queue != [] && |s.queue| <= |nows| && now <= nows[0] && s.window > 0
    ensures var r := TickStep(s, now, nows);
            && (now - s.windowStart >= s.window ==>
                  && (HeadWoken(s, r) <==> TotalReserved(s.active) + s.queue[0].requestedSlots <= s.limit)
                  && NobodyLeftWho(r))
            && (now - s.windowStart < s.window ==> r == s)
  {
    if Elapsed(s, now) {
      PassWakes(ResetWindow(s, now), nows);
    }
    hide Sum, TryGrantWaiting;
  }

  // ---------- requests that pass the queue ----------

  /** A small request passes a blocked one: reachable for every limit of at least two. */
  lemma SmallRequestOvertakes(limit: nat, window: int, start: int)
    requires limit >= 2
    ensures var s := Initial(limit, window, start);
            var steps := [Reserve("a", 1, start), Reserve("b", limit, start)];
            && Runnable(s, steps) && WellTimed(start, steps)
            && Run(s, steps).queue == [Waiter("b", limit, 0)]
            && !Fits(Run(s, steps), limit)
            && ReserveStep(Run(s, steps), "c", 1, start).1 == Done
  {
    var s := Initial(limit, window, start);
    var steps := [Reserve("a", 1, start), Reserve("b", limit, start)];
    var a := Reservation(1, 0, false);
    SumUpdate(map[], Reserved, "a", a);
    assert map[]["a" := a] == map["a" := a];
    var one := Apply(s, steps[0]).0;
    assert one.active == map["a" := a];
    var two := Apply(one, steps[1]).0;
    RunTwo(s, steps[0], steps[1]);
    assert [start][1..] == [];
    TimedTwo(start, steps[0], steps[1]);
  }

  /** A larger request passes a head that fits: it opens the new window itself and wakes nobody. */
  lemma LargeRequestOvertakes(limit: nat, window: int, start: int)
    requires limit >= 2
    ensures var s := Initial(limit, window, start);
            var steps := Stalled(limit, 1, start);
            && Runnable(s, steps) && WellTimed(start, steps) && LastReading(start, steps) == start
            && var r := Run(s, steps);
               && r.queue == [Waiter("b", 1, 0)] && Fits(ResetWindow(r, start + s.window), 1)
               && ReserveStep(r, "c", limit, start + s.window).1 == Done
               && ReserveStep(r, "c", limit, start + s.window).0.queue == r.queue
  {
    StalledRuns(limit, 1, window, start);
    assert TotalReserved(map[]) == 0;
  }

  /** A workflow takes the whole window, another asks for n slots and has to wait, and the first
      spends everything and releases. */
  function Stalled(limit: nat, n: nat, start: int): seq<Step> {
    [Reserve("a", limit, start), Reserve("b", n, start)] + (Consumes("a", limit, start) + [Release("a", [start])])
  }

  lemma StalledRuns(limit: nat, n: nat, window: int, start: int)
    requires 1 <= n <= limit
    ensures var s := Initial(limit, window, start);
            && Runnable(s, Stalled(limit, n, start)) && WellTimed(start, Stalled(limit, n, start))
            && LastReading(start, Stalled(limit, n, start)) == start
            && var r := Run(s, Stalled(limit, n, start));
               && r.(windows := s.windows) == s.(consumed := limit, queue := [Waiter("b", n, 0)], channels := 1)
               && !Fits(r, n)
  {
    var s := Initial(limit, window, start);
    var first := [Reserve("a", limit, start), Reserve("b", n, start)];
    var spend, free := Consumes("a", limit, start), [Release("a", [start])];
    var held := TwoAsk(limit, n, window, start);
    ConsumesRun(held, "a", limit, start);
    var spent := Run(held, spend);
    SpentAndReleased(spent, limit, n, start);
    assert free[1..] == [];
    RunConcat(held, spend, free);
    RunConcat(s, first, spend + free);
    StalledTimed(limit, n, start);
  }

  lemma TwoAsk(limit: nat, n: nat, window: int, start: int) returns (held: State)
    requires 1 <= n <= limit
    ensures var s := Initial(limit, window, start);
            var first := [Reserve("a", limit, start), Reserve("b", n, start)];
            && Runnable(s, first) && held == Run(s, first)
            && held == s.(active := map["a" := Reservation(limit, 0, false)], queue := [Waiter("b", n, 0)],
                          channels := 1)
            && !Elapsed(held, start)
  {
    var s := Initial(limit, window, start);
    var first := [Reserve("a", limit, start), Reserve("b", n, start)];
    var a := Reservation(limit, 0, false);
    SumUpdate(map[], Reserved, "a", a);
    assert map[]["a" := a] == map["a" := a];
    var one := Apply(s, first[0]).0;
    assert one.active == map["a" := a];
    held := Apply(one, first[1]).0;
    RunTwo(s, first[0], first[1]);
  }

  lemma SpentAndReleased(spent: State, limit: nat, n: nat, start: int)
    requires 1 <= n <= limit == spent.limit && spent.consumed == limit && !Elapsed(spent, start)
    requires spent.active.Keys == {"a"} && spent.queue == [Waiter("b", n, 0)]
    ensures Apply(spent, Release("a", [start])).0 == spent.(active := map[])
    ensures !Fits(spent.(active := map[]), n)
  {
    assert spent.active - {"a"} == map[];
    assert TotalReserved(map[]) == 0;
  }

  lemma StalledTimed(limit: nat, n: nat, start: int)
    ensures WellTimed(start, Stalled(limit, n, start)) && LastReading(start, Stalled(limit, n, start)) == start
  {
    var first := [Reserve("a", limit, start), Reserve("b", n, start)];
    var spend, free := Consumes("a", limit, start), [Release("a", [start])];
    assert first[1..] == [first[1]] && first[1..][1..] == [] && free[1..] == [] && [start][1..] == [];
    ConsumesTimed(start, "a", limit, start);
    TimedConcat(start, spend, free);
    assert LastReading(start, first) == start by {
      assert LastReading(start, first[1..]) == LastReading(start, first[1..][1..]);
    }
    TimedConcat(start, first, spend + free);
  }

  // ---------- waiters a reset leaves asleep ----------

  /** Steps that wake nobody: new requests, calls and statistics at any time, the watcher unless a
      window has elapsed when it looks, and other waiters giving up. */
  predicate WakesNobody(s: State, step: Step) {
    match step
    case Reserve(_, _, _) => true
    case Consume(_, _) => true
    case Stats(_) => true
    case Tick(now, _) => !Elapsed(s, now)
    case AbandonWait(id) => s.queue != [] && id != s.queue[0].workflowID
    case _ => false
  }

  ghost predicate NobodyWoken(s: State, steps: seq<Step>)
    requires Runnable(s, steps)
    decreases |steps|
  {
    steps == [] || (WakesNobody(s, steps[0]) && NobodyWoken(Apply(s, steps[0]).0, steps[1..]))
  }

  /** The head of the queue sleeps through every such run, however often the window is reset in it
      and however much room there is. */
  lemma {:induction false} SleepsUntilWoken(s: State, steps: seq<Step>)
    requires s.queue != [] && Runnable(s, steps) && NobodyWoken(s, steps)
    ensures Run(s, steps).queue != [] && Run(s, steps).queue[0] == s.queue[0]
    ensures Run(s, steps).closed == s.closed
    decreases |steps|
  {
    if steps != [] {
      StepKeepsHead(s, steps[0]);
      SleepsUntilWoken(Apply(s, steps[0]).0, steps[1..]);
    }
  }

  lemma StepKeepsHead(s: State, step: Step)
    requires s.queue != [] && EnoughReadings(s, step) && WakesNobody(s, step)
    ensures var r := Apply(s, step).0; r.queue != [] && r.queue[0] == s.queue[0] && r.closed == s.closed
  {
  }

  /** Lost wake-up, reachable for every limit: a reset by Stats makes room for the head, and until
      the next window the watcher does nothing. */
  lemma LostWakeUp(limit: nat, n: nat, window: int, start: int)
    requires 1 <= n <= limit
    ensures var s := Initial(limit, window, start);
            var steps := Stalled(limit, n, start) + [Stats(start + s.window)];
            && Runnable(s, steps) && WellTimed(start, steps)
            && var r := Run(s, steps);
               && r.queue == [Waiter("b", n, 0)] && Fits(r, n)
               && forall now, nows: seq<int> ::
                    start + s.window <= now < start + 2 * s.window && |r.queue| <= |nows| ==>
                    TickStep(r, now, nows) == r
  {
    var s := Initial(limit, window, start);
    var wake := [Stats(start + s.window)];
    StalledRuns(limit, n, window, start);
    var blocked := Run(s, Stalled(limit, n, start));
    assert wake[1..] == [] && [start + s.window][1..] == [];
    RunConcat(s, Stalled(limit, n, start), wake);
    TimedConcat(start, Stalled(limit, n, start), wake);
    assert TotalReserved(map[]) == 0;
  }
}
