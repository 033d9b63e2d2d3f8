/** What every run of the limiter keeps: no window hands out more than its limit, no
    ready channel is closed twice, and a pass over the queue grants exactly a prefix. */
module LimiterSafety {
  import opened MapSums
  import opened LimiterModel
  import opened Wrappers

  ghost predicate Capacity(s: State) {
    && 0 <= s.consumed
    && (forall id :: id in s.active ==> 0 <= s.active[id].slotsConsumed <= s.active[id].slotsReserved)
    && (forall i :: 0 <= i < |s.queue| ==> s.queue[i].requestedSlots > 0)
    && s.consumed + Outstanding(s.active) <= s.limit
  }

  lemma OutstandingNonNegative(s: State)
    requires forall id :: id in s.active ==> 0 <= s.active[id].slotsConsumed <= s.active[id].slotsReserved
    ensures Outstanding(s.active) >= 0
  {
    SumNonNegative(s.active, Unused);
  }

  /** The grant check charges slots already consumed by live reservations twice: once through
      the window counter and once through their full reservation. It therefore passes exactly
      when the request fits the spare capacity with those slots set aside again. */
  lemma GrantCheckIsConservative(s: State, count: int)
    ensures Fits(s, count) <==> count <= Spare(s) - Sum(s.active, Used)
    ensures Capacity(s) && Fits(s, count) ==> count <= Spare(s)
  {
    SumSplits(s.active, Reserved, Unused, Used);
    if Capacity(s) {
      SumNonNegative(s.active, Used);
    }
  }

  lemma ResetKeepsCapacity(s: State, now: int)
    requires Capacity(s)
    ensures Capacity(ResetWindow(s, now))
  {
  }

  lemma GrantKeepsCapacity(s: State, id: string, count: int)
    requires Capacity(s) && count > 0 && Fits(s, count)
    ensures Capacity(Grant(s, id, count))
  {
    GrantCheckIsConservative(s, count);
    SumUpdate(s.active, Unused, id, Reservation(count, 0, false));
  }

  lemma {:induction false} TryGrantKeepsCapacity(s: State, nows: seq<int>)
    requires |s.queue| <= |nows| && Capacity(s)
    ensures Capacity(TryGrantWaiting(s, nows))
    decreases |s.queue|
  {
    if s.queue != [] {
      var r := ResetWindow(s, nows[0]);
      var next := r.queue[0];
      ResetKeepsCapacity(s, nows[0]);
      if Fits(r, next.requestedSlots) {
        var g := Grant(r, next.workflowID, next.requestedSlots);
        GrantKeepsCapacity(r, next.workflowID, next.requestedSlots);
        TryGrantKeepsCapacity(g.(queue := r.queue[1..], closed := r.closed + [next.ready]), nows[1..]);
      }
    }
  }

  /** Abandoning a wait removes the first waiter with that workflow ID and nobody else; a
      second waiter with the same ID stays, whichever of the two callers gave up. */
  lemma {:induction false} RemoveFirstAt(queue: seq<Waiter>, id: string) returns (i: nat)
    ensures i <= |queue|
    ensures forall j :: 0 <= j < i ==> queue[j].workflowID != id
    ensures i < |queue| ==> queue[i].workflowID == id && RemoveFirst(queue, id) == queue[..i] + queue[i + 1..]
    ensures i == |queue| ==> RemoveFirst(queue, id) == queue
    decreases |queue|
  {
    if queue == [] || queue[0].workflowID == id {
      i := 0;
    } else {
      var j := RemoveFirstAt(queue[1..], id);
      i := j + 1;
    }
  }

  lemma ReserveKeepsCapacity(s: State, id: string, count: int, now: int)
    requires Capacity(s)
    ensures Capacity(ReserveStep(s, id, count, now).0)
  {
    var r := ResetWindow(s, now);
    ResetKeepsCapacity(s, now);
    if count > 0 && Fits(r, count) {
      GrantKeepsCapacity(r, id, count);
    }
  }

  lemma AbandonKeepsCapacity(s: State, id: string)
    requires Capacity(s)
    ensures Capacity(AbandonStep(s, id))
  {
    var i := RemoveFirstAt(s.queue, id);
  }

  lemma ConsumeKeepsCapacity(s: State, id: string, now: int)
    requires Capacity(s)
    ensures Capacity(ConsumeStep(s, id, now).0)
  {
    if id in s.active {
      ResetKeepsCapacity(s, now);
      SumUpdate(s.active, Unused, id, s.active[id].(slotsConsumed := s.active[id].slotsConsumed + 1));
    }
  }

  /** Shrinking, completing or dropping a reservation never raises what the limiter owes. */
  lemma ReplaceKeepsCapacity(s: State, id: string, r: Reservation)
    requires Capacity(s) && id in s.active
    requires r.slotsConsumed == s.active[id].slotsConsumed <= r.slotsReserved <= s.active[id].slotsReserved
    ensures Capacity(s.(active := s.active[id := r]))
    ensures Capacity(s.(active := s.active - {id}))
  {
    SumUpdate(s.active, Unused, id, r);
    SumExtract(s.active, Unused, id);
  }

  lemma StepKeepsCapacity(s: State, step: Step)
    requires EnoughReadings(s, step) && Capacity(s)
    ensures Capacity(Apply(s, step).0)
  {
    match step
    case Reserve(id, count, now) => ReserveKeepsCapacity(s, id, count, now);
    case AbandonWait(id) => AbandonKeepsCapacity(s, id);
    case Consume(id, now) => ConsumeKeepsCapacity(s, id, now);
    case AdjustDown(id, newTotal, nows) =>
      if id in s.active && s.active[id].slotsConsumed <= newTotal < s.active[id].slotsReserved {
        var smaller := s.active[id].(slotsReserved := newTotal);
        ReplaceKeepsCapacity(s, id, smaller);
        TryGrantKeepsCapacity(s.(active := s.active[id := smaller]), nows);
      }
    case SignalComplete(id, nows) =>
      if id in s.active {
        var completed := s.active[id].(completed := true);
        ReplaceKeepsCapacity(s, id, completed);
        TryGrantKeepsCapacity(s.(active := s.active[id := completed]), nows);
      }
    case Release(id, nows) =>
      if id in s.active {
        ReplaceKeepsCapacity(s, id, s.active[id]);
        TryGrantKeepsCapacity(s.(active := s.active - {id}), nows);
      }
    case Stats(now) => ResetKeepsCapacity(s, now);
    case Tick(now, nows) =>
      ResetKeepsCapacity(s, now);
      if s.queue != [] && Elapsed(s, now) {
        TryGrantKeepsCapacity(ResetWindow(s, now), nows);
      }
  }

  lemma {:induction false} TryGrantKeepsLimit(s: State, nows: seq<int>)
    requires |s.queue| <= |nows|
    ensures TryGrantWaiting(s, nows).limit == s.limit && TryGrantWaiting(s, nows).window == s.window
    decreases |s.queue|
  {
    if s.queue != [] {
      var r := ResetWindow(s, nows[0]);
      var next := r.queue[0];
      if Fits(r, next.requestedSlots) {
        TryGrantKeepsLimit(
          Grant(r, next.workflowID, next.requestedSlots).(queue := r.queue[1..], closed := r.closed + [next.ready]),
          nows[1..]);
      }
    }
  }

  lemma StepKeepsLimit(s: State, step: Step)
    requires EnoughReadings(s, step)
    ensures Apply(s, step).0.limit == s.limit && Apply(s, step).0.window == s.window
  {
    match step
    case AdjustDown(id, newTotal, nows) =>
      if id in s.active {
        TryGrantKeepsLimit(s.(active := s.active[id := s.active[id].(slotsReserved := newTotal)]), nows);
      }
    case SignalComplete(id, nows) =>
      if id in s.active {
        TryGrantKeepsLimit(s.(active := s.active[id := s.active[id].(completed := true)]), nows);
      }
    case Release(id, nows) =>
      TryGrantKeepsLimit(s.(active := s.active - {id}), nows);
    case Tick(now, nows) =>
      TryGrantKeepsLimit(ResetWindow(s, now), nows);
    case _ =>
  }

  lemma {:induction false} RunKeepsCapacity(s: State, steps: seq<Step>)
    requires Runnable(s, steps) && Capacity(s)
    ensures Capacity(Run(s, steps)) && Run(s, steps).limit == s.limit
    decreases |steps|
  {
    if steps != [] {
      StepKeepsCapacity(s, steps[0]);
      StepKeepsLimit(s, steps[0]);
      RunKeepsCapacity(Apply(s, steps[0]).0, steps[1..]);
    }
  }

  /** Safety over every run of a limiter with a non-negative limit: what the window has handed
      out plus what it still owes to live reservations never exceeds the limit. */
  lemma NoWindowOverrun(limit: int, window: int, now: int, steps: seq<Step>)
    requires limit >= 0 && Runnable(Initial(limit, window, now), steps)
    ensures var s := Run(Initial(limit, window, now), steps);
            && s.consumed + Outstanding(s.active) <= limit
            && 0 <= s.consumed <= limit
            && forall id :: id in s.active ==> 0 <= s.active[id].slotsConsumed <= s.active[id].slotsReserved
  {
    var init := Initial(limit, window, now);
    RunKeepsCapacity(init, steps);
    OutstandingNonNegative(Run(init, steps));
  }

  // ---------- granting from the queue ----------

  function Tickets(queue: seq<Waiter>): seq<nat> {
    seq(|queue|, i requires 0 <= i < |queue| => queue[i].ready)
  }

  function GrantAll(active: map<string, Reservation>, granted: seq<Waiter>): map<string, Reservation>
    decreases |granted|
  {
    if granted == [] then active
    else GrantAll(active[granted[0].workflowID := Reservation(granted[0].requestedSlots, 0, false)], granted[1..])
  }

  /** `r` is `s` after the first k waiters were granted, in order, and signalled once each. */
  ghost predicate GrantedPrefix(s: State, r: State, k: nat) {
    && k <= |s.queue|
    && r.queue == s.queue[k..]
    && r.closed == s.closed + Tickets(s.queue[..k])
    && r.active == GrantAll(s.active, s.queue[..k])
    && r.channels == s.channels
  }

  lemma PrefixGrows(s: State, g: State, r: State, j: nat)
    requires s.queue != [] && GrantedPrefix(g, r, j)
    requires g.queue == s.queue[1..] && g.closed == s.closed + [s.queue[0].ready] && g.channels == s.channels
    requires g.active == s.active[s.queue[0].workflowID := Reservation(s.queue[0].requestedSlots, 0, false)]
    ensures GrantedPrefix(s, r, j + 1)
  {
    assert s.queue[..j + 1] == [s.queue[0]] + g.queue[..j];
    assert Tickets(s.queue[..j + 1]) == [s.queue[0].ready] + Tickets(g.queue[..j]);
    assert s.queue[..j + 1][1..] == g.queue[..j];
  }

  /** One pass grants exactly a prefix of the queue, in order: it closes those channels and no
      other, once each; leaves the rest of the queue in order; and stops only because the queue
      is empty or its head does not fit the window open at the last clock reading. */
  lemma {:induction false} GrantPassIsPrefix(s: State, nows: seq<int>) returns (k: nat)
    requires |s.queue| <= |nows|
    ensures GrantedPrefix(s, TryGrantWaiting(s, nows), k)
    ensures var r := TryGrantWaiting(s, nows);
            r.queue != [] ==>
              !Fits(r, r.queue[0].requestedSlots) && (r.window > 0 ==> !Elapsed(r, nows[k]))
    decreases |s.queue|
  {
    hide Sum;
    k := 0;
    if s.queue != [] {
      var r := ResetWindow(s, nows[0]);
      var next := r.queue[0];
      if Fits(r, next.requestedSlots) {
        var granted := Grant(r, next.workflowID, next.requestedSlots);
        var g := granted.(queue := r.queue[1..], closed := r.closed + [next.ready]);
        var j := GrantPassIsPrefix(g, nows[1..]);
        k := j + 1;
        PrefixGrows(s, g, TryGrantWaiting(g, nows[1..]), j);
      }
    }
  }

  ghost predicate Distinct(ids: seq<nat>) {
    forall i, j :: 0 <= i < j < |ids| ==> ids[i] != ids[j]
  }

  /** Every ready channel closed so far or still waited on, in that order. */
  function Issued(s: State): seq<nat> { s.closed + Tickets(s.queue) }

  ghost predicate Channels(s: State) {
    Distinct(Issued(s)) && forall i :: 0 <= i < |Issued(s)| ==> Issued(s)[i] < s.channels
  }

  lemma PrefixKeepsIssued(s: State, r: State, k: nat)
    requires GrantedPrefix(s, r, k)
    ensures Issued(r) == Issued(s) && r.channels == s.channels
  {
    hide GrantAll;
    TicketsSplit(s.queue, k);
  }

  lemma TicketsSplit(queue: seq<Waiter>, k: nat)
    requires k <= |queue|
    ensures Tickets(queue) == Tickets(queue[..k]) + Tickets(queue[k..])
  {
  }

  lemma TryGrantKeepsChannels(s: State, nows: seq<int>)
    requires |s.queue| <= |nows| && Channels(s)
    ensures Channels(TryGrantWaiting(s, nows))
  {
    hide TryGrantWaiting, GrantedPrefix, Issued, Fits;
    var k := GrantPassIsPrefix(s, nows);
    PrefixKeepsIssued(s, TryGrantWaiting(s, nows), k);
  }

  lemma AbandonKeepsChannels(s: State, id: string)
    requires Channels(s)
    ensures Channels(AbandonStep(s, id))
  {
    var i := RemoveFirstAt(s.queue, id);
    if i < |s.queue| {
      var r, at := AbandonStep(s, id), |s.closed| + i;
      assert r == s.(queue := s.queue[..i] + s.queue[i + 1..]);
      hide AbandonStep, RemoveFirst;
      var was, tickets := Issued(s), Tickets(s.queue);
      assert Tickets(r.queue) == tickets[..i] + tickets[i + 1..];
      assert was[..at] == s.closed + tickets[..i] && was[at + 1..] == tickets[i + 1..];
      assert Issued(r) == was[..at] + was[at + 1..];
      DistinctWithout(was, at);
    }
  }

  lemma DistinctWithout(ids: seq<nat>, at: nat)
    requires at < |ids| && Distinct(ids)
    ensures Distinct(ids[..at] + ids[at + 1..])
  {
  }

  lemma ReserveKeepsChannels(s: State, id: string, count: int, now: int)
    requires Channels(s)
    ensures Channels(ReserveStep(s, id, count, now).0)
  {
    var r := ReserveStep(s, id, count, now).0;
    if r.queue == s.queue {
      assert Issued(r) == Issued(s);
    } else {
      assert Issued(r) == Issued(s) + [s.channels];
    }
  }

  lemma StepKeepsChannels(s: State, step: Step)
    requires EnoughReadings(s, step) && Channels(s)
    ensures Channels(Apply(s, step).0)
  {
    match step
    case Reserve(id, count, now) => ReserveKeepsChannels(s, id, count, now);
    case AbandonWait(id) => AbandonKeepsChannels(s, id);
    case AdjustDown(id, newTotal, nows) =>
      if id in s.active {
        TryGrantKeepsChannels(s.(active := s.active[id := s.active[id].(slotsReserved := newTotal)]), nows);
      }
    case SignalComplete(id, nows) =>
      if id in s.active {
        TryGrantKeepsChannels(s.(active := s.active[id := s.active[id].(completed := true)]), nows);
      }
    case Release(id, nows) => TryGrantKeepsChannels(s.(active := s.active - {id}), nows);
    case Tick(now, nows) => TryGrantKeepsChannels(ResetWindow(s, now), nows);
    case _ =>
  }

  lemma {:induction false} RunKeepsChannels(s: State, steps: seq<Step>)
    requires Runnable(s, steps) && Channels(s)
    ensures Channels(Run(s, steps))
    decreases |steps|
  {
    if steps != [] {
      StepKeepsChannels(s, steps[0]);
      RunKeepsChannels(Apply(s, steps[0]).0, steps[1..]);
    }
  }

  /** No run closes a ready channel twice, and nobody still queued has been signalled. */
  lemma NoDoubleClose(limit: int, window: int, now: int, steps: seq<Step>)
    requires Runnable(Initial(limit, window, now), steps)
    ensures var s := Run(Initial(limit, window, now), steps);
            && Distinct(s.closed)
            && forall i :: 0 <= i < |s.queue| ==> s.queue[i].ready !in s.closed
  {
    var init := Initial(limit, window, now);
    RunKeepsChannels(init, steps);
    var s := Run(init, steps);
    var all := Issued(s);
    assert forall i :: 0 <= i < |s.closed| ==> all[i] == s.closed[i];
    forall i | 0 <= i < |s.queue| ensures s.queue[i].ready !in s.closed {
      assert all[|s.closed| + i] == s.queue[i].ready;
    }
  }

  // ---------- what single operations give back, and what they do not ----------

  /** Releasing an idle reservation that was granted on the spot restores the limiter. */
  lemma ReserveThenRelease(s: State, id: string, count: int, now: int, nows: seq<int>)
    requires s.queue == [] && id !in s.active && id != "" && count > 0
    requires !Elapsed(s, now) && Fits(s, count)
    ensures ReserveStep(s, id, count, now).1 == Done
    ensures ReleaseStep(ReserveStep(s, id, count, now).0, id, nows) == (s, Done)
  {
    assert s.active[id := Reservation(count, 0, false)] - {id} == s.active;
  }

  /** Releasing, or shrinking, a reservation returns its unused slots and only those. */
  lemma ReleaseFreesUnused(s: State, id: string, newTotal: int, nows: seq<int>)
    requires s.queue == [] && id in s.active && id != ""
    requires s.active[id].slotsConsumed <= newTotal < s.active[id].slotsReserved
    ensures Spare(ReleaseStep(s, id, nows).0) == Spare(s) + Unused(s.active[id])
    ensures Spare(AdjustDownStep(s, id, newTotal, nows).0) == Spare(s) + (s.active[id].slotsReserved - newTotal)
  {
    SumExtract(s.active, Unused, id);
    SumUpdate(s.active, Unused, id, s.active[id].(slotsReserved := newTotal));
  }

  /** The design says a completed workflow has freed its quota claim. It has not: completion
      changes no total, so it grants exactly what a bare pass over the queue would. */
  lemma SignalCompleteFreesNothing(s: State, id: string, nows: seq<int>)
    requires |s.queue| <= |nows| && id in s.active && id != ""
    ensures var r := s.(active := s.active[id := s.active[id].(completed := true)]);
            && SignalCompleteStep(s, id, nows) == (TryGrantWaiting(r, nows), Done)
            && Spare(r) == Spare(s)
            && forall count :: Fits(r, count) <==> Fits(s, count)
  {
    SumUpdate(s.active, Unused, id, s.active[id].(completed := true));
    SumUpdate(s.active, Reserved, id, s.active[id].(completed := true));
  }

  // ---------- Extend ----------

  /** What Extend compares with the limit: the window's count, and what this reservation alone
      would still be owed. */
  predicate HasRoom(s: State, held: Reservation, total: int) {
    s.consumed + total - held.slotsConsumed <= s.limit
  }

  function Resize(s: State, id: string, total: int): State
    requires id in s.active
  {
    s.(active := s.active[id := s.active[id].(slotsReserved := total)])
  }

  /** The first critical section of Extend; otherwise the caller waits for the next window and
      then tries for the same total again. */
  datatype Extended = Extended(state: State, outcome: Outcome) | WaitForReset(state: State, total: int)

  function Extend(s: State, id: string, additional: int, now: int): Extended {
    if id == "" then Extended(s, Failed(InvalidWorkflowID))
    else if additional < 0 then Extended(s, Failed(ExtendNegative))
    else if additional == 0 then Extended(s, Done)
    else if id !in s.active then Extended(s, Failed(ReservationNotHeld))
    else
      var r := ResetWindow(s, now);
      var total := r.active[id].slotsReserved + additional;
      if HasRoom(r, r.active[id], total) then Extended(Resize(r, id, total), Done) else WaitForReset(r, total)
  }

  /** The second critical section, after the wait. It works on the reservation it first looked up:
      `orphan` is that reservation if it was released, and perhaps replaced, meanwhile. */
  function ExtendAgain(s: State, id: string, orphan: Option<Reservation>, total: int, now: int): (State, Outcome)
    requires orphan.None? ==> id in s.active
  {
    var r := ResetWindow(s, now);
    var held := if orphan.Some? then orphan.value else r.active[id];
    if !HasRoom(r, held, total) then (r, Failed(InsufficientCapacity))
    else if orphan.Some? then (r, Done)
    else (Resize(r, id, total), Done)
  }

  /** Resizing keeps the safety invariant exactly when the growth fits the spare capacity and the
      new total covers what was already consumed. */
  lemma ResizeSafeExactly(s: State, id: string, total: int)
    requires Capacity(s) && id in s.active
    ensures Capacity(Resize(s, id, total)) <==>
            s.active[id].slotsConsumed <= total && total - s.active[id].slotsReserved <= Spare(s)
  {
    SumUpdate(s.active, Unused, id, s.active[id].(slotsReserved := total));
    assert Resize(s, id, total).active[id].slotsReserved == total;
  }

  /** Extending on the spot keeps the safety invariant exactly when the extra slots fit the spare
      capacity of the window it is evaluated in. */
  lemma ExtendSafeExactlyWithinSpare(s: State, id: string, additional: int, now: int)
    requires Capacity(s) && id in s.active && id != "" && additional > 0
    requires Extend(s, id, additional, now).Extended?
    ensures Capacity(Extend(s, id, additional, now).state) <==> additional <= Spare(ResetWindow(s, now))
  {
    var r := ResetWindow(s, now);
    ResizeSafeExactly(r, id, r.active[id].slotsReserved + additional);
  }

  /** So does extending after the wait, if the total still covers what was consumed meanwhile; when
      it fails, or finds its reservation gone, it changes nothing but a due window. */
  lemma ExtendAgainSafeExactlyWithinSpare(s: State, id: string, orphan: Option<Reservation>, total: int, now: int)
    requires Capacity(s) && (orphan.None? ==> id in s.active)
    ensures var r, after := ResetWindow(s, now), ExtendAgain(s, id, orphan, total, now);
            if orphan.None? && after.1 == Done then
              Capacity(after.0) <==>
                r.active[id].slotsConsumed <= total && total - r.active[id].slotsReserved <= Spare(r)
            else Capacity(after.0) && after.0 == r
  {
    ResetKeepsCapacity(s, now);
    if orphan.None? {
      ResizeSafeExactly(ResetWindow(s, now), id, total);
    }
  }

  lemma SoleHolderSpare(s: State, id: string)
    requires s.active.Keys == {id}
    ensures Outstanding(s.active) == Unused(s.active[id])
  {
    SumExtract(s.active, Unused, id);
    assert s.active - {id} == map[];
  }

  /** For a workflow holding the only reservation the check is exact, at first and after the wait:
      it is extended if and only if the growth fits, and then safety is kept as long as the total
      covers what it consumed. */
  lemma SoleHolderExtendIsSafe(s: State, id: string, additional: int, total: int, now: int)
    requires Capacity(s) && s.active.Keys == {id} && id != "" && additional > 0
    ensures Extend(s, id, additional, now).Extended? <==> additional <= Spare(ResetWindow(s, now))
    ensures Capacity(Extend(s, id, additional, now).state)
    ensures ExtendAgain(s, id, None, total, now).1 == Done <==>
            total - s.active[id].slotsReserved <= Spare(ResetWindow(s, now))
    ensures s.active[id].slotsConsumed <= total ==> Capacity(ExtendAgain(s, id, None, total, now).0)
  {
    var r := ResetWindow(s, now);
    ResetKeepsCapacity(s, now);
    SoleHolderSpare(r, id);
    ResizeSafeExactly(r, id, r.active[id].slotsReserved + additional);
    ResizeSafeExactly(r, id, total);
  }

  /** With a second holder the check overlooks that holder's slots: both get the whole window. */
  lemma ExtendOverlooksOtherHolders()
    ensures exists s: State, id, additional, now ::
              && Capacity(s)
              && Extend(s, id, additional, now).Extended?
              && Extend(s, id, additional, now).outcome == Done
              && !Capacity(Extend(s, id, additional, now).state)
  {
    var a := Reservation(5, 0, false);
    var s := State(10, 60, 0, 0, map["a" := a, "b" := a], [], 0, [], [Window(0, [])]);
    SumExtract(s.active, Unused, "a");
    assert s.active - {"a"} == map["b" := a];
    SumExtract(map["b" := a], Unused, "b");
    assert map["b" := a] - {"b"} == map[];
    assert Capacity(s);
    ExtendSafeExactlyWithinSpare(s, "a", 5, 0);
    assert Extend(s, "a", 5, 0).Extended?;
  }
}
