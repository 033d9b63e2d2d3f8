/** The limiter itself: fields updated in place under one lock. Each method is one critical
    section; its contract gives the whole new state through the step functions of the model. */
module LimiterImplementation {
  import opened MapSums
  import opened LimiterModel

  class Limiter {
    const limit: int
    const window: int

    var windowStart: int
    var consumed: int
    var active: map<string, Reservation>
    var queue: seq<Waiter>

    /** Stand-ins for Go channels: how many were made and which have been closed, in order. */
    var channels: nat
    var closed: seq<nat>

    ghost var windows: seq<Window>

    ghost function State(): State
      reads this
    {
      LimiterModel.State(limit, window, windowStart, consumed, active, queue, channels, closed, windows)
    }

    constructor (requestsPerMinute: int, windowDuration: int, now: int)
      ensures State() == Initial(requestsPerMinute, windowDuration, now)
    {
      limit := requestsPerMinute;
      window := if windowDuration <= 0 then DEFAULT_WINDOW else windowDuration;
      windowStart, consumed := now, 0;
      active, queue := map[], [];
      channels, closed := 0, [];
      windows := [Window(now, [])];
    }

    /** The critical section of Reserve up to the point where the caller returns or blocks. */
    method Reserve(id: string, count: int, now: int) returns (outcome: Outcome)
      modifies this
      ensures (State(), outcome) == ReserveStep(old(State()), id, count, now)
    {
      if id == "" {
        return Failed(InvalidWorkflowID);
      }
      if count <= 0 {
        return Failed(NonPositiveCount);
      }
      if id in active {
        return Failed(AlreadyReserved);
      }
      var totalReserved := CalculateTotalReserved();
      var reset := ResetWindowIfNeeded(now);
      if consumed + totalReserved + count <= limit {
        active := active[id := Reservation(count, 0, false)];
        return Done;
      }
      var ready := channels;
      channels := channels + 1;
      queue := queue + [Waiter(id, count, ready)];
      return Waiting(ready);
    }

    /** The critical section run when a blocked Reserve sees its context cancelled. */
    method RemoveFromQueue(id: string)
      modifies this`queue
      ensures State() == AbandonStep(old(State()), id)
    {
      var i := 0;
      while i < |queue|
        invariant 0 <= i <= |queue| && queue == old(queue)
        invariant RemoveFirst(queue, id) == queue[..i] + RemoveFirst(queue[i..], id)
      {
        if queue[i].workflowID == id {
          queue := queue[..i] + queue[i + 1..];
          return;
        }
        assert queue[..i + 1] == queue[..i] + [queue[i]];
        i := i + 1;
      }
    }

    method Consume(id: string, now: int) returns (outcome: Outcome)
      modifies this
      ensures (State(), outcome) == ConsumeStep(old(State()), id, now)
    {
      if id == "" {
        return Failed(InvalidWorkflowID);
      }
      if id !in active {
        return Failed(ReservationNotHeld);
      }
      var held := active[id];
      if held.slotsConsumed >= held.slotsReserved {
        return Failed(ConsumeExceedsLimit);
      }
      var reset := ResetWindowIfNeeded(now);
      consumed := consumed + 1;
      active := active[id := held.(slotsConsumed := held.slotsConsumed + 1)];
      windows := RecordConsume(windows, now);
      return Done;
    }

    method AdjustDown(id: string, newTotal: int, nows: seq<int>) returns (outcome: Outcome)
      requires |queue| <= |nows|
      modifies this
      ensures (State(), outcome) == AdjustDownStep(old(State()), id, newTotal, nows)
    {
      if id == "" {
        return Failed(InvalidWorkflowID);
      }
      if id !in active {
        return Failed(ReservationNotHeld);
      }
      var held := active[id];
      if newTotal < held.slotsConsumed {
        return Failed(AdjustBelowConsumed);
      }
      if newTotal >= held.slotsReserved {
        return Done;
      }
      active := active[id := held.(slotsReserved := newTotal)];
      var woken := TryGrantWaiting(nows);
      return Done;
    }

    method SignalComplete(id: string, nows: seq<int>) returns (outcome: Outcome)
      requires |queue| <= |nows|
      modifies this
      ensures (State(), outcome) == SignalCompleteStep(old(State()), id, nows)
    {
      if id == "" {
        return Failed(InvalidWorkflowID);
      }
      if id !in active {
        return Failed(ReservationNotHeld);
      }
      active := active[id := active[id].(completed := true)];
      var woken := TryGrantWaiting(nows);
      return Done;
    }

    method Release(id: string, nows: seq<int>) returns (outcome: Outcome)
      requires |queue| <= |nows|
      modifies this
      ensures (State(), outcome) == ReleaseStep(old(State()), id, nows)
    {
      if id == "" {
        return Failed(InvalidWorkflowID);
      }
      if id !in active {
        return Failed(ReservationNotHeld);
      }
      active := active - {id};
      var woken := TryGrantWaiting(nows);
      return Done;
    }

    method ResetWindowIfNeeded(now: int) returns (reset: bool)
      modifies this
      ensures State() == ResetWindow(old(State()), now)
      ensures reset <==> old(Elapsed(State(), now))
    {
      reset := now - windowStart >= window;
      if reset {
        windowStart, consumed := now, 0;
        windows := windows + [Window(now, [])];
      }
    }

    /** Grants in queue order for as long as the head fits. */
    method TryGrantWaiting(nows: seq<int>) returns (granted: nat)
      requires |queue| <= |nows|
      modifies this
      ensures State() == LimiterModel.TryGrantWaiting(old(State()), nows)
      ensures granted == |old(queue)| - |queue|
    {
      granted := 0;
      while |queue| > 0
        invariant granted + |queue| == |old(queue)|
        invariant LimiterModel.TryGrantWaiting(State(), nows[granted..]) ==
                    LimiterModel.TryGrantWaiting(old(State()), nows)
        decreases |queue|
      {
        var next := queue[0];
        ghost var before := State();
        var reset := ResetWindowIfNeeded(nows[granted]);
        var totalReserved := CalculateTotalReserved();
        assert nows[granted..][0] == nows[granted];
        if consumed + totalReserved + next.requestedSlots <= limit {
          active := active[next.workflowID := Reservation(next.requestedSlots, 0, false)];
          queue := queue[1..];
          closed := closed + [next.ready];
          granted := granted + 1;
          assert nows[granted - 1..][1..] == nows[granted..];
        } else {
          assert State() == LimiterModel.TryGrantWaiting(before, nows[granted..]);
          break;
        }
      }
    }

    method CalculateTotalReserved() returns (total: int)
      ensures total == TotalReserved(active)
    {
      total := 0;
      var remaining := active;
      while remaining != map[]
        invariant total + Sum(remaining, Reserved) == Sum(active, Reserved)
        decreases |remaining|
      {
        var id :| id in remaining;
        SumExtract(remaining, Reserved, id);
        total := total + remaining[id].slotsReserved;
        remaining := remaining - {id};
      }
    }

    method Stats(now: int) returns (used: int, most: int, queueLen: nat, hasReservation: bool)
      modifies this
      ensures State() == ResetWindow(old(State()), now)
      ensures used == consumed && most == limit && queueLen == |queue|
      ensures hasReservation <==> active.Keys != {}
    {
      var reset := ResetWindowIfNeeded(now);
      used, most, queueLen, hasReservation := consumed, limit, |queue|, |active| > 0;
    }

    /** One tick of the background watcher. */
    method Tick(now: int, nows: seq<int>)
      requires |queue| <= |nows|
      modifies this
      ensures State() == TickStep(old(State()), now, nows)
    {
      if |queue| > 0 {
        var reset := ResetWindowIfNeeded(now);
        if reset {
          var woken := TryGrantWaiting(nows);
        }
      }
    }
  }
}
