/** The reservation rate limiter, one critical section at a time.
    Every clock reading a critical section takes is an argument: a section that reads
    the clock repeatedly (granting from the queue) receives a sequence of readings. */
module LimiterModel {
  import opened MapSums

  datatype Error =
    | InvalidWorkflowID
    | NonPositiveCount
    | ReservationNotHeld
    | AlreadyReserved
    | ConsumeExceedsLimit
    | AdjustBelowConsumed
    | ExtendNegative
    | InsufficientCapacity

  datatype Outcome = Done | Waiting(ready: nat) | Failed(error: Error)

  datatype Reservation = Reservation(slotsReserved: int, slotsConsumed: int, completed: bool)

  /** `ready` names the channel the blocked caller waits on. */
  datatype Waiter = Waiter(workflowID: string, requestedSlots: int, ready: nat)

  /** A rate-limit window: when it began and when slots were consumed in it. */
  datatype Window = Window(start: int, consumedAt: seq<int>)

  /** `channels` counts the ready channels made so far, `closed` lists them in the order
      they were closed, `windows` records every window up to the current one. */
  datatype State = State(
    limit: int,
    window: int,
    windowStart: int,
    consumed: int,
    active: map<string, Reservation>,
    queue: seq<Waiter>,
    channels: nat,
    closed: seq<nat>,
    windows: seq<Window>)

  const DEFAULT_WINDOW := 60_000_000_000

  function Initial(limit: int, window: int, now: int): State {
    State(limit, if window <= 0 then DEFAULT_WINDOW else window, now, 0, map[], [], 0, [], [Window(now, [])])
  }

  function Reserved(r: Reservation): int { r.slotsReserved }

  function Used(r: Reservation): int { r.slotsConsumed }

  function Unused(r: Reservation): int { r.slotsReserved - r.slotsConsumed }

  ghost function TotalReserved(active: map<string, Reservation>): int { Sum(active, Reserved) }

  ghost function Outstanding(active: map<string, Reservation>): int { Sum(active, Unused) }

  /** What the current window could still hand out without breaking a promise already made. */
  ghost function Spare(s: State): int { s.limit - s.consumed - Outstanding(s.active) }

  ghost predicate Fits(s: State, count: int) {
    s.consumed + TotalReserved(s.active) + count <= s.limit
  }

  predicate Elapsed(s: State, now: int) { now - s.windowStart >= s.window }

  function ResetWindow(s: State, now: int): State {
    if Elapsed(s, now) then
      s.(windowStart := now, consumed := 0, windows := s.windows + [Window(now, [])])
    else s
  }

  function Grant(s: State, id: string, count: int): State {
    s.(active := s.active[id := Reservation(count, 0, false)])
  }

  /** One pass over the queue; iteration i reads the clock as nows[i]. */
  ghost function TryGrantWaiting(s: State, nows: seq<int>): State
    requires |s.queue| <= |nows|
    decreases |s.queue|
  {
    if s.queue == [] then s
    else
      var r := ResetWindow(s, nows[0]);
      var next := r.queue[0];
      if Fits(r, next.requestedSlots) then
        TryGrantWaiting(
          Grant(r, next.workflowID, next.requestedSlots).(queue := r.queue[1..], closed := r.closed + [next.ready]),
          nows[1..])
      else r
  }

  /** The first waiter with the given workflow ID leaves the queue. */
  function RemoveFirst(queue: seq<Waiter>, id: string): seq<Waiter> {
    if queue == [] then []
    else if queue[0].workflowID == id then queue[1..]
    else [queue[0]] + RemoveFirst(queue[1..], id)
  }

  function RecordConsume(windows: seq<Window>, now: int): seq<Window> {
    if windows == [] then windows
    else
      var last := windows[|windows| - 1];
      windows[..|windows| - 1] + [last.(consumedAt := last.consumedAt + [now])]
  }

  datatype Step =
    | Reserve(id: string, count: int, now: int)
    | AbandonWait(id: string)
    | Consume(id: string, now: int)
    | AdjustDown(id: string, newTotal: int, nows: seq<int>)
    | SignalComplete(id: string, nows: seq<int>)
    | Release(id: string, nows: seq<int>)
    | Stats(now: int)
    | Tick(now: int, nows: seq<int>)

  /** A section that may grant from the queue takes at most one reading per waiter. */
  predicate EnoughReadings(s: State, step: Step) {
    (step.AdjustDown? || step.SignalComplete? || step.Release? || step.Tick?) ==> |s.queue| <= |step.nows|
  }

  ghost function ReserveStep(s: State, id: string, count: int, now: int): (State, Outcome) {
    if id == "" then (s, Failed(InvalidWorkflowID))
    else if count <= 0 then (s, Failed(NonPositiveCount))
    else if id in s.active then (s, Failed(AlreadyReserved))
    else
      var r := ResetWindow(s, now);
      if Fits(r, count) then (Grant(r, id, count), Done)
      else
        (r.(queue := r.queue + [Waiter(id, count, r.channels)], channels := r.channels + 1), Waiting(r.channels))
  }

  function AbandonStep(s: State, id: string): State {
    s.(queue := RemoveFirst(s.queue, id))
  }

  function ConsumeStep(s: State, id: string, now: int): (State, Outcome) {
    if id == "" then (s, Failed(InvalidWorkflowID))
    else if id !in s.active then (s, Failed(ReservationNotHeld))
    else if s.active[id].slotsConsumed >= s.active[id].slotsReserved then (s, Failed(ConsumeExceedsLimit))
    else
      var r := ResetWindow(s, now);
      var held := r.active[id];
      (r.(consumed := r.consumed + 1,
          active := r.active[id := held.(slotsConsumed := held.slotsConsumed + 1)],
          windows := RecordConsume(r.windows, now)), Done)
  }

  ghost function AdjustDownStep(s: State, id: string, newTotal: int, nows: seq<int>): (State, Outcome)
    requires |s.queue| <= |nows|
  {
    if id == "" then (s, Failed(InvalidWorkflowID))
    else if id !in s.active then (s, Failed(ReservationNotHeld))
    else if newTotal < s.active[id].slotsConsumed then (s, Failed(AdjustBelowConsumed))
    else if newTotal >= s.active[id].slotsReserved then (s, Done)
    else (TryGrantWaiting(s.(active := s.active[id := s.active[id].(slotsReserved := newTotal)]), nows), Done)
  }

  ghost function SignalCompleteStep(s: State, id: string, nows: seq<int>): (State, Outcome)
    requires |s.queue| <= |nows|
  {
    if id == "" then (s, Failed(InvalidWorkflowID))
    else if id !in s.active then (s, Failed(ReservationNotHeld))
    else (TryGrantWaiting(s.(active := s.active[id := s.active[id].(completed := true)]), nows), Done)
  }

  ghost function ReleaseStep(s: State, id: string, nows: seq<int>): (State, Outcome)
    requires |s.queue| <= |nows|
  {
    if id == "" then (s, Failed(InvalidWorkflowID))
    else if id !in s.active then (s, Failed(ReservationNotHeld))
    else (TryGrantWaiting(s.(active := s.active - {id}), nows), Done)
  }

  /** The background watcher grants only when somebody waits and the window has just been reset. */
  ghost function TickStep(s: State, now: int, nows: seq<int>): State
    requires |s.queue| <= |nows|
  {
    if s.queue != [] && Elapsed(s, now) then TryGrantWaiting(ResetWindow(s, now), nows) else s
  }

  ghost function Apply(s: State, step: Step): (State, Outcome)
    requires EnoughReadings(s, step)
  {
    match step
    case Reserve(id, count, now) => ReserveStep(s, id, count, now)
    case AbandonWait(id) => (AbandonStep(s, id), Done)
    case Consume(id, now) => ConsumeStep(s, id, now)
    case AdjustDown(id, newTotal, nows) => AdjustDownStep(s, id, newTotal, nows)
    case SignalComplete(id, nows) => SignalCompleteStep(s, id, nows)
    case Release(id, nows) => ReleaseStep(s, id, nows)
    case Stats(now) => (ResetWindow(s, now), Done)
    case Tick(now, nows) => (TickStep(s, now, nows), Done)
  }

  ghost predicate Runnable(s: State, steps: seq<Step>)
    decreases |steps|
  {
    steps == [] || (EnoughReadings(s, steps[0]) && Runnable(Apply(s, steps[0]).0, steps[1..]))
  }

  /** The state a whole run of critical sections ends in. */
  ghost function Run(s: State, steps: seq<Step>): State
    requires Runnable(s, steps)
    decreases |steps|
  {
    if steps == [] then s else Run(Apply(s, steps[0]).0, steps[1..])
  }
}
