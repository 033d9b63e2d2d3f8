/** The asynchronous log handler as interleaved atomic steps: any number of Handle calls,
    any number of Close calls, one consumer goroutine. A log entry is named by the Handle
    call that built it. */
module LogHandler {

  datatype HandleResult = Accepted | QueueFull | ContextDone | HandlerClosed

  /** Where a Handle call stands; the handle wait group counts it from Rechecking to Leaving. */
  datatype Producer =
    | Loading
    | Adding
    | Rechecking
    | Enqueueing
    | Leaving(result: HandleResult)
    | Returned(result: HandleResult)

  datatype CloseResult = AlreadyClosed | Drained | TimedOut

  datatype Closer =
    | Swapping
    | AwaitingHandles
    | Cancelling
    | Selecting
    | Finished(outcome: CloseResult)

  datatype Consumer =
    | Polling
    | Processing(call: nat, draining: bool)
    | Draining
    | Exited

  /** `accepted` and `inserted` record, in order, the entries whose send succeeded and the
      entries handed to the insert function. `waited` is set once the winning Close has seen
      the handle wait group at zero. */
  datatype State = State(
    capacity: nat,
    closed: bool,
    handleWG: int,
    waited: bool,
    cancelled: bool,
    done: bool,
    queue: seq<nat>,
    consumer: Consumer,
    producers: map<nat, Producer>,
    closers: map<nat, Closer>,
    accepted: seq<nat>,
    inserted: seq<nat>)

  function Initial(capacity: nat): State {
    State(capacity, false, 0, false, false, false, [], Polling, map[], map[], [], [])
  }

  datatype Action =
    | CallHandle(p: nat)
    | LoadClosed(p: nat)
    | AddHandle(p: nat)
    | Recheck(p: nat)
    | Send(p: nat)
    | SeeContextDone(p: nat)
    | SeeQueueFull(p: nat)
    | DoneHandle(p: nat)
    | CallClose(c: nat)
    | Swap(c: nat)
    | WaitReturns(c: nat)
    | Cancel(c: nat)
    | DoneCloses
    | SelectDone(c: nat)
    | SelectTimeout(c: nat)
    | Receive
    | SeeCancelled
    | DrainReceive
    | DrainEmpty
    | Insert

  predicate At(s: State, p: nat, at: Producer) { p in s.producers && s.producers[p] == at }

  predicate CloserAt(s: State, c: nat, at: Closer) { c in s.closers && s.closers[c] == at }

  predicate Enabled(s: State, a: Action) {
    match a
    case CallHandle(p) => p !in s.producers
    case LoadClosed(p) => At(s, p, Loading)
    case AddHandle(p) => At(s, p, Adding)
    case Recheck(p) => At(s, p, Rechecking)
    case Send(p) => At(s, p, Enqueueing) && |s.queue| < s.capacity
    case SeeContextDone(p) => At(s, p, Enqueueing)
    case SeeQueueFull(p) => At(s, p, Enqueueing) && |s.queue| >= s.capacity
    case DoneHandle(p) => p in s.producers && s.producers[p].Leaving?
    case CallClose(c) => c !in s.closers
    case Swap(c) => CloserAt(s, c, Swapping)
    case WaitReturns(c) => CloserAt(s, c, AwaitingHandles) && s.handleWG == 0
    case Cancel(c) => CloserAt(s, c, Cancelling)
    case DoneCloses => s.cancelled && s.consumer == Exited
    case SelectDone(c) => CloserAt(s, c, Selecting) && s.done
    case SelectTimeout(c) => CloserAt(s, c, Selecting)
    case Receive => s.consumer == Polling && s.queue != []
    case SeeCancelled => s.consumer == Polling && s.cancelled
    case DrainReceive => s.consumer == Draining && s.queue != []
    case DrainEmpty => s.consumer == Draining && s.queue == []
    case Insert => s.consumer.Processing?
  }

  function Move(s: State, p: nat, to: Producer): State { s.(producers := s.producers[p := to]) }

  function MoveCloser(s: State, c: nat, to: Closer): State { s.(closers := s.closers[c := to]) }

  predicate ByConsumer(a: Action) {
    a.Receive? || a.SeeCancelled? || a.DrainReceive? || a.DrainEmpty? || a.Insert?
  }

  predicate ByCloser(a: Action) {
    a.CallClose? || a.Swap? || a.WaitReturns? || a.Cancel? || a.SelectDone? || a.SelectTimeout?
  }

  predicate ByProducer(a: Action) { !ByConsumer(a) && !ByCloser(a) && !a.DoneCloses? }

  function ProducerStep(s: State, a: Action): State
    requires Enabled(s, a) && ByProducer(a)
  {
    match a
    case CallHandle(p) => Move(s, p, Loading)
    case LoadClosed(p) => Move(s, p, if s.closed then Returned(HandlerClosed) else Adding)
    case AddHandle(p) => Move(s, p, Rechecking).(handleWG := s.handleWG + 1)
    case Recheck(p) => Move(s, p, if s.closed then Leaving(HandlerClosed) else Enqueueing)
    case Send(p) => Move(s, p, Leaving(Accepted)).(queue := s.queue + [p], accepted := s.accepted + [p])
    case SeeContextDone(p) => Move(s, p, Leaving(ContextDone))
    case SeeQueueFull(p) => Move(s, p, Leaving(QueueFull))
    case DoneHandle(p) => Move(s, p, Returned(s.producers[p].result)).(handleWG := s.handleWG - 1)
  }

  function CloserStep(s: State, a: Action): State
    requires Enabled(s, a) && ByCloser(a)
  {
    match a
    case CallClose(c) => MoveCloser(s, c, Swapping)
    case Swap(c) =>
      if s.closed then MoveCloser(s, c, Finished(AlreadyClosed))
      else MoveCloser(s, c, AwaitingHandles).(closed := true)
    case WaitReturns(c) => MoveCloser(s, c, Cancelling).(waited := true)
    case Cancel(c) => MoveCloser(s, c, Selecting).(cancelled := true)
    case SelectDone(c) => MoveCloser(s, c, Finished(Drained))
    case SelectTimeout(c) => MoveCloser(s, c, Finished(TimedOut))
  }

  function ConsumerStep(s: State, a: Action): State
    requires Enabled(s, a) && ByConsumer(a)
  {
    match a
    case Receive => s.(consumer := Processing(s.queue[0], false), queue := s.queue[1..])
    case SeeCancelled => s.(consumer := Draining)
    case DrainReceive => s.(consumer := Processing(s.queue[0], true), queue := s.queue[1..])
    case DrainEmpty => s.(consumer := Exited)
    case Insert =>
      s.(inserted := s.inserted + [s.consumer.call], consumer := if s.consumer.draining then Draining else Polling)
  }

  function Apply(s: State, a: Action): State
    requires Enabled(s, a)
  {
    if ByProducer(a) then ProducerStep(s, a)
    else if ByCloser(a) then CloserStep(s, a)
    else if ByConsumer(a) then ConsumerStep(s, a)
    else s.(done := true)
  }

  ghost predicate Runnable(s: State, actions: seq<Action>)
    decreases |actions|
  {
    actions == [] || (Enabled(s, actions[0]) && Runnable(Apply(s, actions[0]), actions[1..]))
  }

  ghost function Run(s: State, actions: seq<Action>): State
    requires Runnable(s, actions)
    decreases |actions|
  {
    if actions == [] then s else Run(Apply(s, actions[0]), actions[1..])
  }

  // ---------- invariants ----------

  predicate Counted(p: Producer) { p.Rechecking? || p.Enqueueing? || p.Leaving? }

  ghost function CountedCalls(producers: map<nat, Producer>): set<nat> {
    set p | p in producers && Counted(producers[p])
  }

  function InFlight(c: Consumer): seq<nat> { if c.Processing? then [c.call] else [] }

  predicate WasAccepted(p: Producer) { (p.Leaving? || p.Returned?) && p.result == Accepted }

  /** The handle wait group equals the number of calls between Add and Done. */
  ghost predicate WaitGroupExact(s: State) { s.handleWG == |CountedCalls(s.producers)| }

  /** Accepted entries are inserted, being processed, or queued, in acceptance order. */
  ghost predicate Conserved(s: State) { s.accepted == s.inserted + InFlight(s.consumer) + s.queue }

  /** An entry was accepted exactly when its call's send succeeded, and then only once. */
  ghost predicate AcceptedOnce(s: State) {
    && (forall p :: p in s.accepted <==> p in s.producers && WasAccepted(s.producers[p]))
    && (forall i, j :: 0 <= i < j < |s.accepted| ==> s.accepted[i] != s.accepted[j])
  }

  /** What is known in each phase of shutdown. */
  ghost predicate Shutdown(s: State) { PhasesHold(s) && ClosersHold(s) }

  ghost predicate PhasesHold(s: State) {
    && (s.waited ==> s.closed && forall p :: p in s.producers ==> s.producers[p] != Enqueueing)
    && (s.cancelled ==> s.waited)
    && (s.consumer == Draining || s.consumer == Exited || (s.consumer.Processing? && s.consumer.draining) ==>
          s.cancelled)
    && (s.consumer == Exited ==> s.queue == [])
    && (s.done ==> s.consumer == Exited)
  }

  ghost predicate ClosersHold(s: State) {
    forall c :: c in s.closers ==> CloserHolds(s, s.closers[c])
  }

  predicate CloserHolds(s: State, closer: Closer) {
    && (closer == AwaitingHandles ==> s.closed)
    && (closer == Cancelling || closer == Selecting ==> s.waited)
    && (closer == Finished(Drained) ==> s.done)
  }

  /** What each kind of step leaves alone. */
  lemma Frames(s: State, a: Action)
    requires Enabled(s, a)
    ensures var r := Apply(s, a);
            && (!ByProducer(a) ==> r.producers == s.producers && r.handleWG == s.handleWG && r.accepted == s.accepted)
            && (!ByCloser(a) ==>
                  r.closers == s.closers && r.closed == s.closed && r.waited == s.waited && r.cancelled == s.cancelled)
            && (!ByConsumer(a) ==> r.consumer == s.consumer && r.inserted == s.inserted)
            && (!ByConsumer(a) && !a.Send? ==> r.queue == s.queue && r.accepted == s.accepted)
            && (!a.DoneCloses? ==> r.done == s.done)
  {
    hide ProducerStep, CloserStep, ConsumerStep;
    if ByProducer(a) {
      ProducerFrame(s, a);
    } else if ByCloser(a) {
      CloserFrame(s, a);
    } else if ByConsumer(a) {
      ConsumerFrame(s, a);
    }
  }

  lemma ProducerFrame(s: State, a: Action)
    requires Enabled(s, a) && ByProducer(a)
    ensures var r := ProducerStep(s, a);
            && r == s.(producers := r.producers, handleWG := r.handleWG, queue := r.queue, accepted := r.accepted)
            && (!a.Send? ==> r.queue == s.queue && r.accepted == s.accepted)
  {
  }

  lemma CloserFrame(s: State, a: Action)
    requires Enabled(s, a) && ByCloser(a)
    ensures var r := CloserStep(s, a);
            r == s.(closers := r.closers, closed := r.closed, waited := r.waited, cancelled := r.cancelled)
  {
  }

  lemma ConsumerFrame(s: State, a: Action)
    requires Enabled(s, a) && ByConsumer(a)
    ensures var r := ConsumerStep(s, a); r == s.(consumer := r.consumer, queue := r.queue, inserted := r.inserted)
  {
  }

  lemma WaitGroupStep(s: State, a: Action)
    requires Enabled(s, a) && WaitGroupExact(s)
    ensures WaitGroupExact(Apply(s, a))
  {
    var r := Apply(s, a);
    if a.AddHandle? {
      assert CountedCalls(r.producers) == CountedCalls(s.producers) + {a.p};
    } else if a.DoneHandle? {
      assert CountedCalls(r.producers) == CountedCalls(s.producers) - {a.p};
    } else {
      SameCallsCounted(s, a);
    }
  }

  lemma SameCallsCounted(s: State, a: Action)
    requires Enabled(s, a) && !a.AddHandle? && !a.DoneHandle?
    ensures CountedCalls(Apply(s, a).producers) == CountedCalls(s.producers) && Apply(s, a).handleWG == s.handleWG
  {
    Frames(s, a);
    if ByProducer(a) {
      var to := Apply(s, a).producers[a.p];
      assert Counted(to) <==> a.p in s.producers && Counted(s.producers[a.p]);
      assert Apply(s, a).producers == s.producers[a.p := to];
    }
  }

  lemma ConservedStep(s: State, a: Action)
    requires Enabled(s, a) && Conserved(s)
    ensures Conserved(Apply(s, a))
  {
    var r := Apply(s, a);
    if a.Receive? || a.DrainReceive? {
      assert InFlight(s.consumer) == [] && r.inserted == s.inserted;
      TakeFirst(s.inserted, s.queue);
    } else if a.Send? {
      assert r.accepted == s.accepted + [a.p] && r.queue == s.queue + [a.p];
      assert InFlight(r.consumer) == InFlight(s.consumer) && r.inserted == s.inserted;
      assert r.inserted + InFlight(r.consumer) + r.queue == s.inserted + InFlight(s.consumer) + s.queue + [a.p];
    } else if a.Insert? {
      assert r.inserted == s.inserted + InFlight(s.consumer) && InFlight(r.consumer) == [];
      assert r.inserted + [] + r.queue == s.inserted + InFlight(s.consumer) + s.queue;
    } else {
      SameEntries(s, a);
    }
  }

  lemma SameEntries(s: State, a: Action)
    requires Enabled(s, a) && !a.Receive? && !a.DrainReceive? && !a.Send? && !a.Insert?
    ensures var r := Apply(s, a);
            && r.accepted == s.accepted && r.inserted == s.inserted && r.queue == s.queue
            && InFlight(r.consumer) == InFlight(s.consumer)
  {
    Frames(s, a);
    if ByConsumer(a) {
      assert a.SeeCancelled? || a.DrainEmpty?;
    }
    hide Apply;
  }

  lemma TakeFirst(done: seq<nat>, queue: seq<nat>)
    requires queue != []
    ensures done + [] + queue == done + [queue[0]] + queue[1..]
  {
  }

  lemma AcceptedStep(s: State, a: Action)
    requires Enabled(s, a) && AcceptedOnce(s)
    ensures AcceptedOnce(Apply(s, a))
  {
    var r := Apply(s, a);
    if a.Send? {
      assert a.p !in s.accepted && r.producers == s.producers[a.p := Leaving(Accepted)];
      assert r.accepted == s.accepted + [a.p];
    } else {
      Frames(s, a);
      assert r.accepted == s.accepted;
      SameCallsAccepted(s, a);
    }
    hide Apply;
  }

  lemma SameCallsAccepted(s: State, a: Action)
    requires Enabled(s, a) && !a.Send?
    ensures var r := Apply(s, a);
            forall p :: (p in r.producers && WasAccepted(r.producers[p])) <==>
                        (p in s.producers && WasAccepted(s.producers[p]))
  {
    Frames(s, a);
    if ByProducer(a) {
      var to := Apply(s, a).producers[a.p];
      assert WasAccepted(to) <==> a.p in s.producers && WasAccepted(s.producers[a.p]);
      assert Apply(s, a).producers == s.producers[a.p := to];
    }
    hide Apply;
  }

  lemma PhasesStep(s: State, a: Action)
    requires Enabled(s, a) && PhasesHold(s) && ClosersHold(s) && WaitGroupExact(s)
    ensures PhasesHold(Apply(s, a))
  {
    if a.WaitReturns? {
      assert CountedCalls(s.producers) == {};
      forall p | p in s.producers ensures s.producers[p] != Enqueueing {
        assert p !in CountedCalls(s.producers);
      }
    }
    hide CountedCalls;
  }

  lemma ClosersStep(s: State, a: Action)
    requires Enabled(s, a) && ClosersHold(s)
    ensures ClosersHold(Apply(s, a))
  {
    var r := Apply(s, a);
    assert (s.closed ==> r.closed) && (s.waited ==> r.waited) && (s.done ==> r.done);
    hide Apply;
    forall c | c in r.closers ensures CloserHolds(r, r.closers[c]) {
      if c !in s.closers || r.closers[c] != s.closers[c] {
        MovedCloser(s, a, c);
      } else {
        assert CloserHolds(s, s.closers[c]);
      }
    }
  }

  lemma MovedCloser(s: State, a: Action, c: nat)
    requires Enabled(s, a) && ClosersHold(s)
    requires c in Apply(s, a).closers && (c !in s.closers || Apply(s, a).closers[c] != s.closers[c])
    ensures CloserHolds(Apply(s, a), Apply(s, a).closers[c])
  {
    Frames(s, a);
    assert ByCloser(a) && a.c == c;
  }

  lemma ShutdownStep(s: State, a: Action)
    requires Enabled(s, a) && Shutdown(s) && WaitGroupExact(s)
    ensures Shutdown(Apply(s, a))
  {
    hide Apply, PhasesHold, ClosersHold, WaitGroupExact;
    PhasesStep(s, a);
    ClosersStep(s, a);
  }

  ghost predicate Inv(s: State) {
    WaitGroupExact(s) && Conserved(s) && AcceptedOnce(s) && Shutdown(s)
  }

  lemma InvStep(s: State, a: Action)
    requires Enabled(s, a) && Inv(s)
    ensures Inv(Apply(s, a))
  {
    hide Apply, WaitGroupExact, Conserved, AcceptedOnce, Shutdown;
    WaitGroupStep(s, a);
    ConservedStep(s, a);
    AcceptedStep(s, a);
    ShutdownStep(s, a);
  }

  lemma {:induction false} RunKeepsInv(s: State, actions: seq<Action>)
    requires Runnable(s, actions) && Inv(s)
    ensures Inv(Run(s, actions))
    decreases |actions|
  {
    if actions != [] {
      InvStep(s, actions[0]);
      RunKeepsInv(Apply(s, actions[0]), actions[1..]);
    }
  }

  lemma InitialInv(capacity: nat)
    ensures Inv(Initial(capacity))
  {
    assert CountedCalls(map[]) == {};
  }

  lemma QuietStep(s: State, a: Action)
    requires Enabled(s, a) && PhasesHold(s) && s.waited
    ensures Apply(s, a).accepted == s.accepted && Apply(s, a).waited
  {
  }

  lemma {:induction false} QuietRun(s: State, actions: seq<Action>)
    requires Runnable(s, actions) && Inv(s) && s.waited
    ensures Run(s, actions).accepted == s.accepted && Run(s, actions).waited
    decreases |actions|
  {
    if actions != [] {
      hide Apply, Enabled, WaitGroupExact, Conserved, AcceptedOnce, PhasesHold, ClosersHold;
      InvStep(s, actions[0]);
      QuietStep(s, actions[0]);
      QuietRun(Apply(s, actions[0]), actions[1..]);
    }
  }

  /** Once the winning Close has returned from waiting for the handles, nothing is enqueued. */
  lemma NothingEnqueuedAfterWait(capacity: nat, before: seq<Action>, after: seq<Action>)
    requires Runnable(Initial(capacity), before) && Run(Initial(capacity), before).waited
    requires Runnable(Run(Initial(capacity), before), after)
    ensures Run(Run(Initial(capacity), before), after).accepted == Run(Initial(capacity), before).accepted
  {
    InitialInv(capacity);
    RunKeepsInv(Initial(capacity), before);
    QuietRun(Run(Initial(capacity), before), after);
  }

  function Occurrences(s: seq<nat>, x: nat): nat {
    if s == [] then 0 else (if s[0] == x then 1 else 0) + Occurrences(s[1..], x)
  }

  lemma {:induction false} DistinctOccurs(s: seq<nat>, x: nat)
    requires forall i, j :: 0 <= i < j < |s| ==> s[i] != s[j]
    ensures Occurrences(s, x) == (if x in s then 1 else 0)
    decreases |s|
  {
    if s != [] {
      DistinctOccurs(s[1..], x);
    }
  }

  /** No accepted entry is lost. When a Close returns nil because the consumer is done, the
      entries inserted are the entries accepted, in acceptance order; every Handle call that
      returned nil had its entry inserted exactly once, every other call never; and this
      stays so whatever happens next. */
  lemma NoAcceptedEntryLost(capacity: nat, before: seq<Action>, c: nat, after: seq<Action>)
    requires Runnable(Initial(capacity), before)
    requires CloserAt(Run(Initial(capacity), before), c, Finished(Drained))
    requires Runnable(Run(Initial(capacity), before), after)
    ensures var s := Run(Initial(capacity), before);
            var t := Run(s, after);
            && s.inserted == s.accepted == t.accepted == t.inserted
            && forall p :: p in t.producers && t.producers[p].Returned? ==>
                 Occurrences(s.inserted, p) == if t.producers[p].result == Accepted then 1 else 0
  {
    InitialInv(capacity);
    RunKeepsInv(Initial(capacity), before);
    var s := Run(Initial(capacity), before);
    QuietRun(s, after);
    RunKeepsInv(s, after);
    var t := Run(s, after);
    ExitedForGood(s, after);
    assert s.inserted + InFlight(s.consumer) + s.queue == s.inserted;
    assert t.accepted == s.inserted;
    forall p | p in t.producers && t.producers[p].Returned?
      ensures Occurrences(s.inserted, p) == if t.producers[p].result == Accepted then 1 else 0
    {
      assert p in t.accepted <==> WasAccepted(t.producers[p]);
      DistinctOccurs(t.accepted, p);
    }
  }

  lemma ExitedStep(s: State, a: Action)
    requires Enabled(s, a) && s.consumer == Exited
    ensures Apply(s, a).consumer == Exited && Apply(s, a).inserted == s.inserted
  {
    Frames(s, a);
    assert !ByConsumer(a);
    hide Apply;
  }

  lemma {:induction false} ExitedForGood(s: State, actions: seq<Action>)
    requires Runnable(s, actions) && s.consumer == Exited
    ensures Run(s, actions).consumer == Exited && Run(s, actions).inserted == s.inserted
    decreases |actions|
  {
    if actions != [] {
      ExitedStep(s, actions[0]);
      ExitedForGood(Apply(s, actions[0]), actions[1..]);
    }
  }

  // ---------- shutdown always finishes ----------

  /** Consumer steps left before it exits, once cancelled. */
  function StepsToExit(s: State): nat {
    2 * |s.queue| +
    match s.consumer
    case Polling => 2
    case Processing(_, draining) => if draining then 2 else 3
    case Draining => 1
    case Exited => 0
  }

  function ConsumerAction(s: State): Action {
    match s.consumer
    case Polling => SeeCancelled
    case Processing(_, _) => Insert
    case Draining => if s.queue == [] then DrainEmpty else DrainReceive
    case Exited => DoneCloses
  }

  function ConsumerSteps(actions: seq<Action>): nat {
    if actions == [] then 0 else (if ByConsumer(actions[0]) then 1 else 0) + ConsumerSteps(actions[1..])
  }

  lemma DrainMakesProgress(s: State, a: Action)
    requires Shutdown(s) && s.cancelled && Enabled(s, a)
    ensures StepsToExit(Apply(s, a)) + (if ByConsumer(a) then 1 else 0) <= StepsToExit(s)
    ensures Apply(s, a).cancelled
  {
    if !ByConsumer(a) {
      assert !a.Send?;
      assert Apply(s, a).queue == s.queue && Apply(s, a).consumer == s.consumer;
    }
  }

  /** After cancellation, in every interleaving: the consumer is never blocked before it exits, it
      takes at most StepsToExit steps, and once it has taken that many it has exited and every
      accepted entry is inserted. */
  lemma {:induction false} DrainEnds(s: State, actions: seq<Action>)
    requires Runnable(s, actions) && Inv(s) && s.cancelled
    ensures ConsumerSteps(actions) + StepsToExit(Run(s, actions)) <= StepsToExit(s)
    ensures var t := Run(s, actions); t.cancelled && Enabled(t, ConsumerAction(t))
    ensures ConsumerSteps(actions) == StepsToExit(s) ==>
              var t := Run(s, actions); t.consumer == Exited && t.inserted == t.accepted
    decreases |actions|
  {
    if actions == [] {
      assert s.consumer == Exited ==> s.inserted + InFlight(s.consumer) + s.queue == s.inserted;
    } else {
      hide Apply, Enabled, StepsToExit, ByConsumer, ConsumerAction, Shutdown, WaitGroupExact, Conserved, AcceptedOnce;
      assert Runnable(Apply(s, actions[0]), actions[1..]);
      assert Inv(Apply(s, actions[0])) by {
        InvStep(s, actions[0]);
      }
      DrainMakesProgress(s, actions[0]);
      DrainEnds(Apply(s, actions[0]), actions[1..]);
      if ConsumerSteps(actions) == StepsToExit(s) {
        NoStepsLeft(s, actions);
      }
    }
  }

  lemma NoStepsLeft(s: State, actions: seq<Action>)
    requires Runnable(s, actions) && Inv(s) && StepsToExit(Run(s, actions)) == 0
    ensures var t := Run(s, actions); t.consumer == Exited && t.inserted == t.accepted
  {
    RunKeepsInv(s, actions);
    hide Run;
    var t := Run(s, actions);
    assert t.inserted + InFlight(t.consumer) + t.queue == t.inserted;
  }

  /** The consumer's own steps to its exit. */
  function Drain(s: State): (actions: seq<Action>)
    requires s.cancelled
    ensures forall i :: 0 <= i < |actions| ==> ByConsumer(actions[i])
    decreases StepsToExit(s)
  {
    if s.consumer == Exited then [] else [ConsumerAction(s)] + Drain(Apply(s, ConsumerAction(s)))
  }

  /** Whatever led to the cancellation, the consumer left to itself exits within StepsToExit steps
      with every accepted entry inserted, so the Close that waits for it can return. */
  lemma ShutdownFinishes(capacity: nat, before: seq<Action>)
    requires Runnable(Initial(capacity), before) && Run(Initial(capacity), before).cancelled
    ensures var s := Run(Initial(capacity), before);
            && Runnable(s, Drain(s)) && |Drain(s)| <= StepsToExit(s)
            && Run(s, Drain(s)).consumer == Exited && Run(s, Drain(s)).inserted == s.accepted
  {
    InitialInv(capacity);
    RunKeepsInv(Initial(capacity), before);
    var s := Run(Initial(capacity), before);
    DrainRuns(s);
    DrainEnds(s, Drain(s));
    AllByConsumer(Drain(s));
    QuietRun(s, Drain(s));
    RunKeepsInv(s, Drain(s));
    var t := Run(s, Drain(s));
    assert t.inserted + InFlight(t.consumer) + t.queue == t.inserted;
  }

  lemma {:induction false} AllByConsumer(actions: seq<Action>)
    requires forall i :: 0 <= i < |actions| ==> ByConsumer(actions[i])
    ensures ConsumerSteps(actions) == |actions|
    decreases |actions|
  {
    if actions != [] {
      AllByConsumer(actions[1..]);
    }
  }

  lemma {:induction false} DrainRuns(s: State)
    requires s.cancelled
    ensures Runnable(s, Drain(s)) && Run(s, Drain(s)).consumer == Exited
    decreases StepsToExit(s)
  {
    if s.consumer != Exited {
      DrainRuns(Apply(s, ConsumerAction(s)));
      assert Drain(s)[1..] == Drain(Apply(s, ConsumerAction(s)));
    }
  }
}
