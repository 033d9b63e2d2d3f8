/** What each call to the asynchronous log handler can expect. */
module LogDelivery {
  import opened LogHandler

  // ---------- Handle ----------

  /** The steps of one call that nobody comes between. */
  function Delivery(p: nat): seq<Action> {
    [CallHandle(p), LoadClosed(p), AddHandle(p), Recheck(p), Send(p), DoneHandle(p)]
  }

  function Overflow(p: nat): seq<Action> {
    [CallHandle(p), LoadClosed(p), AddHandle(p), Recheck(p), SeeQueueFull(p), DoneHandle(p)]
  }

  lemma RunOne(s: State, a: Action, rest: seq<Action>)
    requires Enabled(s, a) && Runnable(Apply(s, a), rest)
    ensures Runnable(s, [a] + rest) && Run(s, [a] + rest) == Run(Apply(s, a), rest)
  {
    assert ([a] + rest)[0] == a && ([a] + rest)[1..] == rest;
  }

  /** A call that nobody comes between passes both checks for closing and is about to enqueue. */
  function Arrived(s: State, p: nat): State {
    s.(producers := s.producers[p := Enqueueing], handleWG := s.handleWG + 1)
  }

  lemma FirstHalf(s: State, p: nat)
    requires !s.closed && p !in s.producers
    ensures Enabled(s, CallHandle(p)) && Apply(s, CallHandle(p)) == Move(s, p, Loading)
    ensures Enabled(Move(s, p, Loading), LoadClosed(p))
    ensures Apply(Move(s, p, Loading), LoadClosed(p)) == Move(s, p, Adding)
  {
    assert s.producers[p := Loading][p := Adding] == s.producers[p := Adding];
  }

  lemma SecondHalf(s: State, p: nat)
    requires !s.closed && p !in s.producers
    ensures Enabled(Move(s, p, Adding), AddHandle(p))
    ensures var rechecking := Apply(Move(s, p, Adding), AddHandle(p));
            Enabled(rechecking, Recheck(p)) && Apply(rechecking, Recheck(p)) == Arrived(s, p)
  {
    assert s.producers[p := Adding][p := Rechecking][p := Enqueueing] == s.producers[p := Enqueueing];
  }

  lemma ReachesTheQueue(s: State, p: nat, rest: seq<Action>)
    requires !s.closed && p !in s.producers && Runnable(Arrived(s, p), rest)
    ensures var all := [CallHandle(p)] + ([LoadClosed(p)] + ([AddHandle(p)] + ([Recheck(p)] + rest)));
            Runnable(s, all) && Run(s, all) == Run(Arrived(s, p), rest)
  {
    FirstHalf(s, p);
    SecondHalf(s, p);
    hide Apply, Enabled, Arrived, Move;
    var adding := Move(s, p, Adding);
    RunOne(Apply(adding, AddHandle(p)), Recheck(p), rest);
    RunOne(adding, AddHandle(p), [Recheck(p)] + rest);
    RunOne(Move(s, p, Loading), LoadClosed(p), [AddHandle(p)] + ([Recheck(p)] + rest));
    RunOne(s, CallHandle(p), [LoadClosed(p)] + ([AddHandle(p)] + ([Recheck(p)] + rest)));
  }

  /** The call's last step, once its outcome is decided. */
  lemma Leaves(t: State, p: nat, result: HandleResult)
    requires At(t, p, Leaving(result))
    ensures Runnable(t, [DoneHandle(p)])
    ensures var r := Run(t, [DoneHandle(p)]);
            At(r, p, Returned(result)) && r.accepted == t.accepted && r.queue == t.queue
  {
    assert [DoneHandle(p)][1..] == [];
    Frames(t, DoneHandle(p));
  }

  lemma Sends(s: State, p: nat)
    requires |s.queue| < s.capacity
    ensures var t := Arrived(s, p);
            && Enabled(t, Send(p)) && At(Apply(t, Send(p)), p, Leaving(Accepted))
            && Apply(t, Send(p)).accepted == s.accepted + [p] && Apply(t, Send(p)).queue == s.queue + [p]
  {
  }

  lemma Overflows(s: State, p: nat)
    requires |s.queue| >= s.capacity
    ensures var t := Arrived(s, p);
            && Enabled(t, SeeQueueFull(p)) && At(Apply(t, SeeQueueFull(p)), p, Leaving(QueueFull))
            && Apply(t, SeeQueueFull(p)).accepted == s.accepted && Apply(t, SeeQueueFull(p)).queue == s.queue
  {
  }

  lemma IsDelivery(p: nat)
    ensures Delivery(p) == [CallHandle(p)] + ([LoadClosed(p)] + ([AddHandle(p)]
                             + ([Recheck(p)] + ([Send(p)] + [DoneHandle(p)]))))
  {
  }

  lemma IsOverflow(p: nat)
    ensures Overflow(p) == [CallHandle(p)] + ([LoadClosed(p)] + ([AddHandle(p)]
                             + ([Recheck(p)] + ([SeeQueueFull(p)] + [DoneHandle(p)]))))
  {
  }

  lemma RoomDelivers(s: State, p: nat)
    requires !s.closed && p !in s.producers && |s.queue| < s.capacity
    ensures Runnable(s, Delivery(p)) && At(Run(s, Delivery(p)), p, Returned(Accepted))
    ensures Run(s, Delivery(p)).accepted == s.accepted + [p] && Run(s, Delivery(p)).queue == s.queue + [p]
  {
    Sends(s, p);
    hide Apply, Enabled, Arrived, Run, Runnable, Delivery;
    Leaves(Apply(Arrived(s, p), Send(p)), p, Accepted);
    RunOne(Arrived(s, p), Send(p), [DoneHandle(p)]);
    ReachesTheQueue(s, p, [Send(p)] + [DoneHandle(p)]);
    IsDelivery(p);
  }

  lemma FullQueueRefuses(s: State, p: nat)
    requires !s.closed && p !in s.producers && |s.queue| >= s.capacity
    ensures Runnable(s, Overflow(p)) && At(Run(s, Overflow(p)), p, Returned(QueueFull))
    ensures Run(s, Overflow(p)).accepted == s.accepted && Run(s, Overflow(p)).queue == s.queue
  {
    Overflows(s, p);
    hide Apply, Enabled, Arrived, Run, Runnable, Overflow;
    Leaves(Apply(Arrived(s, p), SeeQueueFull(p)), p, QueueFull);
    RunOne(Arrived(s, p), SeeQueueFull(p), [DoneHandle(p)]);
    ReachesTheQueue(s, p, [SeeQueueFull(p)] + [DoneHandle(p)]);
    IsOverflow(p);
  }

  /** On an open handler with room a call's entry is accepted, last in the queue; with a full queue
      the call is told so and its entry is not. */
  lemma OpenHandlerDelivers(s: State, p: nat)
    requires !s.closed && p !in s.producers
    ensures |s.queue| < s.capacity ==>
              && Runnable(s, Delivery(p)) && At(Run(s, Delivery(p)), p, Returned(Accepted))
              && Run(s, Delivery(p)).accepted == s.accepted + [p] && Run(s, Delivery(p)).queue == s.queue + [p]
    ensures |s.queue| >= s.capacity ==>
              && Runnable(s, Overflow(p)) && At(Run(s, Overflow(p)), p, Returned(QueueFull))
              && Run(s, Overflow(p)).accepted == s.accepted && Run(s, Overflow(p)).queue == s.queue
  {
    hide Run, Runnable, Delivery, Overflow;
    if |s.queue| < s.capacity {
      RoomDelivers(s, p);
    } else {
      FullQueueRefuses(s, p);
    }
  }

  /** A call whose context ends while it waits to enqueue can return that at once, and nothing is
      accepted for it. */
  lemma EndedContextReturns(s: State, p: nat)
    requires At(s, p, Enqueueing)
    ensures var steps := [SeeContextDone(p)] + [DoneHandle(p)];
            && Runnable(s, steps) && At(Run(s, steps), p, Returned(ContextDone))
            && Run(s, steps).accepted == s.accepted && Run(s, steps).queue == s.queue
  {
    Frames(s, SeeContextDone(p));
    assert At(Apply(s, SeeContextDone(p)), p, Leaving(ContextDone));
    hide Apply, Run, Runnable;
    Leaves(Apply(s, SeeContextDone(p)), p, ContextDone);
    RunOne(s, SeeContextDone(p), [DoneHandle(p)]);
  }

  /** A call that has not passed its second check: not made yet, on its way there, or refused. */
  ghost predicate Refusable(s: State, p: nat) {
    p in s.producers ==> Unadmitted(s.producers[p])
  }

  predicate Unadmitted(call: Producer) {
    match call
    case Enqueueing => false
    case Leaving(result) => result == HandlerClosed
    case Returned(result) => result == HandlerClosed
    case _ => true
  }

  lemma RefusalStep(s: State, a: Action, p: nat)
    requires Enabled(s, a) && s.closed && Refusable(s, p)
    ensures Apply(s, a).closed && Refusable(Apply(s, a), p)
  {
    Frames(s, a);
    assert ByCloser(a) ==> Apply(s, a).closed;
    if ByProducer(a) {
      CallMoves(s, a);
      if a.p == p {
        RefusedCallMoves(s, a);
      }
    }
    hide Apply, Enabled, Unadmitted;
  }

  lemma CallMoves(s: State, a: Action)
    requires Enabled(s, a) && ByProducer(a)
    ensures var r := Apply(s, a); a.p in r.producers && r.producers == s.producers[a.p := r.producers[a.p]]
  {
  }

  lemma RefusedCallMoves(s: State, a: Action)
    requires Enabled(s, a) && ByProducer(a) && s.closed && Refusable(s, a.p)
    ensures Refusable(Apply(s, a), a.p)
  {
    assert !a.Send? && !a.SeeContextDone? && !a.SeeQueueFull?;
  }

  /** Once the handler is closed, in every interleaving, a call that has not passed its second check
      by then can only be told so: it is never accepted, and never blocks anybody. */
  lemma {:induction false} ClosedHandlerRefuses(s: State, actions: seq<Action>, p: nat)
    requires Runnable(s, actions) && s.closed && Refusable(s, p)
    ensures Refusable(Run(s, actions), p)
    ensures p in Run(s, actions).producers && Run(s, actions).producers[p].Returned? ==>
              Run(s, actions).producers[p].result == HandlerClosed
    decreases |actions|
  {
    if actions != [] {
      RefusalStep(s, actions[0], p);
      ClosedHandlerRefuses(Apply(s, actions[0]), actions[1..], p);
    }
  }

  // ---------- Close ----------

  /** The Close call that closed the handler, as opposed to one that came too late. */
  predicate Wins(s: State, c: nat) {
    c in s.closers && s.closers[c] != Swapping && s.closers[c] != Finished(AlreadyClosed)
  }

  ghost predicate OneWinner(s: State) {
    && (forall c, d :: Wins(s, c) && Wins(s, d) ==> c == d)
    && (s.closed <==> exists c :: Wins(s, c))
  }

  lemma WinnerStep(s: State, a: Action)
    requires Enabled(s, a) && OneWinner(s)
    ensures OneWinner(Apply(s, a))
  {
    Frames(s, a);
    var r := Apply(s, a);
    if ByCloser(a) {
      assert r.closers == s.closers[a.c := r.closers[a.c]];
      assert forall c :: c != a.c ==> (Wins(r, c) <==> Wins(s, c));
      if a.Swap? && !s.closed {
        assert Wins(r, a.c);
      } else {
        assert Wins(r, a.c) <==> Wins(s, a.c);
      }
    } else {
      assert forall c :: Wins(r, c) <==> Wins(s, c);
    }
    hide Apply;
  }

  /** Over every interleaving exactly one Close call wins once the handler is closed, and none
      before. */
  lemma {:induction false} RunHasOneWinner(s: State, actions: seq<Action>)
    requires Runnable(s, actions) && OneWinner(s)
    ensures OneWinner(Run(s, actions))
    decreases |actions|
  {
    if actions != [] {
      WinnerStep(s, actions[0]);
      RunHasOneWinner(Apply(s, actions[0]), actions[1..]);
    }
  }

  lemma {:induction false} RunAfter(s: State, a: seq<Action>, b: seq<Action>)
    requires Runnable(s, a) && Runnable(Run(s, a), b)
    ensures Runnable(s, a + b) && Run(s, a + b) == Run(Run(s, a), b)
    decreases |a|
  {
    hide Apply, Enabled;
    if a == [] {
      assert a + b == b;
    } else {
      assert (a + b)[0] == a[0] && (a + b)[1..] == a[1..] + b;
      RunAfter(Apply(s, a[0]), a[1..], b);
    }
  }

  lemma {:induction false} DrainKeepsClosers(s: State, actions: seq<Action>)
    requires Runnable(s, actions) && forall i :: 0 <= i < |actions| ==> ByConsumer(actions[i])
    ensures Run(s, actions).closers == s.closers && Run(s, actions).cancelled == s.cancelled
    ensures Run(s, actions).accepted == s.accepted
    decreases |actions|
  {
    if actions != [] {
      Frames(s, actions[0]);
      hide Apply;
      DrainKeepsClosers(Apply(s, actions[0]), actions[1..]);
    }
  }

  /** The winning Close, once it only waits for the consumer, can always return nil: the consumer's
      own steps, then its done signal, then the return, with every accepted entry inserted. */
  lemma CloseCanReturn(capacity: nat, before: seq<Action>, c: nat)
    requires Runnable(Initial(capacity), before) && Run(Initial(capacity), before).cancelled
    requires CloserAt(Run(Initial(capacity), before), c, Selecting)
    ensures var s := Run(Initial(capacity), before);
            var rest := Drain(s) + [DoneCloses, SelectDone(c)];
            && Runnable(s, rest) && |rest| <= StepsToExit(s) + 2
            && CloserAt(Run(s, rest), c, Finished(Drained)) && Run(s, rest).inserted == s.accepted
  {
    var s := Run(Initial(capacity), before);
    ShutdownFinishes(capacity, before);
    DrainKeepsClosers(s, Drain(s));
    var drained := Run(s, Drain(s));
    var ending := [DoneCloses, SelectDone(c)];
    assert ending[1..] == [SelectDone(c)] && [SelectDone(c)][1..] == [];
    var done := Apply(drained, DoneCloses);
    assert Runnable(done, [SelectDone(c)]) && Runnable(drained, ending);
    assert Run(done, [SelectDone(c)]) == Apply(done, SelectDone(c));
    RunAfter(s, Drain(s), ending);
  }
}
