/** The pacing gate shared by emitters: turns at least `minSpacing` apart, further apart after a
    cooldown. Any number of goroutines use it; what the gate sees is one sequence of critical
    sections with clock readings that never go back. */
module RateGate {
  import opened Counting

  datatype Gate = Gate(minSpacing: int, next: int)

  /** A waiter looking at the gate (`checked` is when it looks, `taken` when it claims the turn if
      it may), or a cooldown. */
  datatype Event = Turn(checked: int, taken: int) | Cooldown(now: int, d: int)

  const DEFAULT_SPACING := 300_000_000

  function NewGate(minSpacing: int, now: int): Gate {
    Gate(if minSpacing <= 0 then DEFAULT_SPACING else minSpacing, now)
  }

  predicate Due(g: Gate, checked: int) { g.next - checked <= 0 }

  function Apply(g: Gate, e: Event): Gate {
    match e
    case Turn(checked, taken) => if Due(g, checked) then g.(next := taken + g.minSpacing) else g
    case Cooldown(now, d) => if d > 0 && now + d > g.next then g.(next := now + d) else g
  }

  function Run(g: Gate, events: seq<Event>): Gate
    decreases |events|
  {
    if events == [] then g else Run(Apply(g, events[0]), events[1..])
  }

  /** When turns were taken. */
  function Grants(g: Gate, events: seq<Event>): seq<int>
    decreases |events|
  {
    if events == [] then []
    else
      (if events[0].Turn? && Due(g, events[0].checked) then [events[0].taken] else [])
      + Grants(Apply(g, events[0]), events[1..])
  }

  predicate WellTimed(clock: int, events: seq<Event>)
    decreases |events|
  {
    events == [] ||
    match events[0]
    case Turn(checked, taken) => clock <= checked <= taken && WellTimed(taken, events[1..])
    case Cooldown(now, _) => clock <= now && WellTimed(now, events[1..])
  }

  ghost predicate Spaced(times: seq<int>, spacing: int) {
    forall i, j :: 0 <= i < j < |times| ==> times[j] - times[i] >= spacing
  }

  /** No turn is taken before the instant the gate is set to. */
  lemma {:induction false} NoGrantBeforeNext(g: Gate, clock: int, events: seq<Event>)
    requires g.minSpacing > 0 && WellTimed(clock, events)
    ensures forall i :: 0 <= i < |Grants(g, events)| ==> Grants(g, events)[i] >= g.next
    decreases |events|
  {
    if events != [] {
      var e := events[0];
      NoGrantBeforeNext(Apply(g, e), if e.Turn? then e.taken else e.now, events[1..]);
    }
  }

  /** Over every interleaving any two turns are at least the spacing apart. */
  lemma {:induction false} GrantsSpaced(g: Gate, clock: int, events: seq<Event>)
    requires g.minSpacing > 0 && WellTimed(clock, events)
    ensures Spaced(Grants(g, events), g.minSpacing)
    decreases |events|
  {
    if events != [] {
      var e := events[0];
      var after, now := Apply(g, e), if e.Turn? then e.taken else e.now;
      GrantsSpaced(after, now, events[1..]);
      NoGrantBeforeNext(after, now, events[1..]);
    }
  }

  lemma {:induction false} RunConcat(g: Gate, a: seq<Event>, b: seq<Event>)
    ensures Run(g, a + b) == Run(Run(g, a), b)
    ensures Grants(g, a + b) == Grants(g, a) + Grants(Run(g, a), b)
    decreases |a|
  {
    if a == [] {
      assert a + b == b;
    } else {
      assert (a + b)[0] == a[0] && (a + b)[1..] == a[1..] + b;
      RunConcat(Apply(g, a[0]), a[1..], b);
    }
  }

  /** No turn is taken within d of a cooldown of d, whatever happens in between. */
  lemma CooldownHolds(g: Gate, clock: int, now: int, d: int, events: seq<Event>)
    requires g.minSpacing > 0 && d > 0 && WellTimed(clock, [Cooldown(now, d)] + events)
    ensures forall i :: 0 <= i < |Grants(Apply(g, Cooldown(now, d)), events)| ==>
              Grants(Apply(g, Cooldown(now, d)), events)[i] >= now + d
  {
    assert ([Cooldown(now, d)] + events)[1..] == events;
    NoGrantBeforeNext(Apply(g, Cooldown(now, d)), now, events);
  }

  lemma {:induction false} CountFromLater(times: seq<int>, from: int, later: int, until: int)
    requires forall i :: 0 <= i < |times| ==> times[i] >= later
    requires from <= later
    ensures CountIn(times, from, until) == CountIn(times, later, until)
    decreases |times|
  {
    if times != [] {
      CountFromLater(times[1..], from, later, until);
    }
  }

  lemma {:induction false} SpacedCount(times: seq<int>, spacing: int, from: int, length: int)
    requires spacing > 0 && length >= 0 && Spaced(times, spacing)
    ensures CountIn(times, from, from + length + 1) <= length / spacing + 1
    decreases |times|
  {
    DivMonotone(0, length, spacing);
    if times != [] {
      var until, rest := from + length + 1, times[1..];
      assert Spaced(rest, spacing);
      if from <= times[0] < until {
        CountFromLater(rest, from, from + spacing, until);
        if length >= spacing {
          SpacedCount(rest, spacing, from + spacing, length - spacing);
          DivBelow(length - spacing, length, spacing);
        } else {
          CountNone(rest, from + spacing, until);
        }
      } else {
        SpacedCount(rest, spacing, from, length);
      }
    }
  }

  /** A closed interval of length L holds at most floor(L / minSpacing) + 1 turns. */
  lemma TurnsPerInterval(minSpacing: int, start: int, events: seq<Event>, from: int, length: int)
    requires length >= 0 && WellTimed(start, events)
    ensures var g := NewGate(minSpacing, start);
            && g.minSpacing > 0
            && CountIn(Grants(g, events), from, from + length + 1) <= length / g.minSpacing + 1
  {
    var g := NewGate(minSpacing, start);
    GrantsSpaced(g, start, events);
    SpacedCount(Grants(g, events), g.minSpacing, from, length);
  }

  // ---------- exactly when the gate opens ----------

  /** Nothing that happened holds a turn at `at` back: neither the gate's own start, nor the last
      turn, nor any cooldown. */
  ghost predicate Free(g: Gate, events: seq<Event>, at: int) {
    && g.next <= at
    && (forall i :: 0 <= i < |Grants(g, events)| ==> Grants(g, events)[i] + g.minSpacing <= at)
    && (forall i :: 0 <= i < |events| && events[i].Cooldown? && events[i].d > 0 ==> events[i].now + events[i].d <= at)
  }

  /** The gate is set to the earliest instant nothing holds back, and never later. */
  lemma {:induction false} OpensExactlyWhenFree(g: Gate, clock: int, events: seq<Event>, at: int)
    requires g.minSpacing > 0 && WellTimed(clock, events)
    ensures Run(g, events).next <= at <==> Free(g, events, at)
    ensures Run(g, events).minSpacing == g.minSpacing
    decreases |events|
  {
    if events != [] {
      var e, rest := events[0], events[1..];
      var after := Apply(g, e);
      OpensExactlyWhenFree(after, if e.Turn? then e.taken else e.now, rest, at);
      FreeFirst(g, clock, events, at);
    }
  }

  lemma FreeFirst(g: Gate, clock: int, events: seq<Event>, at: int)
    requires g.minSpacing > 0 && events != [] && WellTimed(clock, events)
    ensures Free(g, events, at) <==> Free(Apply(g, events[0]), events[1..], at)
  {
    var e, rest := events[0], events[1..];
    var after := Apply(g, e);
    var granted := if e.Turn? && Due(g, e.checked) then [e.taken] else [];
    assert Grants(g, events) == granted + Grants(after, rest);
    hide Grants;
    var later := Grants(after, rest);
    if Free(g, events, at) {
      assert forall i :: 0 <= i < |later| ==> Grants(g, events)[|granted| + i] == later[i];
      assert forall i :: 0 <= i < |rest| ==> rest[i] == events[i + 1];
      assert granted != [] ==> Grants(g, events)[0] == e.taken;
    }
    if Free(after, rest, at) {
      forall i | 0 <= i < |Grants(g, events)| ensures Grants(g, events)[i] + g.minSpacing <= at {
        assert i >= |granted| ==> Grants(g, events)[i] == later[i - |granted|];
      }
      forall i | 0 <= i < |events| && events[i].Cooldown? && events[i].d > 0 ensures events[i].now + events[i].d <= at {
        assert i > 0 ==> events[i] == rest[i - 1];
      }
    }
  }

  /** After any interleaving a goroutine that looks gets the turn exactly when the spacing since the
      last turn and every cooldown are over: nobody waits longer than they must. */
  lemma TurnIsGrantedExactlyWhenFree(g: Gate, clock: int, events: seq<Event>, checked: int, taken: int)
    requires g.minSpacing > 0 && WellTimed(clock, events)
    ensures Grants(g, events + [Turn(checked, taken)]) ==
              Grants(g, events) + if Free(g, events, checked) then [taken] else []
  {
    RunConcat(g, events, [Turn(checked, taken)]);
    OpensExactlyWhenFree(g, clock, events, checked);
    assert [Turn(checked, taken)][1..] == [];
    hide Free;
  }

  // ---------- the gate itself ----------

  datatype Outcome = Granted(at: int) | Cancelled | StillWaiting

  /** One pass of a waiter's loop: what other goroutines do to the gate before it looks, the clock
      readings it takes, and whether its context ends while it then sleeps. */
  datatype Round = Round(others: seq<Event>, checked: int, taken: int, cancelled: bool)

  /** What the gate sees of one Wait call and of everything interleaved with it. */
  function WaitEvents(g: Gate, rounds: seq<Round>): seq<Event>
    decreases |rounds|
  {
    if rounds == [] then []
    else
      var r := rounds[0];
      var seen := r.others + [Turn(r.checked, r.taken)];
      if Due(Run(g, r.others), r.checked) || r.cancelled then seen
      else seen + WaitEvents(Run(g, seen), rounds[1..])
  }

  function WaitOutcome(g: Gate, rounds: seq<Round>): Outcome
    decreases |rounds|
  {
    if rounds == [] then StillWaiting
    else
      var r := rounds[0];
      if Due(Run(g, r.others), r.checked) then Granted(r.taken)
      else if r.cancelled then Cancelled
      else WaitOutcome(Run(g, r.others + [Turn(r.checked, r.taken)]), rounds[1..])
  }

  class RateGate {
    const minSpacing: int
    var next: int

    ghost function State(): Gate
      reads this
    {
      Gate(minSpacing, next)
    }

    constructor (spacing: int, now: int)
      ensures State() == NewGate(spacing, now)
    {
      minSpacing := if spacing <= 0 then DEFAULT_SPACING else spacing;
      next := now;
    }

    /** The critical section of one pass of Wait. */
    method TakeTurn(checked: int, taken: int) returns (granted: bool)
      modifies this
      ensures State() == Apply(old(State()), Turn(checked, taken))
      ensures granted <==> old(Due(State(), checked))
    {
      var wait := next - checked;
      granted := wait <= 0;
      if granted {
        next := taken + minSpacing;
      }
    }

    method Cooldown(now: int, d: int)
      modifies this
      ensures State() == Apply(old(State()), Event.Cooldown(now, d))
    {
      if d <= 0 {
        return;
      }
      var candidate := now + d;
      if candidate > next {
        next := candidate;
      }
    }

    method Interleave(events: seq<Event>)
      modifies this
      ensures State() == Run(old(State()), events)
    {
      for i := 0 to |events|
        invariant Run(State(), events[i..]) == Run(old(State()), events)
      {
        assert events[i..][1..] == events[i + 1..];
        match events[i] {
          case Turn(checked, taken) => var granted := TakeTurn(checked, taken);
          case Cooldown(now, d) => Cooldown(now, d);
        }
      }
    }

    method Wait(rounds: seq<Round>) returns (outcome: Outcome)
      modifies this
      ensures State() == Run(old(State()), WaitEvents(old(State()), rounds))
      ensures outcome == WaitOutcome(old(State()), rounds)
    {
      var i := 0;
      while i < |rounds|
        invariant 0 <= i <= |rounds|
        invariant Run(State(), WaitEvents(State(), rounds[i..])) == Run(old(State()), WaitEvents(old(State()), rounds))
        invariant WaitOutcome(State(), rounds[i..]) == WaitOutcome(old(State()), rounds)
      {
        ghost var before := State();
        var r := rounds[i];
        ghost var seen := r.others + [Turn(r.checked, r.taken)];
        Interleave(r.others);
        RunConcat(before, r.others, [Turn(r.checked, r.taken)]);
        var granted := TakeTurn(r.checked, r.taken);
        assert [Turn(r.checked, r.taken)][1..] == [];
        assert State() == Run(before, seen);
        assert rounds[i..][0] == r && rounds[i..][1..] == rounds[i + 1..];
        if granted {
          return Granted(r.taken);
        }
        if r.cancelled {
          return Cancelled;
        }
        RunConcat(before, seen, WaitEvents(State(), rounds[i + 1..]));
        i := i + 1;
      }
      return StillWaiting;
    }
  }

  /** A Wait that returns nil has taken a turn of its own, the last the gate granted. */
  lemma {:induction false} WaitReturnsWithATurn(g: Gate, rounds: seq<Round>)
    requires WaitOutcome(g, rounds).Granted?
    ensures var grants := Grants(g, WaitEvents(g, rounds));
            grants != [] && grants[|grants| - 1] == WaitOutcome(g, rounds).at
    decreases |rounds|
  {
    var r := rounds[0];
    var turn := [Turn(r.checked, r.taken)];
    var seen := r.others + turn;
    RunConcat(g, r.others, turn);
    if Due(Run(g, r.others), r.checked) {
      assert Grants(Run(g, r.others), turn)[0] == r.taken;
    } else {
      WaitReturnsWithATurn(Run(g, seen), rounds[1..]);
      RunConcat(g, seen, WaitEvents(Run(g, seen), rounds[1..]));
    }
  }

  /** All that the gate has seen after these passes, none of which ended the wait. */
  function Seen(rounds: seq<Round>): seq<Event> {
    if rounds == [] then [] else rounds[0].others + [Turn(rounds[0].checked, rounds[0].taken)] + Seen(rounds[1..])
  }

  /** On its k-th look the waiter finds the turn there for the taking. */
  predicate LooksFree(g: Gate, rounds: seq<Round>, k: nat)
    requires k < |rounds|
  {
    Due(Run(g, Seen(rounds[..k]) + rounds[k].others), rounds[k].checked)
  }

  lemma LooksFreeLater(g: Gate, rounds: seq<Round>, k: nat)
    requires 0 < k < |rounds|
    ensures var seen := rounds[0].others + [Turn(rounds[0].checked, rounds[0].taken)];
            LooksFree(g, rounds, k) == LooksFree(Run(g, seen), rounds[1..], k - 1)
  {
    var seen := rounds[0].others + [Turn(rounds[0].checked, rounds[0].taken)];
    var rest := Seen(rounds[1..k]) + rounds[k].others;
    assert rounds[..k][1..] == rounds[1..k] == rounds[1..][..k - 1];
    assert Seen(rounds[..k]) + rounds[k].others == seen + rest;
    RunConcat(g, seen, rest);
  }

  /** A wait sleeps through every pass that finds no turn while its context lives. The first look
      that finds one takes it, even if the context has ended; a context that ends during the sleep
      after a look that finds none gives the wait up; and the gate sees no more of it either way. */
  lemma {:induction false} WaitEndsExactlyWhen(g: Gate, rounds: seq<Round>, k: nat)
    requires k <= |rounds| && forall j :: 0 <= j < k ==> !LooksFree(g, rounds, j) && !rounds[j].cancelled
    ensures k == |rounds| ==> WaitOutcome(g, rounds) == StillWaiting
    ensures k < |rounds| && LooksFree(g, rounds, k) ==> WaitOutcome(g, rounds) == Granted(rounds[k].taken)
    ensures k < |rounds| && !LooksFree(g, rounds, k) && rounds[k].cancelled ==> WaitOutcome(g, rounds) == Cancelled
    ensures k < |rounds| && (LooksFree(g, rounds, k) || rounds[k].cancelled) ==>
              WaitEvents(g, rounds) == Seen(rounds[..k + 1])
    decreases k
  {
    if rounds != [] {
      var seen := rounds[0].others + [Turn(rounds[0].checked, rounds[0].taken)];
      assert Seen(rounds[..0]) + rounds[0].others == rounds[0].others;
      if k == 0 {
        assert rounds[..1][1..] == [] && seen + [] == seen;
      } else {
        assert !LooksFree(g, rounds, 0);
        forall j | 0 < j < |rounds|
          ensures LooksFree(g, rounds, j) == LooksFree(Run(g, seen), rounds[1..], j - 1)
        {
          LooksFreeLater(g, rounds, j);
        }
        WaitEndsExactlyWhen(Run(g, seen), rounds[1..], k - 1);
        if k < |rounds| {
          assert rounds[..k + 1][1..] == rounds[1..][..k];
        }
      }
    }
  }
}
