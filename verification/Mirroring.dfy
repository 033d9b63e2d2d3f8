/** Mirroring one 3Commas order at every assigned venue: reducing its stored history to the next
    request, adjusting take-profits to the tracked position, and emitting to the right venues. */
module Mirroring {
  import opened Adapter
  import opened OrderIds
  import opened Targeting
  import opened TrackerDeals
  import opened Wrappers

  predicate SameSnapshot(a: BotEvent, b: BotEvent) {
    && a.status == b.status && a.price == b.price && a.size == b.size
    && a.orderType == b.orderType && a.side == b.side && a.isMarket == b.isMarket
  }

  function LastDistinct(events: seq<BotEvent>, last: BotEvent): Option<BotEvent>
    decreases |events|
  {
    if events == [] then None
    else if !SameSnapshot(events[|events| - 1], last) then Some(events[|events| - 1])
    else LastDistinct(events[..|events| - 1], last)
  }

  function Latest(events: seq<BotEvent>): BotEvent
    requires events != []
  {
    events[|events| - 1]
  }

  /** The most recent snapshot that differs from the latest. */
  function PreviousDistinct(events: seq<BotEvent>): Option<BotEvent> {
    if events == [] then None else LastDistinct(events[..|events| - 1], Latest(events))
  }

  method FindPreviousDistinct(events: seq<BotEvent>) returns (previous: Option<BotEvent>)
    ensures previous == PreviousDistinct(events)
  {
    if |events| < 2 {
      return None;
    }
    var last := events[|events| - 1];
    var i := |events| - 1;
    while i > 0
      invariant 0 <= i < |events|
      invariant LastDistinct(events[..|events| - 1], last) == LastDistinct(events[..i], last)
    {
      i := i - 1;
      if !SameSnapshot(events[i], last) {
        assert events[..i + 1][i] == events[i];
        return Some(events[i]);
      }
      assert events[..i + 1][..i] == events[..i];
    }
    return None;
  }

  /** There is none exactly when the whole history repeats the latest snapshot; otherwise it is a
      snapshot that differs, followed only by repetitions. */
  lemma {:induction false} LastDistinctIs(events: seq<BotEvent>, last: BotEvent)
    ensures LastDistinct(events, last).None? <==> forall i :: 0 <= i < |events| ==> SameSnapshot(events[i], last)
    ensures LastDistinct(events, last).Some? ==>
              exists i :: 0 <= i < |events| && events[i] == LastDistinct(events, last).value
                          && !SameSnapshot(events[i], last)
                          && forall j :: i < j < |events| ==> SameSnapshot(events[j], last)
    decreases |events|
  {
    if events != [] && SameSnapshot(events[|events| - 1], last) {
      var n := |events| - 1;
      LastDistinctIs(events[..n], last);
      assert forall i :: 0 <= i < n ==> events[..n][i] == events[i];
      if LastDistinct(events, last).Some? {
        var i :| 0 <= i < n && events[..n][i] == LastDistinct(events, last).value && !SameSnapshot(events[..n][i], last)
                 && forall j :: i < j < n ==> SameSnapshot(events[..n][j], last);
        assert events[i] == LastDistinct(events, last).value;
        forall j | i < j < |events| ensures SameSnapshot(events[j], last) {
          assert j < n ==> events[..n][j] == events[j];
        }
      }
    }
  }

  // ---------- reducing the history ----------

  /** The next request, if any, for an order with or without submissions of its own. */
  function Reduce(currency: string, events: seq<BotEvent>, oid: OrderId, hasLocal: bool): Action
    requires events != []
  {
    var latest := Latest(events);
    var action := BuildAction(currency, if hasLocal then PreviousDistinct(events) else None, latest, oid);
    match action
    case Modify(_) => if hasLocal then action else Create(ToCreateOrderRequest(currency, latest, oid))
    case Cancel(_, _) => if hasLocal then action else NoAction("cancel skipped: order never created locally")
    case _ => action
  }

  /** Without a submission of its own an order is created or left alone, so the two fallbacks for
      modifying or cancelling what was never created are never needed. */
  lemma FallbacksAreNeverNeeded(currency: string, events: seq<BotEvent>, oid: OrderId)
    requires events != []
    ensures var action := BuildAction(currency, None, Latest(events), oid);
            && !action.Modify? && !action.Cancel?
            && Reduce(currency, events, oid, false) == action
            && (action.Create? <==> Latest(events).status == Active)
  {
  }

  // ---------- take-profits follow the tracked position ----------

  datatype Adjusted = Adjusted(action: Action, emit: bool)

  function TargetPrice(latest: BotEvent, action: Action): real {
    if latest.price != 0.0 then latest.price
    else
      match action
      case Create(order) => order.price
      case Modify(order) => order.price
      case _ => 0.0
  }

  predicate AlreadyMatches(tp: OrderSnapshot, desired: real, price: real) {
    && price > 0.0 && Abs(tp.data.limitPrice - price) <= 0.000001
    && tp.data.reduceOnly && Abs(tp.data.remaining - desired) <= 0.000001
  }

  function Resized(order: OrderRequest, size: real): OrderRequest { order.(size := size, reduceOnly := true) }

  function AdjustActionWithTracker(currency: string, oid: OrderId, latest: BotEvent, action: Action,
                                   snapshot: Option<DealSnapshot>, skipExisting: bool): Adjusted
  {
    if latest.orderType != TakeProfit then Adjusted(action, true)
    else if snapshot.None? then Adjusted(NoAction("skip take-profit: fill snapshot unavailable"), false)
    else
      var active, desired := snapshot.value.activeTakeProfits, snapshot.value.position.netQty;
      if |active| > 1 then Adjusted(action, true)
      else if desired <= 0.000001 then Adjusted(NoAction("skip take-profit: position flat"), false)
      else if !skipExisting && |active| == 1 && AlreadyMatches(active[0], desired, TargetPrice(latest, action)) then
        Adjusted(NoAction("take-profit already matches position"), false)
      else
        match action
        case NoAction(_) => Adjusted(Create(Resized(ToCreateOrderRequest(currency, latest, oid), desired)), true)
        case Create(order) => Adjusted(Create(Resized(order, desired)), true)
        case Modify(order) => Adjusted(Modify(Resized(order, desired)), true)
        case Cancel(_, _) => Adjusted(action, true)
  }

  /** With at most one active take-profit in the deal, a take-profit request that goes out is
      reduce-only and sized exactly to the deal's position, which is not flat; without a snapshot
      none goes out at all. */
  lemma TakeProfitsAreSized(currency: string, oid: OrderId, latest: BotEvent, action: Action,
                            snapshot: Option<DealSnapshot>, skipExisting: bool)
    requires latest.orderType == TakeProfit && (snapshot.Some? ==> |snapshot.value.activeTakeProfits| <= 1)
    ensures var a := AdjustActionWithTracker(currency, oid, latest, action, snapshot, skipExisting);
            a.emit ==>
              && snapshot.Some? && snapshot.value.position.netQty > 0.000001
              && match a.action
                 case NoAction(_) => false
                 case Create(order) => order.reduceOnly && order.size == snapshot.value.position.netQty
                 case Modify(order) => order.reduceOnly && order.size == snapshot.value.position.netQty
                 case Cancel(_, _) => a.action == action
  {
  }

  /** An adjusted request that is adjusted once more, as happens before it is queued, stays as it
      is. */
  lemma AdjustingTwiceIsAdjustingOnce(currency: string, oid: OrderId, latest: BotEvent, action: Action,
                                      snapshot: Option<DealSnapshot>, skipExisting: bool)
    ensures var a := AdjustActionWithTracker(currency, oid, latest, action, snapshot, skipExisting);
            a.emit ==> AdjustActionWithTracker(currency, oid, latest, a.action, snapshot, skipExisting) == a
  {
  }

  // ---------- emissions ----------

  /** One action and where it goes, a place as often as it is assigned. */
  datatype Emission = Emission(action: Action, targets: multiset<Ident>)

  /** What a run knows of the order besides its history. */
  datatype Context = Context(
    assignments: seq<Assignment>, listed: seq<Ident>, fallback: Option<Assignment>, snapshot: Option<DealSnapshot>)

  function Stored(ctx: Context): seq<Ident> { Normalize(ctx.assignments, ctx.listed) }

  function KindOf(action: Action): ActionKind {
    match action
    case NoAction(_) => NoneKind
    case Create(_) => CreateKind
    case Modify(_) => ModifyKind
    case Cancel(_, _) => CancelKind
  }

  function Fallback(ctx: Context): Option<Assignment> {
    if ctx.assignments == [] && Stored(ctx) == [] then ctx.fallback else None
  }

  function Queue(currency: string, oid: OrderId, latest: BotEvent, action: Action, targets: multiset<Ident>,
                 ctx: Context, skipExisting: bool): seq<Emission>
  {
    var a := AdjustActionWithTracker(currency, oid, latest, action, ctx.snapshot, skipExisting);
    if a.emit && !a.action.NoAction? then [Emission(a.action, targets)] else []
  }

  function Ordinary(currency: string, oid: OrderId, events: seq<BotEvent>, ctx: Context): seq<Emission>
    requires events != []
  {
    var latest := Latest(events);
    var a := AdjustActionWithTracker(currency, oid, latest, Reduce(currency, events, oid, Stored(ctx) != []),
                                     ctx.snapshot, false);
    var targets := TargetSet(oid, ctx.assignments, Stored(ctx), KindOf(a.action), Fallback(ctx));
    if !a.emit || a.action.NoAction? || targets == {} then []
    else Queue(currency, oid, latest, a.action, multiset(targets), ctx, false)
  }

  /** A venue assigned after the order was placed elsewhere gets the order as it now stands. */
  function Replay(currency: string, oid: OrderId, events: seq<BotEvent>, ctx: Context): seq<Emission>
    requires events != []
  {
    var latest := Latest(events);
    var missing := multiset(MissingList(oid, ctx.assignments, Stored(ctx)));
    if Stored(ctx) == [] || missing == multiset{} || latest.status != Active then []
    else Queue(currency, oid, latest, Create(ToCreateOrderRequest(currency, latest, oid)), missing, ctx, true)
  }

  function Plan(currency: string, oid: OrderId, events: seq<BotEvent>, ctx: Context): seq<Emission> {
    if events == [] then [] else Ordinary(currency, oid, events, ctx) + Replay(currency, oid, events, ctx)
  }

  function Repeat(action: Action, n: nat): seq<Action>
    decreases n
  {
    if n == 0 then [] else Repeat(action, n - 1) + [action]
  }

  function ActionsFor(plan: seq<Emission>, ident: Ident): seq<Action>
    decreases |plan|
  {
    if plan == [] then []
    else Repeat(plan[0].action, plan[0].targets[ident]) + ActionsFor(plan[1..], ident)
  }

  function ActionsOf(works: seq<Work>, ident: Ident): seq<Action>
    decreases |works|
  {
    if works == [] then []
    else
      var earlier := ActionsOf(works[..|works| - 1], ident);
      if works[|works| - 1].ident == ident then earlier + [works[|works| - 1].action] else earlier
  }

  lemma {:induction false} ActionsOfConcat(a: seq<Work>, b: seq<Work>, ident: Ident)
    ensures ActionsOf(a + b, ident) == ActionsOf(a, ident) + ActionsOf(b, ident)
    decreases |b|
  {
    if b == [] {
      assert a + b == a;
    } else {
      var n := |b| - 1;
      ActionsOfConcat(a, b[..n], ident);
      assert (a + b)[..|a + b| - 1] == a + b[..n];
    }
  }

  method EmitTo(action: Action, targets: seq<Ident>) returns (works: seq<Work>)
    ensures forall id :: ActionsOf(works, id) == Repeat(action, multiset(targets)[id])
  {
    works := [];
    for i := 0 to |targets|
      invariant forall id :: ActionsOf(works, id) == Repeat(action, multiset(targets[..i])[id])
    {
      assert targets[..i + 1] == targets[..i] + [targets[i]];
      assert (works + [Work(targets[i], action)])[..|works|] == works;
      works := works + [Work(targets[i], action)];
    }
    assert targets[..|targets|] == targets;
  }

  method EmitQueued(currency: string, oid: OrderId, latest: BotEvent, action: Action, targets: seq<Ident>, ctx: Context,
                    skipExisting: bool)
    returns (works: seq<Work>)
    ensures forall id :: ActionsOf(works, id) ==
                         ActionsFor(Queue(currency, oid, latest, action, multiset(targets), ctx, skipExisting), id)
  {
    var a := AdjustActionWithTracker(currency, oid, latest, action, ctx.snapshot, skipExisting);
    if !a.emit || a.action.NoAction? {
      return [];
    }
    works := EmitTo(a.action, targets);
  }

  lemma {:induction false} ActionsForConcat(a: seq<Emission>, b: seq<Emission>, ident: Ident)
    ensures ActionsFor(a + b, ident) == ActionsFor(a, ident) + ActionsFor(b, ident)
    decreases |a|
  {
    if a == [] {
      assert a + b == b;
    } else {
      ActionsForConcat(a[1..], b, ident);
      assert (a + b)[1..] == a[1..] + b;
    }
  }

  method ReduceOrderEvents(currency: string, events: seq<BotEvent>, oid: OrderId, hasLocal: bool)
    returns (action: Action)
    requires events != []
    ensures action == Reduce(currency, events, oid, hasLocal)
  {
    var latest := events[|events| - 1];
    var previous := FindPreviousDistinct(events);
    if !hasLocal {
      previous := None;
    }
    action := BuildAction(currency, previous, latest, oid);
    if action.Modify? && !hasLocal {
      action := Create(ToCreateOrderRequest(currency, latest, oid));
    } else if action.Cancel? && !hasLocal {
      action := NoAction("cancel skipped: order never created locally");
    }
  }

  method EmitOrdinary(currency: string, oid: OrderId, events: seq<BotEvent>, ctx: Context, stored: seq<Ident>)
    returns (works: seq<Work>)
    requires events != [] && stored == Stored(ctx)
    ensures forall id :: ActionsOf(works, id) == ActionsFor(Ordinary(currency, oid, events, ctx), id)
  {
    hide Reduce, AdjustActionWithTracker, Normalize, TargetSet, Queue;
    var latest := events[|events| - 1];
    var reduced := ReduceOrderEvents(currency, events, oid, |stored| > 0);
    var a := AdjustActionWithTracker(currency, oid, latest, reduced, ctx.snapshot, false);
    if !a.emit || a.action.NoAction? {
      return [];
    }
    var fallback := if |ctx.assignments| == 0 && |stored| == 0 then ctx.fallback else None;
    var targets := ResolveOrderTargets(oid, ctx.assignments, stored, KindOf(a.action), fallback);
    ElementsEmpty(targets);
    if |targets| == 0 {
      return [];
    }
    DistinctMultiset(targets);
    works := EmitQueued(currency, oid, latest, a.action, targets, ctx, false);
  }

  method EmitReplay(currency: string, oid: OrderId, events: seq<BotEvent>, ctx: Context, stored: seq<Ident>)
    returns (works: seq<Work>)
    requires events != [] && stored == Stored(ctx)
    ensures forall id :: ActionsOf(works, id) == ActionsFor(Replay(currency, oid, events, ctx), id)
  {
    hide AdjustActionWithTracker, Normalize, Queue;
    var latest := events[|events| - 1];
    var missing := MissingAssignmentTargets(oid, ctx.assignments, stored);
    assert |missing| == |multiset(missing)|;
    if |stored| == 0 || |missing| == 0 || latest.status != Active {
      return [];
    }
    works := EmitQueued(currency, oid, latest, Create(ToCreateOrderRequest(currency, latest, oid)), missing, ctx, true);
  }

  /** One run over one order: each identifier is sent exactly what the plan has for it, in order. */
  method ProcessOrder(currency: string, oid: OrderId, events: seq<BotEvent>, ctx: Context) returns (works: seq<Work>)
    ensures forall id :: ActionsOf(works, id) == ActionsFor(Plan(currency, oid, events, ctx), id)
  {
    hide Ordinary, Replay, Normalize;
    if |events| == 0 {
      return [];
    }
    var stored := NormalizeSubmissionIdentifiers(ctx.assignments, ctx.listed);
    var ordinary := EmitOrdinary(currency, oid, events, ctx, stored);
    var replayed := EmitReplay(currency, oid, events, ctx, stored);
    works := ordinary + replayed;
    forall id ensures ActionsOf(works, id) == ActionsFor(Plan(currency, oid, events, ctx), id) {
      ActionsOfConcat(ordinary, replayed, id);
      ActionsForConcat(Ordinary(currency, oid, events, ctx), Replay(currency, oid, events, ctx), id);
    }
  }

  /** Targeting: creates, replays included, only go where the order has no submission, modifies
      and cancels only where it has one. */
  lemma TargetsAreRight(currency: string, oid: OrderId, events: seq<BotEvent>, ctx: Context)
    ensures forall i :: 0 <= i < |Plan(currency, oid, events, ctx)| ==>
              RightTargets(Plan(currency, oid, events, ctx)[i], ctx)
  {
    if events != [] {
      OrdinaryTargetsAreRight(currency, oid, events, ctx);
      ReplayTargetsAreRight(currency, oid, events, ctx);
    }
  }

  lemma OrdinaryTargetsAreRight(currency: string, oid: OrderId, events: seq<BotEvent>, ctx: Context)
    requires events != []
    ensures forall e :: e in Ordinary(currency, oid, events, ctx) ==> RightTargets(e, ctx)
  {
    hide Normalize, Reduce, AssignedIdents;
    var reduced := Reduce(currency, events, oid, Stored(ctx) != []);
    AdjustingTwiceIsAdjustingOnce(currency, oid, Latest(events), reduced, ctx.snapshot, false);
  }

  lemma ReplayTargetsAreRight(currency: string, oid: OrderId, events: seq<BotEvent>, ctx: Context)
    requires events != []
    ensures forall e :: e in Replay(currency, oid, events, ctx) ==> RightTargets(e, ctx)
  {
    hide Normalize, MissingList;
    MissingListIs(oid, ctx.assignments, Stored(ctx));
    var list := MissingList(oid, ctx.assignments, Stored(ctx));
    assert forall id :: id in multiset(list) ==> id in Elements(list);
  }

  ghost predicate RightTargets(e: Emission, ctx: Context) {
    match e.action
    case NoAction(_) => false
    case Create(_) => forall id :: id in e.targets ==> id !in Elements(Stored(ctx))
    case Modify(_) => forall id :: id in e.targets ==> id in Elements(Stored(ctx))
    case Cancel(_, _) => forall id :: id in e.targets ==> id in Elements(Stored(ctx))
  }

  /** An order without a submission of its own is only ever created, and unless it is a take-profit
      only while its latest snapshot is active: the fallbacks for modifying or cancelling what was
      never created are never needed. */
  lemma UnplacedOrdersAreOnlyCreated(currency: string, oid: OrderId, events: seq<BotEvent>, ctx: Context)
    requires events != [] && Stored(ctx) == []
    ensures forall e :: e in Plan(currency, oid, events, ctx) ==>
              e.action.Create? && (Latest(events).orderType != TakeProfit ==> Latest(events).status == Active)
  {
    FallbacksAreNeverNeeded(currency, events, oid);
    hide Normalize, Reduce, BuildAction, TargetSet, MissingList;
    var latest, reduced := Latest(events), Reduce(currency, events, oid, false);
    AdjustingTwiceIsAdjustingOnce(currency, oid, latest, reduced, ctx.snapshot, false);
    assert Replay(currency, oid, events, ctx) == [];
  }

  /** A take-profit request that fits the tracked position: reduce-only and of exactly its size, or
      a cancellation, and in any case only while the position is not flat. */
  ghost predicate FitsPosition(action: Action, snapshot: Option<DealSnapshot>) {
    && snapshot.Some? && snapshot.value.position.netQty > 0.000001
    && match action
       case NoAction(_) => false
       case Create(order) => order.reduceOnly && order.size == snapshot.value.position.netQty
       case Modify(order) => order.reduceOnly && order.size == snapshot.value.position.netQty
       case Cancel(_, _) => true
  }

  /** Over a whole run on a take-profit's history, with at most one active take-profit in the deal,
      everything that goes out, replays included, fits the tracked position; without a snapshot, or
      with a flat position, nothing goes out. */
  lemma EmittedTakeProfitsFit(currency: string, oid: OrderId, events: seq<BotEvent>, ctx: Context)
    requires events != [] && Latest(events).orderType == TakeProfit
    requires ctx.snapshot.Some? ==> |ctx.snapshot.value.activeTakeProfits| <= 1
    ensures forall i :: 0 <= i < |Plan(currency, oid, events, ctx)| ==>
              FitsPosition(Plan(currency, oid, events, ctx)[i].action, ctx.snapshot)
  {
    var latest := Latest(events);
    var reduced := Reduce(currency, events, oid, Stored(ctx) != []);
    var a := AdjustActionWithTracker(currency, oid, latest, reduced, ctx.snapshot, false);
    TakeProfitsAreSized(currency, oid, latest, a.action, ctx.snapshot, false);
    TakeProfitsAreSized(currency, oid, latest, Create(ToCreateOrderRequest(currency, latest, oid)), ctx.snapshot, true);
    hide Normalize, Reduce, MissingList, AdjustActionWithTracker, TargetSet;
  }

  // ---------- what a run asks for ----------

  /** An action on the order as the snapshot describes it; a take-profit's size follows the tracked
      position instead. */
  predicate AsksForLatest(action: Action, currency: string, latest: BotEvent, oid: OrderId) {
    match action
    case NoAction(_) => false
    case Create(order) =>
      if latest.orderType == TakeProfit then AsksButForSize(order, currency, latest, oid)
      else AsksFor(order, currency, latest, oid)
    case Modify(order) =>
      if latest.orderType == TakeProfit then AsksButForSize(order, currency, latest, oid)
      else AsksFor(order, currency, latest, oid)
    case Cancel(coin, cloid) => coin == currency && cloid == oid
  }

  lemma ReducedAsksForLatest(currency: string, events: seq<BotEvent>, oid: OrderId, hasLocal: bool)
    requires events != []
    ensures var action := Reduce(currency, events, oid, hasLocal);
            action.NoAction? || AsksForLatest(action, currency, Latest(events), oid)
  {
    RequestAsksFor(currency, Latest(events), oid, ToCreateOrderRequest(currency, Latest(events), oid));
    hide PreviousDistinct, NeedsModify;
  }

  lemma AdjustedAsksForLatest(currency: string, oid: OrderId, latest: BotEvent, action: Action,
                              snapshot: Option<DealSnapshot>, skipExisting: bool)
    requires action.NoAction? || AsksForLatest(action, currency, latest, oid)
    ensures var a := AdjustActionWithTracker(currency, oid, latest, action, snapshot, skipExisting);
            a.action.NoAction? || AsksForLatest(a.action, currency, latest, oid)
  {
    RequestAsksFor(currency, latest, oid, ToCreateOrderRequest(currency, latest, oid));
    hide AlreadyMatches;
  }

  /** Whatever a run emits, replays included, asks for the latest snapshot: its side, price, coin and
      identifier, and, unless it is a take-profit, its size. */
  lemma EmissionsAskForTheLatest(currency: string, oid: OrderId, events: seq<BotEvent>, ctx: Context)
    requires events != []
    ensures forall e :: e in Plan(currency, oid, events, ctx) ==>
              AsksForLatest(e.action, currency, Latest(events), oid)
  {
    var latest := Latest(events);
    var reduced := Reduce(currency, events, oid, Stored(ctx) != []);
    var request := ToCreateOrderRequest(currency, latest, oid);
    ReducedAsksForLatest(currency, events, oid, Stored(ctx) != []);
    AdjustedAsksForLatest(currency, oid, latest, reduced, ctx.snapshot, false);
    var a := AdjustActionWithTracker(currency, oid, latest, reduced, ctx.snapshot, false);
    AdjustedAsksForLatest(currency, oid, latest, a.action, ctx.snapshot, false);
    RequestAsksFor(currency, latest, oid, request);
    AdjustedAsksForLatest(currency, oid, latest, Create(request), ctx.snapshot, true);
    hide Normalize, Reduce, MissingList, AdjustActionWithTracker, TargetSet, AsksFor, AsksButForSize;
    hide ToCreateOrderRequest;
  }

  // ---------- when a take-profit goes out ----------

  /** The deal's one active take-profit already rests at the price and for the position. */
  predicate AlreadyRests(latest: BotEvent, snapshot: DealSnapshot) {
    && |snapshot.activeTakeProfits| == 1 && latest.price > 0.0
    && var tp := snapshot.activeTakeProfits[0].data;
       && tp.reduceOnly && -0.000001 <= tp.limitPrice - latest.price <= 0.000001
       && -0.000001 <= tp.remaining - snapshot.position.netQty <= 0.000001
  }

  /** A take-profit not placed yet is placed at every assigned venue exactly when the deal has a
      position and no take-profit that already rests for it. */
  lemma TakeProfitIsPlacedExactlyWhen(currency: string, oid: OrderId, events: seq<BotEvent>, ctx: Context)
    requires events != [] && Latest(events).orderType == TakeProfit && ctx.snapshot.Some?
    requires |ctx.snapshot.value.activeTakeProfits| <= 1 && Stored(ctx) == [] && ctx.assignments != []
    ensures var plan := Plan(currency, oid, events, ctx);
            if ctx.snapshot.value.position.netQty > 0.000001 && !AlreadyRests(Latest(events), ctx.snapshot.value) then
              |plan| == 1 && plan[0].action.Create? && plan[0].targets == multiset(AssignedIdents(oid, ctx.assignments))
            else plan == []
  {
    FallbacksAreNeverNeeded(currency, events, oid);
    var latest, reduced := Latest(events), Reduce(currency, events, oid, false);
    assert reduced.Create? ==> reduced.order.price == latest.price;
    hide Normalize, Reduce, BuildAction, MissingList;
    assert IdentAt(ctx.assignments[0], oid) in AssignedIdents(oid, ctx.assignments);
    hide AssignedIdents;
    assert Replay(currency, oid, events, ctx) == [];
  }

  /** With several active take-profits in the deal one not placed yet is placed as its snapshot has it. */
  lemma SeveralTakeProfitsLeaveItsSize(currency: string, oid: OrderId, events: seq<BotEvent>, ctx: Context)
    requires events != [] && Latest(events).orderType == TakeProfit && Latest(events).status == Active
    requires ctx.snapshot.Some? && |ctx.snapshot.value.activeTakeProfits| > 1
    requires Stored(ctx) == [] && ctx.assignments != []
    ensures var plan := Plan(currency, oid, events, ctx);
            && |plan| == 1 && plan[0].action.Create?
            && plan[0].targets == multiset(AssignedIdents(oid, ctx.assignments))
            && AsksFor(plan[0].action.order, currency, Latest(events), oid)
  {
    FallbacksAreNeverNeeded(currency, events, oid);
    var latest, reduced := Latest(events), Reduce(currency, events, oid, false);
    assert reduced == Create(ToCreateOrderRequest(currency, latest, oid));
    RequestAsksFor(currency, latest, oid, ToCreateOrderRequest(currency, latest, oid));
    hide Normalize, Reduce, BuildAction, MissingList, AsksFor, ToCreateOrderRequest;
    assert IdentAt(ctx.assignments[0], oid) in AssignedIdents(oid, ctx.assignments);
    hide AssignedIdents;
    assert Replay(currency, oid, events, ctx) == [];
  }

  /** A placed take-profit whose snapshot has noticeably changed is modified wherever it is placed,
      under the same condition. */
  lemma TakeProfitIsModifiedExactlyWhen(currency: string, oid: OrderId, events: seq<BotEvent>, ctx: Context)
    requires events != [] && Latest(events).orderType == TakeProfit && ctx.snapshot.Some?
    requires |ctx.snapshot.value.activeTakeProfits| <= 1 && Stored(ctx) != []
    requires Latest(events).status == Active && PreviousDistinct(events).Some?
    requires PreviousDistinct(events).value.status == Active
             && NeedsModify(PreviousDistinct(events).value, Latest(events))
    ensures var plan := Ordinary(currency, oid, events, ctx);
            if ctx.snapshot.value.position.netQty > 0.000001 && !AlreadyRests(Latest(events), ctx.snapshot.value) then
              |plan| == 1 && plan[0].action.Modify? && plan[0].targets == multiset(Elements(Stored(ctx)))
            else plan == []
  {
    var latest, reduced := Latest(events), Reduce(currency, events, oid, true);
    assert reduced.Modify? && reduced.order.price == latest.price;
    ElementsEmpty(Stored(ctx));
    hide Normalize, Reduce, MissingList, AllTargets;
  }
}
