/** Keeping one take-profit per venue in step with the venue's net position. What the store
    answers, and which requests go through, are parameters. */
module Reconcile {
  import opened Adapter
  import opened OrderIds
  import opened RealSums
  import opened Targeting
  import opened TrackerDeals
  import opened TrackerOrders
  import opened Wrappers

  datatype Metadata = Metadata(order: OrderId, event: BotEvent)

  /** The deal's take-profit metadata, the last request and the last status recorded for each
      submission, and the first submission listed for an order. */
  datatype Store = Store(
    takeProfit: Option<Metadata>, submissions: map<Ident, Action>, statuses: map<Ident, string>,
    submitted: map<OrderId, Ident>)

  predicate Flat(net: real) { net <= 0.000001 }

  predicate CloseTo(a: real, b: real) { Abs(a - b) <= 0.000001 }

  predicate IsLive(status: string) { status == "open" || status == "live" }

  predicate HasLiveStatus(store: Store, ident: Ident) {
    ident in store.statuses && IsLive(store.statuses[ident])
  }

  predicate SubmissionMatches(action: Action, size: real) {
    match action
    case Create(order) => order.reduceOnly && CloseTo(order.size, size)
    case Modify(order) => order.reduceOnly && CloseTo(order.size, size)
    case _ => false
  }

  predicate AlreadySubmitted(store: Store, ident: Ident, size: real) {
    ident in store.submissions && SubmissionMatches(store.submissions[ident], size) && HasLiveStatus(store, ident)
  }

  /** The take-profit tracked at a venue, the last in the list winning. */
  function TakeProfitAt(list: seq<OrderSnapshot>, key: VenueKey): Option<OrderSnapshot>
    decreases |list|
  {
    if list == [] then None
    else if KeyOf(list[|list| - 1].ident) == key then Some(list[|list| - 1])
    else TakeProfitAt(list[..|list| - 1], key)
  }

  /** The order of the first take-profit on record in the deal. */
  function FirstRecord(list: seq<OrderSnapshot>): Option<OrderId>
    decreases |list|
  {
    if list == [] then None
    else if IsTakeProfitRecord(list[0].data) then Some(list[0].ident.order)
    else FirstRecord(list[1..])
  }

  function FirstWithEvent(list: seq<OrderSnapshot>, event: BotEvent): Option<Ident>
    decreases |list|
  {
    if list == [] then None
    else if IsTakeProfitRecord(list[0].data) && list[0].data.event == Some(event) then Some(list[0].ident)
    else FirstWithEvent(list[1..], event)
  }

  function TakeProfitOrder(store: Store, snap: DealSnapshot): Option<OrderId> {
    if FirstRecord(snap.orders).Some? then FirstRecord(snap.orders)
    else if store.takeProfit.Some? then Some(store.takeProfit.value.order)
    else None
  }

  function BuildTakeProfitIdentifier(store: Store, snap: DealSnapshot, key: VenueKey): Option<Ident> {
    match TakeProfitOrder(store, snap)
    case None => None
    case Some(order) => Some(Ident(key.venue, key.wallet, order))
  }

  datatype Context = Context(ident: Ident, event: BotEvent)

  function LookupTakeProfitContext(store: Store, snap: DealSnapshot, preferred: Option<Ident>): Option<Context> {
    var event := snap.lastTakeProfitEvent;
    var ident := if preferred.None? && event.Some? then FirstWithEvent(snap.orders, event.value) else preferred;
    if ident.Some? && event.Some? then Some(Context(ident.value, event.value))
    else
      match store.takeProfit
      case None => None
      case Some(stored) =>
        if ident.None? && stored.order !in store.submitted then None
        else Some(Context(if ident.Some? then ident.value else store.submitted[stored.order],
                          if event.Some? then event.value else stored.event))
  }

  function Sized(snap: DealSnapshot, event: BotEvent, order: OrderId, size: real): OrderRequest {
    ToCreateOrderRequest(snap.currency, event, order).(size := size, reduceOnly := true)
  }

  function EnsureTakeProfit(store: Store, snap: DealSnapshot, size: real, preferred: Option<Ident>,
                            force: bool): seq<Work>
  {
    match LookupTakeProfitContext(store, snap, preferred)
    case None => []
    case Some(context) =>
      if !force && (HasLiveStatus(store, context.ident) || AlreadySubmitted(store, context.ident, size)) then []
      else [Work(context.ident, Create(Sized(snap, context.event, context.ident.order, size)))]
  }

  function CancelWork(snap: DealSnapshot, tp: OrderSnapshot): Work {
    Work(tp.ident, Cancel(snap.currency, tp.ident.order))
  }

  function ReconcileActive(store: Store, snap: DealSnapshot, tp: OrderSnapshot, size: real,
                           performed: Work -> bool): seq<Work>
  {
    if tp.data.reduceOnly && CloseTo(tp.data.remaining, size) then []
    else
      var event := if tp.data.event.Some? then tp.data.event else snap.lastTakeProfitEvent;
      if event.Some? then
        if AlreadySubmitted(store, tp.ident, size) then []
        else [Work(tp.ident, Modify(Sized(snap, event.value, tp.ident.order, size)))]
      else if !performed(CancelWork(snap, tp)) then [CancelWork(snap, tp)]
      else [CancelWork(snap, tp)] + EnsureTakeProfit(store, snap, size, Some(tp.ident), true)
  }

  /** What is requested at one venue whose net position is known. */
  function VenueWorks(store: Store, snap: DealSnapshot, key: VenueKey, net: real, performed: Work -> bool): seq<Work> {
    match TakeProfitAt(snap.activeTakeProfits, key)
    case Some(tp) => if Flat(net) then [CancelWork(snap, tp)] else ReconcileActive(store, snap, tp, net, performed)
    case None =>
      if Flat(net) then [] else EnsureTakeProfit(store, snap, net, BuildTakeProfitIdentifier(store, snap, key), false)
  }

  /** A take-profit at a venue with no orders at all would be cancelled. */
  function StrayWorks(snap: DealSnapshot, key: VenueKey): seq<Work> {
    match TakeProfitAt(snap.activeTakeProfits, key)
    case Some(tp) => [CancelWork(snap, tp)]
    case None => []
  }

  function Planned(store: Store, snap: DealSnapshot, key: VenueKey, performed: Work -> bool): seq<Work> {
    if snap.dealID == 0 || !snap.allBuysFilled then []
    else if key in Venues(IdentsOf(snap.orders)) then
      VenueWorks(store, snap, key, VenueNet(snap.orders, key), performed)
    else StrayWorks(snap, key)
  }

  function WorksAt(works: seq<Work>, key: VenueKey): seq<Work>
    decreases |works|
  {
    if works == [] then []
    else
      var earlier := WorksAt(works[..|works| - 1], key);
      if KeyOf(works[|works| - 1].ident) == key then earlier + [works[|works| - 1]] else earlier
  }

  lemma {:induction false} WorksAtConcat(a: seq<Work>, b: seq<Work>, key: VenueKey)
    ensures WorksAt(a + b, key) == WorksAt(a, key) + WorksAt(b, key)
    decreases |b|
  {
    if b == [] {
      assert a + b == a;
    } else {
      var n := |b| - 1;
      WorksAtConcat(a, b[..n], key);
      assert (a + b)[..|a + b| - 1] == a + b[..n];
    }
  }

  predicate AllAt(works: seq<Work>, key: VenueKey) {
    forall i :: 0 <= i < |works| ==> KeyOf(works[i].ident) == key
  }

  lemma {:induction false} WorksAtAll(works: seq<Work>, key: VenueKey)
    requires AllAt(works, key)
    ensures WorksAt(works, key) == works
    ensures forall other :: other != key ==> WorksAt(works, other) == []
    decreases |works|
  {
    if works != [] {
      WorksAtAll(works[..|works| - 1], key);
    }
  }

  lemma {:induction false} TakeProfitAtIs(list: seq<OrderSnapshot>, key: VenueKey)
    ensures var tp := TakeProfitAt(list, key);
            && (tp.Some? ==> tp.value in list && KeyOf(tp.value.ident) == key)
            && (tp.None? ==> forall i :: 0 <= i < |list| ==> KeyOf(list[i].ident) != key)
    decreases |list|
  {
    if list != [] {
      TakeProfitAtIs(list[..|list| - 1], key);
      assert forall i :: 0 <= i < |list| - 1 ==> list[..|list| - 1][i] == list[i];
    }
  }

  lemma {:induction false} FirstRecordIs(list: seq<OrderSnapshot>)
    ensures FirstRecord(list).None? <==> forall i :: 0 <= i < |list| ==> !IsTakeProfitRecord(list[i].data)
    ensures FirstRecord(list).Some? ==>
              exists i :: 0 <= i < |list| && IsTakeProfitRecord(list[i].data)
                          && list[i].ident.order == FirstRecord(list).value
    decreases |list|
  {
    if list != [] && !IsTakeProfitRecord(list[0].data) {
      FirstRecordIs(list[1..]);
      assert forall i :: 0 < i < |list| ==> list[1..][i - 1] == list[i];
      if FirstRecord(list).Some? {
        var i :| 0 <= i < |list[1..]| && IsTakeProfitRecord(list[1..][i].data)
                 && list[1..][i].ident.order == FirstRecord(list).value;
        assert list[i + 1] == list[1..][i];
      }
    }
  }

  lemma {:induction false} NoRecordNoMatch(list: seq<OrderSnapshot>, event: BotEvent)
    requires FirstRecord(list).None?
    ensures FirstWithEvent(list, event).None?
    decreases |list|
  {
    if list != [] {
      NoRecordNoMatch(list[1..], event);
    }
  }

  /** Looking an identifier up by its event never succeeds where building one failed, so whatever
      is requested for a venue is addressed to that venue. */
  lemma WorksAreAddressed(store: Store, snap: DealSnapshot, key: VenueKey, net: real, performed: Work -> bool)
    ensures AllAt(VenueWorks(store, snap, key, net, performed), key)
    ensures AllAt(StrayWorks(snap, key), key)
  {
    TakeProfitAtIs(snap.activeTakeProfits, key);
    if FirstRecord(snap.orders).None? && snap.lastTakeProfitEvent.Some? {
      NoRecordNoMatch(snap.orders, snap.lastTakeProfitEvent.value);
    }
  }

  method ActiveByVenue(list: seq<OrderSnapshot>) returns (active: map<VenueKey, OrderSnapshot>)
    ensures forall key :: TakeProfitAt(list, key) == if key in active then Some(active[key]) else None
  {
    active := map[];
    for i := 0 to |list|
      invariant forall key :: TakeProfitAt(list[..i], key) == if key in active then Some(active[key]) else None
    {
      assert list[..i + 1][..i] == list[..i];
      active := active[KeyOf(list[i].ident) := list[i]];
    }
    assert list[..|list|] == list;
  }

  method WorksAtVenue(store: Store, snap: DealSnapshot, active: map<VenueKey, OrderSnapshot>, key: VenueKey, net: real,
                      performed: Work -> bool)
    returns (works: seq<Work>)
    requires TakeProfitAt(snap.activeTakeProfits, key) == if key in active then Some(active[key]) else None
    ensures works == VenueWorks(store, snap, key, net, performed)
  {
    if Flat(net) {
      return if key in active then [CancelWork(snap, active[key])] else [];
    }
    if key in active {
      return ReconcileActive(store, snap, active[key], net, performed);
    }
    var ident := BuildTakeProfitIdentifier(store, snap, key);
    works := EnsureTakeProfit(store, snap, net, ident, false);
  }

  ghost predicate PlannedSoFar(store: Store, snap: DealSnapshot, performed: Work -> bool, works: seq<Work>,
                               done: set<VenueKey>)
  {
    forall key :: WorksAt(works, key) == if key in done then Planned(store, snap, key, performed) else []
  }

  lemma PlannedStep(store: Store, snap: DealSnapshot, performed: Work -> bool, works: seq<Work>, done: set<VenueKey>,
                    key: VenueKey, more: seq<Work>)
    requires PlannedSoFar(store, snap, performed, works, done) && key !in done
    requires AllAt(more, key) && more == Planned(store, snap, key, performed)
    ensures PlannedSoFar(store, snap, performed, works + more, done + {key})
  {
    forall k ensures WorksAt(works + more, k) == if k in done + {key} then Planned(store, snap, k, performed) else [] {
      WorksAtConcat(works, more, k);
      WorksAtAll(more, key);
    }
  }

  lemma VenuesWithout(ids: set<Ident>, ident: Ident)
    requires ident in ids && OnePerVenue(ids)
    ensures Venues(ids) == Venues(ids - {ident}) + {KeyOf(ident)} && KeyOf(ident) !in Venues(ids - {ident})
  {
  }

  method AtComputedVenues(store: Store, snap: DealSnapshot, positions: map<Ident, real>,
                          active: map<VenueKey, OrderSnapshot>, performed: Work -> bool)
    returns (works: seq<Work>)
    requires snap.dealID != 0 && snap.allBuysFilled && AreVenuePositions(positions, snap.orders)
    requires forall key ::
               TakeProfitAt(snap.activeTakeProfits, key) == if key in active then Some(active[key]) else None
    ensures PlannedSoFar(store, snap, performed, works, Venues(positions.Keys))
  {
    hide VenueWorks, StrayWorks, PlannedSoFar;
    works := [];
    var remaining := positions.Keys;
    NothingPlanned(store, snap, performed);
    assert Venues(positions.Keys - remaining) == {};
    while remaining != {}
      invariant remaining <= positions.Keys
      invariant PlannedSoFar(store, snap, performed, works, Venues(positions.Keys - remaining))
      decreases |remaining|
    {
      var ident :| ident in remaining;
      var done := positions.Keys - remaining;
      remaining := remaining - {ident};
      assert positions.Keys - remaining == done + {ident} && (done + {ident}) - {ident} == done;
      VenuesWithout(done + {ident}, ident);
      assert KeyOf(ident) in Venues(positions.Keys);
      var more := WorksAtVenue(store, snap, active, KeyOf(ident), positions[ident], performed);
      WorksAreAddressed(store, snap, KeyOf(ident), positions[ident], performed);
      PlannedStep(store, snap, performed, works, Venues(done), KeyOf(ident), more);
      works := works + more;
    }
    assert positions.Keys - remaining == positions.Keys;
  }

  lemma NothingPlanned(store: Store, snap: DealSnapshot, performed: Work -> bool)
    ensures PlannedSoFar(store, snap, performed, [], {})
  {
  }

  method AtOtherVenues(store: Store, snap: DealSnapshot, active: map<VenueKey, OrderSnapshot>, performed: Work -> bool,
                       done: seq<Work>)
    returns (works: seq<Work>)
    requires snap.dealID != 0 && snap.allBuysFilled
    requires forall key ::
               TakeProfitAt(snap.activeTakeProfits, key) == if key in active then Some(active[key]) else None
    requires PlannedSoFar(store, snap, performed, done, Venues(IdentsOf(snap.orders)))
    ensures PlannedSoFar(store, snap, performed, works, Venues(IdentsOf(snap.orders)) + active.Keys)
  {
    hide VenueWorks, PlannedSoFar, Venues, IdentsOf, TakeProfitAt;
    works := done;
    var processed := Venues(IdentsOf(snap.orders));
    var stray := active.Keys - processed;
    while stray != {}
      invariant stray == active.Keys - processed && Venues(IdentsOf(snap.orders)) <= processed
      invariant processed <= Venues(IdentsOf(snap.orders)) + active.Keys
      invariant PlannedSoFar(store, snap, performed, works, processed)
      decreases |stray|
    {
      var key :| key in stray;
      WorksAreAddressed(store, snap, key, 0.0, performed);
      PlannedStep(store, snap, performed, works, processed, key, [CancelWork(snap, active[key])]);
      works := works + [CancelWork(snap, active[key])];
      processed := processed + {key};
      stray := stray - {key};
    }
    assert forall k :: k in active.Keys ==> k in processed || k in stray;
    assert processed == Venues(IdentsOf(snap.orders)) + active.Keys;
  }

  /** One pass over a deal: the requests made at each venue are exactly those planned for it. */
  method ReconcileSnapshot(store: Store, snap: DealSnapshot, performed: Work -> bool) returns (works: seq<Work>)
    ensures forall key :: WorksAt(works, key) == Planned(store, snap, key, performed)
  {
    if snap.dealID == 0 || !snap.allBuysFilled {
      return [];
    }
    var positions := CalculateVenuePositions(snap.orders);
    var active := ActiveByVenue(snap.activeTakeProfits);
    works := AtComputedVenues(store, snap, positions, active, performed);
    works := AtOtherVenues(store, snap, active, performed, works);
    hide VenueWorks;
    forall key ensures WorksAt(works, key) == Planned(store, snap, key, performed) {
    }
  }

  // ---------- one pass ----------

  ghost predicate Recorded(orders: Orders) {
    forall id :: id in orders && orders[id].reduceOnly ==> orders[id].event.Some?
  }

  lemma ActiveAt(snap: DealSnapshot, orders: Orders, key: VenueKey)
    requires SnapshotOf(snap, orders)
    ensures var tp := TakeProfitAt(snap.activeTakeProfits, key);
            && (tp.Some? ==>
                  && tp.value.ident in orders && orders[tp.value.ident] == tp.value.data
                  && IsActiveTakeProfit(tp.value.data) && KeyOf(tp.value.ident) == key)
            && (tp.None? ==> forall id :: id in orders && KeyOf(id) == key ==> !IsActiveTakeProfit(orders[id]))
  {
    TakeProfitAtIs(snap.activeTakeProfits, key);
    ActiveTakeProfitsAre(snap, orders);
    forall id | id in orders && KeyOf(id) == key && IsActiveTakeProfit(orders[id])
      ensures OrderSnapshot(id, orders[id]) in snap.activeTakeProfits
    {
    }
  }

  /** Every active take-profit sits at a venue with a computed position, so nothing is ever
      cancelled for sitting elsewhere. */
  lemma NoStrayTakeProfits(snap: DealSnapshot, orders: Orders, key: VenueKey)
    requires SnapshotOf(snap, orders) && key !in Venues(IdentsOf(snap.orders))
    ensures StrayWorks(snap, key) == []
  {
    ActiveAt(snap, orders, key);
    assert forall id :: id in orders ==> KeyOf(id) in Venues(IdentsOf(snap.orders));
  }

  /** Correctness of one pass, venue by venue: at most one request; a flat venue only has its
      active take-profit cancelled; any other venue is only sent a reduce-only request for exactly
      its net position; and cancel-and-recreate never happens. */
  lemma ReconcilesVenue(store: Store, snap: DealSnapshot, orders: Orders, key: VenueKey, performed: Work -> bool)
    requires SnapshotOf(snap, orders) && Recorded(orders)
    ensures var works := Planned(store, snap, key, performed);
            var net := Sum(orders, SignedAt(key));
            && |works| <= 1
            && (forall i :: 0 <= i < |works| ==> KeyOf(works[i].ident) == key && RightRequest(orders, works[i], net))
  {
    TotalIsSum(snap.orders, orders, SignedAt(key));
    WorksAreAddressed(store, snap, key, VenueNet(snap.orders, key), performed);
    ActiveAt(snap, orders, key);
    if key !in Venues(IdentsOf(snap.orders)) {
      NoStrayTakeProfits(snap, orders, key);
    }
  }

  ghost predicate RightRequest(orders: Orders, work: Work, net: real) {
    match work.action
    case NoAction(_) => false
    case Create(order) =>
      && !Flat(net) && order.reduceOnly && order.size == net && order.cloid == work.ident.order
      && forall id :: id in orders && KeyOf(id) == KeyOf(work.ident) ==> !IsActiveTakeProfit(orders[id])
    case Modify(order) =>
      && !Flat(net) && order.reduceOnly && order.size == net && order.cloid == work.ident.order
      && work.ident in orders && IsActiveTakeProfit(orders[work.ident])
    case Cancel(_, cloid) => Flat(net) && cloid == work.ident.order && work.ident in orders
                             && IsActiveTakeProfit(orders[work.ident])
  }

  /** Of several active take-profits at one venue only the last is ever touched. */
  lemma OnlyTheLastIsTouched(store: Store, snap: DealSnapshot, orders: Orders, key: VenueKey, performed: Work -> bool)
    requires SnapshotOf(snap, orders) && Recorded(orders)
    requires TakeProfitAt(snap.activeTakeProfits, key).Some?
    ensures forall i :: 0 <= i < |Planned(store, snap, key, performed)| ==>
              Planned(store, snap, key, performed)[i].ident == TakeProfitAt(snap.activeTakeProfits, key).value.ident
  {
    ActiveAt(snap, orders, key);
  }

  // ---------- the next pass ----------

  ghost predicate OneTakeProfitPerVenue(orders: Orders) {
    forall a, b ::
      (a in orders && b in orders && IsActiveTakeProfit(orders[a]) && IsActiveTakeProfit(orders[b])
       && KeyOf(a) == KeyOf(b)) ==>
      a == b
  }

  /** A submission of the take-profit order that the store knows to be live is tracked as active. */
  ghost predicate LiveIsTracked(store: Store, snap: DealSnapshot, orders: Orders) {
    forall id :: HasLiveStatus(store, id) && TakeProfitOrder(store, snap) == Some(id.order) ==>
      id in orders && IsActiveTakeProfit(orders[id])
  }

  function FillOf(orders: Orders, ident: Ident): real {
    if ident in orders then Signed(ident, orders[ident]) else 0.0
  }

  ghost predicate SameAt(before: Orders, after: Orders, key: VenueKey, except: Option<Ident>) {
    forall id :: KeyOf(id) == key && Some(id) != except ==>
      (id in before <==> id in after) && (id in before ==> after[id] == before[id])
  }

  /** The venue did as asked, and no fill changed meanwhile. */
  ghost predicate Performed(before: Orders, after: Orders, work: Work) {
    && work.ident in after && FillOf(after, work.ident) == FillOf(before, work.ident)
    && match work.action
       case NoAction(_) => false
       case Create(order) => IsActiveTakeProfit(after[work.ident]) && after[work.ident].remaining == order.size
       case Modify(order) => IsActiveTakeProfit(after[work.ident]) && after[work.ident].remaining == order.size
       case Cancel(_, _) => !IsActiveOrder(after[work.ident])
  }

  ghost predicate Honoured(before: Orders, after: Orders, key: VenueKey, works: seq<Work>) {
    if works == [] then SameAt(before, after, key, None)
    else SameAt(before, after, key, Some(works[0].ident)) && Performed(before, after, works[0])
  }

  predicate SameAnswers(store: Store, later: Store, ident: Ident) {
    && HasLiveStatus(later, ident) == HasLiveStatus(store, ident)
    && (ident in later.submissions <==> ident in store.submissions)
    && (ident in store.submissions ==> later.submissions[ident] == store.submissions[ident])
  }

  lemma NetUnchanged(before: Orders, after: Orders, key: VenueKey, works: seq<Work>)
    requires Honoured(before, after, key, works) && AllAt(works, key)
    ensures Sum(after, SignedAt(key)) == Sum(before, SignedAt(key))
  {
    SumSameSupport(after, before, SignedAt(key));
  }

  /** The requested order is the venue's take-profit at the next pass, and it is the only one. */
  lemma OnlyTheRequested(before: Orders, after: Orders, key: VenueKey, work: Work, t: Ident)
    requires Honoured(before, after, key, [work]) && KeyOf(work.ident) == key
    requires work.ident in before && IsActiveTakeProfit(before[work.ident]) ==> OneTakeProfitPerVenue(before)
    requires !(work.ident in before && IsActiveTakeProfit(before[work.ident])) ==>
               forall id :: id in before && KeyOf(id) == key ==> !IsActiveTakeProfit(before[id])
    requires t in after && KeyOf(t) == key && IsActiveTakeProfit(after[t])
    ensures t == work.ident
  {
  }

  lemma NoContextNoRecord(store: Store, snap: DealSnapshot, orders: Orders, key: VenueKey)
    requires SnapshotOf(snap, orders)
    requires LookupTakeProfitContext(store, snap, BuildTakeProfitIdentifier(store, snap, key)).None?
    ensures store.takeProfit.None? && forall id :: id in orders ==> !IsTakeProfitRecord(orders[id])
  {
    FirstRecordIs(snap.orders);
    IdentsOfAre(snap.orders);
    forall id | id in orders
      ensures exists i :: 0 <= i < |snap.orders| && snap.orders[i].ident == id && snap.orders[i].data == orders[id]
    {
      var i :| 0 <= i < |snap.orders| && snap.orders[i].ident == id;
    }
    hide IdentsOf, PositionOf, Keep, BuysAllFilled;
  }

  lemma NoRecordNoContext(store: Store, snap: DealSnapshot, orders: Orders, key: VenueKey)
    requires SnapshotOf(snap, orders)
    requires store.takeProfit.None? && forall id :: id in orders ==> !IsTakeProfitRecord(orders[id])
    ensures LookupTakeProfitContext(store, snap, BuildTakeProfitIdentifier(store, snap, key)).None?
  {
    FirstRecordIs(snap.orders);
    IdentsOfAre(snap.orders);
    assert forall i :: 0 <= i < |snap.orders| ==> !IsTakeProfitRecord(snap.orders[i].data);
    assert snap.lastTakeProfitEvent.None?;
  }

  /** With no take-profit on record anywhere, nothing is requested anywhere. */
  lemma NoRecordNoWorks(store: Store, snap: DealSnapshot, orders: Orders, key: VenueKey, performed: Work -> bool)
    requires SnapshotOf(snap, orders) && Recorded(orders)
    requires store.takeProfit.None? && forall id :: id in orders ==> !IsTakeProfitRecord(orders[id])
    ensures Planned(store, snap, key, performed) == []
  {
    ActiveAt(snap, orders, key);
    NoRecordNoContext(store, snap, orders, key);
  }

  lemma VenueNetIs(snap: DealSnapshot, orders: Orders, key: VenueKey)
    requires SnapshotOf(snap, orders)
    ensures VenueNet(snap.orders, key) == Sum(orders, SignedAt(key))
  {
    TotalIsSum(snap.orders, orders, SignedAt(key));
  }

  /** After the venue did as asked, its take-profit is the requested one, or none after a cancel. */
  lemma WorkedTakeProfit(next: DealSnapshot, before: Orders, after: Orders, key: VenueKey, work: Work, net: real)
    requires SnapshotOf(next, after) && OneTakeProfitPerVenue(before)
    requires KeyOf(work.ident) == key && RightRequest(before, work, net)
    requires Honoured(before, after, key, [work])
    ensures match TakeProfitAt(next.activeTakeProfits, key)
            case None => work.action.Cancel?
            case Some(tp) => tp.ident == work.ident && tp.data == after[work.ident] && !work.action.Cancel?
  {
    ActiveAt(next, after, key);
    hide SnapshotOf;
    var tp := TakeProfitAt(next.activeTakeProfits, key);
    if tp.Some? {
      OnlyTheRequested(before, after, key, work, tp.value.ident);
    }
  }

  lemma WorkedVenueIsQuiet(later: Store, next: DealSnapshot, before: Orders, after: Orders, key: VenueKey, work: Work,
                           performed: Work -> bool)
    requires SnapshotOf(next, after) && OneTakeProfitPerVenue(before)
    requires KeyOf(work.ident) == key && RightRequest(before, work, Sum(before, SignedAt(key)))
    requires Honoured(before, after, key, [work])
    ensures Planned(later, next, key, performed) == []
  {
    NetUnchanged(before, after, key, [work]);
    VenueNetIs(next, after, key);
    WorkedTakeProfit(next, before, after, key, work, Sum(before, SignedAt(key)));
    if key !in Venues(IdentsOf(next.orders)) {
      NoStrayTakeProfits(next, after, key);
    }
    hide SnapshotOf, OneTakeProfitPerVenue, SameAt, Venues, IdentsOf, VenueNet, TakeProfitAt, LookupTakeProfitContext;
  }

  ghost predicate Agree(store: Store, later: Store, key: VenueKey) {
    later.takeProfit == store.takeProfit && forall id :: KeyOf(id) == key ==> SameAnswers(store, later, id)
  }

  lemma SameTakeProfit(snap: DealSnapshot, next: DealSnapshot, before: Orders, after: Orders, key: VenueKey)
    requires SnapshotOf(snap, before) && SnapshotOf(next, after) && SameAt(before, after, key, None)
    requires OneTakeProfitPerVenue(before)
    ensures TakeProfitAt(next.activeTakeProfits, key) == TakeProfitAt(snap.activeTakeProfits, key)
  {
    ActiveAt(snap, before, key);
    ActiveAt(next, after, key);
    hide SnapshotOf, TakeProfitAt;
  }

  lemma SameNet(snap: DealSnapshot, next: DealSnapshot, before: Orders, after: Orders, key: VenueKey)
    requires SnapshotOf(snap, before) && SnapshotOf(next, after) && SameAt(before, after, key, None)
    ensures VenueNet(next.orders, key) == VenueNet(snap.orders, key)
  {
    NetUnchanged(before, after, key, []);
    TotalIsSum(snap.orders, before, SignedAt(key));
    TotalIsSum(next.orders, after, SignedAt(key));
  }

  lemma SameVenues(snap: DealSnapshot, next: DealSnapshot, before: Orders, after: Orders, key: VenueKey)
    requires SnapshotOf(snap, before) && SnapshotOf(next, after) && SameAt(before, after, key, None)
    ensures key in Venues(IdentsOf(snap.orders)) <==> key in Venues(IdentsOf(next.orders))
  {
    assert IdentsOf(snap.orders) == before.Keys && IdentsOf(next.orders) == after.Keys;
    if key in Venues(before.Keys) {
      var id :| id in before.Keys && KeyOf(id) == key;
      assert id in after.Keys;
    }
    if key in Venues(after.Keys) {
      var id :| id in after.Keys && KeyOf(id) == key;
      assert id in before.Keys;
    }
  }

  /** A venue with a position and no take-profit is sent one. */
  lemma NeedyVenueIsServed(store: Store, snap: DealSnapshot, orders: Orders, key: VenueKey, net: real,
                           performed: Work -> bool)
    requires SnapshotOf(snap, orders) && LiveIsTracked(store, snap, orders)
    requires TakeProfitAt(snap.activeTakeProfits, key).None? && !Flat(net)
    requires LookupTakeProfitContext(store, snap, BuildTakeProfitIdentifier(store, snap, key)).Some?
    ensures VenueWorks(store, snap, key, net, performed) != []
  {
    ActiveAt(snap, orders, key);
    if FirstRecord(snap.orders).None? && snap.lastTakeProfitEvent.Some? {
      NoRecordNoMatch(snap.orders, snap.lastTakeProfitEvent.value);
    }
  }

  /** Unless it is needy, what a venue is sent depends on its position, its take-profit and what
      the store says of that take-profit, and on nothing else. */
  lemma DecidedByTakeProfit(store: Store, later: Store, snap: DealSnapshot, next: DealSnapshot, key: VenueKey,
                            net: real, performed: Work -> bool)
    requires TakeProfitAt(next.activeTakeProfits, key) == TakeProfitAt(snap.activeTakeProfits, key)
    requires VenueWorks(store, snap, key, net, performed) == []
    requires TakeProfitAt(snap.activeTakeProfits, key).Some? ==>
               var tp := TakeProfitAt(snap.activeTakeProfits, key).value;
               tp.data.event.Some? && SameAnswers(store, later, tp.ident)
    requires TakeProfitAt(snap.activeTakeProfits, key).None? ==> Flat(net)
    ensures VenueWorks(later, next, key, net, performed) == []
  {
  }

  /** A venue that needed nothing, although its deal has take-profits on record, needs nothing. */
  lemma IdleVenueStaysIdle(store: Store, later: Store, snap: DealSnapshot, next: DealSnapshot, before: Orders,
                           after: Orders, key: VenueKey, performed: Work -> bool)
    requires SnapshotOf(snap, before) && SnapshotOf(next, after) && Recorded(before)
    requires snap.dealID != 0 && snap.allBuysFilled
    requires OneTakeProfitPerVenue(before) && LiveIsTracked(store, snap, before)
    requires Planned(store, snap, key, performed) == [] && SameAt(before, after, key, None)
    requires Agree(store, later, key)
    requires LookupTakeProfitContext(store, snap, BuildTakeProfitIdentifier(store, snap, key)).Some?
    ensures Planned(later, next, key, performed) == []
  {
    hide SnapshotOf, VenueWorks, SameAt;
    hide LiveIsTracked, LookupTakeProfitContext, BuildTakeProfitIdentifier, OneTakeProfitPerVenue;
    SameVenues(snap, next, before, after, key);
    SameNet(snap, next, before, after, key);
    SameTakeProfit(snap, next, before, after, key);
    ActiveAt(snap, before, key);
    if key !in Venues(IdentsOf(next.orders)) {
      NoStrayTakeProfits(next, after, key);
    } else {
      var net, tp := VenueNet(snap.orders, key), TakeProfitAt(snap.activeTakeProfits, key);
      if tp.None? && !Flat(net) {
        NeedyVenueIsServed(store, snap, before, key, net, performed);
      } else {
        DecidedByTakeProfit(store, later, snap, next, key, net, performed);
      }
    }
  }

  /** Fixed point: once every venue has done as asked, without its fills changing meanwhile, the
      next pass asks for nothing. */
  lemma NextPassIsQuiet(store: Store, later: Store, snap: DealSnapshot, next: DealSnapshot, before: Orders,
                        after: Orders, key: VenueKey, performed: Work -> bool)
    requires SnapshotOf(snap, before) && SnapshotOf(next, after) && next.dealID == snap.dealID
    requires Recorded(before) && OneTakeProfitPerVenue(before) && LiveIsTracked(store, snap, before)
    requires forall k :: Honoured(before, after, k, Planned(store, snap, k, performed))
    requires forall k :: Planned(store, snap, k, performed) == [] ==> Agree(store, later, k)
    ensures Planned(later, next, key, performed) == []
  {
    var works := Planned(store, snap, key, performed);
    ReconcilesVenue(store, snap, before, key, performed);
    hide SnapshotOf, VenueWorks, StrayWorks, LookupTakeProfitContext, BuildTakeProfitIdentifier, RightRequest;
    hide SameAt, Performed, SameAnswers, Recorded, LiveIsTracked, OneTakeProfitPerVenue;
    if works != [] {
      assert works == [works[0]];
      WorkedVenueIsQuiet(later, next, before, after, key, works[0], performed);
    } else if snap.dealID != 0 && snap.allBuysFilled {
      if LookupTakeProfitContext(store, snap, BuildTakeProfitIdentifier(store, snap, key)).Some? {
        IdleVenueStaysIdle(store, later, snap, next, before, after, key, performed);
      } else {
        NoContextNoRecord(store, snap, before, key);
        NothingRecordedNothingChanges(store, snap, before, after, performed);
        NoRecordNoWorks(later, next, after, key, performed);
      }
    } else {
      NothingPlannedNothingChanges(store, snap, before, after, performed);
    }
  }

  lemma NothingPlannedNothingChanges(store: Store, snap: DealSnapshot, before: Orders, after: Orders,
                                     performed: Work -> bool)
    requires forall k :: Planned(store, snap, k, performed) == []
    requires forall k :: Honoured(before, after, k, Planned(store, snap, k, performed))
    ensures after == before
  {
    forall id ensures (id in before <==> id in after) && (id in before ==> after[id] == before[id]) {
      assert Honoured(before, after, KeyOf(id), Planned(store, snap, KeyOf(id), performed));
    }
  }

  lemma NothingRecordedNothingChanges(store: Store, snap: DealSnapshot, before: Orders, after: Orders,
                                      performed: Work -> bool)
    requires SnapshotOf(snap, before) && Recorded(before)
    requires store.takeProfit.None? && forall id :: id in before ==> !IsTakeProfitRecord(before[id])
    requires forall k :: Honoured(before, after, k, Planned(store, snap, k, performed))
    ensures after == before
  {
    forall k ensures Planned(store, snap, k, performed) == [] {
      NoRecordNoWorks(store, snap, before, k, performed);
    }
    NothingPlannedNothingChanges(store, snap, before, after, performed);
  }

  lemma {:induction false} QuietEverywhere(works: seq<Work>)
    ensures (forall key :: WorksAt(works, key) == []) ==> works == []
  {
    if works != [] {
      assert WorksAt(works, KeyOf(works[|works| - 1].ident)) != [];
    }
  }
}
