/** Reconciling the deals of a live tracker: take a consistent snapshot, ask for what it needs, and
    record the cancellations that went through. */
module TakeProfits {
  import opened Adapter
  import opened OrderIds
  import opened RealSums
  import opened Reconcile
  import opened Targeting
  import opened TrackerDeals
  import opened TrackerOrders
  import opened TrackerService
  import opened Wrappers
  import A = Acknowledged
  import E = TrackerEffects
  import M = TrackerModel

  function Cancelled(t: M.Tracker, works: seq<Work>, performed: Work -> bool, now: int): M.Tracker
    decreases |works|
  {
    if works == [] then t
    else
      var earlier, last := Cancelled(t, works[..|works| - 1], performed, now), works[|works| - 1];
      if last.action.Cancel? && performed(last) then M.MarkOrderCancelled(earlier, last.ident, now) else earlier
  }

  /** The order's cancellation was among those requested, and went through. */
  ghost predicate WentThrough(works: seq<Work>, performed: Work -> bool, ident: Ident) {
    exists i :: 0 <= i < |works| && works[i].ident == ident && works[i].action.Cancel? && performed(works[i])
  }

  /** Exactly the tracked orders whose cancellation went through are recorded as cancelled, each with
      its fill as it was; every other order is untouched. */
  lemma {:induction false} RecordsWhatWentThrough(t: M.Tracker, works: seq<Work>, performed: Work -> bool, now: int,
                                                  ident: Ident)
    ensures var after := Cancelled(t, works, performed, now);
            && after.orders.Keys == t.orders.Keys
            && (ident in t.orders ==>
                  if WentThrough(works, performed, ident) then E.OnlyCancelled(t.orders[ident], after.orders[ident])
                  else after.orders[ident] == t.orders[ident])
    decreases |works|
  {
    hide E.OnlyCancelled, M.MarkOrderCancelled;
    if works != [] {
      var n := |works| - 1;
      RecordsWhatWentThrough(t, works[..n], performed, now, ident);
      WentThroughNext(works, performed, ident);
      var earlier := Cancelled(t, works[..n], performed, now);
      E.CancellingKeepsTheFill(earlier, works[n].ident, now);
      if ident in t.orders && works[n].ident == ident && WentThrough(works[..n], performed, ident) {
        CancelledTwice(t.orders[ident], earlier.orders[ident], M.MarkOrderCancelled(earlier, ident, now).orders[ident]);
      }
    }
  }

  lemma WentThroughNext(works: seq<Work>, performed: Work -> bool, ident: Ident)
    requires works != []
    ensures var n := |works| - 1;
            WentThrough(works, performed, ident) <==>
              WentThrough(works[..n], performed, ident)
              || (works[n].ident == ident && works[n].action.Cancel? && performed(works[n]))
  {
    var n := |works| - 1;
    if i :| 0 <= i < |works| && works[i].ident == ident && works[i].action.Cancel? && performed(works[i]) {
      assert i < n ==> works[..n][i] == works[i];
    }
    if i :| 0 <= i < n && works[..n][i].ident == ident && works[..n][i].action.Cancel? && performed(works[..n][i]) {
      assert works[i].ident == ident;
    }
  }

  lemma CancelledTwice(before: OrderData, once: OrderData, twice: OrderData)
    requires E.OnlyCancelled(before, once) && E.OnlyCancelled(once, twice)
    ensures E.OnlyCancelled(before, twice)
  {
    hide IsCanceledStatus, IsActiveOrder;
  }

  ghost predicate PlannedFrom(works: seq<Work>, store: Store, snap: DealSnapshot, performed: Work -> bool) {
    forall key :: WorksAt(works, key) == Planned(store, snap, key, performed)
  }

  /** The requests are those planned for some snapshot of the deal. */
  ghost predicate PlannedFor(works: seq<Work>, store: Store, orders: Orders, d: int, performed: Work -> bool) {
    exists snap: DealSnapshot ::
      snap.dealID == d && SnapshotOf(snap, orders) && PlannedFrom(works, store, snap, performed)
  }

  lemma PlannedForOne(works: seq<Work>, store: Store, snap: DealSnapshot, orders: Orders, performed: Work -> bool)
    requires SnapshotOf(snap, orders) && forall key :: WorksAt(works, key) == Planned(store, snap, key, performed)
    ensures PlannedFor(works, store, orders, snap.dealID, performed)
  {
    assert PlannedFrom(works, store, snap, performed);
    hide SnapshotOf, Planned;
  }

  /** Something is requested exactly when something is planned at some venue. */
  lemma RequestsExactlyWhenPlanned(works: seq<Work>, store: Store, snap: DealSnapshot, performed: Work -> bool)
    requires PlannedFrom(works, store, snap, performed)
    ensures works != [] <==> exists key :: Planned(store, snap, key, performed) != []
  {
    hide Planned;
    if works != [] {
      QuietEverywhere(works);
      var key :| WorksAt(works, key) != [];
      assert Planned(store, snap, key, performed) != [];
    } else {
      forall key ensures Planned(store, snap, key, performed) == [] {
        assert WorksAt(works, key) == [];
      }
    }
  }

  // ---------- one deal ----------

  method RecordCancellations(s: Service, works: seq<Work>, performed: Work -> bool, now: int)
    requires s.Valid()
    modifies s`deals, s`dealObjects, s.orderObjects, s.dealObjects
    ensures s.Valid() && s.State() == Cancelled(old(s.State()), works, performed, now)
    ensures fresh(s.dealObjects - old(s.dealObjects))
  {
    hide M.MarkOrderCancelled;
    hide Service.OrdersIndexed, Service.DealsIndexed, Service.Listed, Service.Cached, Service.State;
    for i := 0 to |works|
      invariant s.Valid() && s.State() == Cancelled(old(s.State()), works[..i], performed, now)
      invariant fresh(s.dealObjects - old(s.dealObjects)) && s.orderObjects == old(s.orderObjects)
    {
      assert works[..i + 1][..i] == works[..i];
      if works[i].action.Cancel? && performed(works[i]) {
        s.MarkOrderCancelled(works[i].ident, now);
      }
    }
    assert works[..|works|] == works;
  }

  method ReconcileShown(s: Service, d: int, snap: DealSnapshot, store: Store, performed: Work -> bool, now: int)
    returns (works: seq<Work>)
    requires s.Valid() && snap.dealID == d && SnapshotOf(snap, M.DealOrders(s.View(), d))
    modifies s`deals, s`dealObjects, s.orderObjects, s.dealObjects
    ensures s.Valid() && s.State() == Cancelled(old(s.State()), works, performed, now)
    ensures PlannedFor(works, store, old(M.DealOrders(s.View(), d)), d, performed)
    ensures fresh(s.dealObjects - old(s.dealObjects))
  {
    hide SnapshotOf, Planned, Service.OrdersIndexed, Service.DealsIndexed, Service.Listed, Service.Cached, M.DealOrders;
    hide PlannedFor, Cancelled;
    works := ReconcileSnapshot(store, snap, performed);
    PlannedForOne(works, store, snap, M.DealOrders(s.View(), d), performed);
    RecordCancellations(s, works, performed, now);
  }

  method ReconcileDeal(s: Service, d: int, store: Store, performed: Work -> bool, now: int) returns (works: seq<Work>)
    requires s.Valid() && d in s.deals
    modifies s`deals, s`dealObjects, s.orderObjects, s.dealObjects
    ensures s.Valid() && s.State() == Cancelled(old(s.State()), works, performed, now)
    ensures PlannedFor(works, store, old(M.DealOrders(s.View(), d)), d, performed)
    ensures fresh(s.dealObjects - old(s.dealObjects))
  {
    hide SnapshotOf, PlannedFor, Cancelled, M.DealOrders;
    hide Service.OrdersIndexed, Service.DealsIndexed, Service.Listed, Service.Cached;
    var snap := s.SnapshotOfDeal(d);
    works := ReconcileShown(s, d, snap, store, performed, now);
  }

  // ---------- every deal, behind the gate ----------

  /** Recording cancellations changes orders and nothing of which deals are tracked. */
  function CancelledOrders(orders: Orders, works: seq<Work>, performed: Work -> bool, now: int): Orders
    decreases |works|
  {
    if works == [] then orders
    else
      var earlier, last := CancelledOrders(orders, works[..|works| - 1], performed, now), works[|works| - 1];
      if last.action.Cancel? && performed(last) && last.ident in earlier then
        earlier[last.ident := MarkCancelled(earlier[last.ident], now)]
      else earlier
  }

  ghost predicate CancelsIn(works: seq<Work>, d: int) {
    forall i :: 0 <= i < |works| && works[i].action.Cancel? ==> works[i].ident.order.dealID == d
  }

  lemma {:induction false} CancelledAre(t: M.Tracker, works: seq<Work>, performed: Work -> bool, now: int, d: int)
    requires CancelsIn(works, d) && d in t.updated
    ensures Cancelled(t, works, performed, now).orders == CancelledOrders(t.orders, works, performed, now)
    ensures Cancelled(t, works, performed, now).updated.Keys == t.updated.Keys
    decreases |works|
  {
    if works != [] {
      CancelledAre(t, works[..|works| - 1], performed, now, d);
    }
  }

  lemma {:induction false} OtherDealsKeep(orders: Orders, works: seq<Work>, performed: Work -> bool, now: int, d: int,
                                          other: int)
    requires CancelsIn(works, d) && other != d
    ensures M.DealOrders(CancelledOrders(orders, works, performed, now), other) == M.DealOrders(orders, other)
    decreases |works|
  {
    if works != [] {
      OtherDealsKeep(orders, works[..|works| - 1], performed, now, d, other);
    }
  }

  lemma {:induction false} OwnDealAlone(orders: Orders, works: seq<Work>, performed: Work -> bool, now: int, d: int)
    requires CancelsIn(works, d)
    ensures M.DealOrders(CancelledOrders(orders, works, performed, now), d) ==
            CancelledOrders(M.DealOrders(orders, d), works, performed, now)
    decreases |works|
  {
    if works != [] {
      OwnDealAlone(orders, works[..|works| - 1], performed, now, d);
    }
  }

  lemma PlannedCancelsStay(works: seq<Work>, store: Store, orders: Orders, d: int, performed: Work -> bool)
    requires PlannedFor(works, store, orders, d, performed)
    requires forall id :: id in orders ==> id.order.dealID == d
    ensures CancelsIn(works, d)
  {
    var snap: DealSnapshot :|
      snap.dealID == d && SnapshotOf(snap, orders) && PlannedFrom(works, store, snap, performed);
    forall i | 0 <= i < |works| && works[i].action.Cancel? ensures works[i].ident.order.dealID == d {
      var key := KeyOf(works[i].ident);
      A.WorkIsAtItsVenue(works, i);
      CancelsAreTracked(store, snap, orders, key, performed, works[i]);
    }
  }

  lemma CancelsAreTracked(store: Store, snap: DealSnapshot, orders: Orders, key: VenueKey, performed: Work -> bool,
                          work: Work)
    requires SnapshotOf(snap, orders) && work in Planned(store, snap, key, performed) && work.action.Cancel?
    ensures work.ident in orders
  {
    ActiveAt(snap, orders, key);
    hide SnapshotOf, LookupTakeProfitContext, TakeProfitAt, ToCreateOrderRequest, VenueNet, IdentsOf;
  }

  predicate StatusesHydrated(t: M.Tracker) { !t.required || t.hydrated }

  /** What is done for one deal of a pass: its requests are planned for its orders as they were, and
      its cancellations are recorded. */
  ghost predicate DealDone(was: Orders, becomes: Orders, works: seq<Work>, store: Store, d: int,
                           performed: Work -> bool, now: int)
  {
    && PlannedFor(works, store, M.DealOrders(was, d), d, performed)
    && M.DealOrders(becomes, d) == CancelledOrders(M.DealOrders(was, d), works, performed, now)
  }

  lemma DealDoneByOne(t: M.Tracker, after: M.Tracker, works: seq<Work>, store: Store, d: int, performed: Work -> bool,
                      now: int)
    requires d in t.updated && after == Cancelled(t, works, performed, now)
    requires PlannedFor(works, store, M.DealOrders(t.orders, d), d, performed)
    ensures DealDone(t.orders, after.orders, works, store, d, performed, now)
    ensures forall other :: other != d ==> M.DealOrders(after.orders, other) == M.DealOrders(t.orders, other)
    ensures after.updated.Keys == t.updated.Keys
  {
    PlannedCancelsStay(works, store, M.DealOrders(t.orders, d), d, performed);
    CancelledAre(t, works, performed, now, d);
    OwnDealAlone(t.orders, works, performed, now, d);
    forall other | other != d ensures M.DealOrders(after.orders, other) == M.DealOrders(t.orders, other) {
      OtherDealsKeep(t.orders, works, performed, now, d, other);
    }
  }

  method PassOverDeal(s: Service, d: int, store: Store, performed: Work -> bool, now: int) returns (works: seq<Work>)
    requires s.Valid() && d in s.deals
    modifies s`deals, s`dealObjects, s.orderObjects, s.dealObjects
    ensures s.Valid() && fresh(s.dealObjects - old(s.dealObjects)) && s.deals.Keys == old(s.deals.Keys)
    ensures DealDone(old(s.View()), s.View(), works, store, d, performed, now)
    ensures forall other :: other != d ==> M.DealOrders(s.View(), other) == old(M.DealOrders(s.View(), other))
  {
    hide DealDone, PlannedFor, M.DealOrders;
    hide Service.OrdersIndexed, Service.DealsIndexed, Service.Listed, Service.Cached;
    s.UpdatedKeys();
    ghost var before := s.State();
    works := ReconcileDeal(s, d, store, performed, now);
    s.UpdatedKeys();
    DealDoneByOne(before, s.State(), works, store, d, performed, now);
  }

  ghost predicate AllDone(was: Orders, becomes: Orders, works: map<int, seq<Work>>, stores: int -> Store,
                          performed: Work -> bool, now: int)
  {
    forall d :: d in works ==> DealDone(was, becomes, works[d], stores(d), d, performed, now)
  }

  ghost predicate StillToDo(was: Orders, becomes: Orders, remaining: set<int>) {
    forall d :: d in remaining ==> M.DealOrders(becomes, d) == M.DealOrders(was, d)
  }

  /** Part of the way through a pass over the tracked deals: those in `works` are done and the
      remaining ones are as they were. */
  ghost predicate Underway(was: Orders, becomes: Orders, works: map<int, seq<Work>>, remaining: set<int>,
                           tracked: set<int>, stores: int -> Store, performed: Work -> bool, now: int)
  {
    && works.Keys == tracked - remaining && remaining <= tracked
    && StillToDo(was, becomes, remaining) && AllDone(was, becomes, works, stores, performed, now)
  }

  lemma NothingDone(orders: Orders, tracked: set<int>, stores: int -> Store, performed: Work -> bool, now: int)
    ensures Underway(orders, orders, map[], tracked, tracked, stores, performed, now)
  {
  }

  lemma OneMoreDone(first: Orders, before: Orders, after: Orders, works: map<int, seq<Work>>, remaining: set<int>,
                    tracked: set<int>, d: int, made: seq<Work>, stores: int -> Store, performed: Work -> bool, now: int)
    requires d in remaining && Underway(first, before, works, remaining, tracked, stores, performed, now)
    requires DealDone(before, after, made, stores(d), d, performed, now)
    requires forall other :: other != d ==> M.DealOrders(after, other) == M.DealOrders(before, other)
    ensures Underway(first, after, works[d := made], remaining - {d}, tracked, stores, performed, now)
  {
    hide PlannedFor, CancelledOrders, M.DealOrders;
  }

  lemma AllAreDone(was: Orders, becomes: Orders, works: map<int, seq<Work>>, tracked: set<int>, stores: int -> Store,
                   performed: Work -> bool, now: int)
    requires Underway(was, becomes, works, {}, tracked, stores, performed, now)
    ensures works.Keys == tracked && AllDone(was, becomes, works, stores, performed, now)
  {
  }

  method PassOverNext(s: Service, works: map<int, seq<Work>>, remaining: set<int>, d: int, stores: int -> Store,
                      performed: Work -> bool, now: int, ghost first: Orders)
    returns (more: map<int, seq<Work>>)
    requires s.Valid() && d in remaining && remaining <= s.deals.Keys
    requires Underway(first, s.View(), works, remaining, s.deals.Keys, stores, performed, now)
    modifies s`deals, s`dealObjects, s.orderObjects, s.dealObjects
    ensures s.Valid() && fresh(s.dealObjects - old(s.dealObjects)) && s.deals.Keys == old(s.deals.Keys)
    ensures Underway(first, s.View(), more, remaining - {d}, s.deals.Keys, stores, performed, now)
  {
    hide Underway, DealDone, M.DealOrders;
    hide Service.OrdersIndexed, Service.DealsIndexed, Service.Listed, Service.Cached, Service.View;
    ghost var before := s.View();
    var made := PassOverDeal(s, d, stores(d), performed, now);
    OneMoreDone(first, before, s.View(), works, remaining, s.deals.Keys, d, made, stores, performed, now);
    more := works[d := made];
  }

  method PassOverRest(s: Service, works: map<int, seq<Work>>, remaining: set<int>, stores: int -> Store,
                      performed: Work -> bool, now: int, ghost first: Orders)
    returns (all: map<int, seq<Work>>)
    requires s.Valid() && remaining <= s.deals.Keys
    requires Underway(first, s.View(), works, remaining, s.deals.Keys, stores, performed, now)
    modifies s`deals, s`dealObjects, s.orderObjects, s.dealObjects
    ensures s.Valid() && s.deals.Keys == old(s.deals.Keys)
    ensures Underway(first, s.View(), all, {}, s.deals.Keys, stores, performed, now)
  {
    hide Underway, Service.OrdersIndexed, Service.DealsIndexed, Service.Listed, Service.Cached, Service.View;
    all := works;
    var left := remaining;
    while left != {}
      invariant s.Valid() && s.orderObjects == old(s.orderObjects) && fresh(s.dealObjects - old(s.dealObjects))
      invariant s.deals.Keys == old(s.deals.Keys) && left <= s.deals.Keys
      invariant Underway(first, s.View(), all, left, s.deals.Keys, stores, performed, now)
      decreases |left|
    {
      var d := AnyOf(left);
      all := PassOverNext(s, all, left, d, stores, performed, now, first);
      left := left - {d};
    }
  }

  method PassOverDeals(s: Service, stores: int -> Store, performed: Work -> bool, now: int)
    returns (works: map<int, seq<Work>>)
    requires s.Valid()
    modifies s`deals, s`dealObjects, s.orderObjects, s.dealObjects
    ensures s.Valid() && works.Keys == old(s.deals.Keys)
    ensures AllDone(old(s.View()), s.View(), works, stores, performed, now)
  {
    hide Underway, AllDone, Service.OrdersIndexed, Service.DealsIndexed, Service.Listed, Service.Cached, Service.View;
    ghost var first := s.View();
    NothingDone(first, s.deals.Keys, stores, performed, now);
    works := PassOverRest(s, map[], s.deals.Keys, stores, performed, now, first);
    AllAreDone(first, s.View(), works, s.deals.Keys, stores, performed, now);
  }

  /** The periodic pass: while hydration is awaited nothing is requested and nothing changes;
      otherwise every tracked deal is reconciled, none disturbed by the passes over the others. */
  method ReconcileTakeProfits(s: Service, stores: int -> Store, performed: Work -> bool, now: int)
    returns (works: map<int, seq<Work>>)
    requires s.Valid()
    modifies s`deals, s`dealObjects, s.orderObjects, s.dealObjects
    ensures s.Valid()
    ensures !StatusesHydrated(old(s.State())) ==> works == map[] && s.State() == old(s.State())
    ensures StatusesHydrated(old(s.State())) ==>
              works.Keys == old(s.deals.Keys) && AllDone(old(s.View()), s.View(), works, stores, performed, now)
  {
    hide AllDone, Service.OrdersIndexed, Service.DealsIndexed, Service.Listed, Service.Cached;
    if s.requireHydration && !s.statusHydrated {
      return map[];
    }
    works := PassOverDeals(s, stores, performed, now);
  }

  // ---------- on every status, gate or no gate ----------

  /** The whole of UpdateStatus: the status is recorded, and if requests can be sent at all the
      deal is reconciled at once, whether or not hydration is awaited. */
  method UpdateStatus(s: Service, ident: Ident, event: Option<BotEvent>, status: WsOrder, connected: bool, store: Store,
                      performed: Work -> bool, now: int)
    returns (works: seq<Work>)
    requires s.Valid()
    modifies s`orders, s`orderObjects, s`deals, s`dealObjects, s`statusHydrated, s.orderObjects, s.dealObjects
    ensures s.Valid()
    ensures s.State() == Cancelled(M.UpdateStatus(old(s.State()), ident, event, status, now), works, performed, now)
    ensures connected ==>
              var after := M.UpdateStatus(old(s.State()), ident, event, status, now);
              PlannedFor(works, store, M.DealOrders(after.orders, ident.order.dealID), ident.order.dealID, performed)
    ensures !connected ==> works == []
  {
    hide SnapshotOf, PlannedFor, M.DealOrders, M.UpdateStatus;
    hide Service.OrdersIndexed, Service.DealsIndexed, Service.Listed, Service.Cached, Service.View;
    var snap := s.UpdateStatus(ident, event, status, now);
    if !connected {
      return [];
    }
    hide Cancelled;
    works := ReconcileShown(s, ident.order.dealID, snap, store, performed, now);
  }

  /** A take-profit reloaded while hydration is awaited, and then a buy at another venue reported
      filled: hydration is still awaited, and every snapshot of the deal asks for something. */
  lemma UngatedRequests(quantity: real)
    requires quantity > 0.000001
    ensures var t, buy, event, status := AwaitingTracker(quantity), BuyIdent(), BuyEvent(quantity), BuyFilled(quantity);
            var after := M.UpdateStatus(t, buy, Some(event), status, 2);
            && M.Awaiting(t) && M.Awaiting(after)
            && (exists snap: DealSnapshot :: snap.dealID == 7 && SnapshotOf(snap, M.DealOrders(after.orders, 7)))
            && forall snap: DealSnapshot, performed: Work -> bool ::
                 snap.dealID == 7 && SnapshotOf(snap, M.DealOrders(after.orders, 7)) ==>
                   Planned(NothingStored, snap, KeyOf(buy), performed) != []
  {
    var t, buy, event, status := AwaitingTracker(quantity), BuyIdent(), BuyEvent(quantity), BuyFilled(quantity);
    var after := M.UpdateStatus(t, buy, Some(event), status, 2);
    AwaitingTrackerIs(quantity);
    AfterTheBuy(t, quantity);
    var orders := M.DealOrders(after.orders, 7);
    assert orders == map[TakeProfitIdent() := ReloadedTakeProfit(quantity), buy := FilledBuy(quantity)];
    var shown := SnapshotExists(orders, 7);
    forall snap: DealSnapshot, performed: Work -> bool
      | snap.dealID == 7 && SnapshotOf(snap, orders)
      ensures Planned(NothingStored, snap, KeyOf(buy), performed) != []
    {
      BuyVenueIsNeedy(snap, quantity, performed);
    }
  }

  const NothingStored := Store(None, map[], map[], map[])

  function TakeProfitIdent(): Ident { Ident("hyperliquid", "cold", OrderId(1, 7, 2)) }

  function BuyIdent(): Ident { Ident("hyperliquid", "warm", OrderId(1, 7, 3)) }

  function TakeProfitEvent(quantity: real): BotEvent {
    BotEvent(0, "BTC", Active, 110.0, quantity, TakeProfit, Sell, false)
  }

  function BuyEvent(quantity: real): BotEvent {
    BotEvent(0, "BTC", Active, 100.0, quantity, OtherKind("base"), Buy, false)
  }

  function BuyFilled(quantity: real): WsOrder {
    WsOrder("filled", 1, "BTC", "B", Some(100.0), Some(quantity), Some(0.0))
  }

  function AwaitingTracker(quantity: real): M.Tracker {
    M.Run([(M.OpRequireHydration, 0), (M.OpReload(TakeProfitIdent(), Some(TakeProfitEvent(quantity)), None, 0.0), 1)])
  }

  function ReloadedTakeProfit(quantity: real): OrderData {
    Untracked.(event := Some(TakeProfitEvent(quantity)), coin := "BTC", side := "SELL", reduceOnly := true,
               original := quantity, remaining := quantity, price := 110.0)
  }

  function FilledBuy(quantity: real): OrderData {
    Untracked.(event := Some(BuyEvent(quantity)), coin := "BTC", side := "B", original := quantity, filled := quantity,
               price := 100.0, limitPrice := 100.0, status := "filled", observed := Some(1))
  }

  lemma AwaitingTrackerIs(quantity: real)
    requires quantity > 0.0
    ensures AwaitingTracker(quantity) ==
            M.Tracker(map[TakeProfitIdent() := ReloadedTakeProfit(quantity)], map[7 := 1], true, false, 1)
  {
    var first := (M.OpRequireHydration, 0);
    var second := (M.OpReload(TakeProfitIdent(), Some(TakeProfitEvent(quantity)), None, 0.0), 1);
    var none: seq<(M.Op, int)> := [];
    assert [first, second][..1] == [first] && [first][..0] == none;
    assert M.Run(none) == M.Empty;
    assert M.Run([first]) == M.RequireStatusHydration(M.Empty);
    assert M.Reloaded(M.Fresh(true, false, 1), Some(TakeProfitEvent(quantity)), None, 0.0) ==
             ReloadedTakeProfit(quantity);
  }

  lemma AfterTheBuy(t: M.Tracker, quantity: real)
    requires quantity > 0.0
    requires t == M.Tracker(map[TakeProfitIdent() := ReloadedTakeProfit(quantity)], map[7 := 1], true, false, 1)
    ensures var after := M.UpdateStatus(t, BuyIdent(), Some(BuyEvent(quantity)), BuyFilled(quantity), 2);
            && after.orders == map[TakeProfitIdent() := ReloadedTakeProfit(quantity), BuyIdent() := FilledBuy(quantity)]
            && M.Awaiting(after)
  {
    FilledIsNotCanceled();
    assert TakeProfitIdent().wallet != BuyIdent().wallet;
    assert M.WithStatus(M.Fresh(true, false, 1), Some(BuyEvent(quantity)), BuyFilled(quantity)) == FilledBuy(quantity);
    var after := M.UpdateStatus(t, BuyIdent(), Some(BuyEvent(quantity)), BuyFilled(quantity), 2);
    assert TakeProfitIdent() in after.orders && after.orders[TakeProfitIdent()].hydratedEpoch == 0;
  }

  lemma NetAtBuyVenue(orders: Orders, quantity: real)
    requires orders == map[TakeProfitIdent() := ReloadedTakeProfit(quantity), BuyIdent() := FilledBuy(quantity)]
    ensures Sum(orders, SignedAt(KeyOf(BuyIdent()))) == quantity
  {
    var tp, buy := TakeProfitIdent(), BuyIdent();
    assert tp.wallet != buy.wallet;
    SumExtract(orders, SignedAt(KeyOf(buy)), buy);
    assert orders - {buy} == map[tp := ReloadedTakeProfit(quantity)];
    SumExtract(orders - {buy}, SignedAt(KeyOf(buy)), tp);
    assert orders - {buy} - {tp} == map[];
  }

  lemma TwoOrders(quantity: real) returns (orders: Orders)
    requires quantity > 0.0
    ensures orders == map[TakeProfitIdent() := ReloadedTakeProfit(quantity), BuyIdent() := FilledBuy(quantity)]
    ensures BuysAllFilled(orders) && IsTakeProfitRecord(orders[TakeProfitIdent()])
    ensures forall id :: id in orders && KeyOf(id) == KeyOf(BuyIdent()) ==> !IsActiveTakeProfit(orders[id])
  {
    orders := map[TakeProfitIdent() := ReloadedTakeProfit(quantity), BuyIdent() := FilledBuy(quantity)];
    assert TakeProfitIdent().wallet != BuyIdent().wallet;
  }

  /** Where some take-profit is on record there is something to build a new one from. */
  lemma RecordGivesContext(store: Store, snap: DealSnapshot, orders: Orders, key: VenueKey, id: Ident)
    requires SnapshotOf(snap, orders) && id in orders && IsTakeProfitRecord(orders[id])
    ensures LookupTakeProfitContext(store, snap, BuildTakeProfitIdentifier(store, snap, key)).Some?
  {
    hide IsTakeProfitRecord, BuysAllFilled, PositionOf, Keep;
    FirstRecordIs(snap.orders);
    IdentsOfAre(snap.orders);
    var i :| 0 <= i < |snap.orders| && snap.orders[i].ident == id;
    assert IsTakeProfitRecord(snap.orders[i].data);
    LatestExists(orders, snap.lastTakeProfitEvent, id);
  }

  lemma LatestExists(orders: Orders, latest: Option<BotEvent>, id: Ident)
    requires IsLatestEvent(orders, latest) && id in orders && IsTakeProfitRecord(orders[id])
    ensures latest.Some?
  {
  }

  lemma BuyVenueIsNeedy(snap: DealSnapshot, quantity: real, performed: Work -> bool)
    requires quantity > 0.000001
    requires snap.dealID == 7
    requires SnapshotOf(snap, map[TakeProfitIdent() := ReloadedTakeProfit(quantity), BuyIdent() := FilledBuy(quantity)])
    ensures Planned(NothingStored, snap, KeyOf(BuyIdent()), performed) != []
  {
    hide ReloadedTakeProfit, FilledBuy, TakeProfitIdent;
    hide BuyIdent, BuysAllFilled, IsActiveTakeProfit, IsTakeProfitRecord;
    hide VenueWorks, LookupTakeProfitContext, BuildTakeProfitIdentifier, PositionOf, Keep, IsLatestEvent;
    var orders := TwoOrders(quantity);
    var key := KeyOf(BuyIdent());
    NetAtBuyVenue(orders, quantity);
    TotalIsSum(snap.orders, orders, SignedAt(key));
    ActiveAt(snap, orders, key);
    RecordGivesContext(NothingStored, snap, orders, key, TakeProfitIdent());
    assert BuyIdent() in IdentsOf(snap.orders);
    NeedyVenueIsServed(NothingStored, snap, orders, key, quantity, performed);
  }
}
