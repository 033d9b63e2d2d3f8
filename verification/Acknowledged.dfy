/** What the venue's statuses make of the requests of one reconciliation pass, and when that leaves
    nothing to do for the next pass. */
module Acknowledged {
  import opened Adapter
  import opened OrderIds
  import opened RealSums
  import opened Reconcile
  import opened Targeting
  import opened TrackerDeals
  import opened TrackerOrders
  import opened Wrappers
  import M = TrackerModel

  // ---------- one status ----------

  /** A status that shows the order resting: `original` and `left` are its two sizes. */
  predicate Rests(status: WsOrder, original: real, left: real) {
    && (status.status == "open" || status.status == "live")
    && status.origSz == Some(original) && status.sz == Some(left)
  }

  predicate IsTakeProfitSell(event: BotEvent) { event.orderType == TakeProfit && event.side == Sell }

  predicate RequestsSize(action: Action, size: real) {
    match action
    case Create(order) => order.size == size
    case Modify(order) => order.size == size
    case _ => false
  }

  /** The side the status, or else the event, gives the order. */
  function SideAfter(event: BotEvent, status: WsOrder): string {
    if status.side != "" then status.side else SideName(event.side)
  }

  lemma LiveIsNotCanceled()
    ensures !IsCanceledStatus("open") && !IsCanceledStatus("live")
  {
    assert |Lower("open")| == 4 && |Lower("live")| == 4;
  }

  /** The order as a resting status leaves it. */
  lemma RestingOrder(o: OrderData, event: BotEvent, status: WsOrder, original: real, left: real)
    requires Accepts(o, status) && IsTakeProfitSell(event) && Rests(status, original, left)
    requires left > 0.000001 && original > 0.0
    ensures var after := M.WithStatus(o, Some(event), status);
            && IsActiveTakeProfit(after) && after.remaining == left
            && after.filled == Max(0.0, original - left) && after.side == SideAfter(event, status)
            && after.event == Some(event) && after.reduceOnly
  {
    LiveIsNotCanceled();
  }

  /** A resting status performs the request, as far as the tracker can tell, exactly when the fill
      it implies is the fill already on record. */
  lemma StatusPerformsExactlyWhen(t: M.Tracker, work: Work, event: BotEvent, status: WsOrder, now: int, original: real,
                                  left: real)
    requires Accepts(M.Ensured(t, work.ident), status) && IsTakeProfitSell(event) && Rests(status, original, left)
    requires left > 0.000001 && original > 0.0 && RequestsSize(work.action, left)
    ensures var after := M.UpdateStatus(t, work.ident, Some(event), status, now);
            var filled := Max(0.0, original - left);
            Performed(t.orders, after.orders, work) <==>
            FillOf(t.orders, work.ident) == (if BuySide(SideAfter(event, status)) then filled else -filled)
  {
    RestingOrder(M.Ensured(t, work.ident), event, status, original, left);
  }

  /** In particular, a venue that reports the requested size as the whole order performs a create
      or a modify exactly when the order had no fill on record. */
  lemma WholeOrderPerformsExactlyWhenUnfilled(t: M.Tracker, work: Work, event: BotEvent, status: WsOrder, now: int,
                                              size: real)
    requires Accepts(M.Ensured(t, work.ident), status) && IsTakeProfitSell(event) && Rests(status, size, size)
    requires size > 0.000001 && RequestsSize(work.action, size)
    ensures Performed(t.orders, M.UpdateStatus(t, work.ident, Some(event), status, now).orders, work) <==>
            FillOf(t.orders, work.ident) == 0.0
  {
    StatusPerformsExactlyWhen(t, work, event, status, now, size, size);
  }

  // ---------- a whole pass ----------

  /** What comes back for one request: the stored event and the venue's status, and when. */
  datatype Reply = Reply(event: BotEvent, status: WsOrder, now: int)

  /** The tracker after the replies to a pass: cancellations are recorded when they went through,
      every other request is answered by a status. */
  function Replied(t: M.Tracker, works: seq<Work>, replies: seq<Reply>): M.Tracker
    requires |works| == |replies|
    decreases |works|
  {
    if works == [] then t
    else
      var n := |works| - 1;
      ReplyTo(Replied(t, works[..n], replies[..n]), works[n], replies[n])
  }

  function ReplyTo(t: M.Tracker, work: Work, reply: Reply): M.Tracker {
    match work.action
    case NoAction(_) => t
    case Cancel(_, _) => M.MarkOrderCancelled(t, work.ident, reply.now)
    case _ => M.UpdateStatus(t, work.ident, Some(reply.event), reply.status, reply.now)
  }

  function SizeOf(action: Action): real {
    match action
    case Create(order) => order.size
    case Modify(order) => order.size
    case _ => 0.0
  }

  /** The reply does what was asked, on an order without fills of its own: a cancellation of a
      tracked order, or an accepted status that shows the requested size resting as a whole. */
  predicate Acknowledges(t: M.Tracker, work: Work, reply: Reply) {
    match work.action
    case NoAction(_) => false
    case Cancel(_, _) => work.ident in t.orders
    case _ =>
      && Accepts(M.Ensured(t, work.ident), reply.status) && IsTakeProfitSell(reply.event)
      && Rests(reply.status, SizeOf(work.action), SizeOf(work.action)) && SizeOf(work.action) > 0.000001
      && FillOf(t.orders, work.ident) == 0.0
  }

  lemma ReplyPerforms(t: M.Tracker, work: Work, reply: Reply)
    requires Acknowledges(t, work, reply)
    ensures Performed(t.orders, ReplyTo(t, work, reply).orders, work)
    ensures forall id :: id != work.ident ==>
              (id in ReplyTo(t, work, reply).orders <==> id in t.orders)
              && (id in t.orders ==> ReplyTo(t, work, reply).orders[id] == t.orders[id])
  {
    if !work.action.Cancel? {
      WholeOrderPerformsExactlyWhenUnfilled(t, work, reply.event, reply.status, reply.now, SizeOf(work.action));
    }
  }

  predicate SameThere(a: Orders, b: Orders, id: Ident) {
    (id in a <==> id in b) && (id in a ==> b[id] == a[id])
  }

  lemma AcknowledgesLocally(t: M.Tracker, u: M.Tracker, work: Work, reply: Reply)
    requires SameThere(t.orders, u.orders, work.ident)
    ensures Acknowledges(t, work, reply) == Acknowledges(u, work, reply)
  {
    assert M.Ensured(t, work.ident).observed == M.Ensured(u, work.ident).observed;
  }

  lemma PerformedLocally(a: Orders, b: Orders, c: Orders, d: Orders, work: Work)
    requires SameThere(a, b, work.ident) && SameThere(c, d, work.ident)
    ensures Performed(a, c, work) == Performed(b, d, work)
  {
  }

  predicate DistinctIdents(works: seq<Work>) {
    forall i, j :: 0 <= i < j < |works| ==> works[i].ident != works[j].ident
  }

  predicate AllAcknowledged(t: M.Tracker, works: seq<Work>, replies: seq<Reply>)
    requires |works| == |replies|
  {
    forall i :: 0 <= i < |works| ==> Acknowledges(t, works[i], replies[i])
  }

  lemma {:induction false} OthersUntouched(t: M.Tracker, works: seq<Work>, replies: seq<Reply>, id: Ident)
    requires |works| == |replies| && forall i :: 0 <= i < |works| ==> works[i].ident != id
    ensures SameThere(t.orders, Replied(t, works, replies).orders, id)
    decreases |works|
  {
    if works != [] {
      OthersUntouched(t, works[..|works| - 1], replies[..|works| - 1], id);
    }
  }

  /** Each request of the pass is performed, whichever replies come before and after its own. */
  lemma {:induction false} RepliesPerform(t: M.Tracker, works: seq<Work>, replies: seq<Reply>, i: nat)
    requires |works| == |replies| && DistinctIdents(works) && AllAcknowledged(t, works, replies) && i < |works|
    ensures Performed(t.orders, Replied(t, works, replies).orders, works[i])
    decreases |works|
  {
    hide ReplyTo, Acknowledges, Performed;
    var n := |works| - 1;
    var earlier := Replied(t, works[..n], replies[..n]);
    var all := Replied(t, works, replies);
    if i == n {
      OthersUntouched(t, works[..n], replies[..n], works[n].ident);
      AcknowledgesLocally(t, earlier, works[n], replies[n]);
      ReplyPerforms(earlier, works[n], replies[n]);
      PerformedLocally(t.orders, earlier.orders, all.orders, all.orders, works[n]);
    } else {
      RepliesPerform(t, works[..n], replies[..n], i);
      assert works[..n][i] == works[i];
      OthersUntouched(t, works[..n], replies[..n], works[n].ident);
      AcknowledgesLocally(t, earlier, works[n], replies[n]);
      ReplyPerforms(earlier, works[n], replies[n]);
      PerformedLocally(t.orders, t.orders, earlier.orders, all.orders, works[i]);
    }
  }

  // ---------- the next pass ----------

  /** The requests of one pass over a deal, each for an order of that deal. */
  ghost predicate PassOver(t: M.Tracker, d: int, store: Store, snap: DealSnapshot, works: seq<Work>,
                           performed: Work -> bool)
  {
    && SnapshotOf(snap, M.DealOrders(t.orders, d)) && snap.dealID == d
    && (forall key :: WorksAt(works, key) == Planned(store, snap, key, performed))
    && (forall i :: 0 <= i < |works| ==> works[i].ident.order.dealID == d)
  }

  lemma {:induction false} WorkIsAtItsVenue(works: seq<Work>, i: nat)
    requires i < |works|
    ensures works[i] in WorksAt(works, KeyOf(works[i].ident))
    decreases |works|
  {
    var n := |works| - 1;
    if i < n {
      WorkIsAtItsVenue(works[..n], i);
      assert works[..n][i] == works[i];
    }
  }

  lemma {:induction false} TwoWorksAtOneVenue(works: seq<Work>, i: nat, j: nat)
    requires i < j < |works| && KeyOf(works[i].ident) == KeyOf(works[j].ident)
    ensures |WorksAt(works, KeyOf(works[i].ident))| >= 2
    decreases |works|
  {
    var n := |works| - 1;
    if j < n {
      TwoWorksAtOneVenue(works[..n], i, j);
    } else {
      WorkIsAtItsVenue(works[..n], i);
      assert works[..n][i] == works[i];
    }
  }

  lemma OneWorkPerVenue(t: M.Tracker, d: int, store: Store, snap: DealSnapshot, works: seq<Work>,
                        performed: Work -> bool)
    requires PassOver(t, d, store, snap, works, performed) && Recorded(M.DealOrders(t.orders, d))
    ensures forall i, j :: 0 <= i < j < |works| ==> KeyOf(works[i].ident) != KeyOf(works[j].ident)
  {
    forall i, j | 0 <= i < j < |works| ensures KeyOf(works[i].ident) != KeyOf(works[j].ident) {
      var key := KeyOf(works[i].ident);
      ReconcilesVenue(store, snap, M.DealOrders(t.orders, d), key, performed);
      if KeyOf(works[j].ident) == key {
        TwoWorksAtOneVenue(works, i, j);
      }
    }
  }

  lemma {:induction false} WorksAtFound(works: seq<Work>, key: VenueKey) returns (i: nat)
    requires WorksAt(works, key) != []
    ensures i < |works| && works[i] == WorksAt(works, key)[0] && KeyOf(works[i].ident) == key
    decreases |works|
  {
    var n := |works| - 1;
    if WorksAt(works[..n], key) != [] {
      i := WorksAtFound(works[..n], key);
      assert works[..n][i] == works[i];
    } else {
      i := n;
    }
  }

  /** Acknowledged requests are honoured at every venue of the deal. */
  lemma RepliesHonour(t: M.Tracker, d: int, store: Store, snap: DealSnapshot, works: seq<Work>, performed: Work -> bool,
                      replies: seq<Reply>, key: VenueKey)
    requires PassOver(t, d, store, snap, works, performed) && Recorded(M.DealOrders(t.orders, d))
    requires |works| == |replies| && AllAcknowledged(t, works, replies)
    ensures Honoured(M.DealOrders(t.orders, d), M.DealOrders(Replied(t, works, replies).orders, d), key,
                     Planned(store, snap, key, performed))
  {
    hide SnapshotOf, Planned, Acknowledges, ReplyTo, Performed;
    var after := Replied(t, works, replies);
    var before, left := M.DealOrders(t.orders, d), M.DealOrders(after.orders, d);
    OneWorkPerVenue(t, d, store, snap, works, performed);
    var here := WorksAt(works, key);
    var except := if here == [] then None else Some(here[0].ident);
    if here != [] {
      var i := WorksAtFound(works, key);
      RepliesPerform(t, works, replies, i);
      PerformedInDeal(t.orders, after.orders, d, works[i]);
    }
    forall j | 0 <= j < |works| && KeyOf(works[j].ident) == key ensures Some(works[j].ident) == except {
      WorkIsAtItsVenue(works, j);
      var i := WorksAtFound(works, key);
      assert i == j;
    }
    forall id | KeyOf(id) == key && Some(id) != except ensures SameThere(before, left, id) {
      OthersUntouched(t, works, replies, id);
    }
    assert Planned(store, snap, key, performed) == here;
    assert SameAt(before, left, key, except);
  }

  lemma PerformedInDeal(before: Orders, after: Orders, d: int, work: Work)
    requires Performed(before, after, work) && work.ident.order.dealID == d
    ensures Performed(M.DealOrders(before, d), M.DealOrders(after, d), work)
  {
    PerformedLocally(before, M.DealOrders(before, d), after, M.DealOrders(after, d), work);
  }

  /** Fixed point on statuses: after a pass whose cancellations went through and whose other
      requests were each acknowledged on an order without fills, the next pass asks for nothing. */
  lemma AcknowledgedPassIsQuiet(t: M.Tracker, d: int, store: Store, later: Store, snap: DealSnapshot,
                                next: DealSnapshot, works: seq<Work>, performed: Work -> bool, replies: seq<Reply>,
                                key: VenueKey)
    requires PassOver(t, d, store, snap, works, performed)
    requires |works| == |replies| && AllAcknowledged(t, works, replies)
    requires SnapshotOf(next, M.DealOrders(Replied(t, works, replies).orders, d)) && next.dealID == d
    requires var before := M.DealOrders(t.orders, d);
             Recorded(before) && OneTakeProfitPerVenue(before) && LiveIsTracked(store, snap, before)
    requires forall k :: Planned(store, snap, k, performed) == [] ==> Agree(store, later, k)
    ensures Planned(later, next, key, performed) == []
  {
    hide SnapshotOf, Planned, Acknowledges, ReplyTo, Replied;
    hide Honoured, Recorded, OneTakeProfitPerVenue, LiveIsTracked, Agree;
    var before, after := M.DealOrders(t.orders, d), M.DealOrders(Replied(t, works, replies).orders, d);
    forall k ensures Honoured(before, after, k, Planned(store, snap, k, performed)) {
      RepliesHonour(t, d, store, snap, works, performed, replies, k);
    }
    NextPassIsQuiet(store, later, snap, next, before, after, key, performed);
  }

  // ---------- a lost fill ----------

  lemma NetAfterWholeOrder(before: Orders, after: Orders, ident: Ident)
    requires ident in before && ident in after && after - {ident} == before - {ident}
    requires FillOf(after, ident) == 0.0
    ensures Sum(after, SignedAt(KeyOf(ident))) == Sum(before, SignedAt(KeyOf(ident))) - FillOf(before, ident)
  {
    SumExtract(before, SignedAt(KeyOf(ident)), ident);
    SumExtract(after, SignedAt(KeyOf(ident)), ident);
    SumSame(after - {ident}, SignedAt(KeyOf(ident)), before - {ident}, SignedAt(KeyOf(ident)));
  }

  /** What decides a venue with one tracked take-profit of known size. */
  lemma DecidedByNet(later: Store, next: DealSnapshot, after: Orders, ident: Ident, performed: Work -> bool)
    requires SnapshotOf(next, after) && next.dealID != 0 && next.allBuysFilled
    requires ident in after && IsActiveTakeProfit(after[ident]) && after[ident].event.Some?
    requires forall id :: id in after && KeyOf(id) == KeyOf(ident) && IsActiveTakeProfit(after[id]) ==> id == ident
    ensures var net := Sum(after, SignedAt(KeyOf(ident)));
            Planned(later, next, KeyOf(ident), performed) == [] <==>
            !Flat(net) && (CloseTo(after[ident].remaining, net) || AlreadySubmitted(later, ident, net))
  {
    TotalIsSum(next.orders, after, SignedAt(KeyOf(ident)));
    ActiveAt(next, after, KeyOf(ident));
    assert KeyOf(ident) in Venues(IdentsOf(next.orders));
    hide SnapshotOf, IsActiveTakeProfit, IdentsOf, Total;
  }

  lemma WholeOrderInDeal(t: M.Tracker, d: int, ident: Ident, event: BotEvent, status: WsOrder, now: int, size: real)
    requires ident in t.orders && ident.order.dealID == d && IsActiveTakeProfit(t.orders[ident])
    requires OneTakeProfitPerVenue(M.DealOrders(t.orders, d))
    requires Accepts(t.orders[ident], status) && IsTakeProfitSell(event) && Rests(status, size, size) && size > 0.000001
    ensures var before := M.DealOrders(t.orders, d);
            var after := M.DealOrders(M.UpdateStatus(t, ident, Some(event), status, now).orders, d);
            && ident in before && ident in after && after - {ident} == before - {ident} && FillOf(after, ident) == 0.0
            && IsActiveTakeProfit(after[ident]) && after[ident].event.Some? && after[ident].remaining == size
            && forall id :: id in after && KeyOf(id) == KeyOf(ident) && IsActiveTakeProfit(after[id]) ==> id == ident
  {
    var updated := M.UpdateStatus(t, ident, Some(event), status, now);
    var before, after := M.DealOrders(t.orders, d), M.DealOrders(updated.orders, d);
    RestingOrder(t.orders[ident], event, status, size, size);
    hide IsActiveTakeProfit, M.WithStatus;
    forall id | id != ident ensures SameThere(before, after, id) {
    }
    forall id | id in after && KeyOf(id) == KeyOf(ident) && IsActiveTakeProfit(after[id]) ensures id == ident {
      assert id == ident || SameThere(before, after, id);
    }
  }

  /** A resized take-profit that is reported without the fill it had shifts the venue's net
      position by that fill. The next pass leaves the venue alone exactly when it then still has a
      position and that position is close to the size just requested, or is known to be asked for. */
  lemma QuietAfterALostFillExactlyWhen(t: M.Tracker, d: int, later: Store, next: DealSnapshot, ident: Ident,
                                       event: BotEvent, status: WsOrder, now: int, size: real, performed: Work -> bool)
    requires ident in t.orders && ident.order.dealID == d && IsActiveTakeProfit(t.orders[ident])
    requires OneTakeProfitPerVenue(M.DealOrders(t.orders, d))
    requires Accepts(t.orders[ident], status) && IsTakeProfitSell(event) && Rests(status, size, size)
    requires size == Sum(M.DealOrders(t.orders, d), SignedAt(KeyOf(ident))) && size > 0.000001
    requires SnapshotOf(next, M.DealOrders(M.UpdateStatus(t, ident, Some(event), status, now).orders, d))
    requires next.dealID == d != 0 && next.allBuysFilled
    ensures var net := size - FillOf(t.orders, ident);
            Planned(later, next, KeyOf(ident), performed) == [] <==>
            !Flat(net) && (CloseTo(size, net) || AlreadySubmitted(later, ident, net))
  {
    hide SnapshotOf, Planned, IsActiveTakeProfit, OneTakeProfitPerVenue, M.UpdateStatus;
    var after := M.DealOrders(M.UpdateStatus(t, ident, Some(event), status, now).orders, d);
    WholeOrderInDeal(t, d, ident, event, status, now, size);
    NetAfterWholeOrder(M.DealOrders(t.orders, d), after, ident);
    DecidedByNet(later, next, after, ident, performed);
  }

  // ---------- a filled take-profit ----------

  /** The bot event a venue's take-profit is made from: its own, or else the deal's latest, or else
      the one stored. */
  function KnownEvent(store: Store, snap: DealSnapshot, key: VenueKey): Option<BotEvent> {
    var tp := TakeProfitAt(snap.activeTakeProfits, key);
    if tp.Some? && tp.value.data.event.Some? then tp.value.data.event
    else if snap.lastTakeProfitEvent.Some? then snap.lastTakeProfitEvent
    else if store.takeProfit.Some? then Some(store.takeProfit.value.event)
    else None
  }

  /** The order requested, if one is. */
  function Requested(action: Action): Option<OrderRequest> {
    match action
    case Create(order) => Some(order)
    case Modify(order) => Some(order)
    case _ => None
  }

  /** A request is held back as already made exactly when the store shows the order live and the
      last request for it a reduce-only order of that size, give or take a millionth. */
  lemma HeldBackExactlyWhen(store: Store, ident: Ident, size: real)
    ensures AlreadySubmitted(store, ident, size) <==>
            && ident in store.statuses && (store.statuses[ident] == "open" || store.statuses[ident] == "live")
            && ident in store.submissions && Requested(store.submissions[ident]).Some?
            && var order := Requested(store.submissions[ident]).value;
               order.reduceOnly && order.size - 0.000001 <= size <= order.size + 0.000001
  {
  }

  /** Every order requested asks for its bot event: it is on the event's side, at the event's price,
      for the deal's coin and under the take-profit's identifier; every cancellation names them too. */
  lemma RequestsAskForTheirEvent(store: Store, snap: DealSnapshot, key: VenueKey, performed: Work -> bool)
    ensures forall work :: work in Planned(store, snap, key, performed) && Requested(work.action).Some? ==>
              && KnownEvent(store, snap, key).Some? && Requested(work.action).value.reduceOnly
              && AsksButForSize(Requested(work.action).value, snap.currency, KnownEvent(store, snap, key).value,
                                work.ident.order)
    ensures forall work :: work in Planned(store, snap, key, performed) && work.action.Cancel? ==>
              work.action == Cancel(snap.currency, work.ident.order)
  {
    forall event: BotEvent, order: OrderId
      ensures AsksFor(ToCreateOrderRequest(snap.currency, event, order), snap.currency, event, order)
    {
      RequestAsksFor(snap.currency, event, order, ToCreateOrderRequest(snap.currency, event, order));
    }
    hide ToCreateOrderRequest, TakeProfitAt, BuildTakeProfitIdentifier, FirstWithEvent, AlreadySubmitted, HasLiveStatus;
  }

  /** A status that shows the requested order, on its own side, filled as a whole. */
  predicate FilledWhole(order: OrderRequest, status: WsOrder) {
    && status.origSz == Some(order.size) && status.sz == Some(0.0)
    && status.side != "" && BuySide(status.side) == order.isBuy
  }

  lemma NetAfter(before: Orders, after: Orders, ident: Ident)
    requires ident in after && after - {ident} == before - {ident}
    ensures Sum(after, SignedAt(KeyOf(ident))) ==
              Sum(before, SignedAt(KeyOf(ident))) - FillOf(before, ident) + FillOf(after, ident)
  {
    SumExtract(after, SignedAt(KeyOf(ident)), ident);
    if ident in before {
      SumExtract(before, SignedAt(KeyOf(ident)), ident);
    } else {
      assert before - {ident} == before;
    }
    SumSame(after - {ident}, SignedAt(KeyOf(ident)), before - {ident}, SignedAt(KeyOf(ident)));
  }

  lemma FillAfter(o: OrderData, event: Option<BotEvent>, order: OrderRequest, status: WsOrder)
    requires Accepts(o, status) && FilledWhole(order, status) && order.size > 0.0
    ensures var after := M.WithStatus(o, event, status);
            after.filled == order.size && BuySide(after.side) == order.isBuy
  {
    hide IsCanceledStatus, BuySide;
  }

  /** A request made from a sell event does what a take-profit is for: it is a sell at the event's
      price, and once it is filled as a whole the venue's net position is zero. */
  lemma FilledTakeProfitFlattens(t: M.Tracker, d: int, store: Store, snap: DealSnapshot, key: VenueKey,
                                 performed: Work -> bool, work: Work, event: Option<BotEvent>, status: WsOrder,
                                 now: int)
    requires SnapshotOf(snap, M.DealOrders(t.orders, d)) && Recorded(M.DealOrders(t.orders, d))
    requires work in Planned(store, snap, key, performed) && Requested(work.action).Some?
    requires work.ident.order.dealID == d && FillOf(t.orders, work.ident) == 0.0
    requires KnownEvent(store, snap, key).Some? && KnownEvent(store, snap, key).value.side == Sell
    requires Accepts(M.Ensured(t, work.ident), status) && FilledWhole(Requested(work.action).value, status)
    ensures var order := Requested(work.action).value;
            !order.isBuy && order.price == KnownEvent(store, snap, key).value.price
    ensures var after := M.DealOrders(M.UpdateStatus(t, work.ident, event, status, now).orders, d);
            Sum(after, SignedAt(key)) == 0.0
  {
    var before, order := M.DealOrders(t.orders, d), Requested(work.action).value;
    var after := M.DealOrders(M.UpdateStatus(t, work.ident, event, status, now).orders, d);
    RequestsAskForTheirEvent(store, snap, key, performed);
    ReconcilesVenue(store, snap, before, key, performed);
    assert order.size == Sum(before, SignedAt(key)) && order.size > 0.0;
    FillAfter(M.Ensured(t, work.ident), event, order, status);
    hide SnapshotOf, Planned, Recorded, Accepts, KnownEvent, M.WithStatus, RightRequest, BuySide;
    assert work.ident in after && after - {work.ident} == before - {work.ident};
    assert FillOf(after, work.ident) == -order.size && FillOf(before, work.ident) == 0.0;
    NetAfter(before, after, work.ident);
  }
}
