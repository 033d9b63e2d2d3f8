/** What the tracker's operations do, told from its orders before and after. */
module TrackerEffects {
  import opened Adapter
  import opened OrderIds
  import opened RealSums
  import opened Targeting
  import opened TrackerDeals
  import opened TrackerModel
  import opened Wrappers
  import Decimals
  import O = TrackerOrders

  /** The same order but for what a cancellation changes: it is inactive, with nothing remaining,
      and everything filled, sized, priced and named as it was. */
  ghost predicate OnlyCancelled(before: O.OrderData, after: O.OrderData) {
    && after.remaining == 0.0 && !O.IsActiveOrder(after) && O.IsCanceledStatus(after.status)
    && after == before.(remaining := after.remaining, status := after.status, observed := after.observed)
  }

  ghost predicate OthersKept(before: Orders, after: Orders, ident: Ident) {
    forall id :: id != ident ==> (id in after <==> id in before) && (id in before ==> after[id] == before[id])
  }

  lemma CancelledText()
    ensures O.IsCanceledStatus("canceled")
  {
  }

  // ---------- cancelling and closing ----------

  /** A local cancellation touches one order, and of it only what is left to fill. */
  lemma CancellingKeepsTheFill(t: Tracker, ident: Ident, now: int)
    ensures var r := MarkOrderCancelled(t, ident, now);
            && r.orders.Keys == t.orders.Keys && OthersKept(t.orders, r.orders, ident)
            && (ident in t.orders ==> OnlyCancelled(t.orders[ident], r.orders[ident]))
  {
    CancelledText();
  }

  /** Closing a deal cancels every buy of it that could still fill, and touches nothing else: not
      its take-profits, not its finished orders, not another deal's orders. */
  lemma ClosingCancelsExactlyTheOpenBuys(t: Tracker, deal: int, now: int, ident: Ident)
    requires deal in t.updated && ident in t.orders
    ensures var before, r := t.orders[ident], CloseOpenOrdersForDeal(t, deal, now);
            && r.orders.Keys == t.orders.Keys
            && (ident.order.dealID == deal && O.IsBuy(before) && O.IsActiveOrder(before) ==>
                  OnlyCancelled(before, r.orders[ident]))
            && (ident.order.dealID != deal || !O.IsBuy(before) || !O.IsActiveOrder(before) ==>
                  r.orders[ident] == before)
  {
    CancelledText();
  }

  /** Closing a deal that is not tracked does nothing. */
  lemma ClosingUnknownDeal(t: Tracker, deal: int, now: int)
    requires deal !in t.updated
    ensures CloseOpenOrdersForDeal(t, deal, now) == t
  {
  }

  /** So afterwards the deal shows no open buys and waits for none, its active take-profits and its
      position are what they were. */
  lemma ClosedDealShowsNoOpenBuys(t: Tracker, deal: int, now: int, was: DealSnapshot, snap: DealSnapshot)
    requires deal in t.updated
    requires SnapshotOf(was, DealOrders(t.orders, deal))
    requires SnapshotOf(snap, DealOrders(CloseOpenOrdersForDeal(t, deal, now).orders, deal))
    ensures snap.openBuys == [] && snap.outstandingBuyQty == 0.0
    ensures snap.position == was.position && snap.outstandingSellQty == was.outstandingSellQty
    ensures forall tp :: tp in snap.activeTakeProfits <==> tp in was.activeTakeProfits
  {
    var before, after := DealOrders(t.orders, deal), DealOrders(CloseOpenOrdersForDeal(t, deal, now).orders, deal);
    ClosedDealOrders(t, deal, now);
    hide O.IsBuy, O.IsActiveOrder, CloseOpenOrdersForDeal, DealOrders, O.FillPrice;
    SamePosition(before, after);
    NoOpenBuys(snap, after);
    SumSame(after, SellRemaining, before, SellRemaining);
    ActiveTakeProfitsAre(was, before);
    ActiveTakeProfitsAre(snap, after);
    hide SnapshotOf, PositionOf;
  }

  lemma ClosedDealOrders(t: Tracker, deal: int, now: int)
    requires deal in t.updated
    ensures var before := DealOrders(t.orders, deal);
            var after := DealOrders(CloseOpenOrdersForDeal(t, deal, now).orders, deal);
            && after.Keys == before.Keys
            && forall id :: id in before ==>
                 && !IsOpenBuy(after[id]) && after[id].filled == before[id].filled
                 && O.IsBuy(after[id]) == O.IsBuy(before[id]) && O.FillPrice(after[id]) == O.FillPrice(before[id])
                 && (!O.IsBuy(before[id]) ==> after[id] == before[id])
  {
    var before, after := DealOrders(t.orders, deal), DealOrders(CloseOpenOrdersForDeal(t, deal, now).orders, deal);
    assert after.Keys == before.Keys;
    forall id | id in before
      ensures !IsOpenBuy(after[id]) && after[id].filled == before[id].filled
      ensures O.IsBuy(after[id]) == O.IsBuy(before[id]) && O.FillPrice(after[id]) == O.FillPrice(before[id])
      ensures !O.IsBuy(before[id]) ==> after[id] == before[id]
    {
      ClosingCancelsExactlyTheOpenBuys(t, deal, now, id);
      hide CloseOpenOrdersForDeal, O.IsCanceledStatus;
    }
  }

  lemma SamePosition(before: Orders, after: Orders)
    requires after.Keys == before.Keys
    requires forall id :: id in before ==>
               && after[id].filled == before[id].filled && O.IsBuy(after[id]) == O.IsBuy(before[id])
               && O.FillPrice(after[id]) == O.FillPrice(before[id])
    ensures PositionOf(after) == PositionOf(before)
  {
    hide O.IsBuy, O.FillPrice;
    SumSame(after, BuyFilled, before, BuyFilled);
    SumSame(after, BuyValue, before, BuyValue);
    SumSame(after, SellFilled, before, SellFilled);
  }

  lemma NoOpenBuys(snap: DealSnapshot, orders: Orders)
    requires SnapshotOf(snap, orders) && forall id :: id in orders ==> !IsOpenBuy(orders[id])
    ensures snap.openBuys == [] && snap.outstandingBuyQty == 0.0
  {
    hide IsOpenBuy;
    KeepNone(snap.orders, IsOpenBuy);
    SumSame(orders, OpenBuyQty, orders, (id: Ident, o: O.OrderData) => 0.0);
    SumZero(orders);
  }

  lemma {:induction false} KeepNone(list: seq<OrderSnapshot>, p: O.OrderData -> bool)
    requires forall i :: 0 <= i < |list| ==> !p(list[i].data)
    ensures Keep(list, p) == []
    decreases |list|
  {
    if list != [] {
      KeepNone(list[..|list| - 1], p);
    }
  }

  // ---------- forgetting ----------

  /** Cleaning up forgets a deal exactly when it has had no update for that long and nothing of it
      can still fill; its orders go with it, and everything that stays is as it was. */
  lemma CleanupForgetsExactlyTheStale(t: Tracker, staleAfter: int, now: int, deal: int)
    requires deal in t.updated
    ensures var r := CleanupStaleDeals(t, staleAfter, now);
            && (deal !in r.updated <==>
                  && t.updated[deal] + staleAfter <= now
                  && forall id :: id in t.orders && id.order.dealID == deal ==> !O.IsActiveOrder(t.orders[id]))
            && (deal in r.updated ==>
                  r.updated[deal] == t.updated[deal] && DealOrders(r.orders, deal) == DealOrders(t.orders, deal))
            && (deal !in r.updated ==> DealOrders(r.orders, deal) == map[])
  {
  }

  /** No order that could still fill is ever forgotten. */
  lemma ActiveOrdersAreKept(t: Tracker, staleAfter: int, now: int, ident: Ident)
    requires ident in t.orders && O.IsActiveOrder(t.orders[ident])
    ensures var r := CleanupStaleDeals(t, staleAfter, now);
            ident in r.orders && r.orders[ident] == t.orders[ident]
  {
  }

  // ---------- sizes ----------

  /** A scaled size becomes the order's size, and what is filled and what remains add up to it; a
      scaled price becomes its price, and its limit when it had none. */
  lemma ScalingAddsUp(t: Tracker, ident: Ident, size: real, price: real, now: int)
    requires ident in t.orders
    ensures var o, after := t.orders[ident], ApplyScaledOrder(t, ident, size, price, now).orders[ident];
            && (size > 0.0 ==>
                  after.original == size && after.filled + after.remaining == size && after.filled <= size
                  && (o.filled <= size ==> after.filled == o.filled))
            && (size <= 0.0 ==>
                  after.original == o.original && after.filled == o.filled && after.remaining == o.remaining)
            && after.price == (if price > 0.0 then price else o.price)
            && after.limitPrice == (if price > 0.0 && o.limitPrice == 0.0 then price else o.limitPrice)
            && after == o.(original := after.original, filled := after.filled, remaining := after.remaining,
                           price := after.price, limitPrice := after.limitPrice)
            && OthersKept(t.orders, ApplyScaledOrder(t, ident, size, price, now).orders, ident)
  {
  }

  /** An order that was cancelled or filled stays inactive through scaling, whatever size it is given. */
  lemma EndedOrdersStayInactive(t: Tracker, ident: Ident, size: real, price: real, now: int)
    requires ident in t.orders
    requires O.IsCanceledStatus(t.orders[ident].status) || t.orders[ident].status == "filled"
    ensures !O.IsActiveOrder(ApplyScaledOrder(t, ident, size, price, now).orders[ident])
  {
    assert ApplyScaledOrder(t, ident, size, price, now).orders[ident].status == t.orders[ident].status;
    hide O.IsCanceledStatus;
  }

  /** An order reloaded from the store with a venue status shows that status, at the size it was
      last scaled to if it was scaled. */
  lemma ReloadShowsTheStatus(t: Tracker, ident: Ident, event: Option<BotEvent>, status: O.WsOrder, scaledSize: real,
                             now: int)
    requires ident !in t.orders && O.Full(status)
    ensures var r := ReloadOrder(t, ident, event, Some(status), scaledSize, now);
            var o := r.orders[ident];
            && o.event == event && o.status == status.status && o.observed == Some(status.timestamp)
            && o.limitPrice == status.limitPx.value
            && (scaledSize <= 0.0 ==> O.Shows(o, status))
            && (scaledSize > 0.0 ==> o.original == scaledSize && o.filled + o.remaining == scaledSize)
            && OthersKept(t.orders, r.orders, ident)
  {
    hide O.IsCanceledStatus;
  }

  /** A new order takes what its status does not say from its bot event. */
  lemma EventDescribesTheOrder(t: Tracker, ident: Ident, event: BotEvent, status: O.WsOrder, now: int)
    requires ident !in t.orders && status.origSz.None? && status.coin == "" && status.side == ""
    ensures var o := UpdateStatus(t, ident, Some(event), status, now).orders[ident];
            && o.event == Some(event) && o.coin == event.coin && O.IsBuy(o) == (event.side == Buy)
            && o.original == (if event.size > 0.0 then event.size else 0.0)
            && o.price == (if event.price > 0.0 then event.price else 0.0)
            && (o.reduceOnly <==> event.orderType == TakeProfit)
  {
    hide O.IsCanceledStatus;
  }

  // ---------- what is done and what is outstanding ----------

  /** A buy no longer holds take-profits back exactly when it is reported filled, or it has a size and
      nothing to speak of remains, or it was cancelled after filling as a whole. */
  lemma BuyIsDoneExactlyWhen(orders: Orders)
    ensures BuysAllFilled(orders) <==>
            forall id :: id in orders && O.IsBuy(orders[id]) ==>
              || orders[id].status == "filled"
              || (orders[id].original != 0.0 && orders[id].remaining <= 0.000001)
              || (orders[id].original != 0.0 && O.IsCanceledStatus(orders[id].status)
                  && orders[id].original - 0.000001 <= orders[id].filled <= orders[id].original + 0.000001)
  {
    hide O.IsBuy;
    FilledIsNotCanceled();
    hide O.IsCanceledStatus;
  }

  /** One order filled further: its size is what it was, and what it gained in fills it lost in what
      remains. */
  ghost predicate FilledFurther(before: Orders, after: Orders, ident: Ident) {
    && ident in before && ident in after && OthersKept(before, after, ident)
    && var (o, p) := (before[ident], after[ident]);
       O.IsBuy(p) == O.IsBuy(o) && 0.0 <= o.filled <= p.filled && o.filled + o.remaining == p.filled + p.remaining
  }

  /** A fill moves quantity from what is outstanding to the position and creates none: for an open
      buy, and likewise for any sell. */
  lemma FillsMoveQuantity(before: Orders, after: Orders, ident: Ident)
    requires FilledFurther(before, after, ident)
    ensures IsOpenBuy(before[ident]) && IsOpenBuy(after[ident]) ==>
              Sum(after, OpenBuyQty) + PositionOf(after).totalBuyQty ==
                Sum(before, OpenBuyQty) + PositionOf(before).totalBuyQty
    ensures !O.IsBuy(before[ident]) ==>
              Sum(after, SellRemaining) + PositionOf(after).totalSellQty ==
                Sum(before, SellRemaining) + PositionOf(before).totalSellQty
  {
    assert after - {ident} == before - {ident};
    SumExtract(before, OpenBuyQty, ident);
    SumExtract(after, OpenBuyQty, ident);
    SumExtract(before, BuyFilled, ident);
    SumExtract(after, BuyFilled, ident);
    SumExtract(before, SellRemaining, ident);
    SumExtract(after, SellRemaining, ident);
    SumExtract(before, SellFilled, ident);
    SumExtract(after, SellFilled, ident);
    hide Sum, O.IsBuy, O.IsActiveOrder;
  }

  // ---------- sides ----------

  /** The order's side text and its bot event, if it has one, say the same. */
  predicate SideAgrees(o: O.OrderData) { BuySide(o.side) == O.IsBuy(o) }

  ghost predicate SidesAgree(t: Tracker) { forall id :: id in t.orders ==> SideAgrees(t.orders[id]) }

  /** A side text that means the same to everyone. */
  predicate Says(side: string, buys: bool) {
    BuySide(side) == buys && (Lower(side) == "b" || Lower(side) == "buy" <==> buys)
  }

  /** A status that sends a side sends the side of the order's event, the stored one or else the one
      on record; without an event any side that means the same to everyone will do. */
  predicate SendsOwnSide(o: O.OrderData, event: Option<BotEvent>, status: O.WsOrder) {
    status.side != "" ==>
      var known := if event.Some? then event else o.event;
      if known.Some? then Says(status.side, known.value.side == Buy) else exists buys :: Says(status.side, buys)
  }

  predicate KeepsSides(t: Tracker, op: Op) {
    match op
    case OpUpdateStatus(ident, event, status) => SendsOwnSide(Ensured(t, ident), event, status)
    case OpReload(ident, event, stored, _) => stored.Some? ==> SendsOwnSide(Ensured(t, ident), event, stored.value)
    case _ => true
  }

  predicate SideKeepingRun(ops: seq<(Op, int)>)
    decreases |ops|
  {
    ops == [] || (SideKeepingRun(ops[..|ops| - 1]) && KeepsSides(Run(ops[..|ops| - 1]), ops[|ops| - 1].0))
  }

  lemma EventSideAgrees(o: O.OrderData, event: BotEvent)
    ensures SideAgrees(O.ApplyEvent(o, event)) && (O.IsBuy(O.ApplyEvent(o, event)) <==> event.side == Buy)
  {
    assert |Lower("BUY")| == 3 && |Lower("SELL")| == 4;
    assert Lower("BUY") == "buy";
  }

  lemma StatusSideAgrees(o: O.OrderData, event: Option<BotEvent>, status: O.WsOrder)
    requires SideAgrees(o) && SendsOwnSide(o, event, status)
    ensures SideAgrees(WithStatus(o, event, status))
  {
    var known := WithEvent(o, event);
    if event.Some? {
      EventSideAgrees(o, event.value);
    }
    hide O.IsCanceledStatus;
    assert O.ApplyStatus(known, status).event == known.event;
  }

  lemma ApplyKeepsSides(t: Tracker, op: Op, now: int)
    requires SidesAgree(t) && KeepsSides(t, op)
    ensures SidesAgree(Apply(t, op, now))
  {
    hide O.IsCanceledStatus, BuySide;
    match op
    case OpUpdateStatus(ident, event, status) =>
      FreshAgrees(t, ident);
      StatusSideAgrees(Ensured(t, ident), event, status);
      hide WithStatus, SideAgrees, SendsOwnSide;
      HydratedSide(Awaiting(t), t.epoch, WithStatus(Ensured(t, ident), event, status));
    case OpApplyScaledOrder(ident, _, _) => FreshAgrees(t, ident);
    case OpMarkCancelled(_) =>
    case OpCleanup(_) =>
    case OpCloseDeal(_) =>
    case OpReload(ident, event, stored, scaledSize) =>
      FreshAgrees(t, ident);
      ReloadedSide(Ensured(t, ident), event, stored, scaledSize);
      hide Reloaded, SideAgrees, SendsOwnSide;
    case OpRequireHydration =>
    case OpMarkHydrated =>
  }

  lemma FreshAgrees(t: Tracker, ident: Ident)
    requires SidesAgree(t)
    ensures SideAgrees(Ensured(t, ident))
  {
    assert |Lower("")| == 0;
  }

  lemma HydratedSide(awaiting: bool, epoch: nat, o: O.OrderData)
    ensures SideAgrees(Hydrated(awaiting, epoch, o)) == SideAgrees(o)
  {
  }

  lemma ReloadedSide(o: O.OrderData, event: Option<BotEvent>, stored: Option<O.WsOrder>, scaledSize: real)
    requires SideAgrees(o) && (stored.Some? ==> SendsOwnSide(o, event, stored.value))
    ensures SideAgrees(Reloaded(o, event, stored, scaledSize))
  {
    hide O.IsCanceledStatus;
    if stored.Some? {
      StatusSideAgrees(o, event, stored.value);
    } else if event.Some? {
      EventSideAgrees(o, event.value);
    }
    hide BuySide;
  }

  /** Over every run whose statuses send an order's own side, side texts and bot events agree. */
  lemma {:induction false} RunKeepsSides(ops: seq<(Op, int)>)
    requires SideKeepingRun(ops)
    ensures SidesAgree(Run(ops))
    decreases |ops|
  {
    if ops != [] {
      RunKeepsSides(ops[..|ops| - 1]);
      ApplyKeepsSides(Run(ops[..|ops| - 1]), ops[|ops| - 1].0, ops[|ops| - 1].1);
    }
  }

  /** Conservation in every reachable state: over every such run with sensible sizes, splitting a
      deal's position by venue loses nothing, whichever enumeration and representatives are used. */
  lemma RunConserves(ops: seq<(Op, int)>, deal: int, positions: map<Ident, real>, list: seq<OrderSnapshot>)
    requires SideKeepingRun(ops) && SensibleRun(ops)
    requires var orders := DealOrders(Run(ops).orders, deal);
             Enumerates(list, orders) && AreVenuePositions(positions, list)
    ensures Sum(positions, Value) == PositionOf(DealOrders(Run(ops).orders, deal)).netQty
  {
    RunKeepsSides(ops);
    RunKeepsBounds(ops);
    var orders := DealOrders(Run(ops).orders, deal);
    forall id | id in orders ensures orders[id].filled >= 0.0 && BuySide(orders[id].side) == O.IsBuy(orders[id]) {
      assert id in Run(ops).orders && SideAgrees(Run(ops).orders[id]) && O.InBounds(Run(ops).orders[id]);
    }
    hide Run, BuySide, O.IsBuy, Enumerates, AreVenuePositions, PositionOf;
    Conservation(positions, list, orders);
  }

  // ---------- prices ----------

  /** Every buy that filled did so at a price between the two: its limit, or else its own. */
  ghost predicate BoughtBetween(orders: Orders, low: real, high: real) {
    forall id :: id in orders && O.IsBuy(orders[id]) && orders[id].filled > 0.0 ==>
      if orders[id].limitPrice > 0.0 then low <= orders[id].limitPrice <= high else low <= orders[id].price <= high
  }

  lemma Times(price: real, low: real, high: real, qty: real)
    requires low <= price <= high && qty > 0.0
    ensures low * qty <= price * qty <= high * qty
  {
    assert (price - low) * qty >= 0.0;
    assert (high - price) * qty >= 0.0;
  }

  /** The value lies between what the quantity is worth at the two prices. */
  predicate Worth(qty: real, value: real, low: real, high: real) { low * qty <= value <= high * qty }

  lemma NothingIsWorthNothing(low: real, high: real)
    ensures Worth(0.0, 0.0, low, high)
  {
  }

  lemma WorthAdds(low: real, high: real, q: real, r: real, v: real, w: real)
    requires Worth(q, v, low, high) && Worth(r, w, low, high)
    ensures Worth(q + r, v + w, low, high)
  {
    assert low * (q + r) == low * q + low * r;
    assert high * (q + r) == high * q + high * r;
  }

  lemma {:induction false} BoughtValueBetween(orders: Orders, low: real, high: real)
    requires BoughtBetween(orders, low, high) && low > 0.0
    ensures Worth(Sum(orders, BuyFilled), Sum(orders, BuyValue), low, high)
    decreases |orders|
  {
    hide Worth, BuyFilled, BuyValue;
    if orders == map[] {
      NothingIsWorthNothing(low, high);
    } else {
      var id :| id in orders;
      var rest := orders - {id};
      assert BoughtBetween(rest, low, high);
      BoughtValueBetween(rest, low, high);
      SumExtract(orders, BuyFilled, id);
      SumExtract(orders, BuyValue, id);
      OneBuyBetween(orders, id, low, high);
      WorthAdds(low, high, BuyFilled(id, orders[id]), Sum(rest, BuyFilled), BuyValue(id, orders[id]),
                Sum(rest, BuyValue));
    }
  }

  lemma OneBuyBetween(orders: Orders, id: Ident, low: real, high: real)
    requires BoughtBetween(orders, low, high) && low > 0.0 && id in orders
    ensures Worth(BuyFilled(id, orders[id]), BuyValue(id, orders[id]), low, high)
  {
    if BuyFilled(id, orders[id]) > 0.0 {
      Times(O.FillPrice(orders[id]), low, high, orders[id].filled);
    }
  }

  /** The average entry price of a deal lies between the lowest and the highest price its buys
      filled at. */
  lemma AverageEntryIsBetween(orders: Orders, low: real, high: real)
    requires BoughtBetween(orders, low, high) && low > 0.0 && PositionOf(orders).totalBuyQty > 0.0
    ensures low <= PositionOf(orders).averageEntry <= high
  {
    BoughtValueBetween(orders, low, high);
    Between(low, high, Sum(orders, BuyFilled), Sum(orders, BuyValue));
  }

  lemma Between(low: real, high: real, qty: real, value: real)
    requires qty > 0.0 && Worth(qty, value, low, high)
    ensures low <= value / qty <= high
  {
    var average := value / qty;
    assert average * qty == value;
    Decimals.Scale(low, average, qty);
    Decimals.Scale(average, high, qty);
  }
}
