/** The fill tracker's objects: each order is reachable through two indexes, and every deal
    caches its position. */
module TrackerService {
  import opened Adapter
  import opened OrderIds
  import opened RealSums
  import opened Targeting
  import opened TrackerDeals
  import opened TrackerOrders
  import opened Wrappers
  import M = TrackerModel

  /** One tracked order; its fields are kept together in `data`. */
  class OrderState {
    var identifier: Ident
    var data: OrderData

    constructor (ident: Ident, epoch: nat)
      ensures identifier == ident && data == Untracked.(hydratedEpoch := epoch)
    {
      identifier := ident;
      data := Untracked.(hydratedEpoch := epoch);
    }

    method ApplyEvent(evt: BotEvent)
      modifies `data
      ensures data == TrackerOrders.ApplyEvent(old(data), evt)
    {
      data := data.(event := Some(evt), coin := evt.coin, side := SideName(evt.side));
      if evt.size > 0.0 && data.original == 0.0 {
        data := data.(original := evt.size);
      }
      if evt.price > 0.0 {
        data := data.(price := evt.price);
      }
      if evt.orderType == TakeProfit {
        data := data.(reduceOnly := true);
      }
    }

    method ApplyStatus(update: WsOrder)
      modifies `data
      ensures data == TrackerOrders.ApplyStatus(old(data), update)
    {
      if update.timestamp > 0 && data.observed.Some? && update.timestamp < data.observed.value {
        return;
      }
      ApplyAccepted(update, IsCanceledStatus(update.status));
    }

    /** The stored event, if there is one, and then the status. */
    method Ingest(evt: Option<BotEvent>, update: WsOrder)
      modifies `data
      ensures data == M.WithStatus(old(data), evt, update)
    {
      if evt.Some? {
        ApplyEvent(evt.value);
      }
      ApplyStatus(update);
    }

    method Reload(evt: Option<BotEvent>, stored: Option<WsOrder>, scaledSize: real)
      modifies `data
      ensures data == M.Reloaded(old(data), evt, stored, scaledSize)
    {
      if evt.Some? {
        ApplyEvent(evt.value);
      }
      if stored.Some? {
        ApplyStatus(stored.value);
      } else {
        InferFromEvent();
      }
      ApplyScaledSize(scaledSize);
    }

    method ApplyTexts(update: WsOrder)
      modifies `data
      ensures var o := TrackerOrders.WithStatus(old(data), update, false);
              data == old(data).(observed := o.observed, status := o.status, coin := o.coin, side := o.side)
    {
      var o := data;
      if update.timestamp > 0 {
        o := o.(observed := Some(update.timestamp));
      }
      o := o.(status := update.status);
      if update.coin != "" {
        o := o.(coin := update.coin);
      }
      if update.side != "" {
        o := o.(side := update.side);
      }
      data := o;
    }

    method ApplyNumbers(update: WsOrder, cancelled: bool)
      modifies `data
      ensures var o := TrackerOrders.WithStatus(old(data), update, cancelled);
              data == old(data).(limitPrice := o.limitPrice, original := o.original, remaining := o.remaining,
                                 filled := o.filled)
    {
      var o := data;
      if update.limitPx.Some? {
        o := o.(limitPrice := update.limitPx.value);
      }
      if update.origSz.Some? {
        o := o.(original := update.origSz.value);
      }
      if update.sz.Some? {
        o := o.(remaining := update.sz.value);
      }
      var filled := 0.0;
      if o.original > 0.0 {
        filled := Max(0.0, o.original - o.remaining);
      }
      if cancelled {
        o := o.(remaining := 0.0);
      }
      if o.original > 0.0 {
        o := o.(filled := filled);
      }
      data := o;
    }

    method ApplyAccepted(update: WsOrder, cancelled: bool)
      modifies `data
      ensures data == TrackerOrders.WithStatus(old(data), update, cancelled)
    {
      ApplyTexts(update);
      ApplyNumbers(update, cancelled);
    }

    method InferFromEvent()
      modifies `data
      ensures data == TrackerOrders.InferFromEvent(old(data))
    {
      if data.event.None? {
        return;
      }
      if data.event.value.size > 0.0 && data.original == 0.0 {
        data := data.(original := data.event.value.size);
      }
      if data.original > 0.0 && data.remaining == 0.0 {
        data := data.(remaining := data.original);
      }
      if data.event.value.createdAt > 0 {
        data := data.(observed := Some(data.event.value.createdAt));
      }
    }

    method ApplyScaledSize(size: real)
      modifies `data
      ensures data == TrackerOrders.ApplyScaledSize(old(data), size)
    {
      if size > 0.0 {
        data := data.(original := size);
        if data.filled > size {
          data := data.(filled := size);
        }
        var remaining := size - data.filled;
        if remaining < 0.0 {
          remaining := 0.0;
        }
        data := data.(remaining := remaining);
      }
    }

    method Scale(size: real, scaled: real)
      modifies `data
      ensures data == ApplyScaled(old(data), size, scaled)
    {
      ApplyScaledSize(size);
      ApplyScaledPrice(scaled);
    }

    method ApplyScaledPrice(scaled: real)
      modifies `data
      ensures data == TrackerOrders.ApplyScaledPrice(old(data), scaled)
    {
      if scaled > 0.0 {
        data := data.(price := scaled);
        if data.limitPrice == 0.0 {
          data := data.(limitPrice := scaled);
        }
      }
    }

    /** What the order adds to the deal's bought quantity, bought value and sold quantity. */
    method Contribution(ident: Ident) returns (bought: real, value: real, sold: real)
      ensures bought == BuyFilled(ident, data) && value == BuyValue(ident, data) && sold == SellFilled(ident, data)
    {
      bought, value, sold := 0.0, 0.0, 0.0;
      if data.filled <= 0.0 {
        return;
      }
      if IsBuy(data) {
        bought := data.filled;
        if FillPrice(data) > 0.0 {
          value := FillPrice(data) * data.filled;
        }
      } else {
        sold := data.filled;
      }
    }

    method MarkCancelled(now: int)
      modifies `data
      ensures data == TrackerOrders.MarkCancelled(old(data), now)
    {
      data := data.(remaining := 0.0, status := "canceled", observed := Some(now));
    }
  }

  method AnyOf<T>(s: set<T>) returns (x: T)
    requires s != {}
    ensures x in s
  {
    x :| x in s;
  }

  ghost function ViewOf(orders: map<Ident, OrderState>): Orders
    reads orders.Values
  {
    map id | id in orders :: orders[id].data
  }

  class DealState {
    var botID: int
    var dealID: int
    var currency: string
    var orders: map<Ident, OrderState>
    var position: Position
    var lastUpdate: int
    /** The orders as they were when the position was last computed. */
    ghost var tallied: Orders

    constructor (bot: int, deal: int, now: int)
      ensures botID == bot && dealID == deal && orders == map[] && lastUpdate == now
      ensures tallied == map[] && PositionIsTallied()
    {
      botID, dealID, currency, orders, lastUpdate, tallied := bot, deal, "", map[], now, map[];
      position := Position(0.0, 0.0, 0.0, 0.0, 0.0);
    }

    ghost predicate PositionIsTallied()
      reads `position, `tallied
    {
      position == PositionOf(tallied)
    }

    /** Some order has this coin. */
    ghost predicate HasCoin(c: string)
      reads this`orders, orders.Values
    {
      exists id :: id in orders && orders[id].data.coin == c
    }

    /** The position is recomputed from scratch; the currency becomes some order's coin, if any
        order has one. */
    method Recompute()
      modifies `position, `currency, `tallied
      ensures tallied == ViewOf(orders) && PositionIsTallied()
      ensures currency == old(currency) || (currency != "" && HasCoin(currency))
      ensures currency == "" ==> forall id :: id in orders ==> orders[id].data.coin == ""
    {
      var found := FindCoin();
      var buyQty, buyValue, sellQty := Totals();
      position := Summarise(buyQty, buyValue, sellQty);
      tallied := ViewOf(orders);
      if found != "" {
        currency := found;
      }
    }

    /** Lists one order and brings the position up to date. */
    method Add(ident: Ident, order: OrderState, bot: int, now: int)
      modifies this
      ensures orders == old(orders)[ident := order] && lastUpdate == now && dealID == old(dealID)
      ensures PositionIsTallied() && tallied.Keys == orders.Keys
      ensures forall id :: id in orders ==> tallied[id] == orders[id].data
    {
      if botID == 0 {
        botID := bot;
      }
      orders := orders[ident := order];
      lastUpdate := now;
      Recompute();
    }

    method CloseOpenOrders(now: int)
      requires forall id :: id in orders ==> orders[id].identifier == id
      modifies set id | id in orders :: orders[id]
      ensures forall id :: id in orders ==> orders[id].data == M.CloseIfOpen(old(orders[id].data), now)
      ensures forall id :: id in orders ==> orders[id].identifier == id
    {
      var remaining := orders.Keys;
      while remaining != {}
        invariant remaining <= orders.Keys
        invariant forall id :: id in orders ==> orders[id].identifier == id
        invariant forall id :: id in orders ==>
                    orders[id].data ==
                      if id in remaining then old(orders[id].data) else M.CloseIfOpen(old(orders[id].data), now)
        decreases |remaining|
      {
        var id :| id in remaining;
        remaining := remaining - {id};
        if IsBuy(orders[id].data) && IsActiveOrder(orders[id].data) {
          orders[id].MarkCancelled(now);
        }
      }
    }

    /** Cancels the open buys and brings the position up to date. */
    method Close(now: int)
      requires forall id :: id in orders ==> orders[id].identifier == id
      modifies `lastUpdate, `position, `currency, `tallied, set id | id in orders :: orders[id]
      ensures forall id :: id in orders ==>
                orders[id].data == M.CloseIfOpen(old(orders[id].data), now) && orders[id].identifier == id
      ensures lastUpdate == now && PositionIsTallied() && tallied.Keys == orders.Keys
      ensures forall id :: id in orders ==> tallied[id] == orders[id].data
    {
      CloseOpenOrders(now);
      lastUpdate := now;
      Recompute();
    }

    method AllInactive() returns (all: bool)
      ensures all <==> forall id :: id in orders ==> !IsActiveOrder(orders[id].data)
    {
      var remaining := orders.Keys;
      while remaining != {}
        invariant remaining <= orders.Keys
        invariant forall id :: id in orders && id !in remaining ==> !IsActiveOrder(orders[id].data)
        decreases |remaining|
      {
        var id :| id in remaining;
        remaining := remaining - {id};
        if IsActiveOrder(orders[id].data) {
          return false;
        }
      }
      return true;
    }

    method Totals() returns (buyQty: real, buyValue: real, sellQty: real)
      ensures buyQty == Sum(ViewOf(orders), BuyFilled)
      ensures buyValue == Sum(ViewOf(orders), BuyValue)
      ensures sellQty == Sum(ViewOf(orders), SellFilled)
    {
      ghost var view := ViewOf(orders);
      buyQty, buyValue, sellQty := 0.0, 0.0, 0.0;
      var remaining := orders.Keys;
      ghost var left := view;
      while remaining != {}
        invariant remaining <= orders.Keys && left.Keys == remaining
        invariant forall id :: id in left ==> left[id] == orders[id].data
        invariant buyQty + Sum(left, BuyFilled) == Sum(view, BuyFilled)
        invariant buyValue + Sum(left, BuyValue) == Sum(view, BuyValue)
        invariant sellQty + Sum(left, SellFilled) == Sum(view, SellFilled)
        decreases |remaining|
      {
        var id :| id in remaining;
        remaining := remaining - {id};
        SumExtract(left, BuyFilled, id);
        SumExtract(left, BuyValue, id);
        SumExtract(left, SellFilled, id);
        left := left - {id};
        var bought, value, sold := orders[id].Contribution(id);
        buyQty, buyValue, sellQty := buyQty + bought, buyValue + value, sellQty + sold;
      }
      assert left == map[];
    }

    method List() returns (list: seq<OrderSnapshot>)
      ensures Enumerates(list, ViewOf(orders))
    {
      list := [];
      var remaining := orders.Keys;
      while remaining != {}
        invariant remaining <= orders.Keys
        invariant IdentsOf(list) == orders.Keys - remaining
        invariant forall i :: 0 <= i < |list| ==>
                    list[i].ident in orders.Keys - remaining && list[i].data == orders[list[i].ident].data
        invariant forall i, j :: 0 <= i < j < |list| ==> list[i].ident != list[j].ident
        decreases |remaining|
      {
        var id :| id in remaining;
        remaining := remaining - {id};
        assert (list + [OrderSnapshot(id, orders[id].data)])[..|list|] == list;
        list := list + [OrderSnapshot(id, orders[id].data)];
      }
    }

    method Snapshot() returns (snap: DealSnapshot)
      requires PositionIsTallied() && tallied == ViewOf(orders)
      ensures SnapshotOf(snap, tallied)
      ensures snap.dealID == dealID && snap.botID == botID && snap.currency == currency
    {
      var list := List();
      SurveyShows(list, ViewOf(orders));
      var active, openBuys, allFilled, latest, buyQty, sellQty := Survey(list);
      snap := DealSnapshot(dealID, botID, currency, position, list, active, latest, openBuys, allFilled, buyQty,
                           sellQty);
    }

    method FindCoin() returns (found: string)
      ensures found != "" ==> HasCoin(found)
      ensures found == "" ==> forall id :: id in orders ==> orders[id].data.coin == ""
    {
      found := "";
      var remaining := orders.Keys;
      while remaining != {} && found == ""
        invariant remaining <= orders.Keys
        invariant found == "" ==> forall id :: id in orders && id !in remaining ==> orders[id].data.coin == ""
        invariant found != "" ==> HasCoin(found)
        decreases |remaining|
      {
        var id :| id in remaining;
        remaining := remaining - {id};
        found := orders[id].data.coin;
      }
    }
  }

  class Service {
    var orders: map<Ident, OrderState>
    var deals: map<int, DealState>
    var requireHydration: bool
    var statusHydrated: bool
    var hydrationEpoch: nat
    /** Every object the two indexes have ever held. */
    ghost var orderObjects: set<OrderState>
    ghost var dealObjects: set<DealState>

    /** Every order object sits under its own identifier. */
    ghost predicate OrdersIndexed()
      reads `orders, `orderObjects, orderObjects
    {
      forall id :: id in orders ==> orders[id] in orderObjects && orders[id].identifier == id
    }

    /** Every deal object sits under its own number and lists only tracked orders of its own, as
        the very objects the order index holds. */
    ghost predicate DealsIndexed()
      reads `orders, `deals, `dealObjects, dealObjects
    {
      && (forall d :: d in deals ==> deals[d] in dealObjects && deals[d].dealID == d)
      && (forall d, id :: d in deals && id in deals[d].orders ==>
            id.order.dealID == d && id in orders && deals[d].orders[id] == orders[id])
    }

    /** Every order, one perhaps excepted, is listed by its deal. */
    ghost predicate Listed(except: Option<Ident>)
      requires DealsIndexed()
      reads `orders, `deals, `dealObjects, dealObjects
    {
      forall id :: id in orders && Some(id) != except ==>
        id.order.dealID in deals && id in deals[id.order.dealID].orders
    }

    /** Every deal, one perhaps excepted, caches the position its orders add up to. */
    ghost predicate Cached(except: Option<int>)
      requires OrdersIndexed() && DealsIndexed()
      reads `orders, `deals, `orderObjects, `dealObjects, orderObjects, dealObjects
    {
      && (forall d {:trigger deals[d].PositionIsTallied()} ::
            d in deals && Some(d) != except ==> deals[d].PositionIsTallied())
      && (forall d :: d in deals && Some(d) != except ==> deals[d].tallied.Keys == deals[d].orders.Keys)
      && (forall d, id :: d in deals && Some(d) != except && id in deals[d].orders && id in deals[d].tallied ==>
            deals[d].tallied[id] == orders[id].data)
    }

    ghost predicate Valid()
      reads `orders, `deals, `orderObjects, `dealObjects, orderObjects, dealObjects
    {
      OrdersIndexed() && DealsIndexed() && Listed(None) && Cached(None)
    }

    ghost function View(): Orders
      requires OrdersIndexed()
      reads `orders, `orderObjects, orderObjects
    {
      map id | id in orders :: orders[id].data
    }

    ghost function Updated(): map<int, int>
      requires DealsIndexed()
      reads `orders, `deals, `dealObjects, dealObjects
    {
      map d | d in deals :: deals[d].lastUpdate
    }

    ghost function State(): M.Tracker
      requires OrdersIndexed() && DealsIndexed()
      reads this, orderObjects, dealObjects
    {
      M.Tracker(View(), Updated(), requireHydration, statusHydrated, hydrationEpoch)
    }

    lemma TalliedIs(d: int)
      requires Valid() && d in deals
      ensures deals[d].tallied == M.DealOrders(View(), d)
      ensures deals[d].tallied.Keys == deals[d].orders.Keys
      ensures forall id :: id in deals[d].orders ==> deals[d].tallied[id] == deals[d].orders[id].data
    {
    }

    /** Each deal's cached position is the from-scratch position of the orders filed under it. */
    lemma PositionsAreCurrent(d: int)
      requires Valid() && d in deals
      ensures deals[d].position == PositionOf(M.DealOrders(View(), d))
    {
      assert deals[d].PositionIsTallied();
      TalliedIs(d);
    }

    constructor ()
      ensures Valid() && State() == M.Empty && fresh(orderObjects) && fresh(dealObjects)
    {
      orders, deals, orderObjects, dealObjects := map[], map[], {}, {};
      requireHydration, statusHydrated, hydrationEpoch := false, false, 0;
    }

    method RequireStatusHydration()
      requires Valid()
      modifies `requireHydration, `statusHydrated, `hydrationEpoch
      ensures Valid() && State() == M.RequireStatusHydration(old(State()))
    {
      hide OrdersIndexed, DealsIndexed, Listed, Cached, View, Updated;
      requireHydration, statusHydrated, hydrationEpoch := true, false, hydrationEpoch + 1;
      assert Valid() && View() == old(View()) && Updated() == old(Updated());
    }

    method MarkStatusesHydrated()
      requires Valid()
      modifies `statusHydrated
      ensures Valid() && State() == M.MarkStatusesHydrated(old(State()))
    {
      hide OrdersIndexed, DealsIndexed, Listed, Cached, View, Updated;
      statusHydrated := true;
      assert Valid() && View() == old(View()) && Updated() == old(Updated());
    }

    /** What is known of an order, before anything else if it is new. */
    ghost function Known(ident: Ident): OrderData
      requires OrdersIndexed()
      reads this, orderObjects
    {
      if ident in orders then orders[ident].data else M.Fresh(requireHydration, statusHydrated, hydrationEpoch)
    }

    lemma KnownIsEnsured(ident: Ident)
      requires OrdersIndexed() && DealsIndexed()
      ensures Known(ident) == M.Ensured(State(), ident)
    {
    }

    method EnsureOrder(ident: Ident) returns (state: OrderState)
      requires OrdersIndexed()
      modifies `orders, `orderObjects
      ensures OrdersIndexed()
      ensures orderObjects == old(orderObjects) + {state} && orders == old(orders)[ident := state]
      ensures if ident in old(orders) then state == old(orders[ident]) else fresh(state)
      ensures state.data == old(Known(ident))
    {
      if ident !in orders {
        var epoch := if !requireHydration || statusHydrated || hydrationEpoch == 0 then hydrationEpoch else 0;
        state := new OrderState(ident, epoch);
        orders := orders[ident := state];
        orderObjects := orderObjects + {state};
      } else {
        state := orders[ident];
        assert orders == orders[ident := state];
      }
    }

    method EnsureDeal(ident: Ident, now: int) returns (deal: DealState)
      modifies `deals, `dealObjects
      ensures dealObjects == old(dealObjects) + {deal} && deals == old(deals)[ident.order.dealID as int := deal]
      ensures if ident.order.dealID in old(deals) then deal == old(deals[ident.order.dealID])
              else fresh(deal) && deal.dealID == ident.order.dealID && deal.orders == map[]
    {
      if ident.order.dealID !in deals {
        deal := new DealState(ident.order.botID, ident.order.dealID, now);
        deals := deals[ident.order.dealID as int := deal];
      } else {
        deal := deals[ident.order.dealID];
        assert deals == deals[ident.order.dealID as int := deal];
      }
      dealObjects := dealObjects + {deal};
    }

    /** One order was touched or created; the deals have not heard of it. */
    twostate predicate Touched(ident: Ident)
      requires old(OrdersIndexed())
      reads `orders, `orderObjects, `deals, `dealObjects, orderObjects, dealObjects
    {
      && ident in orders && OrdersIndexed()
      && orders == old(orders)[ident := orders[ident]] && (ident in old(orders) ==> orders[ident] == old(orders[ident]))
      && (forall id :: id in old(orders) && id != ident ==> orders[id].data == old(orders[id].data))
      && deals == old(deals) && dealObjects == old(dealObjects)
      && (forall d :: d in dealObjects ==> unchanged(d))
    }

    twostate lemma TouchedIndexes(ident: Ident)
      requires old(Valid()) && Touched(ident)
      ensures DealsIndexed() && Listed(Some(ident))
    {
      hide Cached;
      assert forall d :: d in deals ==> deals[d] in dealObjects && deals[d].orders == old(deals[d].orders);
    }

    twostate lemma TouchedCaches(ident: Ident)
      requires old(Valid()) && Touched(ident) && DealsIndexed()
      ensures Cached(Some(ident.order.dealID))
    {
      assert forall d :: d in deals ==> unchanged(deals[d]);
    }

    twostate lemma TouchedView(ident: Ident)
      requires old(OrdersIndexed()) && Touched(ident)
      ensures View() == old(View())[ident := orders[ident].data]
    {
    }

    twostate lemma TouchedUpdates(ident: Ident)
      requires old(Valid()) && Touched(ident) && DealsIndexed()
      ensures Updated() == old(Updated())
    {
      hide Listed, Cached, OrdersIndexed;
      assert forall d :: d in deals ==> deals[d] in dealObjects && deals[d].lastUpdate == old(deals[d].lastUpdate);
    }

    /** Only the touched order's own deal has yet to hear of it. */
    twostate lemma OneOrderTouched(ident: Ident)
      requires old(Valid()) && Touched(ident)
      ensures DealsIndexed() && Listed(Some(ident)) && Cached(Some(ident.order.dealID))
      ensures View() == old(View())[ident := orders[ident].data] && Updated() == old(Updated())
    {
      TouchedIndexes(ident);
      TouchedCaches(ident);
      TouchedView(ident);
      TouchedUpdates(ident);
      hide OrdersIndexed, DealsIndexed, Listed, Cached, View, Updated, Touched;
    }

    /** One deal, new or not, has just listed one more order; the other deals are as they were. */
    twostate predicate Filed(ident: Ident, new deal: DealState)
      requires old(DealsIndexed())
      reads this, deal, dealObjects
    {
      && orders == old(orders) && orderObjects == old(orderObjects) && ident in orders
      && deals == old(deals)[ident.order.dealID as int := deal]
      && dealObjects == old(dealObjects) + {deal} && deal.dealID == ident.order.dealID
      && deal.orders == (if ident.order.dealID in old(deals) then old(deals[ident.order.dealID].orders)
                         else map[])[ident := orders[ident]]
      && (forall x :: x in old(dealObjects) && x in dealObjects && x != deal ==> unchanged(x))
      && (forall d :: d in old(deals) && d != deal.dealID ==> old(deals[d]) != deal)
    }

    twostate lemma FiledIndexes(ident: Ident, new deal: DealState)
      requires old(DealsIndexed()) && Filed(ident, deal)
      ensures DealsIndexed()
    {
    }

    twostate lemma FiledLists(ident: Ident, new deal: DealState)
      requires old(DealsIndexed() && Listed(Some(ident))) && Filed(ident, deal)
      ensures DealsIndexed() && Listed(None)
    {
      FiledIndexes(ident, deal);
    }

    twostate lemma FiledCaches(ident: Ident, new deal: DealState)
      requires old(OrdersIndexed() && DealsIndexed() && Cached(Some(ident.order.dealID))) && Filed(ident, deal)
      requires forall x :: x in orderObjects ==> unchanged(x)
      requires deal.PositionIsTallied() && deal.tallied.Keys == deal.orders.Keys
      requires forall id :: id in deal.orders ==> deal.tallied[id] == deal.orders[id].data
      ensures OrdersIndexed() && DealsIndexed() && Cached(None)
    {
      FiledIndexes(ident, deal);
    }

    twostate lemma FiledUpdates(ident: Ident, new deal: DealState)
      requires old(DealsIndexed()) && Filed(ident, deal)
      ensures DealsIndexed() && Updated() == old(Updated())[ident.order.dealID as int := deal.lastUpdate]
    {
      FiledIndexes(ident, deal);
      forall d | d in deals && d != deal.dealID
        ensures d in old(deals) && deals[d].lastUpdate == old(deals[d].lastUpdate)
      {
        assert deals[d] == old(deals[d]);
        assert unchanged(deals[d]);
      }
    }

    method FileUnderDeal(ident: Ident, now: int) returns (deal: DealState)
      requires DealsIndexed() && ident in orders
      modifies `deals, `dealObjects, dealObjects
      ensures Filed(ident, deal) && deal.lastUpdate == now && fresh({deal} - old(dealObjects))
      ensures deal.PositionIsTallied() && deal.tallied.Keys == deal.orders.Keys
      ensures forall id :: id in deal.orders ==> deal.tallied[id] == deal.orders[id].data
    {
      deal := EnsureDeal(ident, now);
      deal.Add(ident, orders[ident], ident.order.botID, now);
    }

    /** Lists the order under its deal and brings the deal's position up to date. */
    method File(ident: Ident, now: int)
      requires OrdersIndexed() && DealsIndexed() && Listed(Some(ident)) && Cached(Some(ident.order.dealID))
               && ident in orders
      modifies `deals, `dealObjects, dealObjects
      ensures Valid()
      ensures Updated() == old(Updated())[ident.order.dealID as int := now]
      ensures fresh(dealObjects - old(dealObjects))
    {
      var deal := FileUnderDeal(ident, now);
      FiledLists(ident, deal);
      FiledCaches(ident, deal);
      FiledUpdates(ident, deal);
    }

    method AllReduceOnlyHydrated() returns (all: bool)
      requires OrdersIndexed()
      ensures all == M.AllHydrated(View(), hydrationEpoch)
    {
      var remaining := orders.Keys;
      while remaining != {}
        invariant remaining <= orders.Keys
        invariant forall id :: id in orders && id !in remaining && orders[id].data.reduceOnly ==>
                    orders[id].data.hydratedEpoch == hydrationEpoch
        decreases |remaining|
      {
        var id :| id in remaining;
        remaining := remaining - {id};
        if orders[id].data.reduceOnly && orders[id].data.hydratedEpoch != hydrationEpoch {
          assert id in View();
          return false;
        }
      }
      return true;
    }

    ghost predicate Awaiting()
      reads `requireHydration, `statusHydrated, `hydrationEpoch
    {
      requireHydration && !statusHydrated && hydrationEpoch != 0
    }

    method MarkOrderHydrated(state: OrderState)
      requires OrdersIndexed()
      modifies `statusHydrated, state`data
      ensures OrdersIndexed()
      ensures state.data == M.Hydrated(old(Awaiting()), hydrationEpoch, old(state.data))
      ensures statusHydrated == (old(statusHydrated) || (old(Awaiting()) && M.AllHydrated(View(), hydrationEpoch)))
    {
      if !requireHydration || statusHydrated || hydrationEpoch == 0 {
        return;
      }
      if state.data.reduceOnly {
        state.data := state.data.(hydratedEpoch := hydrationEpoch);
      }
      var all := AllReduceOnlyHydrated();
      if all {
        statusHydrated := true;
      }
    }

    method IngestStatus(ident: Ident, event: Option<BotEvent>, status: WsOrder)
      requires OrdersIndexed()
      modifies `orders, `orderObjects, `statusHydrated, orderObjects
      ensures Touched(ident) && fresh(orderObjects - old(orderObjects))
      ensures orders[ident].data ==
                M.Hydrated(old(Awaiting()), hydrationEpoch, M.WithStatus(old(Known(ident)), event, status))
      ensures statusHydrated == (old(statusHydrated) || (old(Awaiting()) && M.AllHydrated(View(), hydrationEpoch)))
    {
      hide M.WithStatus, Known, M.AllHydrated;
      var state := EnsureOrder(ident);
      assert forall id :: id in orders && id != ident ==> orders[id] == old(orders[id]) && orders[id] != state;
      state.Ingest(event, status);
      MarkOrderHydrated(state);
    }

    method TouchForStatus(ident: Ident, event: Option<BotEvent>, status: WsOrder)
      requires Valid()
      modifies `orders, `orderObjects, `statusHydrated, orderObjects
      ensures OrdersIndexed() && DealsIndexed() && Listed(Some(ident)) && Cached(Some(ident.order.dealID))
              && ident in orders
      ensures View() == old(View())[ident := M.Hydrated(old(Awaiting()), hydrationEpoch,
                                                        M.WithStatus(old(Known(ident)), event, status))]
      ensures statusHydrated == (old(statusHydrated) || (old(Awaiting()) && M.AllHydrated(View(), hydrationEpoch)))
      ensures Updated() == old(Updated()) && fresh(orderObjects - old(orderObjects))
    {
      hide DealsIndexed, Listed, Cached, View, Updated, Known, M.WithStatus, M.AllHydrated;
      IngestStatus(ident, event, status);
      OneOrderTouched(ident);
    }

    method RecordStatus(ident: Ident, event: Option<BotEvent>, status: WsOrder, now: int)
      requires Valid()
      modifies `orders, `orderObjects, `deals, `dealObjects, `statusHydrated, orderObjects, dealObjects
      ensures Valid() && State() == M.UpdateStatus(old(State()), ident, event, status, now)
      ensures fresh(orderObjects - old(orderObjects)) && fresh(dealObjects - old(dealObjects))
    {
      hide OrdersIndexed, DealsIndexed, Listed, Cached, View, Updated, M.AllHydrated, M.WithStatus;
      KnownIsEnsured(ident);
      TouchForStatus(ident, event, status);
      File(ident, now);
    }

    method UpdateStatus(ident: Ident, event: Option<BotEvent>, status: WsOrder, now: int) returns (snap: DealSnapshot)
      requires Valid()
      modifies `orders, `orderObjects, `deals, `dealObjects, `statusHydrated, orderObjects, dealObjects
      ensures Valid() && State() == M.UpdateStatus(old(State()), ident, event, status, now)
      ensures fresh(orderObjects - old(orderObjects)) && fresh(dealObjects - old(dealObjects))
      ensures snap.dealID == ident.order.dealID && SnapshotOf(snap, M.DealOrders(View(), ident.order.dealID))
    {
      hide OrdersIndexed, DealsIndexed, Listed, Cached, SnapshotOf, M.AllHydrated, M.WithStatus, M.DealOrders;
      RecordStatus(ident, event, status, now);
      assert ident.order.dealID as int in State().updated;
      snap := SnapshotOfDeal(ident.order.dealID);
    }

    method SnapshotOfDeal(dealID: int) returns (snap: DealSnapshot)
      requires Valid() && dealID in deals
      ensures snap.dealID == dealID && SnapshotOf(snap, M.DealOrders(View(), dealID))
    {
      hide SnapshotOf, PositionOf, M.DealOrders;
      assert deals[dealID].PositionIsTallied();
      TalliedIs(dealID);
      snap := deals[dealID].Snapshot();
    }

    method ScaleTracked(ident: Ident, size: real, price: real)
      requires OrdersIndexed()
      modifies `orders, `orderObjects, orderObjects
      ensures Touched(ident) && fresh(orderObjects - old(orderObjects))
      ensures orders[ident].data == ApplyScaled(old(Known(ident)), size, price)
    {
      hide ApplyScaled, Known;
      var state := EnsureOrder(ident);
      assert forall id :: id in orders && id != ident ==> orders[id] == old(orders[id]) && orders[id] != state;
      state.Scale(size, price);
    }

    method TouchForScaledOrder(ident: Ident, size: real, price: real)
      requires Valid()
      modifies `orders, `orderObjects, orderObjects
      ensures OrdersIndexed() && DealsIndexed() && Listed(Some(ident)) && Cached(Some(ident.order.dealID))
              && ident in orders
      ensures View() == old(View())[ident := ApplyScaled(old(Known(ident)), size, price)]
      ensures Updated() == old(Updated()) && fresh(orderObjects - old(orderObjects))
    {
      hide DealsIndexed, Listed, Cached, View, Updated, Known, ApplyScaled;
      ScaleTracked(ident, size, price);
      OneOrderTouched(ident);
    }

    method ApplyScaledOrder(ident: Ident, size: real, price: real, now: int)
      requires Valid()
      modifies `orders, `orderObjects, `deals, `dealObjects, orderObjects, dealObjects
      ensures Valid() && State() == M.ApplyScaledOrder(old(State()), ident, size, price, now)
      ensures fresh(orderObjects - old(orderObjects)) && fresh(dealObjects - old(dealObjects))
    {
      hide OrdersIndexed, DealsIndexed, Listed, Cached, View, Updated, ApplyScaled;
      if size <= 0.0 && price <= 0.0 {
        return;
      }
      KnownIsEnsured(ident);
      TouchForScaledOrder(ident, size, price);
      File(ident, now);
    }

    method ReloadTracked(ident: Ident, event: Option<BotEvent>, status: Option<WsOrder>, scaledSize: real)
      requires OrdersIndexed()
      modifies `orders, `orderObjects, orderObjects
      ensures Touched(ident) && fresh(orderObjects - old(orderObjects))
      ensures orders[ident].data == M.Reloaded(old(Known(ident)), event, status, scaledSize)
    {
      hide M.Reloaded, Known;
      var state := EnsureOrder(ident);
      assert forall id :: id in orders && id != ident ==> orders[id] == old(orders[id]) && orders[id] != state;
      state.Reload(event, status, scaledSize);
    }

    method TouchForReload(ident: Ident, event: Option<BotEvent>, status: Option<WsOrder>, scaledSize: real)
      requires Valid()
      modifies `orders, `orderObjects, orderObjects
      ensures OrdersIndexed() && DealsIndexed() && Listed(Some(ident)) && Cached(Some(ident.order.dealID))
              && ident in orders
      ensures View() == old(View())[ident := M.Reloaded(old(Known(ident)), event, status, scaledSize)]
      ensures Updated() == old(Updated()) && fresh(orderObjects - old(orderObjects))
    {
      hide DealsIndexed, Listed, Cached, View, Updated, Known, M.Reloaded;
      ReloadTracked(ident, event, status, scaledSize);
      OneOrderTouched(ident);
    }

    /** One submission of a deal taken from the store: its bot event, its last venue status if
        any, and the size it was last scaled to. */
    method ReloadOrder(ident: Ident, event: Option<BotEvent>, status: Option<WsOrder>, scaledSize: real, now: int)
      requires Valid()
      modifies `orders, `orderObjects, `deals, `dealObjects, orderObjects, dealObjects
      ensures Valid() && State() == M.ReloadOrder(old(State()), ident, event, status, scaledSize, now)
      ensures fresh(orderObjects - old(orderObjects)) && fresh(dealObjects - old(dealObjects))
    {
      hide OrdersIndexed, DealsIndexed, Listed, Cached, View, Updated, M.Reloaded;
      KnownIsEnsured(ident);
      TouchForReload(ident, event, status, scaledSize);
      File(ident, now);
    }

    method CancelTracked(ident: Ident, now: int)
      requires OrdersIndexed() && ident in orders
      modifies orderObjects
      ensures Touched(ident) && orders[ident].data == MarkCancelled(old(View())[ident], now)
    {
      hide MarkCancelled;
      orders[ident].MarkCancelled(now);
      assert orders == orders[ident := orders[ident]];
    }

    method TouchForCancel(ident: Ident, now: int)
      requires Valid() && ident in orders
      modifies orderObjects
      ensures OrdersIndexed() && DealsIndexed() && Listed(Some(ident)) && Cached(Some(ident.order.dealID))
      ensures View() == old(View())[ident := MarkCancelled(old(View())[ident], now)]
      ensures Updated() == old(Updated())
    {
      hide DealsIndexed, Listed, Cached, Updated, MarkCancelled;
      CancelTracked(ident, now);
      OneOrderTouched(ident);
    }

    method MarkOrderCancelled(ident: Ident, now: int)
      requires Valid()
      modifies `deals, `dealObjects, orderObjects, dealObjects
      ensures Valid() && State() == M.MarkOrderCancelled(old(State()), ident, now)
      ensures fresh(dealObjects - old(dealObjects))
    {
      hide OrdersIndexed, DealsIndexed, Listed, Cached, Updated, MarkCancelled;
      if ident !in orders {
        return;
      }
      TouchForCancel(ident, now);
      File(ident, now);
    }

    lemma StaleIs(d: int, staleAfter: int, now: int)
      requires Valid() && d in deals
      ensures M.Stale(State(), staleAfter, now, d) <==>
              && now - deals[d].lastUpdate >= staleAfter
              && forall id :: id in deals[d].orders ==> !IsActiveOrder(deals[d].orders[id].data)
    {
      forall id | id in orders && id.order.dealID == d
        ensures id in deals[d].orders && deals[d].orders[id].data == View()[id]
      {
      }
    }

    method IsStale(d: int, staleAfter: int, now: int) returns (stale: bool)
      requires Valid() && d in deals
      ensures stale == M.Stale(State(), staleAfter, now, d)
    {
      StaleIs(d, staleAfter, now);
      if now - deals[d].lastUpdate < staleAfter {
        return false;
      }
      stale := deals[d].AllInactive();
    }

    lemma UpdatedKeys()
      requires OrdersIndexed() && DealsIndexed()
      ensures State().updated.Keys == deals.Keys
    {
    }

    static ghost predicate AreStale(t: M.Tracker, stale: set<int>, staleAfter: int, now: int) {
      stale <= t.updated.Keys && forall d :: d in t.updated ==> (d in stale <==> M.Stale(t, staleAfter, now, d))
    }

    static ghost predicate OrdersFiled(t: M.Tracker) {
      forall id :: id in t.orders ==> id.order.dealID in t.updated
    }

    method FindStaleDeals(staleAfter: int, now: int) returns (stale: set<int>)
      requires Valid()
      ensures stale <= deals.Keys && AreStale(State(), stale, staleAfter, now)
    {
      hide OrdersIndexed, DealsIndexed, Listed, Cached, State, M.Stale;
      UpdatedKeys();
      stale := {};
      var remaining := deals.Keys;
      while remaining != {}
        invariant remaining <= deals.Keys && stale <= deals.Keys - remaining
        invariant forall d :: d in State().updated && d !in remaining ==>
                    (d in stale <==> M.Stale(State(), staleAfter, now, d))
        decreases |remaining|
      {
        var d := AnyOf(remaining);
        remaining := remaining - {d};
        var found := IsStale(d, staleAfter, now);
        if found {
          stale := stale + {d};
        }
      }
    }

    method RemoveDeal(d: int)
      requires Valid() && d in deals
      modifies `orders, `deals
      ensures Valid()
      ensures View() == map id | id in old(View()) && id.order.dealID != d :: old(View())[id]
      ensures Updated() == old(Updated()) - {d}
    {
      DropDeal(d);
      DroppedOrders(d);
      DroppedUpdate(d);
    }

    /** A deal and its orders left both indexes. */
    twostate predicate Dropped(d: int)
      reads `orders, `deals, `orderObjects, `dealObjects, orderObjects, dealObjects
    {
      && d in old(deals) && deals == old(deals) - {d} && orders == old(orders) - old(deals[d].orders.Keys)
      && orderObjects == old(orderObjects) && dealObjects == old(dealObjects)
      && (forall x :: x in orderObjects ==> unchanged(x)) && (forall x :: x in dealObjects ==> unchanged(x))
    }

    twostate lemma DroppedIndexes(d: int)
      requires old(OrdersIndexed() && DealsIndexed()) && Dropped(d)
      ensures OrdersIndexed() && DealsIndexed()
    {
      assert forall x :: x in deals ==> deals[x] == old(deals[x]) && unchanged(deals[x]);
    }

    twostate lemma DroppedLists(d: int)
      requires old(DealsIndexed() && Listed(None)) && Dropped(d) && DealsIndexed()
      ensures Listed(None)
    {
      assert forall x :: x in deals ==> deals[x] == old(deals[x]) && unchanged(deals[x]);
    }

    twostate lemma DroppedCaches(d: int)
      requires old(Valid()) && Dropped(d) && OrdersIndexed() && DealsIndexed()
      ensures Cached(None)
    {
      assert forall x :: x in deals ==> deals[x] == old(deals[x]) && unchanged(deals[x]);
    }

    method DropDeal(d: int)
      requires Valid() && d in deals
      modifies `orders, `deals
      ensures Valid() && deals == old(deals) - {d}
      ensures orders == old(orders) - old(deals[d].orders.Keys)
    {
      orders := orders - deals[d].orders.Keys;
      deals := deals - {d};
      assert old(Valid()) && Dropped(d);
      hide OrdersIndexed, DealsIndexed, Listed, Cached, Dropped;
      DroppedIndexes(d);
      DroppedLists(d);
      DroppedCaches(d);
    }

    twostate lemma DroppedOrders(d: int)
      requires old(OrdersIndexed() && DealsIndexed() && Listed(None)) && d in old(deals) && OrdersIndexed()
      requires orders == old(orders) - old(deals[d].orders.Keys)
      requires forall id :: id in orders ==> orders[id].data == old(orders[id].data)
      ensures View() == map id | id in old(View()) && id.order.dealID != d :: old(View())[id]
    {
      assert forall id :: id in old(orders) ==> (id in old(deals[d].orders) <==> id.order.dealID == d);
    }

    twostate lemma DroppedUpdate(d: int)
      requires old(DealsIndexed()) && DealsIndexed() && deals == old(deals) - {d}
      requires forall x :: x in deals ==> deals[x].lastUpdate == old(deals[x].lastUpdate)
      ensures Updated() == old(Updated()) - {d}
    {
      forall x | x in deals ensures Updated()[x] == old(Updated())[x] {
        assert deals[x] == old(deals[x]);
      }
    }

    lemma OrdersAreFiled()
      requires Valid()
      ensures OrdersFiled(State())
    {
      hide Cached;
    }

    lemma CountGone<K, V>(before: map<K, V>, after: map<K, V>, gone: set<K>)
      requires gone <= before.Keys && after.Keys == before.Keys - gone
      ensures |gone| == |before| - |after|
    {
      assert before.Keys == after.Keys + gone;
    }

    method CleanupStaleDeals(staleAfter: int, now: int) returns (count: nat)
      requires Valid()
      modifies `orders, `deals
      ensures Valid() && State() == M.CleanupStaleDeals(old(State()), staleAfter, now)
      ensures count == |old(deals)| - |deals|
    {
      ghost var before := State();
      OrdersAreFiled();
      hide OrdersIndexed, DealsIndexed, Listed, Cached, Valid, State, View, Updated;
      hide AreStale, OrdersFiled, M.CleanupStaleDeals, Without;
      var stale := FindStaleDeals(staleAfter, now);
      CleanedUp(before, stale, staleAfter, now);
      count := Forget(stale);
    }

    method Forget(stale: set<int>) returns (count: nat)
      requires Valid() && stale <= deals.Keys
      modifies `orders, `deals
      ensures Valid() && count == |old(deals)| - |deals|
      ensures State() == old(State()).(orders := Without(old(State()).orders, stale),
                                       updated := old(State()).updated - stale)
    {
      hide OrdersIndexed, DealsIndexed, Listed, Cached, View, Updated, Without;
      RemoveDeals(stale);
      count := |stale|;
      CountGone(old(deals), deals, stale);
    }

    lemma CleanedUp(t: M.Tracker, stale: set<int>, staleAfter: int, now: int)
      requires OrdersFiled(t) && AreStale(t, stale, staleAfter, now)
      ensures M.CleanupStaleDeals(t, staleAfter, now) ==
              t.(orders := Without(t.orders, stale), updated := t.updated - stale)
    {
    }

    static ghost function Without(all: Orders, gone: set<int>): Orders {
      map id | id in all && id.order.dealID !in gone :: all[id]
    }

    lemma WithoutOneMore(all: Orders, gone: set<int>, d: int)
      ensures Without(all, {}) == all
      ensures Without(all, gone + {d}) ==
              (map id | id in Without(all, gone) && id.order.dealID != d :: Without(all, gone)[id])
    {
    }

    lemma UpdatedWithoutOneMore(updated: map<int, int>, gone: set<int>, d: int)
      ensures updated - gone - {d} == updated - (gone + {d})
    {
    }

    method RemoveDeals(stale: set<int>)
      requires Valid() && stale <= deals.Keys
      modifies `orders, `deals
      ensures Valid()
      ensures View() == Without(old(View()), stale)
      ensures Updated() == old(Updated()) - stale && deals.Keys == old(deals.Keys) - stale
    {
      hide OrdersIndexed, DealsIndexed, Listed, Cached, View, Updated, Without;
      ghost var view, updated := View(), Updated();
      UpdatedKeys();
      var gone := {};
      WithoutOneMore(view, gone, 0);
      while gone != stale
        invariant Valid() && gone <= stale
        invariant View() == Without(view, gone) && Updated() == updated - gone && Updated().Keys == deals.Keys
        decreases |stale - gone|
      {
        var d := AnyOf(stale - gone);
        RemoveNext(gone, d, view, updated);
        gone := gone + {d};
      }
    }

    method RemoveNext(gone: set<int>, d: int, ghost view: Orders, ghost updated: map<int, int>)
      requires Valid() && d in Updated() && View() == Without(view, gone) && Updated() == updated - gone
      modifies `orders, `deals
      ensures Valid() && View() == Without(view, gone + {d})
      ensures Updated() == updated - (gone + {d}) && Updated().Keys == deals.Keys
    {
      hide OrdersIndexed, DealsIndexed, Listed, Cached, View, Updated, Without;
      UpdatedKeys();
      RemoveDeal(d);
      WithoutOneMore(view, gone, d);
      UpdatedWithoutOneMore(updated, gone, d);
      UpdatedKeys();
    }

    /** One deal's open buys were cancelled; nothing else was touched. */
    twostate predicate Closed(d: int, new now: int)
      reads `orders, `deals, `orderObjects, `dealObjects, orderObjects, dealObjects
    {
      && orders == old(orders) && deals == old(deals) && orderObjects == old(orderObjects)
      && dealObjects == old(dealObjects)
      && d in deals && deals[d] in dealObjects && OrdersIndexed()
      && (forall id :: id in orders ==>
            orders[id].data ==
              if id in old(deals[d].orders) then M.CloseIfOpen(old(orders[id].data), now) else old(orders[id].data))
      && deals[d].orders == old(deals[d].orders) && deals[d].dealID == d && deals[d].lastUpdate == now
      && (forall deal :: deal in dealObjects && deal != deals[d] ==> unchanged(deal))
    }

    twostate lemma ClosedIndexes(d: int, new now: int)
      requires old(Valid()) && Closed(d, now)
      ensures OrdersIndexed() && DealsIndexed() && Listed(None)
    {
    }

    twostate lemma ClosedCaches(d: int, new now: int)
      requires old(Valid()) && Closed(d, now) && DealsIndexed()
      requires deals[d].PositionIsTallied() && deals[d].tallied.Keys == deals[d].orders.Keys
      requires forall id :: id in deals[d].orders ==> deals[d].tallied[id] == orders[id].data
      ensures Cached(None)
    {
    }

    twostate lemma ClosedState(d: int, new now: int)
      requires old(Valid()) && Closed(d, now) && DealsIndexed()
      ensures View() == M.CloseOpenOrdersForDeal(old(State()), d, now).orders
    {
      hide M.CloseIfOpen, Cached;
      assert d in old(State().updated);
      forall id | id in orders
        ensures View()[id] ==
                if id.order.dealID == d then M.CloseIfOpen(old(View())[id], now) else old(View())[id]
      {
        assert id in old(deals[d].orders) <==> id.order.dealID == d;
      }
    }

    twostate lemma ClosedUpdate(d: int, new now: int)
      requires old(Valid()) && Closed(d, now) && DealsIndexed()
      ensures Updated() == old(Updated())[d := now]
    {
      forall x | x in deals && x != d ensures deals[x].lastUpdate == old(deals[x].lastUpdate) {
        assert unchanged(deals[x]);
      }
    }

    lemma ObjectsOfDeal(d: int)
      requires OrdersIndexed() && DealsIndexed() && d in deals
      ensures forall id :: id in deals[d].orders ==>
                id in orders && deals[d].orders[id] == orders[id] && orders[id] in orderObjects
                && orders[id].identifier == id
      ensures forall id, x :: id in orders && x in deals[d].orders && deals[d].orders[x] == orders[id] ==> x == id
    {
    }

    method CloseOne(d: int, now: int)
      requires Valid() && d in deals
      modifies orderObjects, dealObjects
      ensures Closed(d, now) && deals[d].PositionIsTallied() && deals[d].tallied.Keys == deals[d].orders.Keys
      ensures forall id :: id in deals[d].orders ==> id in orders && deals[d].tallied[id] == orders[id].data
    {
      hide Listed, Cached, M.CloseIfOpen;
      ObjectsOfDeal(d);
      deals[d].Close(now);
      assert forall id :: id in orders && id !in deals[d].orders ==> orders[id].data == old(orders[id].data);
      assert forall deal :: deal in dealObjects && deal != deals[d] ==> unchanged(deal);
    }

    method CloseTracked(d: int, now: int)
      requires Valid() && d in deals
      modifies orderObjects, dealObjects
      ensures Valid() && View() == M.CloseOpenOrdersForDeal(old(State()), d, now).orders
      ensures Updated() == old(Updated())[d := now]
    {
      hide OrdersIndexed, DealsIndexed, Listed, Cached, View, Updated, Closed, M.CloseIfOpen;
      CloseOne(d, now);
      ClosedIndexes(d, now);
      ClosedCaches(d, now);
      ClosedState(d, now);
      ClosedUpdate(d, now);
    }

    method CloseOpenOrdersForDeal(d: int, now: int)
      requires Valid()
      modifies orderObjects, dealObjects
      ensures Valid() && State() == M.CloseOpenOrdersForDeal(old(State()), d, now)
    {
      UpdatedKeys();
      hide OrdersIndexed, DealsIndexed, Listed, Cached, View, Updated, M.CloseIfOpen;
      if d in deals {
        CloseTracked(d, now);
      }
    }
  }
}
