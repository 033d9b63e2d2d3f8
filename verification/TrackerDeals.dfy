/** The orders of one deal taken together: its position, its snapshot, and the net position at
    each venue. */
module TrackerDeals {
  import opened Adapter
  import opened OrderIds
  import opened RealSums
  import opened Targeting
  import opened TrackerOrders
  import opened Wrappers

  type Orders = map<Ident, OrderData>

  datatype Position = Position(
    totalBuyQty: real, totalBuyValue: real, totalSellQty: real, netQty: real, averageEntry: real)

  function BuyFilled(ident: Ident, o: OrderData): real {
    if o.filled > 0.0 && IsBuy(o) then o.filled else 0.0
  }

  function BuyValue(ident: Ident, o: OrderData): real {
    if o.filled > 0.0 && IsBuy(o) && FillPrice(o) > 0.0 then FillPrice(o) * o.filled else 0.0
  }

  function SellFilled(ident: Ident, o: OrderData): real {
    if o.filled > 0.0 && !IsBuy(o) then o.filled else 0.0
  }

  function Summarise(buyQty: real, buyValue: real, sellQty: real): Position {
    Position(buyQty, buyValue, sellQty, buyQty - sellQty, if buyQty > 0.0 then buyValue / buyQty else 0.0)
  }

  /** The position computed from scratch. */
  ghost function PositionOf(orders: Orders): Position {
    Summarise(Sum(orders, BuyFilled), Sum(orders, BuyValue), Sum(orders, SellFilled))
  }

  // ---------- snapshots ----------

  datatype OrderSnapshot = OrderSnapshot(ident: Ident, data: OrderData)

  datatype DealSnapshot = DealSnapshot(
    dealID: int, botID: int, currency: string, position: Position, orders: seq<OrderSnapshot>,
    activeTakeProfits: seq<OrderSnapshot>, lastTakeProfitEvent: Option<BotEvent>,
    openBuys: seq<OrderSnapshot>, allBuysFilled: bool, outstandingBuyQty: real, outstandingSellQty: real)

  predicate IsActiveTakeProfit(o: OrderData) { !IsBuy(o) && o.reduceOnly && IsActiveOrder(o) }

  predicate IsOpenBuy(o: OrderData) { IsBuy(o) && IsActiveOrder(o) }

  predicate IsTakeProfitRecord(o: OrderData) { o.reduceOnly && o.event.Some? }

  function OpenBuyQty(ident: Ident, o: OrderData): real { if IsOpenBuy(o) then o.remaining else 0.0 }

  function SellRemaining(ident: Ident, o: OrderData): real { if IsBuy(o) then 0.0 else o.remaining }

  function IdentsOf(list: seq<OrderSnapshot>): set<Ident>
    decreases |list|
  {
    if list == [] then {} else IdentsOf(list[..|list| - 1]) + {list[|list| - 1].ident}
  }

  lemma {:induction false} IdentsOfAre(list: seq<OrderSnapshot>)
    ensures forall i :: 0 <= i < |list| ==> list[i].ident in IdentsOf(list)
    ensures forall id :: id in IdentsOf(list) ==> exists i :: 0 <= i < |list| && list[i].ident == id
    decreases |list|
  {
    if list != [] {
      var n := |list| - 1;
      IdentsOfAre(list[..n]);
      forall i | 0 <= i < |list| ensures list[i].ident in IdentsOf(list) {
        assert i < n ==> list[..n][i] == list[i];
      }
      forall id | id in IdentsOf(list) ensures exists i :: 0 <= i < |list| && list[i].ident == id {
        if id in IdentsOf(list[..n]) {
          var i :| 0 <= i < n && list[..n][i].ident == id;
          assert list[i].ident == id;
        } else {
          assert list[n].ident == id;
        }
      }
    }
  }

  /** The list holds every order once, in some order. */
  ghost predicate Enumerates(list: seq<OrderSnapshot>, orders: Orders) {
    && (forall i :: 0 <= i < |list| ==> list[i].ident in orders && orders[list[i].ident] == list[i].data)
    && (forall i, j :: 0 <= i < j < |list| ==> list[i].ident != list[j].ident)
    && IdentsOf(list) == orders.Keys
  }

  function Keep(list: seq<OrderSnapshot>, p: OrderData -> bool): seq<OrderSnapshot>
    decreases |list|
  {
    if list == [] then []
    else
      var kept := Keep(list[..|list| - 1], p);
      if p(list[|list| - 1].data) then kept + [list[|list| - 1]] else kept
  }

  lemma {:induction false} KeepIs(list: seq<OrderSnapshot>, p: OrderData -> bool)
    ensures forall i :: 0 <= i < |Keep(list, p)| ==> Keep(list, p)[i] in list && p(Keep(list, p)[i].data)
    ensures forall x :: x in list && p(x.data) ==> x in Keep(list, p)
    decreases |list|
  {
    if list != [] {
      KeepIs(list[..|list| - 1], p);
    }
  }

  function Total(list: seq<OrderSnapshot>, f: (Ident, OrderData) -> real): real
    decreases |list|
  {
    if list == [] then 0.0
    else Total(list[..|list| - 1], f) + f(list[|list| - 1].ident, list[|list| - 1].data)
  }

  /** A total over any enumeration is the sum over the orders. */
  lemma {:induction false} TotalIsSum(list: seq<OrderSnapshot>, orders: Orders, f: (Ident, OrderData) -> real)
    requires Enumerates(list, orders)
    ensures Total(list, f) == Sum(orders, f)
    decreases |list|
  {
    if list == [] {
      assert orders == map[];
    } else {
      var last := list[|list| - 1];
      var rest := list[..|list| - 1];
      IdentsOfAre(rest);
      assert Enumerates(rest, orders - {last.ident});
      TotalIsSum(rest, orders - {last.ident}, f);
      SumExtract(orders, f, last.ident);
    }
  }

  ghost predicate IsLatestEvent(orders: Orders, event: Option<BotEvent>) {
    match event
    case None => forall id :: id in orders ==> !IsTakeProfitRecord(orders[id])
    case Some(e) =>
      && (exists id :: id in orders && orders[id].reduceOnly && orders[id].event == Some(e))
      && (forall id :: id in orders && IsTakeProfitRecord(orders[id]) ==>
            orders[id].event.value.createdAt <= e.createdAt)
  }

  ghost predicate BuysAllFilled(orders: Orders) {
    forall id :: id in orders && IsBuy(orders[id]) ==> !IsActiveOrder(orders[id]) && IsFilledOrder(orders[id])
  }

  ghost predicate SnapshotOf(snap: DealSnapshot, orders: Orders) {
    && Enumerates(snap.orders, orders)
    && snap.position == PositionOf(orders)
    && snap.activeTakeProfits == Keep(snap.orders, IsActiveTakeProfit)
    && snap.openBuys == Keep(snap.orders, IsOpenBuy)
    && (snap.allBuysFilled <==> BuysAllFilled(orders))
    && IsLatestEvent(orders, snap.lastTakeProfitEvent)
    && snap.outstandingBuyQty == Sum(orders, OpenBuyQty)
    && snap.outstandingSellQty == Sum(orders, SellRemaining)
  }

  lemma {:induction false} EnumerationExists(orders: Orders) returns (list: seq<OrderSnapshot>)
    ensures Enumerates(list, orders)
    decreases |orders|
  {
    if orders == map[] {
      list := [];
    } else {
      var id :| id in orders;
      var rest := EnumerationExists(orders - {id});
      list := rest + [OrderSnapshot(id, orders[id])];
      EnumeratesOneMore(rest, orders, id);
    }
  }

  lemma EnumeratesOneMore(rest: seq<OrderSnapshot>, orders: Orders, id: Ident)
    requires id in orders && Enumerates(rest, orders - {id})
    ensures Enumerates(rest + [OrderSnapshot(id, orders[id])], orders)
  {
    var list := rest + [OrderSnapshot(id, orders[id])];
    assert list[..|rest|] == rest;
    assert IdentsOf(list) == IdentsOf(rest) + {id};
    hide IdentsOf;
    assert IdentsOf(list) == orders.Keys;
  }

  /** Any orders have a snapshot. */
  lemma SnapshotExists(orders: Orders, dealID: int) returns (snap: DealSnapshot)
    ensures SnapshotOf(snap, orders) && snap.dealID == dealID
  {
    var list := EnumerationExists(orders);
    SurveyShows(list, orders);
    snap := DealSnapshot(dealID, 0, "", PositionOf(orders), list, Keep(list, IsActiveTakeProfit), LatestEvent(list),
                         Keep(list, IsOpenBuy), AllFilled(list), Sum(orders, OpenBuyQty), Sum(orders, SellRemaining));
  }

  /** The active take-profits of a snapshot are exactly the deal's. */
  lemma ActiveTakeProfitsAre(snap: DealSnapshot, orders: Orders)
    requires SnapshotOf(snap, orders)
    ensures forall t :: t in snap.activeTakeProfits <==>
              t.ident in orders && orders[t.ident] == t.data && IsActiveTakeProfit(t.data)
  {
    KeepIs(snap.orders, IsActiveTakeProfit);
    IdentsOfAre(snap.orders);
    forall t: OrderSnapshot | t.ident in orders && orders[t.ident] == t.data ensures t in snap.orders {
      var i :| 0 <= i < |snap.orders| && snap.orders[i].ident == t.ident;
      assert snap.orders[i] == t;
    }
  }

  /** A buy that was cancelled, locally or by a status, no longer holds take-profits back, however
      little of it was filled, exactly when it has a size; one without a size holds them back for good. */
  lemma CancelledBuyCountsAsFilled(orders: Orders, ident: Ident, o: OrderData, status: WsOrder, now: int,
                                   after: OrderData)
    requires || after == MarkCancelled(o, now)
             || (Accepts(o, status) && IsCanceledStatus(status.status) && after == ApplyStatus(o, status))
    ensures after.remaining == 0.0 && !IsActiveOrder(after)
    ensures BuysAllFilled(orders[ident := after]) <==>
            BuysAllFilled(orders - {ident}) && (IsBuy(after) ==> after.original != 0.0)
  {
    FilledIsNotCanceled();
    assert IsCanceledStatus(after.status);
    hide IsCanceledStatus, ApplyStatus, IsBuy, Accepts;
    var changed := orders[ident := after];
    assert forall id :: id in changed && id != ident ==>
             id in orders - {ident} && changed[id] == (orders - {ident})[id];
    assert forall id :: id in orders - {ident} ==> id in changed && changed[id] == (orders - {ident})[id];
    assert ident in changed && changed[ident] == after;
  }

  lemma FilledIsNotCanceled()
    ensures !IsCanceledStatus("filled") && !IsCanceledStatus("")
  {
    assert |Lower("filled")| == 6;
  }

  predicate HoldsBack(o: OrderData) { IsBuy(o) && (IsActiveOrder(o) || !IsFilledOrder(o)) }

  function AllFilled(list: seq<OrderSnapshot>): bool
    decreases |list|
  {
    list == [] || (AllFilled(list[..|list| - 1]) && !HoldsBack(list[|list| - 1].data))
  }

  /** The first seen of the most recently created take-profit events. */
  function LatestEvent(list: seq<OrderSnapshot>): Option<BotEvent>
    decreases |list|
  {
    if list == [] then None
    else
      var earlier, o := LatestEvent(list[..|list| - 1]), list[|list| - 1].data;
      if IsTakeProfitRecord(o) && (earlier.None? || o.event.value.createdAt > earlier.value.createdAt) then o.event
      else earlier
  }

  lemma {:induction false} AllFilledIs(list: seq<OrderSnapshot>)
    ensures AllFilled(list) <==> forall i :: 0 <= i < |list| ==> !HoldsBack(list[i].data)
    decreases |list|
  {
    if list != [] {
      var n := |list| - 1;
      AllFilledIs(list[..n]);
      assert forall i :: 0 <= i < n ==> list[..n][i] == list[i];
    }
  }

  lemma {:induction false} LatestEventIs(list: seq<OrderSnapshot>)
    ensures LatestEvent(list).Some? ==>
              exists i :: 0 <= i < |list| && list[i].data.reduceOnly && list[i].data.event == LatestEvent(list)
    ensures forall i :: 0 <= i < |list| && IsTakeProfitRecord(list[i].data) ==>
              LatestEvent(list).Some? && list[i].data.event.value.createdAt <= LatestEvent(list).value.createdAt
    decreases |list|
  {
    if list != [] {
      var n := |list| - 1;
      LatestEventIs(list[..n]);
      assert forall i :: 0 <= i < n ==> list[..n][i] == list[i];
      if LatestEvent(list).Some? && LatestEvent(list) == LatestEvent(list[..n]) {
        var i :| 0 <= i < n && list[..n][i].data.reduceOnly && list[..n][i].data.event == LatestEvent(list);
        assert list[i].data.reduceOnly;
      }
    }
  }

  /** One pass over the orders of a deal, in the order they were taken out of the map. */
  method Survey(list: seq<OrderSnapshot>)
    returns (active: seq<OrderSnapshot>, openBuys: seq<OrderSnapshot>, allFilled: bool, latest: Option<BotEvent>,
             buyQty: real, sellQty: real)
    ensures active == Keep(list, IsActiveTakeProfit) && openBuys == Keep(list, IsOpenBuy)
    ensures allFilled == AllFilled(list) && latest == LatestEvent(list)
    ensures buyQty == Total(list, OpenBuyQty) && sellQty == Total(list, SellRemaining)
  {
    active, openBuys, allFilled, latest, buyQty, sellQty := [], [], true, None, 0.0, 0.0;
    for n := 0 to |list|
      invariant active == Keep(list[..n], IsActiveTakeProfit) && openBuys == Keep(list[..n], IsOpenBuy)
      invariant allFilled == AllFilled(list[..n]) && latest == LatestEvent(list[..n])
      invariant buyQty == Total(list[..n], OpenBuyQty) && sellQty == Total(list[..n], SellRemaining)
    {
      assert list[..n + 1][..n] == list[..n];
      var o := list[n].data;
      if IsBuy(o) {
        if IsActiveOrder(o) {
          buyQty := buyQty + o.remaining;
          allFilled := false;
          openBuys := openBuys + [list[n]];
        } else if !IsFilledOrder(o) {
          allFilled := false;
        }
      } else {
        sellQty := sellQty + o.remaining;
        if o.reduceOnly && IsActiveOrder(o) {
          active := active + [list[n]];
        }
      }
      if o.reduceOnly && o.event.Some? {
        if latest.None? || o.event.value.createdAt > latest.value.createdAt {
          latest := o.event;
        }
      }
    }
    assert list[..|list|] == list;
  }

  /** What a pass over any enumeration finds is what the snapshot of the deal should show. */
  lemma SurveyShows(list: seq<OrderSnapshot>, orders: Orders)
    requires Enumerates(list, orders)
    ensures AllFilled(list) <==> BuysAllFilled(orders)
    ensures IsLatestEvent(orders, LatestEvent(list))
    ensures Total(list, OpenBuyQty) == Sum(orders, OpenBuyQty)
            && Total(list, SellRemaining) == Sum(orders, SellRemaining)
  {
    TotalIsSum(list, orders, OpenBuyQty);
    TotalIsSum(list, orders, SellRemaining);
    SurveyBuys(list, orders);
    SurveyEvent(list, orders);
  }

  lemma SurveyBuys(list: seq<OrderSnapshot>, orders: Orders)
    requires Enumerates(list, orders)
    ensures AllFilled(list) <==> BuysAllFilled(orders)
  {
    AllFilledIs(list);
    IdentsOfAre(list);
    forall id | id in orders ensures exists i :: 0 <= i < |list| && list[i].ident == id && list[i].data == orders[id] {
      var i :| 0 <= i < |list| && list[i].ident == id;
    }
  }

  lemma SurveyEvent(list: seq<OrderSnapshot>, orders: Orders)
    requires Enumerates(list, orders)
    ensures IsLatestEvent(orders, LatestEvent(list))
  {
    LatestEventIs(list);
    IdentsOfAre(list);
    forall id | id in orders ensures exists i :: 0 <= i < |list| && list[i].ident == id && list[i].data == orders[id] {
      var i :| 0 <= i < |list| && list[i].ident == id;
    }
  }

  // ---------- net position per venue ----------

  datatype VenueKey = VenueKey(venue: string, wallet: string)

  function KeyOf(ident: Ident): VenueKey { VenueKey(ident.venue, ident.wallet) }

  predicate BuySide(side: string) { side == "B" || Lower(side) == "buy" }

  function Signed(ident: Ident, o: OrderData): real { if BuySide(o.side) then o.filled else -o.filled }

  function SignedAt(key: VenueKey): (Ident, OrderData) -> real {
    (ident: Ident, o: OrderData) => if KeyOf(ident) == key then Signed(ident, o) else 0.0
  }

  function VenueNet(list: seq<OrderSnapshot>, key: VenueKey): real { Total(list, SignedAt(key)) }

  function Venues(ids: set<Ident>): set<VenueKey> { set id | id in ids :: KeyOf(id) }

  /** One identifier stands for each venue, and carries that venue's net position. */
  ghost predicate AreVenuePositions(positions: map<Ident, real>, list: seq<OrderSnapshot>) {
    && (forall id :: id in positions ==> positions[id] == VenueNet(list, KeyOf(id)))
    && positions.Keys <= IdentsOf(list)
    && Venues(positions.Keys) == Venues(IdentsOf(list))
    && OnePerVenue(positions.Keys)
  }

  predicate OnePerVenue(ids: set<Ident>) {
    forall a, b :: a in ids && b in ids && KeyOf(a) == KeyOf(b) ==> a == b
  }

  lemma {:induction false} VenueNetOutside(list: seq<OrderSnapshot>, key: VenueKey)
    requires key !in Venues(IdentsOf(list))
    ensures VenueNet(list, key) == 0.0
    decreases |list|
  {
    if list != [] {
      assert KeyOf(list[|list| - 1].ident) in Venues(IdentsOf(list));
      VenueNetOutside(list[..|list| - 1], key);
    }
  }

  lemma VenueNetNext(list: seq<OrderSnapshot>, n: nat)
    requires n < |list|
    ensures Venues(IdentsOf(list[..n + 1])) == Venues(IdentsOf(list[..n])) + {KeyOf(list[n].ident)}
    ensures IdentsOf(list[..n + 1]) == IdentsOf(list[..n]) + {list[n].ident}
    ensures forall key :: VenueNet(list[..n + 1], key) ==
              VenueNet(list[..n], key) + SignedAt(key)(list[n].ident, list[n].data)
  {
    assert list[..n + 1][..n] == list[..n];
  }

  ghost predicate AddedUp(list: seq<OrderSnapshot>, positions: map<VenueKey, real>, idents: map<VenueKey, Ident>) {
    && positions.Keys == idents.Keys == Venues(IdentsOf(list))
    && (forall key :: key in positions ==> positions[key] == VenueNet(list, key))
    && (forall key :: key in idents ==> KeyOf(idents[key]) == key && idents[key] in IdentsOf(list))
  }

  method AddUp(list: seq<OrderSnapshot>) returns (positions: map<VenueKey, real>, idents: map<VenueKey, Ident>)
    ensures AddedUp(list, positions, idents)
  {
    positions, idents := map[], map[];
    assert list[..0] == [];
    assert AddedUp([], positions, idents);
    hide AddedUp;
    for n := 0 to |list|
      invariant AddedUp(list[..n], positions, idents)
    {
      ghost var earlierPositions, earlierIdents := positions, idents;
      var order := list[n];
      var key := KeyOf(order.ident);
      if key !in idents {
        idents := idents[key := order.ident];
      }
      var before := if key in positions then positions[key] else 0.0;
      var change := if BuySide(order.data.side) then order.data.filled else -order.data.filled;
      positions := positions[key := before + change];
      AddedOneMore(list, n, earlierPositions, earlierIdents);
    }
    assert list[..|list|] == list;
  }

  lemma AddedOneMore(list: seq<OrderSnapshot>, n: nat, positions: map<VenueKey, real>, idents: map<VenueKey, Ident>)
    requires n < |list| && AddedUp(list[..n], positions, idents)
    ensures var o, key := list[n], KeyOf(list[n].ident);
            AddedUp(list[..n + 1],
                    positions[key := (if key in positions then positions[key] else 0.0) + Signed(o.ident, o.data)],
                    if key in idents then idents else idents[key := o.ident])
  {
    var key := KeyOf(list[n].ident);
    VenueNetNext(list, n);
    if key !in idents {
      VenueNetOutside(list[..n], key);
    }
    hide Venues, IdentsOf, VenueNet, BuySide;
  }

  method CalculateVenuePositions(list: seq<OrderSnapshot>) returns (result: map<Ident, real>)
    ensures AreVenuePositions(result, list)
  {
    var positions, idents := AddUp(list);
    assert forall key :: key in idents ==> KeyOf(idents[key]) == key;
    result := map[];
    var remaining := positions.Keys;
    while remaining != {}
      invariant remaining <= positions.Keys
      invariant forall key :: key in positions.Keys - remaining ==> idents[key] in result
      invariant forall id :: id in result ==>
                  KeyOf(id) in positions.Keys - remaining && id == idents[KeyOf(id)]
                  && result[id] == positions[KeyOf(id)]
      decreases |remaining|
    {
      hide AddedUp;
      var key :| key in remaining;
      remaining := remaining - {key};
      result := result[idents[key] := positions[key]];
    }
    VenuePositionsAre(list, positions, idents, result);
  }

  lemma VenuePositionsAre(list: seq<OrderSnapshot>, positions: map<VenueKey, real>, idents: map<VenueKey, Ident>,
                          result: map<Ident, real>)
    requires AddedUp(list, positions, idents)
    requires forall key :: key in positions ==> idents[key] in result
    requires forall id :: id in result ==>
               KeyOf(id) in positions && id == idents[KeyOf(id)] && result[id] == positions[KeyOf(id)]
    ensures AreVenuePositions(result, list)
  {
    hide VenueNet, IdentsOf;
    assert forall key :: key in positions ==> KeyOf(idents[key]) == key;
    assert Venues(result.Keys) == positions.Keys;
  }

  // ---------- conservation ----------

  function Value(ident: Ident, x: real): real { x }

  function SignedWithin(ids: set<Ident>): (Ident, OrderData) -> real {
    (ident: Ident, o: OrderData) => if KeyOf(ident) in Venues(ids) then Signed(ident, o) else 0.0
  }

  lemma {:induction false} VenuesAddUp(positions: map<Ident, real>, orders: Orders)
    requires OnePerVenue(positions.Keys)
    requires forall id :: id in positions ==> positions[id] == Sum(orders, SignedAt(KeyOf(id)))
    ensures Sum(positions, Value) == Sum(orders, SignedWithin(positions.Keys))
    decreases |positions|
  {
    if positions == map[] {
      SumSame(orders, SignedWithin({}), orders, (id: Ident, o: OrderData) => 0.0);
      SumZero(orders);
    } else {
      var r :| r in positions;
      var rest := positions - {r};
      VenuesAddUp(rest, orders);
      SumExtract(positions, Value, r);
      assert rest.Keys == positions.Keys - {r};
      forall id | id in orders
        ensures SignedWithin(positions.Keys)(id, orders[id]) ==
                SignedAt(KeyOf(r))(id, orders[id]) + SignedWithin(rest.Keys)(id, orders[id])
      {
        assert KeyOf(id) in Venues(positions.Keys) <==> KeyOf(id) == KeyOf(r) || KeyOf(id) in Venues(rest.Keys);
        assert KeyOf(r) !in Venues(rest.Keys);
      }
      SumSplits(orders, SignedWithin(positions.Keys), SignedAt(KeyOf(r)), SignedWithin(rest.Keys));
    }
  }

  lemma {:induction false} SumZero(orders: Orders)
    ensures Sum(orders, (id: Ident, o: OrderData) => 0.0) == 0.0
    decreases |orders|
  {
    var zero := (id: Ident, o: OrderData) => 0.0;
    if orders != map[] {
      var k :| k in orders;
      SumExtract(orders, zero, k);
      SumZero(orders - {k});
    }
  }

  lemma VenuePositionIsSum(positions: map<Ident, real>, list: seq<OrderSnapshot>, orders: Orders, id: Ident)
    requires Enumerates(list, orders) && AreVenuePositions(positions, list) && id in positions
    ensures positions[id] == Sum(orders, SignedAt(KeyOf(id)))
  {
    TotalIsSum(list, orders, SignedAt(KeyOf(id)));
  }

  /** Whichever enumeration and representatives are used, the venues' net positions add up to
      the signed fills of all orders. */
  lemma VenuePositionsTotal(positions: map<Ident, real>, list: seq<OrderSnapshot>, orders: Orders)
    requires Enumerates(list, orders) && AreVenuePositions(positions, list)
    ensures Sum(positions, Value) == Sum(orders, Signed)
  {
    forall id | id in positions ensures positions[id] == Sum(orders, SignedAt(KeyOf(id))) {
      VenuePositionIsSum(positions, list, orders, id);
    }
    VenuesAddUp(positions, orders);
    forall id | id in orders ensures SignedWithin(positions.Keys)(id, orders[id]) == Signed(id, orders[id]) {
      assert KeyOf(id) in Venues(IdentsOf(list));
    }
    SumSame(orders, SignedWithin(positions.Keys), orders, Signed);
  }

  /** Fills of orders whose side text and bot event disagree, with the sign the side text gives. */
  function MisSided(ident: Ident, o: OrderData): real {
    if BuySide(o.side) == IsBuy(o) then 0.0 else Signed(ident, o)
  }

  function NetFilled(ident: Ident, o: OrderData): real { BuyFilled(ident, o) - SellFilled(ident, o) }

  lemma NetQtyIsNetFilled(orders: Orders)
    ensures PositionOf(orders).netQty == Sum(orders, NetFilled)
  {
    SumSplits(orders, BuyFilled, NetFilled, SellFilled);
  }

  /** The venues' net positions exceed the deal's by twice the fills booked on the wrong side. */
  lemma VenuesExceedDealBy(positions: map<Ident, real>, list: seq<OrderSnapshot>, orders: Orders)
    requires Enumerates(list, orders) && AreVenuePositions(positions, list)
    requires forall id :: id in orders ==> orders[id].filled >= 0.0
    ensures Sum(positions, Value) == PositionOf(orders).netQty + 2.0 * Sum(orders, MisSided)
  {
    VenuePositionsTotal(positions, list, orders);
    NetQtyIsNetFilled(orders);
    var twice := (id: Ident, o: OrderData) => MisSided(id, o) + MisSided(id, o);
    SumSplits(orders, twice, MisSided, MisSided);
    SumSplits(orders, Signed, NetFilled, twice);
  }

  /** Conservation: with side text and bot events in agreement, splitting the deal's position by
      venue loses nothing. */
  lemma Conservation(positions: map<Ident, real>, list: seq<OrderSnapshot>, orders: Orders)
    requires Enumerates(list, orders) && AreVenuePositions(positions, list)
    requires forall id :: id in orders ==> orders[id].filled >= 0.0 && BuySide(orders[id].side) == IsBuy(orders[id])
    ensures Sum(positions, Value) == PositionOf(orders).netQty
  {
    VenuesExceedDealBy(positions, list, orders);
    SumSame(orders, MisSided, orders, (id: Ident, o: OrderData) => 0.0);
    SumZero(orders);
  }
}
