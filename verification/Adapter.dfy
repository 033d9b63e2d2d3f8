/** Turning one 3Commas snapshot, given the one before it, into the next Hyperliquid request.
    Prices and sizes are reals. */
module Adapter {
  import opened OrderIds
  import opened Targeting
  import opened Wrappers

  datatype Side = Buy | Sell

  datatype Status = Active | Cancelled | Filled | Finished | OtherStatus(name: string)

  datatype OrderKind = TakeProfit | OtherKind(name: string)

  datatype BotEvent = BotEvent(
    createdAt: int, coin: string, status: Status, price: real, size: real, orderType: OrderKind, side: Side,
    isMarket: bool)

  datatype Tif = Ioc | Gtc

  datatype OrderRequest = OrderRequest(
    coin: string, isBuy: bool, price: real, size: real, reduceOnly: bool, tif: Tif, cloid: OrderId)

  datatype Action =
    | NoAction(reason: string)
    | Create(order: OrderRequest)
    | Modify(order: OrderRequest)
    | Cancel(coin: string, cloid: OrderId)

  /** One request, and the submission it is for. */
  datatype Work = Work(ident: Ident, action: Action)

  function ToCreateOrderRequest(currency: string, event: BotEvent, oid: OrderId): OrderRequest {
    var isBuy := event.side == Buy;
    OrderRequest(currency, isBuy, event.price, event.size, !isBuy && event.orderType == TakeProfit,
                 if event.status == Active && !event.isMarket then Gtc else Ioc, oid)
  }

  /** The order is the one the snapshot describes, whatever its size: on its side, at its price, for
      the coin and under the identifier given, resting only while the snapshot is an active limit. */
  predicate AsksButForSize(order: OrderRequest, currency: string, event: BotEvent, oid: OrderId) {
    && (order.isBuy <==> event.side == Buy) && order.price == event.price
    && order.coin == currency && order.cloid == oid
    && (order.tif == Gtc <==> event.status == Active && !event.isMarket)
  }

  /** And of its size, reducing a position exactly when it is a take-profit that sells. */
  predicate AsksFor(order: OrderRequest, currency: string, event: BotEvent, oid: OrderId) {
    && AsksButForSize(order, currency, event, oid) && order.size == event.size
    && (order.reduceOnly <==> event.orderType == TakeProfit && event.side == Sell)
  }

  /** A snapshot is turned into the one order that asks for it. */
  lemma RequestAsksFor(currency: string, event: BotEvent, oid: OrderId, order: OrderRequest)
    ensures AsksFor(order, currency, event, oid) <==> order == ToCreateOrderRequest(currency, event, oid)
  {
  }

  datatype OrderState = Unknown | IsActive | IsCancelled | IsFilled

  function Classify(event: Option<BotEvent>): OrderState {
    match event
    case None => Unknown
    case Some(e) =>
      match e.status
      case Active => IsActive
      case Cancelled => IsCancelled
      case Filled => IsFilled
      case Finished => IsFilled
      case OtherStatus(_) => Unknown
  }

  function Abs(x: real): real { if x < 0.0 then -x else x }

  function Max(x: real, y: real): real { if x < y then y else x }

  function AlmostEqual(a: real, b: real): bool {
    var diff := Abs(a - b);
    var largest := Max(Abs(a), Abs(b));
    diff <= 0.00000001 || largest == 0.0 || diff / largest <= 0.000001
  }

  function NeedsModify(prev: BotEvent, next: BotEvent): bool {
    || prev.side != next.side || prev.orderType != next.orderType
    || prev.isMarket != next.isMarket
    || !AlmostEqual(prev.price, next.price) || !AlmostEqual(prev.size, next.size)
  }

  function BuildAction(currency: string, prev: Option<BotEvent>, next: BotEvent, oid: OrderId): Action {
    var from, to := Classify(prev), Classify(Some(next));
    if prev.None? && to == IsActive then Create(ToCreateOrderRequest(currency, next, oid))
    else if prev.None? then NoAction("skipped: no prior order submitted")
    else if from == IsActive && to == IsCancelled then Cancel(currency, oid)
    else if from == IsActive && to == IsFilled then NoAction("filled locally")
    else if from == IsActive && to == IsActive then
      if NeedsModify(prev.value, next) then Modify(ToCreateOrderRequest(currency, next, oid))
      else NoAction("no material change")
    else NoAction("unsupported transition")
  }

  predicate Completed(status: Status) { status == Filled || status == Finished }

  /** Which request each change of status leads to: only a first, active snapshot creates, only an
      active one becoming cancelled cancels, only an active one changing materially modifies, and
      what is left alone says why. The requests are for the very coin and identifier given. */
  lemma TransitionsAre(currency: string, prev: Option<BotEvent>, next: BotEvent, oid: OrderId)
    ensures
      var action := BuildAction(currency, prev, next, oid);
      var wasActive := prev.Some? && prev.value.status == Active;
      var material := wasActive && NeedsModify(prev.value, next);
      && (action.Create? <==> prev.None? && next.status == Active)
      && (action == Cancel(currency, oid) <==> wasActive && next.status == Cancelled)
      && (action.Cancel? ==> action == Cancel(currency, oid))
      && (action.Modify? <==> material && next.status == Active)
      && (action.Create? || action.Modify? ==> AsksFor(action.order, currency, next, oid))
      && (action == NoAction("skipped: no prior order submitted") <==> prev.None? && next.status != Active)
      && (action == NoAction("filled locally") <==> wasActive && Completed(next.status))
      && (action == NoAction("no material change") <==> wasActive && next.status == Active && !material)
      && (action == NoAction("unsupported transition") <==>
          prev.Some? && (!wasActive || next.status.OtherStatus?))
  {
    RequestAsksFor(currency, next, oid, ToCreateOrderRequest(currency, next, oid));
    hide NeedsModify, AsksFor, ToCreateOrderRequest;
  }

  /** Tolerance is symmetric and reflexive, so comparing in either order gives the same answer. */
  lemma AlmostEqualSymmetric(a: real, b: real)
    ensures AlmostEqual(a, b) == AlmostEqual(b, a)
    ensures AlmostEqual(a, a)
  {
  }

  /** No further apart than 1e-8, or than a millionth of the larger. */
  predicate WithinTolerance(a: real, b: real) {
    var diff := if a < b then b - a else a - b;
    diff <= 0.00000001 || diff <= 0.000001 * Max(Abs(a), Abs(b))
  }

  lemma DividedAtMost(x: real, y: real, bound: real)
    requires y > 0.0
    ensures x / y <= bound <==> x <= bound * y
  {
    var ratio := x / y;
    assert ratio * y == x;
    if ratio <= bound {
      assert (bound - ratio) * y >= 0.0;
    } else {
      assert (ratio - bound) * y > 0.0;
    }
  }

  /** A change is left unsent exactly when the two snapshots ask for orders of the same side, kind
      and type whose prices and sizes are within tolerance of each other. */
  lemma LeftUnsentExactlyWhen(prev: BotEvent, next: BotEvent)
    ensures !NeedsModify(prev, next) <==>
            && prev.side == next.side && prev.orderType == next.orderType && prev.isMarket == next.isMarket
            && WithinTolerance(prev.price, next.price) && WithinTolerance(prev.size, next.size)
  {
    AlmostEqualExactlyWhen(prev.price, next.price);
    AlmostEqualExactlyWhen(prev.size, next.size);
    hide AlmostEqual, WithinTolerance;
  }

  lemma AlmostEqualExactlyWhen(a: real, b: real)
    ensures AlmostEqual(a, b) <==> WithinTolerance(a, b)
  {
    var diff, largest := Abs(a - b), Max(Abs(a), Abs(b));
    if largest > 0.0 {
      DividedAtMost(diff, largest, 0.000001);
    }
  }
}
