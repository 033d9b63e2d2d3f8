/** Submitting an order to Hyperliquid: prices are rounded to eight decimals and to the coin's
    significant figures, and an immediate-or-cancel order that finds no counterparty is sent
    again at a price moved from the one just sent. */
module IocRetry {
  import opened Adapter
  import opened Decimals
  import opened OrderIds
  import opened PriceRounding
  import opened Wrappers

  /** Eight decimals, ties to even, as the wire format demands. */
  function RoundHalfEven(x: real): real { RoundToEven(x * 100_000_000.0) as real / 100_000_000.0 }

  datatype Quote = Quote(bid: real, ask: real)

  /** How the coin's constraints resolve: not configured, an error, or a rounding rule. */
  datatype Constraints = Unconfigured | Unresolved | Resolved(coin: CoinConstraints)

  ghost function Constrain(c: Constraints, price: real): real {
    if c.Resolved? then c.coin.Price(price) else price
  }

  function SetMarketPrice(order: OrderRequest, quote: Option<Quote>): OrderRequest {
    var price :=
      if order.price == 0.0 && quote.Some? then (if order.isBuy then quote.value.ask else quote.value.bid)
      else order.price;
    order.(price := RoundHalfEven(price), size := RoundHalfEven(order.size))
  }

  function OffsetRatio(initialBps: real, attempt: nat): real {
    if attempt == 0 then initialBps / 10000.0 else attempt as real * 0.0005
  }

  /** The price moved by a ratio: up for a buy, down for a sell but never below zero. */
  function Move(price: real, isBuy: bool, ratio: real): real {
    price * (if isBuy then 1.0 + ratio else if 1.0 - ratio < 0.0 then 0.0 else 1.0 - ratio)
  }

  function ApplyIOCOffset(order: OrderRequest, initialBps: real, attempt: nat): OrderRequest {
    var ratio := OffsetRatio(initialBps, attempt);
    if order.tif != Ioc || order.price <= 0.0 || ratio == 0.0 then order
    else order.(price := RoundHalfEven(Move(order.price, order.isBuy, ratio)))
  }

  /** The order one attempt sends, made from the order the previous attempt sent. */
  ghost function Attempt(order: OrderRequest, initialBps: real, attempt: nat, quote: Option<Quote>,
                         c: Constraints): OrderRequest
  {
    var o := ApplyIOCOffset(SetMarketPrice(order, quote), initialBps, attempt);
    o.(price := Constrain(c, o.price))
  }

  // ---------- the two roundings composed ----------

  lemma RoundHalfEvenMonotone(x: real, y: real)
    requires x <= y
    ensures RoundHalfEven(x) <= RoundHalfEven(y)
  {
    NearestMonotone(x * 100_000_000.0, y * 100_000_000.0);
  }

  ghost predicate EightDecimals(x: real) { IsWhole(x * 100_000_000.0) }

  lemma RoundHalfEvenHasEightDecimals(x: real)
    ensures EightDecimals(RoundHalfEven(x))
    ensures EightDecimals(x) ==> RoundHalfEven(x) == x
  {
    var n := RoundToEven(x * 100_000_000.0);
    assert RoundHalfEven(x) * 100_000_000.0 == n as real;
    FloorIs(n as real, n);
    if EightDecimals(x) {
      WholeRoundsToItself(x * 100_000_000.0);
    }
  }

  lemma ConstrainMonotone(c: Constraints, x: real, y: real)
    requires x <= y
    ensures Constrain(c, x) <= Constrain(c, y)
  {
    if c.Resolved? {
      SigRoundMonotone(x, y, c.coin.SigFigs());
    }
  }

  lemma EightIsPow()
    ensures Pow(8) == 100_000_000.0
  {
    assert Pow(2) == 100.0;
    assert Pow(4) == 10000.0 by { assert Pow(3) == 1000.0; }
    assert Pow(6) == 1000000.0 by { assert Pow(5) == 100000.0; }
    assert Pow(7) == 10000000.0;
  }

  /** A coarse grid of decimals is part of the eight-decimal grid. */
  lemma CoarseGrid(x: real, d: nat, g: real, scale: real, finer: real)
    requires d <= 8 && scale == Pow(d) && scale > 0.0 && finer == Pow(8 - d) && g == Grid(x, scale)
    ensures EightDecimals(g)
  {
    OnGrid(x, scale);
    PowWhole(8 - d);
    PowAdd(d, 8 - d);
    EightIsPow();
    var n := Round(x * scale) as real;
    WholeProduct(n, finer);
    assert g * 100_000_000.0 == n * finer by {
      Chain(g, scale, finer, 100_000_000.0, n);
    }
  }

  lemma Chain(g: real, a: real, b: real, ab: real, n: real)
    requires g * a == n && ab == a * b
    ensures g * ab == n * b
  {
    assert g * (a * b) == g * a * b;
  }

  /** A finer grid keeps numbers that have eight decimals. */
  lemma FineGrid(x: real, d: nat, scale: real, finer: real)
    requires d > 8 && scale == Pow(d) && scale > 0.0 && finer == Pow(d - 8) && EightDecimals(x)
    ensures Grid(x, scale) == x
  {
    PowWhole(d - 8);
    PowAdd(8, d - 8);
    EightIsPow();
    var n := x * 100_000_000.0;
    WholeProduct(n, finer);
    var product := n * finer;
    assert x * scale == product by {
      Chain(x, 100_000_000.0, finer, scale, n);
    }
    GridPointKept(x, scale, product.Floor);
  }

  lemma SignificantHasEightDecimals(x: real, sig: int, e: int)
    requires EightDecimals(x)
    ensures EightDecimals(Significant(x, sig, e))
  {
    var d := sig - 1 - e;
    if 0 < d <= 8 {
      PowPositive(d);
      CoarseGrid(x, d, Grid(x, Pow(d)), Pow(d), Pow(8 - d));
    } else if d > 8 {
      PowPositive(d);
      FineGrid(x, d, Pow(d), Pow(d - 8));
    } else {
      WholeProduct(x.Floor as real, 100_000_000.0);
    }
  }

  lemma NegationKeepsEightDecimals(x: real)
    requires EightDecimals(x)
    ensures EightDecimals(-x)
  {
    WholeProduct(-1.0, x * 100_000_000.0);
  }

  lemma ConstrainKeepsEightDecimals(c: Constraints, x: real)
    requires EightDecimals(x)
    ensures EightDecimals(Constrain(c, x))
  {
    if c.Resolved? && x > 0.0 {
      SignificantHasEightDecimals(x, c.coin.SigFigs(), Decade(x));
    } else if c.Resolved? && x < 0.0 {
      NegationKeepsEightDecimals(x);
      SignificantHasEightDecimals(-x, c.coin.SigFigs(), Decade(-x));
      NegationKeepsEightDecimals(Significant(-x, c.coin.SigFigs(), Decade(-x)));
    }
  }

  lemma ConstrainIdempotent(c: Constraints, x: real)
    ensures Constrain(c, Constrain(c, x)) == Constrain(c, x)
  {
    if c.Resolved? {
      SigRoundIdempotent(x, c.coin.SigFigs());
    }
  }

  /** A price both roundings leave alone. */
  ghost predicate Settled(c: Constraints, price: real) {
    RoundHalfEven(price) == price && Constrain(c, price) == price
  }

  /** Rounding to eight decimals and then to significant figures gives a settled price: the
      composition is idempotent. */
  lemma BothRoundingsSettle(c: Constraints, x: real)
    ensures Settled(c, Constrain(c, RoundHalfEven(x)))
  {
    var y := RoundHalfEven(x);
    RoundHalfEvenHasEightDecimals(x);
    ConstrainKeepsEightDecimals(c, y);
    RoundHalfEvenHasEightDecimals(Constrain(c, y));
    ConstrainIdempotent(c, y);
  }

  lemma AttemptSettles(order: OrderRequest, initialBps: real, attempt: nat, quote: Option<Quote>, c: Constraints)
    ensures Settled(c, Attempt(order, initialBps, attempt, quote, c).price)
  {
    var o := SetMarketPrice(order, quote);
    var moved := ApplyIOCOffset(o, initialBps, attempt);
    if moved == o {
      var raw :=
        if order.price == 0.0 && quote.Some? then (if order.isBuy then quote.value.ask else quote.value.bid)
        else order.price;
      assert o.price == RoundHalfEven(raw);
      BothRoundingsSettle(c, raw);
    } else {
      var target := Move(o.price, o.isBuy, OffsetRatio(initialBps, attempt));
      assert moved.price == RoundHalfEven(target);
      BothRoundingsSettle(c, target);
    }
    assert Attempt(order, initialBps, attempt, quote, c).price == Constrain(c, moved.price);
  }

  // ---------- retries only get more aggressive ----------

  lemma Bumped(price: real, ratio: real)
    requires price > 0.0 && ratio >= 0.0
    ensures Move(price, true, ratio) >= price >= Move(price, false, ratio)
  {
    Scale(1.0, 1.0 + ratio, price);
    Scale(if 1.0 - ratio < 0.0 then 0.0 else 1.0 - ratio, 1.0, price);
  }

  /** Rounding a moved price keeps the direction it was moved in. */
  lemma MovedSettled(c: Constraints, price: real, moved: real)
    requires Settled(c, price)
    ensures price <= moved ==> price <= Constrain(c, RoundHalfEven(moved))
    ensures moved <= price ==> Constrain(c, RoundHalfEven(moved)) <= price
  {
    if price <= moved {
      RoundHalfEvenMonotone(price, moved);
      ConstrainMonotone(c, price, RoundHalfEven(moved));
    }
    if moved <= price {
      RoundHalfEvenMonotone(moved, price);
      ConstrainMonotone(c, RoundHalfEven(moved), price);
    }
  }

  /** A retry from a settled price does not retreat, unless the price is zero. */
  lemma RetryMovesTowardsFill(order: OrderRequest, initialBps: real, attempt: nat, quote: Option<Quote>, c: Constraints)
    requires order.price != 0.0 && Settled(c, order.price) && initialBps >= 0.0
    ensures NoRetreat(order, Attempt(order, initialBps, attempt, quote, c))
  {
    var ratio := OffsetRatio(initialBps, attempt);
    assert SetMarketPrice(order, quote).price == order.price;
    if order.tif == Ioc && order.price > 0.0 && ratio != 0.0 {
      assert ratio >= 0.0;
      Bumped(order.price, ratio);
      var target := Move(order.price, order.isBuy, ratio);
      assert Attempt(order, initialBps, attempt, quote, c).price == Constrain(c, RoundHalfEven(target));
      MovedSettled(c, order.price, target);
    }
  }

  ghost predicate NoRetreat(previous: OrderRequest, next: OrderRequest) {
    && next.isBuy == previous.isBuy
    && (if next.isBuy then next.price >= previous.price else next.price <= previous.price)
  }

  /** What an order that has lost its price is sent at: the market's price, offset and constrained. */
  ghost function Requoted(order: OrderRequest, initialBps: real, attempt: nat, quote: Quote, c: Constraints): real {
    var market := RoundHalfEven(if order.isBuy then quote.ask else quote.bid);
    Constrain(c, ApplyIOCOffset(order.(price := market), initialBps, attempt).price)
  }

  /** A retry retreats from a settled order exactly when that order's price had vanished and the
      market is quoted on the wrong side of zero: above it for a sell, below it for a buy. */
  lemma RetreatsExactlyWhen(previous: OrderRequest, initialBps: real, attempt: nat, quote: Option<Quote>,
                            c: Constraints)
    requires Settled(c, previous.price) && initialBps >= 0.0
    ensures !NoRetreat(previous, Attempt(previous, initialBps, attempt, quote, c)) <==>
            && previous.price == 0.0 && quote.Some?
            && (var market := Requoted(previous, initialBps, attempt, quote.value, c);
                if previous.isBuy then market < 0.0 else market > 0.0)
  {
    hide RoundHalfEven, Constrain, OffsetRatio, Move, Settled;
    if previous.price != 0.0 {
      RetryMovesTowardsFill(previous, initialBps, attempt, quote, c);
    } else {
      var next := Attempt(previous, initialBps, attempt, quote, c);
      if quote.Some? {
        assert next.price == Requoted(previous, initialBps, attempt, quote.value, c);
      } else {
        NoPriceStays(c);
      }
    }
  }

  lemma NoPriceStays(c: Constraints)
    ensures RoundHalfEven(0.0) == 0.0 && Constrain(c, 0.0) == 0.0
  {
    RoundHalfEvenHasEightDecimals(0.0);
    WholeProduct(0.0, 100_000_000.0);
  }

  /** So a buy never retreats from a market that asks at least nothing. */
  lemma BuysNeverRetreat(previous: OrderRequest, initialBps: real, attempt: nat, quote: Option<Quote>, c: Constraints)
    requires Settled(c, previous.price) && initialBps >= 0.0 && previous.isBuy
    requires quote.Some? ==> quote.value.ask >= 0.0
    ensures NoRetreat(previous, Attempt(previous, initialBps, attempt, quote, c))
  {
    RetreatsExactlyWhen(previous, initialBps, attempt, quote, c);
    if quote.Some? {
      var ask := RoundHalfEven(quote.value.ask);
      NoPriceStays(c);
      RoundHalfEvenMonotone(0.0, quote.value.ask);
      var market := previous.(price := ask);
      var ratio := OffsetRatio(initialBps, attempt);
      assert ratio >= 0.0;
      if ask > 0.0 {
        Bumped(ask, ratio);
        RoundHalfEvenMonotone(0.0, Move(ask, true, ratio));
      }
      ConstrainMonotone(c, 0.0, ApplyIOCOffset(market, initialBps, attempt).price);
    }
  }

  /** A sell's price can vanish: it rounds to nothing, and the next attempt starts from the
      market again, above the price just sent. */
  lemma VanishedPriceIsRequoted()
    ensures var order := OrderRequest("BTC", false, 0.00000001, 1.0, true, Ioc, NoOrder);
            var quote := Some(Quote(1.0, 1.0));
            var first := Attempt(order, 6000.0, 0, quote, Unconfigured);
            var second := Attempt(first, 6000.0, 1, quote, Unconfigured);
            first.price == 0.0 && second.price == 0.9995 && !NoRetreat(first, second)
  {
    var order := OrderRequest("BTC", false, 0.00000001, 1.0, true, Ioc, NoOrder);
    var quote := Some(Quote(1.0, 1.0));
    assert RoundHalfEven(0.00000001) == 0.00000001;
    assert Move(0.00000001, false, 0.6) == 0.000000004;
    assert RoundToEven(0.4) == 0;
    var first := Attempt(order, 6000.0, 0, quote, Unconfigured);
    assert first.price == 0.0;
    assert RoundHalfEven(1.0) == 1.0;
    assert Move(1.0, false, 0.0005) == 0.9995;
    assert RoundToEven(99950000.0) == 99950000;
  }

  /** The exchange's answer to one order. */
  datatype Answer =
    | Placed
    | BelowMinimumValue
    | WouldIncreasePosition
    | Rejected(noMatch: bool, rateLimited: bool)

  /** What the outside world does at one attempt: whether the turn is granted, which quote is
      current, how the exchange answers. */
  datatype Surroundings = Surroundings(turnGranted: bool, quote: Option<Quote>, answer: Answer)

  /** The orders the first n attempts send, each made from the one sent before it. */
  ghost function Sends(order: OrderRequest, initialBps: real, c: Constraints, world: seq<Surroundings>,
                       n: nat): (sent: seq<OrderRequest>)
    requires n <= |world|
    ensures |sent| == n
  {
    if n == 0 then []
    else
      var earlier := Sends(order, initialBps, c, world, n - 1);
      var previous := if n == 1 then order else earlier[n - 2];
      earlier + [Attempt(previous, initialBps, n - 1, world[n - 1].quote, c)]
  }

  lemma SendsNothing(order: OrderRequest, initialBps: real, c: Constraints, world: seq<Surroundings>)
    ensures Sends(order, initialBps, c, world, 0) == []
  {
  }

  lemma SendsNext(order: OrderRequest, initialBps: real, c: Constraints, world: seq<Surroundings>, n: nat)
    requires n < |world|
    ensures var earlier := Sends(order, initialBps, c, world, n);
            Sends(order, initialBps, c, world, n + 1) ==
              earlier + [Attempt(if n == 0 then order else earlier[n - 1], initialBps, n, world[n].quote, c)]
  {
    hide Attempt;
  }

  /** Each order sent is at least as aggressive as the one before it, unless that one had no price. */
  ghost predicate Aggressive(sent: seq<OrderRequest>) {
    forall i :: 0 < i < |sent| && sent[i - 1].price != 0.0 ==> NoRetreat(sent[i - 1], sent[i])
  }

  lemma AggressiveOn(sent: seq<OrderRequest>, next: OrderRequest)
    requires Aggressive(sent)
    requires sent != [] && sent[|sent| - 1].price != 0.0 ==> NoRetreat(sent[|sent| - 1], next)
    ensures Aggressive(sent + [next])
  {
  }

  /** Although every bump starts from a price that already went through both roundings, and
      through them again afterwards, the prices sent only move towards being filled. */
  lemma {:induction false} RetriesOnlyGetMoreAggressive(order: OrderRequest, initialBps: real, c: Constraints,
                                                        world: seq<Surroundings>, n: nat)
    requires n <= |world| && initialBps >= 0.0
    ensures Aggressive(Sends(order, initialBps, c, world, n))
    ensures n > 0 ==> Settled(c, Sends(order, initialBps, c, world, n)[n - 1].price)
  {
    if n > 0 {
      RetriesOnlyGetMoreAggressive(order, initialBps, c, world, n - 1);
      var earlier := Sends(order, initialBps, c, world, n - 1);
      var previous := if n == 1 then order else earlier[n - 2];
      var quote := world[n - 1].quote;
      AttemptSettles(previous, initialBps, n - 1, quote, c);
      if n > 1 && previous.price != 0.0 {
        RetryMovesTowardsFill(previous, initialBps, n - 1, quote, c);
      }
      AggressiveOn(earlier, Attempt(previous, initialBps, n - 1, quote, c));
    }
  }

  // ---------- what is sent ----------

  /** The same order, but for its price, and with its size to eight decimals. */
  ghost predicate KeepsOrder(asked: OrderRequest, sent: OrderRequest) {
    sent == asked.(price := sent.price, size := RoundHalfEven(asked.size))
  }

  /** The price an order goes out at when no offset applies: its own, or, if it has none, what the
      market asks of a buyer or bids a seller. */
  ghost function QuotedPrice(asked: OrderRequest, quote: Option<Quote>, c: Constraints): real {
    if asked.price != 0.0 || quote.None? then Constrain(c, RoundHalfEven(asked.price))
    else if asked.isBuy then Constrain(c, RoundHalfEven(quote.value.ask))
    else Constrain(c, RoundHalfEven(quote.value.bid))
  }

  /** How far attempt k moves the price: the configured basis points, then five for each retry. */
  function Bump(initialBps: real, k: nat): real { (if k == 0 then initialBps else 5.0 * k as real) / 10000.0 }

  /** Raised for a buy, lowered for a sell, though never below zero. */
  function Offset(price: real, isBuy: bool, ratio: real): real {
    if isBuy then price * (1.0 + ratio) else if ratio > 1.0 then 0.0 else price * (1.0 - ratio)
  }

  /** The price attempt k starts from: its predecessor's, or the market's if that has vanished. */
  ghost function BasePrice(isBuy: bool, last: real, quote: Option<Quote>): real {
    if last != 0.0 || quote.None? then last
    else if isBuy then RoundHalfEven(quote.value.ask)
    else RoundHalfEven(quote.value.bid)
  }

  /** The price attempt k sends after `last`: an order that is not immediate keeps its price, an
      immediate one is offset. */
  ghost function RetryPrice(asked: OrderRequest, last: real, quote: Option<Quote>, initialBps: real, k: nat,
                            c: Constraints): real
  {
    var base := BasePrice(asked.isBuy, last, quote);
    if asked.tif == Gtc || base <= 0.0 then Constrain(c, base)
    else Constrain(c, RoundHalfEven(Offset(base, asked.isBuy, Bump(initialBps, k))))
  }

  lemma QuotedIsBase(order: OrderRequest, quote: Option<Quote>)
    requires RoundHalfEven(order.price) == order.price
    ensures var base := BasePrice(order.isBuy, order.price, quote);
            SetMarketPrice(order, quote).price == base && RoundHalfEven(base) == base
  {
    if quote.Some? {
      RoundedTwice(quote.value.ask);
      RoundedTwice(quote.value.bid);
    }
    hide RoundHalfEven;
  }

  lemma RoundedTwice(x: real)
    ensures RoundHalfEven(RoundHalfEven(x)) == RoundHalfEven(x)
  {
    RoundHalfEvenHasEightDecimals(x);
    RoundHalfEvenHasEightDecimals(RoundHalfEven(x));
  }

  lemma MoveIsOffset(price: real, isBuy: bool, ratio: real)
    ensures Move(price, isBuy, ratio) == Offset(price, isBuy, ratio)
    ensures ratio == 0.0 ==> Move(price, isBuy, ratio) == price
  {
  }

  lemma RatioIsBump(initialBps: real, k: nat)
    ensures OffsetRatio(initialBps, k) == Bump(initialBps, k)
  {
  }

  lemma AttemptIs(order: OrderRequest, initialBps: real, k: nat, quote: Option<Quote>, c: Constraints)
    requires Settled(c, order.price)
    ensures var next := Attempt(order, initialBps, k, quote, c);
            && KeepsOrder(order, next) && next.price == RetryPrice(order, order.price, quote, initialBps, k, c)
  {
    var base, ratio := BasePrice(order.isBuy, order.price, quote), OffsetRatio(initialBps, k);
    QuotedIsBase(order, quote);
    RatioIsBump(initialBps, k);
    MoveIsOffset(base, order.isBuy, ratio);
    hide RoundHalfEven, Constrain, OffsetRatio, Bump, BasePrice, Move, Offset;
  }

  /** What every attempt of one call sends: the order asked for, each at the price its predecessor's
      leads to. */
  ghost predicate SentAsAsked(asked: OrderRequest, first: real, sent: seq<OrderRequest>, initialBps: real,
                              c: Constraints, world: seq<Surroundings>)
    requires |sent| <= |world|
  {
    forall k :: 0 <= k < |sent| ==>
      KeepsOrder(asked, sent[k])
      && sent[k].price == RetryPrice(asked, Before(sent, first, k), world[k].quote, initialBps, k, c)
  }

  /** The price the k-th order starts from. */
  function Before(sent: seq<OrderRequest>, first: real, k: nat): real
    requires k <= |sent|
  {
    if k == 0 then first else sent[k - 1].price
  }

  lemma KeepsOrderTwice(asked: OrderRequest, first: OrderRequest, next: OrderRequest)
    requires KeepsOrder(asked, first) && KeepsOrder(first, next)
    ensures KeepsOrder(asked, next)
  {
    RoundedTwice(asked.size);
    hide RoundHalfEven;
  }

  lemma RetryPriceOf(asked: OrderRequest, order: OrderRequest, last: real, quote: Option<Quote>, initialBps: real,
                     k: nat, c: Constraints)
    requires KeepsOrder(asked, order)
    ensures RetryPrice(asked, last, quote, initialBps, k, c) == RetryPrice(order, last, quote, initialBps, k, c)
  {
    hide RoundHalfEven, Constrain, Offset, Bump, BasePrice;
  }

  lemma OneMoreSent(asked: OrderRequest, first: real, sent: seq<OrderRequest>, next: OrderRequest, initialBps: real,
                    c: Constraints, world: seq<Surroundings>)
    requires |sent| < |world| && SentAsAsked(asked, first, sent, initialBps, c, world) && KeepsOrder(asked, next)
    requires next.price == RetryPrice(asked, Before(sent, first, |sent|), world[|sent|].quote, initialBps, |sent|, c)
    ensures SentAsAsked(asked, first, sent + [next], initialBps, c, world)
  {
    hide KeepsOrder, RetryPrice;
    var all := sent + [next];
    forall k | 0 <= k < |all|
      ensures KeepsOrder(asked, all[k])
      ensures all[k].price == RetryPrice(asked, Before(all, first, k), world[k].quote, initialBps, k, c)
    {
      assert Before(all, first, k) == Before(sent, first, k);
      assert k < |sent| ==> all[k] == sent[k];
    }
  }

  lemma {:induction false} SendsAsAsked(asked: OrderRequest, order: OrderRequest, initialBps: real, c: Constraints,
                                        world: seq<Surroundings>, n: nat)
    requires n <= |world| && KeepsOrder(asked, order) && Settled(c, order.price)
    ensures var sent := Sends(order, initialBps, c, world, n);
            && SentAsAsked(asked, order.price, sent, initialBps, c, world)
            && (n > 0 ==> KeepsOrder(asked, sent[n - 1]) && Settled(c, sent[n - 1].price))
    decreases n
  {
    hide RoundHalfEven, Constrain, Settled, KeepsOrder, RetryPrice, Attempt, Sends;
    if n == 0 {
      SendsNothing(order, initialBps, c, world);
    } else {
      SendsAsAsked(asked, order, initialBps, c, world, n - 1);
      SendsNext(order, initialBps, c, world, n - 1);
      var earlier := Sends(order, initialBps, c, world, n - 1);
      var previous := if n == 1 then order else earlier[n - 2];
      var quote := world[n - 1].quote;
      var next := Attempt(previous, initialBps, n - 1, quote, c);
      AttemptIs(previous, initialBps, n - 1, quote, c);
      AttemptSettles(previous, initialBps, n - 1, quote, c);
      KeepsOrderTwice(asked, previous, next);
      RetryPriceOf(asked, previous, previous.price, quote, initialBps, n - 1, c);
      hide SentAsAsked;
      OneMoreSent(asked, order.price, earlier, next, initialBps, c, world);
    }
  }

  lemma RestingPriceStays(asked: OrderRequest, price: real, quote: Option<Quote>, initialBps: real, k: nat,
                          c: Constraints)
    requires asked.tif == Gtc && price != 0.0 && Settled(c, price)
    ensures RetryPrice(asked, price, quote, initialBps, k, c) == price
  {
    hide RoundHalfEven, Constrain, Offset, Bump;
  }

  /** So an order that is not immediate and has a price is sent at that price every time. */
  lemma {:induction false} PricedOrdersKeepTheirPrice(asked: OrderRequest, first: real, sent: seq<OrderRequest>,
                                                      initialBps: real, c: Constraints, world: seq<Surroundings>,
                                                      k: nat)
    requires k < |sent| <= |world| && SentAsAsked(asked, first, sent, initialBps, c, world)
    requires asked.tif == Gtc && first != 0.0 && Settled(c, first)
    ensures sent[k].price == first
    decreases k
  {
    hide RoundHalfEven, KeepsOrder, RetryPrice, Settled, Constrain;
    if k > 0 {
      PricedOrdersKeepTheirPrice(asked, first, sent, initialBps, c, world, k - 1);
    }
    RestingPriceStays(asked, first, world[k].quote, initialBps, k, c);
    assert Before(sent, first, k) == first;
  }

  datatype Result =
    | Submitted | Ignored | NoTurn | Failed | AlreadySatisfied | NothingToDo | MissingIdentifier | IdentifierMismatch

  /** A request written to the store; a write that fails is only logged. */
  datatype Record = RecordCreate(order: OrderRequest) | RecordModify(order: OrderRequest) | RecordCancel

  /** What Emit did: orders sent, other mutating calls, turns taken at the rate gate, cooldowns,
      requests recorded. */
  datatype Effects = Effects(sent: seq<OrderRequest>, otherCalls: nat, turns: nat, cooldowns: nat,
                             recorded: seq<Record>) {
    function Calls(): nat { |sent| + otherCalls }
  }

  method PrepareAttempt(order: OrderRequest, initialBps: real, attempt: nat, quote: Option<Quote>, c: Constraints)
    returns (next: OrderRequest)
    ensures next == Attempt(order, initialBps, attempt, quote, c)
  {
    next := ApplyIOCOffset(SetMarketPrice(order, quote), initialBps, attempt);
    if c.Resolved? {
      var price := c.coin.RoundPrice(next.price);
      next := next.(price := price);
    }
  }

  /** How far an exchange's answers let the loop go: the number of orders sent and the result. */
  function Progress(world: seq<Surroundings>, maxAttempts: nat, attempt: nat): (nat, Result)
    requires attempt < maxAttempts <= |world|
    decreases maxAttempts - attempt
  {
    if attempt > 0 && !world[attempt].turnGranted then (attempt, NoTurn)
    else
      match world[attempt].answer
      case Placed => (attempt + 1, Submitted)
      case BelowMinimumValue => (attempt + 1, Ignored)
      case WouldIncreasePosition => (attempt + 1, Ignored)
      case Rejected(noMatch, rateLimited) =>
        if noMatch && attempt + 1 < maxAttempts then Progress(world, maxAttempts, attempt + 1)
        else (attempt + 1, Failed)
  }

  predicate RateLimited(answer: Answer) { answer.Rejected? && answer.rateLimited }

  predicate Unmatched(answer: Answer) { answer.Rejected? && answer.noMatch }

  /** Where the attempts stop, and why: all but the last found no counterparty, all but the first got
      a turn, and the last decides the result, or there is no turn for another. */
  predicate StopsAt(world: seq<Surroundings>, maxAttempts: nat, n: nat, result: Result)
    requires maxAttempts <= |world|
  {
    && 1 <= n <= maxAttempts
    && (forall i :: 0 <= i < n - 1 ==> Unmatched(world[i].answer))
    && (forall i :: 0 < i < n ==> world[i].turnGranted)
    && var last := world[n - 1].answer;
       match result
       case Submitted => last == Placed
       case Ignored => last == BelowMinimumValue || last == WouldIncreasePosition
       case Failed => last.Rejected? && (last.noMatch ==> n == maxAttempts)
       case NoTurn => Unmatched(last) && n < maxAttempts && !world[n].turnGranted
       case _ => false
  }

  lemma {:induction false} ProgressStopsAt(world: seq<Surroundings>, maxAttempts: nat, attempt: nat)
    requires attempt < maxAttempts <= |world|
    requires forall i :: 0 <= i < attempt ==> Unmatched(world[i].answer)
    requires forall i :: 0 < i < attempt ==> world[i].turnGranted
    ensures var (n, result) := Progress(world, maxAttempts, attempt); StopsAt(world, maxAttempts, n, result)
    decreases maxAttempts - attempt
  {
    if (attempt == 0 || world[attempt].turnGranted) && Unmatched(world[attempt].answer) && attempt + 1 < maxAttempts {
      ProgressStopsAt(world, maxAttempts, attempt + 1);
    }
  }

  /** A new order is recorded, as last sent, exactly when it was placed or turned down for good. */
  function Recorded(sent: seq<OrderRequest>, result: Result): seq<Record> {
    if sent != [] && (result == Submitted || result == Ignored) then [RecordCreate(sent[|sent| - 1])] else []
  }

  /** The attempt loop for a new order. Turn, quote and answer of attempt i come from world[i];
      the turn for attempt 0 was taken before the loop. */
  method SubmitCreate(order: OrderRequest, initialBps: real, maxRetries: int, c: Constraints, world: seq<Surroundings>,
                      turnsTaken: nat)
    returns (result: Result, effects: Effects)
    requires turnsTaken > 0 && |world| >= Attempts(maxRetries)
    ensures (|effects.sent|, result) == Progress(world, Attempts(maxRetries), 0)
    ensures |effects.sent| <= Attempts(maxRetries)
    ensures effects.sent == Sends(order, initialBps, c, world, |effects.sent|)
    ensures effects.otherCalls == 0 && effects.sent != [] && effects.turns == turnsTaken + |effects.sent| - 1
    ensures effects.recorded == Recorded(effects.sent, result)
    ensures effects.cooldowns ==
              if result == Failed && RateLimited(world[|effects.sent| - 1].answer) then 1 else 0
  {
    hide Attempt, Attempts, Sends;
    SendsNothing(order, initialBps, c, world);
    var maxAttempts := Attempts(maxRetries);
    AtLeastOnce(maxRetries);
    var current := order;
    effects := Effects([], 0, turnsTaken, 0, []);
    var attempt := 0;
    while attempt < maxAttempts
      invariant 0 <= attempt < maxAttempts && |effects.sent| == attempt && effects.otherCalls == 0
                && effects.recorded == []
      invariant effects.turns == turnsTaken + (if attempt == 0 then 0 else attempt - 1) && effects.cooldowns == 0
      invariant current == if attempt == 0 then order else effects.sent[attempt - 1]
      invariant effects.sent == Sends(order, initialBps, c, world, attempt)
      invariant Progress(world, maxAttempts, attempt) == Progress(world, maxAttempts, 0)
      decreases maxAttempts - attempt
    {
      if attempt > 0 {
        if !world[attempt].turnGranted {
          return NoTurn, effects;
        }
        effects := effects.(turns := effects.turns + 1);
      }
      SendsNext(order, initialBps, c, world, attempt);
      current := PrepareAttempt(current, initialBps, attempt, world[attempt].quote, c);
      effects := effects.(sent := effects.sent + [current]);
      match world[attempt].answer {
        case Placed => return Submitted, effects.(recorded := [RecordCreate(current)]);
        case BelowMinimumValue => return Ignored, effects.(recorded := [RecordCreate(current)]);
        case WouldIncreasePosition => return Ignored, effects.(recorded := [RecordCreate(current)]);
        case Rejected(noMatch, rateLimited) =>
          if !noMatch || attempt + 1 == maxAttempts {
            if rateLimited {
              effects := effects.(cooldowns := effects.cooldowns + 1);
            }
            return Failed, effects;
          }
      }
      attempt := attempt + 1;
    }
    // Where the program reports exhausted retries: the last attempt has already returned.
    assert false;
  }

  function Attempts(maxRetries: int): nat { if maxRetries <= 0 then 1 else maxRetries }

  lemma AtLeastOnce(maxRetries: int)
    ensures Attempts(maxRetries) > 0
  {
  }

  /** The limit is spent, and never overspent: the order is sent as often as the configured limit
      allows, or once where there is none, exactly when every attempt before the last found no
      counterparty and every one after it got a turn. */
  lemma RetriesAreSpentExactlyWhen(world: seq<Surroundings>, maxRetries: int)
    requires |world| >= Attempts(maxRetries)
    ensures
      var limit := if maxRetries > 1 then maxRetries else 1;
      var (n, result) := Progress(world, Attempts(maxRetries), 0);
      && n <= limit
      && (n == limit <==>
          && (forall i :: 0 <= i < limit - 1 ==> Unmatched(world[i].answer))
          && (forall i :: 0 < i < limit ==> world[i].turnGranted))
  {
    ProgressStopsAt(world, Attempts(maxRetries), 0);
    var (n, result) := Progress(world, Attempts(maxRetries), 0);
    hide Progress;
  }

  // ---------- the whole of Emit ----------

  /** What the venue already holds for the order: nothing live, the very order wanted, or a live
      order that has to be modified instead. */
  datatype Standing = NotLive | Matches | Differs

  /** The exchange's answer to a modification; after an empty one the order is queried, and the
      modification is confirmed when the order found is the one wanted. */
  datatype ModifyAnswer = Modified | EmptyAnswer(confirmed: bool, rateLimited: bool)
                        | FilledOrCanceled(rateLimited: bool) | ModifyRejected(rateLimited: bool)

  datatype CancelAnswer = CancelPlaced | AlreadyClosed | CancelRejected(rateLimited: bool)

  datatype Answers = Answers(toModify: ModifyAnswer, toCancel: CancelAnswer)

  const NoIdent := Ident("", "", NoOrder)

  const NoOrder := OrderId(0, 0, 0)

  predicate Took(answer: ModifyAnswer) { answer.Modified? || (answer.EmptyAnswer? && answer.confirmed) }

  predicate ModifyRateLimited(answer: ModifyAnswer) { !answer.Modified? && answer.rateLimited }

  method SubmitModify(order: OrderRequest, answer: ModifyAnswer, before: Effects)
    returns (result: Result, effects: Effects)
    requires before.recorded == []
    ensures result == if Took(answer) || answer.FilledOrCanceled? then Submitted else Failed
    ensures effects.sent == before.sent && effects.turns == before.turns && effects.otherCalls == before.otherCalls + 1
    ensures effects.recorded == if Took(answer) then [RecordModify(order)] else []
    ensures effects.cooldowns == before.cooldowns + if ModifyRateLimited(answer) then 1 else 0
  {
    effects := before.(otherCalls := before.otherCalls + 1);
    if !answer.Modified? {
      if answer.rateLimited {
        effects := effects.(cooldowns := effects.cooldowns + 1);
      }
      if answer.EmptyAnswer? {
        if !answer.confirmed {
          return Failed, effects;
        }
      } else if answer.FilledOrCanceled? {
        return Submitted, effects;
      } else {
        return Failed, effects;
      }
    }
    return Submitted, effects.(recorded := [RecordModify(order)]);
  }

  method QuoteOnce(order: OrderRequest, quote: Option<Quote>, c: Constraints) returns (next: OrderRequest)
    ensures Settled(c, next.price) && KeepsOrder(order, next) && next.price == QuotedPrice(order, quote, c)
  {
    next := SetMarketPrice(order, quote);
    ghost var raw :=
      if order.price == 0.0 && quote.Some? then (if order.isBuy then quote.value.ask else quote.value.bid)
      else order.price;
    BothRoundingsSettle(c, raw);
    if c.Resolved? {
      var price := c.coin.RoundPrice(next.price);
      next := next.(price := price);
    }
  }

  /** The work names an order, and the same order twice if it names one twice. */
  predicate Identified(ident: Ident, oid: OrderId) { ident != NoIdent && (oid == NoOrder || ident.order == oid) }

  ghost predicate RecordsSettled(c: Constraints, recorded: seq<Record>) {
    forall r :: r in recorded && !r.RecordCancel? ==> Settled(c, r.order.price)
  }

  /** A new order from its first attempt to the record of it. */
  method SubmitNew(asked: OrderRequest, order: OrderRequest, initialBps: real, maxRetries: int, c: Constraints,
                   world: seq<Surroundings>)
    returns (result: Result, effects: Effects)
    requires initialBps >= 0.0 && |world| >= Attempts(maxRetries)
    requires KeepsOrder(asked, order) && Settled(c, order.price)
    ensures NewOrder(asked, order.price, initialBps, maxRetries, c, world, result, effects)
    ensures RecordsSettled(c, effects.recorded)
  {
    hide Settled, Aggressive, Progress, Sends, Attempts, StopsAt, KeepsOrder, SentAsAsked;
    result, effects := SubmitCreate(order, initialBps, maxRetries, c, world, 1);
    RetriesOnlyGetMoreAggressive(order, initialBps, c, world, |effects.sent|);
    SendsAsAsked(asked, order, initialBps, c, world, |effects.sent|);
    AtLeastOnce(maxRetries);
    ProgressStopsAt(world, Attempts(maxRetries), 0);
  }

  /** What becomes of a new order: the orders sent are the one asked for, each attempt moving towards
      being filled; one turn is taken for each; the attempts stop where the exchange's answers say;
      the last order is recorded if it was placed or turned down for good; and a rate limit that
      ends them is respected. */
  ghost predicate NewOrder(asked: OrderRequest, first: real, initialBps: real, maxRetries: int, c: Constraints,
                           world: seq<Surroundings>, result: Result, effects: Effects)
    requires |world| >= Attempts(maxRetries)
  {
    var sent := effects.sent;
    && 1 <= |sent| <= Attempts(maxRetries) && StopsAt(world, Attempts(maxRetries), |sent|, result)
    && SentAsAsked(asked, first, sent, initialBps, c, world) && Aggressive(sent)
    && effects.turns == |sent| && effects.otherCalls == 0
    && effects.recorded == (if result == Submitted || result == Ignored then [RecordCreate(sent[|sent| - 1])] else [])
    && effects.cooldowns == (if result == Failed && RateLimited(world[|sent| - 1].answer) then 1 else 0)
  }

  /** What becomes of a modification: one call, recorded if the exchange took it. */
  ghost predicate ModifiedOrder(asked: OrderRequest, first: real, answer: ModifyAnswer, result: Result,
                                effects: Effects)
  {
    && effects.sent == [] && effects.otherCalls == 1 && effects.turns == 1
    && (result == Submitted <==> Took(answer) || answer.FilledOrCanceled?) && (result != Submitted ==> result == Failed)
    && effects.cooldowns == (if ModifyRateLimited(answer) then 1 else 0)
    && (if Took(answer) then
          && |effects.recorded| == 1 && effects.recorded[0].RecordModify?
          && KeepsOrder(asked, effects.recorded[0].order) && effects.recorded[0].order.price == first
        else effects.recorded == [])
  }

  lemma NothingRecorded(c: Constraints)
    ensures RecordsSettled(c, []) && Aggressive([])
  {
  }

  lemma OneRecorded(c: Constraints, r: Record)
    requires !r.RecordCancel? ==> Settled(c, r.order.price)
    ensures RecordsSettled(c, [r])
  {
  }

  /** Any way an order goes out, it goes out as asked. */
  ghost predicate OrderPlaced(asked: OrderRequest, first: real, initialBps: real, maxRetries: int, c: Constraints,
                              world: seq<Surroundings>, standing: Standing, answers: Answers, result: Result,
                              effects: Effects)
    requires |world| >= Attempts(maxRetries)
  {
    match standing
    case Matches => result == AlreadySatisfied && effects == Effects([], 0, 1, 0, [])
    case NotLive => NewOrder(asked, first, initialBps, maxRetries, c, world, result, effects)
    case Differs => ModifiedOrder(asked, first, answers.toModify, result, effects)
  }

  ghost predicate OrderCancelled(answer: CancelAnswer, result: Result, effects: Effects) {
    match answer
    case CancelPlaced => result == Submitted && effects == Effects([], 1, 1, 0, [RecordCancel])
    case AlreadyClosed => result == AlreadySatisfied && effects == Effects([], 1, 1, 0, [RecordCancel])
    case CancelRejected(rateLimited) =>
      result == Failed && effects == Effects([], 1, 1, if rateLimited then 1 else 0, [])
  }

  /** One Emit call: refused without an order of its own to work on, skipped without anything to do or
      a turn to do it in; otherwise the order asked for, and no other, is created, modified or
      cancelled. Every order sent or recorded is on the side asked for, for its size, and at the
      price asked for or the market's, as rounded, constrained and offset. */
  method Emit(work: Work, oid: OrderId, initialBps: real, maxRetries: int, c: Constraints, world: seq<Surroundings>,
              firstQuote: Option<Quote>, standing: Standing, answers: Answers)
    returns (result: Result, effects: Effects)
    requires initialBps >= 0.0 && |world| >= Attempts(maxRetries)
    ensures result == MissingIdentifier <==> work.ident == NoIdent
    ensures result == IdentifierMismatch <==>
              work.ident != NoIdent && oid != NoOrder && work.ident.order != oid
    ensures result == NothingToDo <==> Identified(work.ident, oid) && work.action.NoAction?
    ensures !Identified(work.ident, oid) || work.action.NoAction? || !world[0].turnGranted ==>
              effects == Effects([], 0, 0, 0, [])
    ensures Identified(work.ident, oid) && !work.action.NoAction? ==>
              if !world[0].turnGranted then result == NoTurn
              else
                match work.action
                case NoAction(_) => true
                case Create(asked) =>
                  OrderPlaced(asked, QuotedPrice(asked, firstQuote, c), initialBps, maxRetries, c, world, standing,
                              answers, result, effects)
                case Modify(asked) =>
                  ModifiedOrder(asked, QuotedPrice(asked, firstQuote, c), answers.toModify, result, effects)
                case Cancel(_, _) => OrderCancelled(answers.toCancel, result, effects)
    ensures effects.Calls() <= effects.turns && |effects.recorded| <= 1 && RecordsSettled(c, effects.recorded)
  {
    hide Settled, RecordsSettled, Attempts, KeepsOrder, QuotedPrice, RoundHalfEven, SetMarketPrice, Constrain;
    hide StopsAt, SentAsAsked, Aggressive;
    NothingRecorded(c);
    AtLeastOnce(maxRetries);
    effects := Effects([], 0, 0, 0, []);
    if work.ident == NoIdent {
      return MissingIdentifier, effects;
    }
    if oid != NoOrder && work.ident.order != oid {
      return IdentifierMismatch, effects;
    }
    if work.action.NoAction? {
      return NothingToDo, effects;
    }
    if !world[0].turnGranted {
      return NoTurn, effects;
    }
    effects := effects.(turns := 1);
    match work.action {
      case Cancel(_, _) =>
        effects := effects.(otherCalls := 1);
        OneRecorded(c, RecordCancel);
        match answers.toCancel {
          case CancelPlaced => return Submitted, effects.(recorded := [RecordCancel]);
          case AlreadyClosed => return AlreadySatisfied, effects.(recorded := [RecordCancel]);
          case CancelRejected(rateLimited) =>
            return Failed, effects.(cooldowns := if rateLimited then 1 else 0);
        }
      case Modify(order) =>
        var wanted := QuoteOnce(order, firstQuote, c);
        result, effects := SubmitModify(wanted, answers.toModify, effects);
        OneRecorded(c, RecordModify(wanted));
      case Create(order) =>
        var wanted := QuoteOnce(order, firstQuote, c);
        match standing {
          case Matches => return AlreadySatisfied, effects;
          case Differs =>
            result, effects := SubmitModify(wanted, answers.toModify, effects);
            OneRecorded(c, RecordModify(wanted));
          case NotLive =>
            result, effects := SubmitNew(order, wanted, initialBps, maxRetries, c, world);
            StopsWithAResult(world, Attempts(maxRetries), |effects.sent|, result);
        }
    }
  }

  lemma StopsWithAResult(world: seq<Surroundings>, maxAttempts: nat, n: nat, result: Result)
    requires maxAttempts <= |world| && StopsAt(world, maxAttempts, n, result)
    ensures result in {Submitted, Ignored, NoTurn, Failed}
  {
  }
}
