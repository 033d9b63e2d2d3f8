/** Applying a multiplier and a venue's rounding rules to one order, in exact arithmetic. */
module OrderScaler {
  import opened PriceRounding
  import Stack = StackRounding

  /** The venue request, updated in place. */
  class OrderRequest {
    var price: real
    var size: real

    constructor (price: real, size: real)
      ensures this.price == price && this.size == size
    {
      this.price, this.size := price, size;
    }
  }

  datatype Request = Request(originalSize: real, price: real, stackIndex: int, stackSize: int)

  /** The stack sizes on record for the deal; fewer than asked for when the stack is incomplete. */
  datatype StackLookup = LookupFailed | Found(sizes: seq<real>)

  datatype Result = Scaled(size: real, price: real) | BelowMinimum(size: real, price: real)

  /** The multiplier in force: as configured, but never above a positive maximum. */
  function EffectiveMultiplier(multiplier: real, max: real): (m: real)
    ensures m <= multiplier && (max > 0.0 ==> m <= max)
    ensures m == multiplier || (m == max && max > 0.0)
  {
    if max > 0.0 && multiplier > max then max else multiplier
  }

  function Multiplied(size: real, m: real): real { size * m }

  /** Whether the leg is sized as part of its stack rather than on its own. */
  predicate SizedInStack(req: Request, stack: StackLookup) {
    req.stackSize > 1 && 0 <= req.stackIndex < req.stackSize && stack.Found? && |stack.sizes| == req.stackSize
  }

  /** `size` is what scaling by `m` yields before it is clamped at zero. */
  ghost predicate RoundedSize(req: Request, m: real, coin: CoinConstraints, stack: StackLookup, size: real) {
    if !SizedInStack(req, stack) then size == coin.RoundSize(Multiplied(req.originalSize, m))
    else if coin.sizeStep <= 0.0 then size == Stack.Targets(stack.sizes, m)[req.stackIndex]
    else
      exists w :: Stack.BestRounding(stack.sizes, m, coin.sizeStep, w)
        && size == Stack.Sizes(w, coin.sizeStep)[req.stackIndex]
  }

  function NonNegative(x: real): real { if x < 0.0 then 0.0 else x }

  /** Worth the venue's minimum, if it sets one. */
  predicate WorthSending(size: real, price: real, minimum: real) {
    var value := if size * price < 0.0 then -(size * price) else size * price;
    minimum > 0.0 ==> value >= minimum - 0.000000000001
  }

  lemma NotBelowMinimum(coin: CoinConstraints, size: real, price: real)
    ensures coin.NotionalBelowMinimum(size, price) <==> !WorthSending(size, price, coin.minNotional)
  {
  }

  /** Scales the order in place, or leaves it alone when it would fall below the venue minimum. */
  method Scale(order: OrderRequest, req: Request, multiplier: real, maxMultiplier: real, coin: CoinConstraints,
               stack: StackLookup)
    returns (result: Result)
    modifies order
    ensures result.price == coin.Price(if req.price > 0.0 then req.price else old(order.price))
    ensures coin.Price(result.price) == result.price
    ensures exists size ::
              RoundedSize(req, EffectiveMultiplier(multiplier, maxMultiplier), coin, stack, size)
              && (result.size == size || (size < 0.0 && result.size == 0.0))
    ensures result.size >= 0.0
    ensures result.BelowMinimum? <==> coin.NotionalBelowMinimum(result.size, result.price)
    ensures result.Scaled? ==> order.price == result.price && order.size == result.size
    ensures result.BelowMinimum? ==> unchanged(order)
    ensures result.Scaled? ==> WorthSending(order.size, order.price, coin.minNotional)
  {
    hide WorthSending, CoinConstraints.NotionalBelowMinimum, CoinConstraints.RoundSize, Multiplied;
    var m := EffectiveMultiplier(multiplier, maxMultiplier);
    var scaledSize := Multiplied(req.originalSize, m);
    var chosen := if req.price > 0.0 then req.price else order.price;
    var roundedPrice := coin.RoundPrice(chosen);
    SigRoundIdempotent(chosen, coin.SigFigs());
    var roundedSize := coin.RoundSize(scaledSize);
    if req.stackSize > 1 && req.stackIndex >= 0 && stack.Found? && |stack.sizes| == req.stackSize {
      var stackRounded := Stack.ComputeStackRoundedSizes(stack.sizes, m, coin.sizeStep);
      if req.stackIndex < |stackRounded| {
        roundedSize := stackRounded[req.stackIndex];
      }
    }
    assert RoundedSize(req, m, coin, stack, roundedSize);
    roundedSize := NonNegative(roundedSize);
    NotBelowMinimum(coin, roundedSize, roundedPrice);
    if coin.NotionalBelowMinimum(roundedSize, roundedPrice) {
      return BelowMinimum(roundedSize, roundedPrice);
    }
    order.price, order.size := roundedPrice, roundedSize;
    return Scaled(roundedSize, roundedPrice);
  }

  /** A leg's place in its stack, as derived from the event: always inside a non-empty stack. */
  function StackPlace(orderPosition: int, orderSize: int): (place: (int, int))
    ensures 0 <= place.0 < place.1
    ensures 1 <= orderPosition <= orderSize ==> place == (orderPosition - 1, orderSize)
  {
    var size := if orderSize <= 0 then 1 else orderSize;
    var index := if orderPosition - 1 < 0 then 0 else orderPosition - 1;
    (if index >= size then size - 1 else index, size)
  }

  /** A scaled size is within half a lot of the original times the multiplier in force, or, as part
      of a stack of non-negative legs, within a lot of its own leg's. */
  lemma ScaledSizeIsClose(req: Request, m: real, coin: CoinConstraints, stack: StackLookup, size: real)
    requires coin.sizeStep > 0.0 && RoundedSize(req, m, coin, stack, size)
    ensures !SizedInStack(req, stack) ==> Magnitude(size - req.originalSize * m) <= 0.5 * coin.sizeStep
    ensures SizedInStack(req, stack) && m >= 0.0 && (forall i :: 0 <= i < |stack.sizes| ==> stack.sizes[i] >= 0.0) ==>
              Magnitude(size - stack.sizes[req.stackIndex] * m) < coin.sizeStep
  {
    hide RoundedSize, CoinConstraints.RoundSize;
    if !SizedInStack(req, stack) {
      ScaledAlone(req, m, coin, stack, size);
    } else if m >= 0.0 && forall i :: 0 <= i < |stack.sizes| ==> stack.sizes[i] >= 0.0 {
      ScaledInStack(req, m, coin, stack, size);
    }
  }

  lemma ScaledAlone(req: Request, m: real, coin: CoinConstraints, stack: StackLookup, size: real)
    requires coin.sizeStep > 0.0 && RoundedSize(req, m, coin, stack, size) && !SizedInStack(req, stack)
    ensures Magnitude(size - Multiplied(req.originalSize, m)) <= 0.5 * coin.sizeStep
  {
    hide CoinConstraints.RoundSize, Stack.BestRounding, Magnitude, Multiplied;
    NearTarget(coin, Multiplied(req.originalSize, m), size);
  }

  lemma NearTarget(coin: CoinConstraints, target: real, size: real)
    requires coin.sizeStep > 0.0 && size == coin.RoundSize(target)
    ensures Magnitude(size - target) <= 0.5 * coin.sizeStep
  {
    hide CoinConstraints.RoundSize;
    coin.RoundSizeIsNearestLot(target);
  }

  lemma ScaledInStack(req: Request, m: real, coin: CoinConstraints, stack: StackLookup, size: real)
    requires coin.sizeStep > 0.0 && RoundedSize(req, m, coin, stack, size) && SizedInStack(req, stack) && m >= 0.0
    requires forall i :: 0 <= i < |stack.sizes| ==> stack.sizes[i] >= 0.0
    ensures Magnitude(size - stack.sizes[req.stackIndex] * m) < coin.sizeStep
  {
    hide Stack.StackCost, Stack.LexLess;
    var w :| Stack.BestRounding(stack.sizes, m, coin.sizeStep, w)
             && size == Stack.Sizes(w, coin.sizeStep)[req.stackIndex];
    ScaledLeg(stack.sizes, m, coin.sizeStep, w, req.stackIndex);
  }

  lemma ScaledLeg(sizes: seq<real>, m: real, step: real, w: seq<int>, i: nat)
    requires step > 0.0 && m >= 0.0 && i < |sizes| && Stack.Rounding(Stack.Targets(sizes, m), step, w)
    requires forall j :: 0 <= j < |sizes| ==> sizes[j] >= 0.0
    ensures |Stack.Sizes(w, step)| == |sizes| && Magnitude(Stack.Sizes(w, step)[i] - sizes[i] * m) < step
  {
    NonNegativeProduct(sizes[i], m);
    Stack.LegIsClose(Stack.Targets(sizes, m), step, w, i);
  }

  lemma NonNegativeProduct(a: real, b: real)
    requires a >= 0.0 && b >= 0.0
    ensures a * b >= 0.0
  {
  }
}
