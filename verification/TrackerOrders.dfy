/** What the fill tracker knows of one order, and how bot events and venue statuses change it.
    Quantities and prices are reals; times are milliseconds since the epoch. */
module TrackerOrders {
  import opened Adapter
  import opened OrderIds
  import opened Wrappers

  /** One venue status. A number is None when the venue sent no text for it or text that does
      not parse. */
  datatype WsOrder = WsOrder(
    status: string, timestamp: int, coin: string, side: string,
    limitPx: Option<real>, origSz: Option<real>, sz: Option<real>)

  datatype OrderData = OrderData(
    event: Option<BotEvent>, coin: string, side: string, reduceOnly: bool,
    original: real, remaining: real, filled: real, price: real, limitPrice: real,
    status: string, observed: Option<int>, hydratedEpoch: nat)

  const Untracked := OrderData(None, "", "", false, 0.0, 0.0, 0.0, 0.0, 0.0, "", None, 0)

  function SideName(side: Side): string { if side == Buy then "BUY" else "SELL" }

  predicate HasSuffix(s: string, suffix: string) {
    |s| >= |suffix| && s[|s| - |suffix|..] == suffix
  }

  predicate IsCanceledStatus(status: string) {
    || status == "canceled"
    || (status != "" && (HasSuffix(Lower(status), "canceled") || HasSuffix(Lower(status), "cancelled")))
  }

  function ApplyEvent(o: OrderData, event: BotEvent): OrderData {
    o.(event := Some(event),
       coin := event.coin,
       side := SideName(event.side),
       original := if event.size > 0.0 && o.original == 0.0 then event.size else o.original,
       price := if event.price > 0.0 then event.price else o.price,
       reduceOnly := o.reduceOnly || event.orderType == TakeProfit)
  }

  /** A status older than the one already applied is ignored; an untimed one never is. */
  predicate Accepts(o: OrderData, status: WsOrder) {
    status.timestamp <= 0 || o.observed.None? || status.timestamp >= o.observed.value
  }

  function OrElse<T>(a: Option<T>, b: T): T { if a.Some? then a.value else b }

  function ApplyStatus(o: OrderData, status: WsOrder): OrderData {
    if Accepts(o, status) then WithStatus(o, status, IsCanceledStatus(status.status)) else o
  }

  function WithStatus(o: OrderData, status: WsOrder, cancelled: bool): OrderData {
    var original := OrElse(status.origSz, o.original);
    var remaining := OrElse(status.sz, o.remaining);
    o.(observed := if status.timestamp > 0 then Some(status.timestamp) else o.observed,
       status := status.status,
       coin := if status.coin != "" then status.coin else o.coin,
       side := if status.side != "" then status.side else o.side,
       limitPrice := OrElse(status.limitPx, o.limitPrice),
       original := original,
       remaining := if cancelled then 0.0 else remaining,
       filled := if original > 0.0 then Max(0.0, original - remaining) else o.filled)
  }

  /** What a stored bot event says when the venue has no status for the order. */
  function InferFromEvent(o: OrderData): OrderData {
    if o.event.None? then o
    else
      var original := if o.event.value.size > 0.0 && o.original == 0.0 then o.event.value.size else o.original;
      o.(original := original,
         remaining := if original > 0.0 && o.remaining == 0.0 then original else o.remaining,
         observed := if o.event.value.createdAt > 0 then Some(o.event.value.createdAt) else o.observed)
  }

  function ApplyScaledSize(o: OrderData, size: real): OrderData {
    if size <= 0.0 then o
    else
      var filled := if o.filled > size then size else o.filled;
      o.(original := size, filled := filled, remaining := Max(0.0, size - filled))
  }

  function ApplyScaledPrice(o: OrderData, price: real): OrderData {
    if price <= 0.0 then o
    else o.(price := price, limitPrice := if o.limitPrice == 0.0 then price else o.limitPrice)
  }

  function ApplyScaled(o: OrderData, size: real, price: real): OrderData {
    ApplyScaledPrice(ApplyScaledSize(o, size), price)
  }

  function MarkCancelled(o: OrderData, now: int): OrderData {
    o.(remaining := 0.0, status := "canceled", observed := Some(now))
  }

  predicate IsBuy(o: OrderData) {
    if o.event.Some? then o.event.value.side == Buy
    else Lower(o.side) == "b" || Lower(o.side) == "buy"
  }

  predicate IsActiveOrder(o: OrderData) {
    !IsCanceledStatus(o.status) && o.status != "filled" && o.remaining > 0.000001
  }

  predicate IsFilledOrder(o: OrderData) {
    || o.status == "filled"
    || (o.original != 0.0 && (Abs(o.filled - o.original) <= 0.000001 || o.remaining <= 0.000001))
  }

  function FillPrice(o: OrderData): real {
    if o.limitPrice > 0.0 then o.limitPrice else if o.price > 0.0 then o.price else 0.0
  }

  // ---------- bounds ----------

  predicate InBounds(o: OrderData) {
    0.0 <= o.filled && 0.0 <= o.remaining && o.filled + o.remaining <= o.original
  }

  /** A status that gives both sizes sensibly, or neither. */
  predicate WellFormed(status: WsOrder) {
    || (status.origSz.None? && status.sz.None?)
    || (status.origSz.Some? && status.sz.Some? && 0.0 <= status.sz.value <= status.origSz.value
        && 0.0 < status.origSz.value)
  }

  lemma WellFormedStatusKeepsBounds(o: OrderData, status: WsOrder)
    requires InBounds(o) && WellFormed(status)
    ensures InBounds(ApplyStatus(o, status))
  {
  }

  /** Whichever sizes an accepted status gives, the bounds hold afterwards exactly when the sizes
      then in force are sensible, or the order is empty all round. */
  lemma StatusKeepsBoundsExactlyWhenSensible(o: OrderData, status: WsOrder)
    requires InBounds(o) && Accepts(o, status)
    ensures var original, remaining := OrElse(status.origSz, o.original), OrElse(status.sz, o.remaining);
            InBounds(ApplyStatus(o, status)) <==>
              if IsCanceledStatus(status.status) then
                && 0.0 <= original && (original > 0.0 ==> 0.0 <= remaining)
                && (original == 0.0 ==> o.filled == 0.0)
              else 0.0 <= remaining <= original && (original > 0.0 || o.filled == 0.0)
  {
    hide IsCanceledStatus;
    var after := ApplyStatus(o, status);
    assert after.remaining == if IsCanceledStatus(status.status) then 0.0 else OrElse(status.sz, o.remaining);
  }

  lemma LocalChangesKeepBounds(o: OrderData, event: BotEvent, size: real, price: real, now: int)
    requires InBounds(o)
    ensures InBounds(ApplyEvent(o, event))
    ensures InBounds(ApplyScaledSize(o, size))
    ensures InBounds(ApplyScaled(o, size, price))
    ensures InBounds(MarkCancelled(o, now))
  {
  }

  /** Falling back on the bot event puts the whole size back as remaining, so it breaks the
      bounds exactly for an order that has an event, fills and nothing left. */
  lemma InferKeepsBoundsExactlyWhen(o: OrderData)
    requires InBounds(o)
    ensures InBounds(InferFromEvent(o)) <==> !(o.event.Some? && o.remaining == 0.0 && o.filled > 0.0)
  {
  }

  // ---------- out-of-order statuses ----------

  function ApplyAll(o: OrderData, statuses: seq<WsOrder>): OrderData
    decreases |statuses|
  {
    if statuses == [] then o
    else ApplyStatus(ApplyAll(o, statuses[..|statuses| - 1]), statuses[|statuses| - 1])
  }

  predicate Full(status: WsOrder) {
    status.timestamp > 0 && status.limitPx.Some? && status.origSz.Some? && status.sz.Some?
  }

  ghost predicate FullAndDistinct(statuses: seq<WsOrder>) {
    && (forall i :: 0 <= i < |statuses| ==> Full(statuses[i]))
    && (forall i, j :: 0 <= i < j < |statuses| ==> statuses[i].timestamp != statuses[j].timestamp)
  }

  function Newest(statuses: seq<WsOrder>): WsOrder
    requires statuses != []
    decreases |statuses|
  {
    var n := |statuses| - 1;
    if n == 0 then statuses[0]
    else
      var earlier := Newest(statuses[..n]);
      if statuses[n].timestamp >= earlier.timestamp then statuses[n] else earlier
  }

  lemma {:induction false} NewestIsNewest(statuses: seq<WsOrder>)
    requires statuses != []
    ensures Newest(statuses) in statuses
    ensures forall i :: 0 <= i < |statuses| ==> statuses[i].timestamp <= Newest(statuses).timestamp
    decreases |statuses|
  {
    var n := |statuses| - 1;
    if n > 0 {
      NewestIsNewest(statuses[..n]);
      forall i | 0 <= i < |statuses| ensures statuses[i].timestamp <= Newest(statuses).timestamp {
        assert i < n ==> statuses[..n][i] == statuses[i];
      }
    }
  }

  /** What the newest status alone decides. */
  predicate Shows(o: OrderData, status: WsOrder)
    requires Full(status)
  {
    && o.status == status.status
    && o.observed == Some(status.timestamp)
    && o.limitPrice == status.limitPx.value
    && o.original == status.origSz.value
    && o.remaining == (if IsCanceledStatus(status.status) then 0.0 else status.sz.value)
    && (status.origSz.value > 0.0 ==> o.filled == Max(0.0, status.origSz.value - status.sz.value))
    && (status.coin != "" ==> o.coin == status.coin)
    && (status.side != "" ==> o.side == status.side)
  }

  /** Full statuses with distinct times, applied in whatever order they arrive, leave the order
      showing the newest of them. */
  lemma {:induction false} ConvergesToNewest(o: OrderData, statuses: seq<WsOrder>)
    requires o.observed.None? && statuses != [] && FullAndDistinct(statuses)
    ensures Full(Newest(statuses)) && Shows(ApplyAll(o, statuses), Newest(statuses))
    decreases |statuses|
  {
    var n := |statuses| - 1;
    if n > 0 {
      assert FullAndDistinct(statuses[..n]);
      ConvergesToNewest(o, statuses[..n]);
    } else {
      assert statuses[..0] == [];
    }
  }

  lemma SameNewest(a: seq<WsOrder>, b: seq<WsOrder>)
    requires a != [] && FullAndDistinct(a) && multiset(a) == multiset(b)
    ensures b != [] && FullAndDistinct(b) && Newest(b) == Newest(a)
  {
    assert |multiset(a)| == |a| && |multiset(b)| == |b|;
    PermutedIsDistinct(a, b);
    NewestIsNewest(a);
    NewestIsNewest(b);
    assert forall x :: x in a <==> x in multiset(a);
    assert forall x :: x in b <==> x in multiset(b);
    var i :| 0 <= i < |b| && b[i] == Newest(b);
    var j :| 0 <= j < |b| && b[j] == Newest(a);
    var k :| 0 <= k < |a| && a[k] == Newest(b);
  }

  lemma PermutedIsDistinct(a: seq<WsOrder>, b: seq<WsOrder>)
    requires FullAndDistinct(a) && multiset(a) == multiset(b)
    ensures FullAndDistinct(b)
  {
    forall i | 0 <= i < |b| ensures Full(b[i]) {
      assert b[i] in multiset(b);
      assert b[i] in a;
    }
    forall i, j | 0 <= i < j < |b| ensures b[i].timestamp != b[j].timestamp {
      if b[i].timestamp == b[j].timestamp {
        assert b[i] in multiset(b) && b[j] in multiset(b);
        var k :| 0 <= k < |a| && a[k] == b[i];
        var m :| 0 <= m < |a| && a[m] == b[j];
        assert k == m;
        TwiceCounts(b, i, j);
        OnceCounts(a, k);
      }
    }
  }

  lemma TwiceCounts(b: seq<WsOrder>, i: nat, j: nat)
    requires i < j < |b| && b[i] == b[j]
    ensures multiset(b)[b[i]] >= 2
  {
    assert b == b[..j] + b[j..];
    assert b[..j][i] in multiset(b[..j]);
    assert b[j..][0] in multiset(b[j..]);
  }

  lemma OnceCounts(a: seq<WsOrder>, k: nat)
    requires FullAndDistinct(a) && k < |a|
    ensures multiset(a)[a[k]] == 1
  {
    assert a == a[..k] + [a[k]] + a[k + 1..];
    assert a[k] !in a[..k] && a[k] !in a[k + 1..];
    assert a[k] !in multiset(a[..k]) && a[k] !in multiset(a[k + 1..]);
  }

  /** The same statuses in any other order of arrival show the same order. */
  lemma ArrivalOrderDoesNotMatter(o: OrderData, a: seq<WsOrder>, b: seq<WsOrder>)
    requires o.observed.None? && a != [] && FullAndDistinct(a) && multiset(a) == multiset(b)
    ensures b != [] && FullAndDistinct(b) && Newest(b) == Newest(a)
    ensures Full(Newest(a)) && Shows(ApplyAll(o, a), Newest(a)) && Shows(ApplyAll(o, b), Newest(a))
  {
    SameNewest(a, b);
    ConvergesToNewest(o, a);
    ConvergesToNewest(o, b);
  }

  lemma OlderIsIgnored(o: OrderData, status: WsOrder)
    requires o.observed.Some? && 0 < status.timestamp < o.observed.value
    ensures ApplyStatus(o, status) == o
  {
  }

  lemma NewestOfPrefix(statuses: seq<WsOrder>, m: nat)
    requires m < |statuses| - 1 && FullAndDistinct(statuses) && statuses[m] == Newest(statuses)
    ensures var earlier := statuses[..|statuses| - 1]; FullAndDistinct(earlier) && Newest(earlier) == statuses[m]
    ensures statuses[|statuses| - 1].timestamp < statuses[m].timestamp
  {
    var earlier := statuses[..|statuses| - 1];
    NewestIsNewest(statuses);
    NewestIsNewest(earlier);
    var k :| 0 <= k < |earlier| && earlier[k] == Newest(earlier);
    assert earlier[m].timestamp <= Newest(earlier).timestamp;
    assert statuses[k].timestamp <= statuses[m].timestamp;
    assert k == m;
  }

  /** Once the newest status is in, nothing that follows is accepted. */
  lemma {:induction false} NewestSettles(o: OrderData, statuses: seq<WsOrder>, m: nat)
    requires o.observed.None? && m < |statuses| && FullAndDistinct(statuses) && statuses[m] == Newest(statuses)
    ensures ApplyAll(o, statuses) == ApplyAll(o, statuses[..m + 1])
    decreases |statuses|
  {
    var n := |statuses| - 1;
    if m == n {
      assert statuses[..m + 1] == statuses;
    } else {
      var earlier := statuses[..n];
      NewestOfPrefix(statuses, m);
      NewestSettles(o, earlier, m);
      ConvergesToNewest(o, earlier);
      OlderIsIgnored(ApplyAll(o, earlier), statuses[n]);
      assert statuses[..m + 1] == earlier[..m + 1];
    }
  }

  lemma MoveToFront(statuses: seq<WsOrder>, i: nat) returns (moved: seq<WsOrder>)
    requires i < |statuses|
    ensures multiset(moved) == multiset(statuses) && |moved| == |statuses|
    ensures moved[0] == statuses[i] && (i > 0 ==> moved[1] == statuses[0])
  {
    assert statuses == statuses[..i] + [statuses[i]] + statuses[i + 1..];
    moved := [statuses[i]] + statuses[..i] + statuses[i + 1..];
  }

  /** No status shows any fill. */
  predicate NothingFilled(statuses: seq<WsOrder>) {
    forall s :: s in statuses && s.origSz.Some? && s.sz.Some? && s.origSz.value > 0.0 ==> s.sz.value >= s.origSz.value
  }

  lemma {:induction false} NothingFilledStaysEmpty(statuses: seq<WsOrder>)
    requires FullAndDistinct(statuses) && NothingFilled(statuses)
    ensures ApplyAll(Untracked, statuses).filled == 0.0
    decreases |statuses|
  {
    if statuses != [] {
      var n := |statuses| - 1;
      assert FullAndDistinct(statuses[..n]) && NothingFilled(statuses[..n]);
      NothingFilledStaysEmpty(statuses[..n]);
      assert statuses[n] in statuses;
    }
  }

  ghost predicate FilledIgnoresArrivalOrder(statuses: seq<WsOrder>) {
    forall p :: multiset(p) == multiset(statuses) ==>
      ApplyAll(Untracked, p).filled == ApplyAll(Untracked, statuses).filled
  }

  /** Any older status can be made to arrive just before the newest, or after it and be lost. */
  lemma TwoArrivals(statuses: seq<WsOrder>, i: nat) returns (late: seq<WsOrder>, early: seq<WsOrder>)
    requires i < |statuses| && FullAndDistinct(statuses) && statuses[i] != Newest(statuses)
    ensures multiset(late) == multiset(statuses) == multiset(early)
    ensures ApplyAll(Untracked, late) == ApplyStatus(Untracked, Newest(statuses))
    ensures ApplyAll(Untracked, early) == ApplyStatus(ApplyStatus(Untracked, statuses[i]), Newest(statuses))
  {
    hide ApplyStatus;
    NewestIsNewest(statuses);
    var m :| 0 <= m < |statuses| && statuses[m] == Newest(statuses);
    late := MoveToFront(statuses, m);
    SameNewest(statuses, late);
    FirstOnly(late);
    var j := WhereIs(statuses, late, i);
    early := MoveToFront(late, j);
    SameNewest(late, early);
    FirstTwoOnly(early);
  }

  lemma FirstOnly(late: seq<WsOrder>)
    requires late != [] && FullAndDistinct(late) && late[0] == Newest(late)
    ensures ApplyAll(Untracked, late) == ApplyStatus(Untracked, late[0])
  {
    hide ApplyStatus, Newest;
    NewestSettles(Untracked, late, 0);
    assert late[..1][..0] == [];
  }

  lemma FirstTwoOnly(early: seq<WsOrder>)
    requires |early| >= 2 && FullAndDistinct(early) && early[1] == Newest(early)
    ensures ApplyAll(Untracked, early) == ApplyStatus(ApplyStatus(Untracked, early[0]), early[1])
  {
    hide ApplyStatus, Newest;
    NewestSettles(Untracked, early, 1);
    var two, one := early[..2], early[..1];
    assert two[..1] == one && one[..0] == [];
    assert ApplyAll(Untracked, one) == ApplyStatus(Untracked, early[0]);
    assert ApplyAll(Untracked, two) == ApplyStatus(ApplyAll(Untracked, one), early[1]);
  }

  /** When the newest status has no size and an older one shows a fill, the fill sticks or not
      depending on which arrives first. */
  lemma StaleFillDependsOnArrival(statuses: seq<WsOrder>, i: nat)
    requires i < |statuses| && FullAndDistinct(statuses)
    requires Newest(statuses).origSz.Some? && Newest(statuses).origSz.value <= 0.0
    requires statuses[i].origSz.value > 0.0 && statuses[i].sz.value < statuses[i].origSz.value
    ensures !FilledIgnoresArrivalOrder(statuses)
  {
    NewestIsNewest(statuses);
    var late, early := TwoArrivals(statuses, i);
    assert statuses[i].timestamp <= Newest(statuses).timestamp;
    hide ApplyAll, Newest, IsCanceledStatus, FullAndDistinct;
    Disagree(statuses, late, early);
  }

  lemma WhereIs(a: seq<WsOrder>, b: seq<WsOrder>, i: nat) returns (j: nat)
    requires i < |a| && multiset(a) == multiset(b)
    ensures j < |b| && b[j] == a[i]
  {
    assert a[i] in multiset(a);
    assert a[i] in b;
    j :| 0 <= j < |b| && b[j] == a[i];
  }

  lemma Disagree(statuses: seq<WsOrder>, a: seq<WsOrder>, b: seq<WsOrder>)
    requires multiset(a) == multiset(statuses) && multiset(b) == multiset(statuses)
    requires ApplyAll(Untracked, a).filled != ApplyAll(Untracked, b).filled
    ensures !FilledIgnoresArrivalOrder(statuses)
  {
  }

  /** The filled quantity of a fresh order is independent of the order of arrival exactly when
      the newest status gives a size, or no status shows a fill. */
  lemma FilledConvergesExactlyWhen(statuses: seq<WsOrder>)
    requires statuses != [] && FullAndDistinct(statuses)
    ensures FilledIgnoresArrivalOrder(statuses) <==>
            OrElse(Newest(statuses).origSz, 0.0) > 0.0 || NothingFilled(statuses)
  {
    NewestIsNewest(statuses);
    if OrElse(Newest(statuses).origSz, 0.0) > 0.0 {
      forall p | multiset(p) == multiset(statuses)
        ensures ApplyAll(Untracked, p).filled == ApplyAll(Untracked, statuses).filled
      {
        ArrivalOrderDoesNotMatter(Untracked, statuses, p);
      }
    } else if NothingFilled(statuses) {
      forall p | multiset(p) == multiset(statuses)
        ensures ApplyAll(Untracked, p).filled == ApplyAll(Untracked, statuses).filled
      {
        PermutedIsDistinct(statuses, p);
        assert forall x :: x in p ==> x in multiset(statuses);
        NothingFilledStaysEmpty(p);
        NothingFilledStaysEmpty(statuses);
      }
    } else {
      var s :| s in statuses && s.origSz.Some? && s.sz.Some? && s.origSz.value > 0.0 && s.sz.value < s.origSz.value;
      var i :| 0 <= i < |statuses| && statuses[i] == s;
      StaleFillDependsOnArrival(statuses, i);
    }
  }

  // The coin and the side, the two texts a status may leave out.

  function SentText(status: WsOrder, coin: bool): string { if coin then status.coin else status.side }

  function ShownText(o: OrderData, coin: bool): string { if coin then o.coin else o.side }

  ghost predicate TextIgnoresArrivalOrder(statuses: seq<WsOrder>, coin: bool) {
    forall p :: multiset(p) == multiset(statuses) ==>
      ShownText(ApplyAll(Untracked, p), coin) == ShownText(ApplyAll(Untracked, statuses), coin)
  }

  predicate NeverSent(statuses: seq<WsOrder>, coin: bool) {
    forall s :: s in statuses ==> SentText(s, coin) == ""
  }

  lemma {:induction false} NeverSentStaysEmpty(statuses: seq<WsOrder>, coin: bool)
    requires NeverSent(statuses, coin)
    ensures ShownText(ApplyAll(Untracked, statuses), coin) == ""
    decreases |statuses|
  {
    hide IsCanceledStatus;
    if statuses != [] {
      var n := |statuses| - 1;
      assert NeverSent(statuses[..n], coin);
      NeverSentStaysEmpty(statuses[..n], coin);
      assert statuses[n] in statuses;
    }
  }

  /** The coin, and likewise the side, of a fresh order is independent of the order of arrival
      exactly when the newest status sends one, or no status does. */
  lemma TextConvergesExactlyWhen(statuses: seq<WsOrder>, coin: bool)
    requires statuses != [] && FullAndDistinct(statuses)
    ensures TextIgnoresArrivalOrder(statuses, coin) <==>
            SentText(Newest(statuses), coin) != "" || NeverSent(statuses, coin)
  {
    NewestIsNewest(statuses);
    if SentText(Newest(statuses), coin) != "" {
      forall p | multiset(p) == multiset(statuses)
        ensures ShownText(ApplyAll(Untracked, p), coin) == ShownText(ApplyAll(Untracked, statuses), coin)
      {
        ArrivalOrderDoesNotMatter(Untracked, statuses, p);
      }
    } else if NeverSent(statuses, coin) {
      forall p | multiset(p) == multiset(statuses)
        ensures ShownText(ApplyAll(Untracked, p), coin) == ShownText(ApplyAll(Untracked, statuses), coin)
      {
        assert forall x :: x in p ==> x in multiset(statuses);
        NeverSentStaysEmpty(p, coin);
        NeverSentStaysEmpty(statuses, coin);
      }
    } else {
      var s :| s in statuses && SentText(s, coin) != "";
      var i :| 0 <= i < |statuses| && statuses[i] == s;
      var late, early := TwoArrivals(statuses, i);
      hide ApplyAll, Newest, IsCanceledStatus;
      assert ShownText(ApplyAll(Untracked, late), coin) == "" != ShownText(ApplyAll(Untracked, early), coin);
    }
  }
}
