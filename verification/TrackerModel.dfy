/** The fill tracker as a value, and what each of its operations does to it. The clock, the
    stored bot event and the stored submissions are parameters. */
module TrackerModel {
  import opened Adapter
  import opened OrderIds
  import opened Targeting
  import opened TrackerDeals
  import opened Wrappers
  import O = TrackerOrders

  datatype Tracker = Tracker(orders: Orders, updated: map<int, int>, required: bool, hydrated: bool, epoch: nat)

  const Empty := Tracker(map[], map[], false, false, 0)

  function DealOrders(orders: Orders, deal: int): Orders {
    map id | id in orders && id.order.dealID == deal :: orders[id]
  }

  /** The order as tracked, or a fresh one; a fresh one counts as hydrated unless hydration is
      still awaited. */
  function Ensured(t: Tracker, ident: Ident): O.OrderData {
    if ident in t.orders then t.orders[ident] else Fresh(t.required, t.hydrated, t.epoch)
  }

  function Fresh(required: bool, hydrated: bool, epoch: nat): O.OrderData {
    O.Untracked.(hydratedEpoch := if !required || hydrated || epoch == 0 then epoch else 0)
  }

  function File(t: Tracker, ident: Ident, o: O.OrderData, now: int): Tracker {
    t.(orders := t.orders[ident := o], updated := t.updated[ident.order.dealID as int := now])
  }

  predicate Awaiting(t: Tracker) { t.required && !t.hydrated && t.epoch != 0 }

  predicate AllHydrated(orders: Orders, epoch: nat) {
    forall id :: id in orders && orders[id].reduceOnly ==> orders[id].hydratedEpoch == epoch
  }

  function Hydrated(awaiting: bool, epoch: nat, o: O.OrderData): O.OrderData {
    if awaiting && o.reduceOnly then o.(hydratedEpoch := epoch) else o
  }

  function WithEvent(o: O.OrderData, event: Option<BotEvent>): O.OrderData {
    if event.Some? then O.ApplyEvent(o, event.value) else o
  }

  function WithStatus(o: O.OrderData, event: Option<BotEvent>, status: O.WsOrder): O.OrderData {
    O.ApplyStatus(WithEvent(o, event), status)
  }

  function UpdateStatus(t: Tracker, ident: Ident, event: Option<BotEvent>, status: O.WsOrder, now: int): Tracker {
    var o := Hydrated(Awaiting(t), t.epoch, WithStatus(Ensured(t, ident), event, status));
    var filed := File(t, ident, o, now);
    filed.(hydrated := t.hydrated || (Awaiting(t) && AllHydrated(filed.orders, t.epoch)))
  }

  function ApplyScaledOrder(t: Tracker, ident: Ident, size: real, price: real, now: int): Tracker {
    if size <= 0.0 && price <= 0.0 then t else File(t, ident, O.ApplyScaled(Ensured(t, ident), size, price), now)
  }

  function MarkOrderCancelled(t: Tracker, ident: Ident, now: int): Tracker {
    if ident !in t.orders then t else File(t, ident, O.MarkCancelled(t.orders[ident], now), now)
  }

  predicate Stale(t: Tracker, staleAfter: int, now: int, deal: int)
    requires deal in t.updated
  {
    && now - t.updated[deal] >= staleAfter
    && forall id :: id in t.orders && id.order.dealID == deal ==> !O.IsActiveOrder(t.orders[id])
  }

  function CleanupStaleDeals(t: Tracker, staleAfter: int, now: int): Tracker {
    t.(orders := map id
         | id in t.orders && !(id.order.dealID in t.updated && Stale(t, staleAfter, now, id.order.dealID))
         :: t.orders[id],
       updated := map d | d in t.updated && !Stale(t, staleAfter, now, d) :: t.updated[d])
  }

  function CloseIfOpen(o: O.OrderData, now: int): O.OrderData {
    if O.IsBuy(o) && O.IsActiveOrder(o) then O.MarkCancelled(o, now) else o
  }

  function CloseOpenOrdersForDeal(t: Tracker, deal: int, now: int): Tracker {
    if deal !in t.updated then t
    else
      t.(orders := map id | id in t.orders ::
           if id.order.dealID == deal then CloseIfOpen(t.orders[id], now) else t.orders[id],
         updated := t.updated[deal := now])
  }

  function Reloaded(o: O.OrderData, event: Option<BotEvent>, status: Option<O.WsOrder>, scaledSize: real): O.OrderData {
    var known := WithEvent(o, event);
    O.ApplyScaledSize(if status.Some? then O.ApplyStatus(known, status.value) else O.InferFromEvent(known), scaledSize)
  }

  function ReloadOrder(t: Tracker, ident: Ident, event: Option<BotEvent>, status: Option<O.WsOrder>, scaledSize: real,
                       now: int): Tracker
  {
    File(t, ident, Reloaded(Ensured(t, ident), event, status, scaledSize), now)
  }

  function RequireStatusHydration(t: Tracker): Tracker { t.(required := true, hydrated := false, epoch := t.epoch + 1) }

  function MarkStatusesHydrated(t: Tracker): Tracker { t.(hydrated := true) }

  // ---------- runs ----------

  datatype Op =
    | OpUpdateStatus(ident: Ident, event: Option<BotEvent>, status: O.WsOrder)
    | OpApplyScaledOrder(ident: Ident, size: real, price: real)
    | OpMarkCancelled(ident: Ident)
    | OpCleanup(staleAfter: int)
    | OpCloseDeal(deal: int)
    | OpReload(ident: Ident, event: Option<BotEvent>, stored: Option<O.WsOrder>, scaledSize: real)
    | OpRequireHydration
    | OpMarkHydrated

  function Apply(t: Tracker, op: Op, now: int): Tracker {
    match op
    case OpUpdateStatus(ident, event, status) => UpdateStatus(t, ident, event, status, now)
    case OpApplyScaledOrder(ident, size, price) => ApplyScaledOrder(t, ident, size, price, now)
    case OpMarkCancelled(ident) => MarkOrderCancelled(t, ident, now)
    case OpCleanup(staleAfter) => CleanupStaleDeals(t, staleAfter, now)
    case OpCloseDeal(deal) => CloseOpenOrdersForDeal(t, deal, now)
    case OpReload(ident, event, stored, scaledSize) => ReloadOrder(t, ident, event, stored, scaledSize, now)
    case OpRequireHydration => RequireStatusHydration(t)
    case OpMarkHydrated => MarkStatusesHydrated(t)
  }

  function Run(ops: seq<(Op, int)>): Tracker
    decreases |ops|
  {
    if ops == [] then Empty
    else Apply(Run(ops[..|ops| - 1]), ops[|ops| - 1].0, ops[|ops| - 1].1)
  }

  /** A take-profit can only have been recognised by its bot event. */
  predicate ReduceOnlyHasEvent(o: O.OrderData) { o.reduceOnly ==> o.event.Some? }

  ghost predicate Recorded(t: Tracker) {
    forall id :: id in t.orders ==> ReduceOnlyHasEvent(t.orders[id]) && id.order.dealID in t.updated
  }

  lemma ApplyKeepsRecorded(t: Tracker, op: Op, now: int)
    requires Recorded(t)
    ensures Recorded(Apply(t, op, now))
  {
    match op
    case OpUpdateStatus(_, _, _) =>
    case OpApplyScaledOrder(_, _, _) =>
    case OpMarkCancelled(_) =>
    case OpCleanup(_) =>
    case OpCloseDeal(_) =>
    case OpReload(_, _, _, _) =>
    case OpRequireHydration =>
    case OpMarkHydrated =>
  }

  /** In every reachable state a reduce-only order has its bot event on record and every order
      belongs to a tracked deal. */
  lemma {:induction false} RunKeepsRecorded(ops: seq<(Op, int)>)
    ensures Recorded(Run(ops))
    decreases |ops|
  {
    if ops != [] {
      RunKeepsRecorded(ops[..|ops| - 1]);
      ApplyKeepsRecorded(Run(ops[..|ops| - 1]), ops[|ops| - 1].0, ops[|ops| - 1].1);
    }
  }

  ghost predicate AllInBounds(t: Tracker) {
    forall id :: id in t.orders ==> O.InBounds(t.orders[id])
  }

  /** Statuses are well formed, and only untracked orders are reloaded. */
  predicate Sensible(t: Tracker, op: Op) {
    match op
    case OpUpdateStatus(_, _, status) => O.WellFormed(status)
    case OpReload(ident, _, stored, _) => ident !in t.orders && (stored.Some? ==> O.WellFormed(stored.value))
    case _ => true
  }

  predicate SensibleRun(ops: seq<(Op, int)>)
    decreases |ops|
  {
    ops == [] || (SensibleRun(ops[..|ops| - 1]) && Sensible(Run(ops[..|ops| - 1]), ops[|ops| - 1].0))
  }

  lemma FileKeepsBounds(t: Tracker, ident: Ident, o: O.OrderData, now: int)
    requires AllInBounds(t) && O.InBounds(o)
    ensures AllInBounds(File(t, ident, o, now))
  {
  }

  lemma UpdateKeepsBounds(t: Tracker, ident: Ident, event: Option<BotEvent>, status: O.WsOrder, now: int)
    requires AllInBounds(t) && O.WellFormed(status)
    ensures AllInBounds(UpdateStatus(t, ident, event, status, now))
  {
    var o := Ensured(t, ident);
    if event.Some? {
      O.LocalChangesKeepBounds(o, event.value, 0.0, 0.0, now);
    }
    O.WellFormedStatusKeepsBounds(WithEvent(o, event), status);
    FileKeepsBounds(t, ident, Hydrated(Awaiting(t), t.epoch, WithStatus(o, event, status)), now);
  }

  lemma ReloadKeepsBounds(t: Tracker, ident: Ident, event: Option<BotEvent>, status: Option<O.WsOrder>,
                          scaledSize: real, now: int)
    requires AllInBounds(t) && ident !in t.orders && (status.Some? ==> O.WellFormed(status.value))
    ensures AllInBounds(ReloadOrder(t, ident, event, status, scaledSize, now))
  {
    var o := Ensured(t, ident);
    var known := WithEvent(o, event);
    assert O.InBounds(known) && known.filled == 0.0;
    if status.Some? {
      O.WellFormedStatusKeepsBounds(known, status.value);
    } else {
      O.InferKeepsBoundsExactlyWhen(known);
    }
  }

  lemma ApplyKeepsBounds(t: Tracker, op: Op, now: int)
    requires AllInBounds(t) && Sensible(t, op)
    ensures AllInBounds(Apply(t, op, now))
  {
    match op
    case OpUpdateStatus(ident, event, status) => UpdateKeepsBounds(t, ident, event, status, now);
    case OpApplyScaledOrder(ident, size, price) =>
    case OpMarkCancelled(ident) =>
    case OpCleanup(_) =>
    case OpCloseDeal(_) =>
    case OpReload(ident, event, status, scaledSize) => ReloadKeepsBounds(t, ident, event, status, scaledSize, now);
    case OpRequireHydration =>
    case OpMarkHydrated =>
  }

  /** Over every sensible run, 0 <= filled, 0 <= remaining and filled + remaining <= original. */
  lemma {:induction false} RunKeepsBounds(ops: seq<(Op, int)>)
    requires SensibleRun(ops)
    ensures AllInBounds(Run(ops))
    decreases |ops|
  {
    if ops != [] {
      RunKeepsBounds(ops[..|ops| - 1]);
      ApplyKeepsBounds(Run(ops[..|ops| - 1]), ops[|ops| - 1].0, ops[|ops| - 1].1);
    }
  }

  /** A filled order reloaded from its bot event alone counts its fill twice: the whole size is
      both filled and remaining. */
  lemma ReloadForgetsTheFill(ident: Ident, event: BotEvent, status: O.WsOrder, size: real, now: int)
    requires size > 0.0 && status.origSz == Some(size) && status.sz == Some(0.0) && !O.IsCanceledStatus(status.status)
    ensures var t := Run([(OpUpdateStatus(ident, Some(event), status), now),
                          (OpReload(ident, Some(event), None, 0.0), now)]);
            && !AllInBounds(t) && ident in t.orders && t.orders[ident].original == size
            && t.orders[ident].filled == size && t.orders[ident].remaining == size
  {
    var first := (OpUpdateStatus(ident, Some(event), status), now);
    var second := (OpReload(ident, Some(event), None, 0.0), now);
    var none: seq<(Op, int)> := [];
    assert [first, second][..1] == [first] && [first][..0] == none;
    assert Run([first]) == UpdateStatus(Empty, ident, Some(event), status, now);
    hide O.IsCanceledStatus;
    var t := UpdateStatus(Empty, ident, Some(event), status, now);
    assert t.orders[ident].filled == size && t.orders[ident].remaining == 0.0 && t.orders[ident].original == size;
    assert Run([first, second]) == ReloadOrder(t, ident, Some(event), None, 0.0, now);
  }

  function RunFrom(t: Tracker, ops: seq<(Op, int)>): Tracker
    decreases |ops|
  {
    if ops == [] then t
    else Apply(RunFrom(t, ops[..|ops| - 1]), ops[|ops| - 1].0, ops[|ops| - 1].1)
  }

  /** Anything that neither declares hydration over or due again, nor brings a status for the
      order, nor forgets the order. */
  predicate LeavesUnrefreshed(t: Tracker, op: Op, now: int, ident: Ident) {
    match op
    case OpUpdateStatus(id, _, _) => id != ident
    case OpCleanup(staleAfter) => ident in CleanupStaleDeals(t, staleAfter, now).orders
    case OpRequireHydration => false
    case OpMarkHydrated => false
    case _ => true
  }

  predicate LeftUnrefreshed(t: Tracker, ops: seq<(Op, int)>, ident: Ident)
    decreases |ops|
  {
    || ops == []
    || (var n := |ops| - 1;
        LeftUnrefreshed(t, ops[..n], ident) && LeavesUnrefreshed(RunFrom(t, ops[..n]), ops[n].0, ops[n].1, ident))
  }

  ghost predicate Unrefreshed(t: Tracker, ident: Ident) {
    && Awaiting(t) && ident in t.orders
    && t.orders[ident].reduceOnly && t.orders[ident].hydratedEpoch != t.epoch
  }

  lemma ApplyLeavesUnrefreshed(t: Tracker, op: Op, now: int, ident: Ident)
    requires Unrefreshed(t, ident) && LeavesUnrefreshed(t, op, now, ident)
    ensures Unrefreshed(Apply(t, op, now), ident)
  {
    match op
    case OpUpdateStatus(id, event, status) =>
      var o := Hydrated(Awaiting(t), t.epoch, WithStatus(Ensured(t, id), event, status));
      assert File(t, id, o, now).orders[ident] == t.orders[ident];
    case OpApplyScaledOrder(_, _, _) =>
    case OpMarkCancelled(_) =>
    case OpCleanup(_) =>
    case OpCloseDeal(_) =>
    case OpReload(_, _, _, _) =>
  }

  /** The hydration gate stays closed as long as one reduce-only order tracked when hydration
      became due stays tracked and has had no status of its own, whatever else happens: statuses
      for other orders, cleanups of other deals, reloads, cancellations. */
  lemma {:induction false} GateWaitsForEveryReduceOnly(t: Tracker, ops: seq<(Op, int)>, ident: Ident)
    requires Unrefreshed(t, ident) && LeftUnrefreshed(t, ops, ident)
    ensures !RunFrom(t, ops).hydrated && Unrefreshed(RunFrom(t, ops), ident)
    decreases |ops|
  {
    if ops != [] {
      var n := |ops| - 1;
      GateWaitsForEveryReduceOnly(t, ops[..n], ident);
      ApplyLeavesUnrefreshed(RunFrom(t, ops[..n]), ops[n].0, ops[n].1, ident);
    }
  }

  datatype Refresh = Refresh(ident: Ident, event: Option<BotEvent>, status: O.WsOrder, now: int)

  function RefreshAll(t: Tracker, refreshes: seq<Refresh>): Tracker
    decreases |refreshes|
  {
    if refreshes == [] then t
    else
      var r := refreshes[0];
      RefreshAll(UpdateStatus(t, r.ident, r.event, r.status, r.now), refreshes[1..])
  }

  ghost predicate Covers(refreshes: seq<Refresh>, t: Tracker) {
    forall id :: id in t.orders && t.orders[id].reduceOnly && t.orders[id].hydratedEpoch != t.epoch ==>
      exists i :: 0 <= i < |refreshes| && refreshes[i].ident == id
  }

  lemma {:induction false} OpenGateStaysOpen(t: Tracker, refreshes: seq<Refresh>)
    requires t.hydrated
    ensures RefreshAll(t, refreshes).hydrated
    decreases |refreshes|
  {
    if refreshes != [] {
      var r := refreshes[0];
      OpenGateStaysOpen(UpdateStatus(t, r.ident, r.event, r.status, r.now), refreshes[1..]);
    }
  }

  /** Conversely, statuses for all the reduce-only orders still waiting, in any order and mixed
      with any others, open the gate. */
  lemma {:induction false} GateOpensOnceCovered(t: Tracker, refreshes: seq<Refresh>)
    requires Awaiting(t) && refreshes != [] && Covers(refreshes, t)
    ensures RefreshAll(t, refreshes).hydrated
    decreases |refreshes|
  {
    var r, rest := refreshes[0], refreshes[1..];
    var next := UpdateStatus(t, r.ident, r.event, r.status, r.now);
    if next.hydrated {
      OpenGateStaysOpen(next, rest);
    } else {
      forall id | id in next.orders && next.orders[id].reduceOnly && next.orders[id].hydratedEpoch != next.epoch
        ensures exists i :: 0 <= i < |rest| && rest[i].ident == id
      {
        assert id != r.ident && next.orders[id] == t.orders[id];
        var i :| 0 <= i < |refreshes| && refreshes[i].ident == id;
        assert rest[i - 1].ident == id;
      }
      assert rest != [];
      GateOpensOnceCovered(next, rest);
    }
  }
}
