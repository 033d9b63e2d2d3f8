/** Mirroring over whole schedules: however the history is cut into runs and however venues are
    added between them, each venue ends up holding what the latest snapshot asks for. */
module MirroringRuns {
  import opened Adapter
  import opened Mirroring
  import opened OrderIds
  import opened Targeting
  import opened Wrappers

  // ---------- what the venues hold ----------

  datatype VenueOrder = Resting(order: OrderRequest) | Withdrawn

  type Book = map<Ident, VenueOrder>

  /** A second create is refused, and only a resting order can be modified or cancelled. */
  function Perform(order: Option<VenueOrder>, action: Action): Option<VenueOrder> {
    match action
    case NoAction(_) => order
    case Create(request) => if order.None? then Some(Resting(request)) else order
    case Modify(request) => if order.Some? && order.value.Resting? then Some(Resting(request)) else order
    case Cancel(_, _) => if order.Some? && order.value.Resting? then Some(Withdrawn) else order
  }

  function PerformAll(order: Option<VenueOrder>, actions: seq<Action>): Option<VenueOrder>
    decreases |actions|
  {
    if actions == [] then order else PerformAll(Perform(order, actions[0]), actions[1..])
  }

  function Held(book: Book, id: Ident): Option<VenueOrder> { if id in book then Some(book[id]) else None }

  function TargetsOf(plan: seq<Emission>): set<Ident>
    decreases |plan|
  {
    if plan == [] then {} else (set id | id in plan[0].targets) + TargetsOf(plan[1..])
  }

  function AfterPlan(book: Book, plan: seq<Emission>): Book {
    map id | id in book.Keys + TargetsOf(plan) && PerformAll(Held(book, id), ActionsFor(plan, id)).Some? ::
      PerformAll(Held(book, id), ActionsFor(plan, id)).value
  }

  lemma {:induction false} UntargetedHasNoActions(plan: seq<Emission>, id: Ident)
    requires id !in TargetsOf(plan)
    ensures ActionsFor(plan, id) == []
    decreases |plan|
  {
    if plan != [] {
      UntargetedHasNoActions(plan[1..], id);
    }
  }

  lemma AfterPlanHolds(book: Book, plan: seq<Emission>, id: Ident)
    ensures Held(AfterPlan(book, plan), id) == PerformAll(Held(book, id), ActionsFor(plan, id))
  {
    if id !in TargetsOf(plan) {
      UntargetedHasNoActions(plan, id);
    }
  }

  // ---------- schedules ----------

  predicate Terminal(status: Status) { status == Cancelled || status == Filled || status == Finished }

  predicate Distinguishable(x: real, y: real) { x == y || !AlmostEqual(x, y) }

  /** Active snapshots, whose prices and sizes are equal or differ noticeably, and then repeats of
      one terminal snapshot; not a take-profit. */
  ghost predicate Mirrorable(events: seq<BotEvent>, active: nat) {
    && 1 <= active <= |events|
    && (forall i :: 0 <= i < |events| ==> events[i].orderType != TakeProfit)
    && (forall i :: 0 <= i < active ==> events[i].status == Active)
    && (forall i :: active <= i < |events| ==> Terminal(events[i].status))
    && (forall i, j :: active <= i < |events| && active <= j < |events| ==> SameSnapshot(events[i], events[j]))
    && (forall i, j :: 0 <= i < active && 0 <= j < active ==>
          Distinguishable(events[i].price, events[j].price) && Distinguishable(events[i].size, events[j].size))
  }

  datatype Run = Run(seen: nat, ctx: Context)

  ghost function BookAfter(currency: string, oid: OrderId, events: seq<BotEvent>, runs: seq<Run>): Book
    requires forall i :: 0 <= i < |runs| ==> runs[i].seen <= |events|
    decreases |runs|
  {
    if runs == [] then map[]
    else
      var last := runs[|runs| - 1];
      AfterPlan(BookAfter(currency, oid, events, runs[..|runs| - 1]),
                Plan(currency, oid, events[..last.seen], last.ctx))
  }

  function AssignedBy(oid: OrderId, runs: seq<Run>): set<Ident> {
    if runs == [] then {} else AssignedIdents(oid, runs[|runs| - 1].ctx.assignments)
  }

  function SeenBy(runs: seq<Run>): nat { if runs == [] then 0 else runs[|runs| - 1].seen }

  /** Each run sees at least the history and the venues the run before it saw, and the store lists
      the submissions made so far. */
  ghost predicate WellScheduled(currency: string, oid: OrderId, events: seq<BotEvent>, runs: seq<Run>)
    decreases |runs|
  {
    && (forall i :: 0 <= i < |runs| ==> 1 <= runs[i].seen <= |events|)
    && (runs != [] ==>
          var earlier, last := runs[..|runs| - 1], runs[|runs| - 1];
          && WellScheduled(currency, oid, events, earlier)
          && SeenBy(earlier) <= last.seen
          && Fits(oid, BookAfter(currency, oid, events, earlier), AssignedBy(oid, earlier), last.ctx))
  }

  ghost predicate Fits(oid: OrderId, book: Book, assignedBefore: set<Ident>, ctx: Context) {
    && ctx.assignments != [] && WellAssigned(ctx.assignments)
    && assignedBefore <= AssignedIdents(oid, ctx.assignments)
    && Elements(ctx.listed) == book.Keys && |ctx.listed| == |book.Keys|
  }

  /** What the venues hold after seeing the first n snapshots. */
  ghost predicate Synced(currency: string, oid: OrderId, events: seq<BotEvent>, n: nat, homes: set<Ident>, book: Book)
    requires n <= |events|
  {
    if n == 0 then book == map[]
    else
      var latest := events[n - 1];
      && book.Keys <= homes
      && (latest.status == Active ==>
            && book.Keys == homes
            && forall id :: id in book ==> book[id] == Resting(ToCreateOrderRequest(currency, latest, oid)))
      && (latest.status == Cancelled ==> forall id :: id in book ==> book[id] == Withdrawn)
  }

  // ---------- one run ----------

  /** The history as one run sees it: either all active, with the previous distinct snapshot (if
      there is one) noticeably different, or at its end, with the previous one active. */
  lemma PreviousIs(events: seq<BotEvent>, active: nat, n: nat)
    requires Mirrorable(events, active) && 1 <= n <= |events|
    ensures var latest := events[n - 1];
            var previous := PreviousDistinct(events[..n]);
            && (latest.status == Active ==>
                  && n <= active
                  && (previous.None? ==> forall i :: 0 <= i < n ==> SameSnapshot(events[i], latest))
                  && (previous.Some? ==> previous.value.status == Active && NeedsModify(previous.value, latest)))
            && (latest.status != Active ==> n > active && previous.Some? && previous.value.status == Active)
  {
    var h := events[..n];
    LastDistinctIs(h[..n - 1], Latest(h));
    assert forall i :: 0 <= i < n - 1 ==> h[..n - 1][i] == events[i];
    if n > active {
      assert !SameSnapshot(events[0], events[n - 1]);
    }
  }

  /** The stored submissions need no normalising: they are at assigned venues, once each. */
  lemma StoredIsListed(oid: OrderId, book: Book, assignedBefore: set<Ident>, ctx: Context)
    requires Fits(oid, book, assignedBefore, ctx) && book.Keys <= AssignedIdents(oid, ctx.assignments)
    ensures Stored(ctx) == ctx.listed
  {
    LengthDistinct(ctx.listed);
    forall i | 0 <= i < |ctx.listed| ensures ctx.listed[i] in AssignedIdents(oid, ctx.assignments) {
      assert ctx.listed[i] in Elements(ctx.listed);
    }
    AssignedIsNormal(oid, ctx.assignments, ctx.listed);
  }

  lemma OneEmission(e: Emission, id: Ident)
    requires e.targets[id] <= 1
    ensures ActionsFor([e], id) == if id in e.targets then [e.action] else []
  {
    assert [e][1..] == [];
  }

  predicate Goes(oid: OrderId, ctx: Context, action: Action, id: Ident) {
    match action
    case NoAction(_) => false
    case Create(_) => id in MissingSet(oid, ctx.assignments, Stored(ctx))
    case Modify(_) => id in Elements(Stored(ctx))
    case Cancel(_, _) => id in Elements(Stored(ctx))
  }

  lemma OrdinaryActions(currency: string, oid: OrderId, h: seq<BotEvent>, ctx: Context, id: Ident)
    requires h != [] && Latest(h).orderType != TakeProfit && ctx.assignments != []
    ensures var action := Reduce(currency, h, oid, Stored(ctx) != []);
            ActionsFor(Ordinary(currency, oid, h, ctx), id) == if Goes(oid, ctx, action, id) then [action] else []
  {
    hide Normalize, Reduce, AssignedIdents;
    var action := Reduce(currency, h, oid, Stored(ctx) != []);
    var targets := TargetSet(oid, ctx.assignments, Stored(ctx), KindOf(action), Fallback(ctx));
    CreateTargetsAreTheMissing(oid, ctx.assignments, Stored(ctx), Fallback(ctx));
    OneEmission(Emission(action, multiset(targets)), id);
  }

  predicate Replayed(oid: OrderId, latest: BotEvent, ctx: Context, id: Ident) {
    Stored(ctx) != [] && latest.status == Active && id in MissingSet(oid, ctx.assignments, Stored(ctx))
  }

  function Copies(oid: OrderId, ctx: Context, id: Ident): nat {
    multiset(MissingList(oid, ctx.assignments, Stored(ctx)))[id]
  }

  lemma ReplayActions(currency: string, oid: OrderId, h: seq<BotEvent>, ctx: Context, id: Ident)
    requires h != [] && Latest(h).orderType != TakeProfit
    ensures var request := ToCreateOrderRequest(currency, Latest(h), oid);
            ActionsFor(Replay(currency, oid, h, ctx), id) ==
            if Replayed(oid, Latest(h), ctx, id) then Repeat(Create(request), Copies(oid, ctx, id)) else []
    ensures Replayed(oid, Latest(h), ctx, id) ==> Copies(oid, ctx, id) > 0
  {
    hide Normalize, MissingList;
    var list := MissingList(oid, ctx.assignments, Stored(ctx));
    MissingListIs(oid, ctx.assignments, Stored(ctx));
    assert id in multiset(list) <==> id in Elements(list);
    var e := Emission(Create(ToCreateOrderRequest(currency, Latest(h), oid)), multiset(list));
    assert ActionsFor([e], id) == Repeat(e.action, e.targets[id]) by {
      assert [e][1..] == [];
    }
  }

  /** For anything but a take-profit the plan is the reduced action, and the replay of a create. */
  lemma ActionsAre(currency: string, oid: OrderId, h: seq<BotEvent>, ctx: Context, id: Ident)
    requires h != [] && Latest(h).orderType != TakeProfit && ctx.assignments != []
    ensures var action := Reduce(currency, h, oid, Stored(ctx) != []);
            var request := ToCreateOrderRequest(currency, Latest(h), oid);
            ActionsFor(Plan(currency, oid, h, ctx), id) ==
            (if Goes(oid, ctx, action, id) then [action] else []) +
            (if Replayed(oid, Latest(h), ctx, id) then Repeat(Create(request), Copies(oid, ctx, id)) else [])
  {
    hide Ordinary, Replay, Reduce, Goes, Replayed, Copies, Repeat;
    OrdinaryActions(currency, oid, h, ctx, id);
    ReplayActions(currency, oid, h, ctx, id);
    ActionsForConcat(Ordinary(currency, oid, h, ctx), Replay(currency, oid, h, ctx), id);
  }

  lemma {:induction false} PerformConcat(order: Option<VenueOrder>, a: seq<Action>, b: seq<Action>)
    ensures PerformAll(order, a + b) == PerformAll(PerformAll(order, a), b)
    decreases |a|
  {
    if a == [] {
      assert a + b == b;
    } else {
      PerformConcat(Perform(order, a[0]), a[1..], b);
      assert (a + b)[1..] == a[1..] + b;
    }
  }

  /** Creates beyond the first are refused. */
  lemma {:induction false} PerformCopies(order: Option<VenueOrder>, request: OrderRequest, n: nat)
    requires n > 0
    ensures PerformAll(order, Repeat(Create(request), n)) == Perform(order, Create(request))
    decreases n
  {
    PerformConcat(order, Repeat(Create(request), n - 1), [Create(request)]);
    PerformOne(PerformAll(order, Repeat(Create(request), n - 1)), Create(request));
    if n > 1 {
      PerformCopies(order, request, n - 1);
    }
  }

  lemma PerformOne(order: Option<VenueOrder>, action: Action)
    ensures PerformAll(order, [action]) == Perform(order, action)
  {
    assert [action][1..] == [];
  }

  /** What one identifier holds after a run: the reduced action first, then a replayed create. */
  lemma RunHolds(currency: string, oid: OrderId, h: seq<BotEvent>, ctx: Context, book: Book, id: Ident)
    requires h != [] && Latest(h).orderType != TakeProfit && ctx.assignments != []
    ensures var action := Reduce(currency, h, oid, Stored(ctx) != []);
            var first := if Goes(oid, ctx, action, id) then Perform(Held(book, id), action) else Held(book, id);
            Held(AfterPlan(book, Plan(currency, oid, h, ctx)), id) ==
            if Replayed(oid, Latest(h), ctx, id) then
              Perform(first, Create(ToCreateOrderRequest(currency, Latest(h), oid)))
            else first
  {
    hide Reduce, Goes, Replayed, Plan, AfterPlan, Copies, Repeat;
    var action := Reduce(currency, h, oid, Stored(ctx) != []);
    var request := ToCreateOrderRequest(currency, Latest(h), oid);
    var copies := Copies(oid, ctx, id);
    AfterPlanHolds(book, Plan(currency, oid, h, ctx), id);
    ActionsAre(currency, oid, h, ctx, id);
    ReplayActions(currency, oid, h, ctx, id);
    PerformConcat(Held(book, id), if Goes(oid, ctx, action, id) then [action] else [],
                  if Replayed(oid, Latest(h), ctx, id) then Repeat(Create(request), copies) else []);
    PerformOne(Held(book, id), action);
    if Replayed(oid, Latest(h), ctx, id) {
      var ordinary := if Goes(oid, ctx, action, id) then Perform(Held(book, id), action) else Held(book, id);
      PerformCopies(ordinary, request, copies);
    }
  }

  /** The state a run starts from. */
  ghost predicate Starts(currency: string, oid: OrderId, events: seq<BotEvent>, active: nat, m: nat, homes: set<Ident>,
                         book: Book, n: nat, ctx: Context)
  {
    && Mirrorable(events, active) && m <= n <= |events| && 1 <= n
    && Synced(currency, oid, events, m, homes, book) && (m > 0 ==> homes != {})
    && Fits(oid, book, homes, ctx)
  }

  lemma StoredAre(currency: string, oid: OrderId, events: seq<BotEvent>, active: nat, m: nat, homes: set<Ident>,
                  book: Book, n: nat, ctx: Context)
    requires Starts(currency, oid, events, active, m, homes, book, n, ctx)
    ensures Elements(Stored(ctx)) == book.Keys && (Stored(ctx) == [] <==> book == map[])
    ensures book.Keys <= homes <= AssignedIdents(oid, ctx.assignments)
  {
    StoredIsListed(oid, book, homes, ctx);
    ElementsEmpty(ctx.listed);
  }

  lemma ActiveRun(currency: string, oid: OrderId, events: seq<BotEvent>, active: nat, m: nat, homes: set<Ident>,
                  book: Book, n: nat, ctx: Context, id: Ident)
    requires Starts(currency, oid, events, active, m, homes, book, n, ctx) && events[n - 1].status == Active
    ensures Held(AfterPlan(book, Plan(currency, oid, events[..n], ctx)), id) ==
            if id in AssignedIdents(oid, ctx.assignments) then
              Some(Resting(ToCreateOrderRequest(currency, events[n - 1], oid)))
            else None
  {
    hide Plan, AfterPlan, Normalize, Fits, WellAssigned, LastDistinct;
    var h := events[..n];
    StoredAre(currency, oid, events, active, m, homes, book, n, ctx);
    PreviousIs(events, active, n);
    HasAssignments(oid, book, homes, ctx);
    RunHolds(currency, oid, h, ctx, book, id);
  }

  lemma HasAssignments(oid: OrderId, book: Book, homes: set<Ident>, ctx: Context)
    requires Fits(oid, book, homes, ctx)
    ensures ctx.assignments != []
  {
  }

  lemma CancelledRun(currency: string, oid: OrderId, events: seq<BotEvent>, active: nat, m: nat, homes: set<Ident>,
                     book: Book, n: nat, ctx: Context, id: Ident)
    requires Starts(currency, oid, events, active, m, homes, book, n, ctx) && events[n - 1].status == Cancelled
    ensures Held(AfterPlan(book, Plan(currency, oid, events[..n], ctx)), id) ==
              if id in book then Some(Withdrawn) else None
  {
    hide Plan, AfterPlan, Normalize, Fits, WellAssigned, LastDistinct;
    StoredAre(currency, oid, events, active, m, homes, book, n, ctx);
    PreviousIs(events, active, n);
    HasAssignments(oid, book, homes, ctx);
    RunHolds(currency, oid, events[..n], ctx, book, id);
  }

  lemma FilledRun(currency: string, oid: OrderId, events: seq<BotEvent>, active: nat, m: nat, homes: set<Ident>,
                  book: Book, n: nat, ctx: Context, id: Ident)
    requires Starts(currency, oid, events, active, m, homes, book, n, ctx)
    requires events[n - 1].status == Filled || events[n - 1].status == Finished
    ensures Held(AfterPlan(book, Plan(currency, oid, events[..n], ctx)), id) == Held(book, id)
  {
    hide Plan, AfterPlan, Normalize, Fits, WellAssigned, LastDistinct;
    StoredAre(currency, oid, events, active, m, homes, book, n, ctx);
    PreviousIs(events, active, n);
    HasAssignments(oid, book, homes, ctx);
    RunHolds(currency, oid, events[..n], ctx, book, id);
  }

  // ---------- whole schedules ----------

  function Expected(status: Status, book: Book, homes: set<Ident>, request: OrderRequest, id: Ident): Option<VenueOrder>
  {
    match status
    case Active => if id in homes then Some(Resting(request)) else None
    case Cancelled => if id in book then Some(Withdrawn) else None
    case _ => Held(book, id)
  }

  lemma RunDoesAsExpected(currency: string, oid: OrderId, events: seq<BotEvent>, active: nat, m: nat, homes: set<Ident>,
                          book: Book, n: nat, ctx: Context, id: Ident)
    requires Starts(currency, oid, events, active, m, homes, book, n, ctx)
    ensures var latest := events[n - 1];
            Held(AfterPlan(book, Plan(currency, oid, events[..n], ctx)), id) ==
            Expected(latest.status, book, AssignedIdents(oid, ctx.assignments),
                     ToCreateOrderRequest(currency, latest, oid), id)
  {
    StatusIs(currency, oid, events, active, m, homes, book, n, ctx);
    hide Plan, AfterPlan, Starts;
    match events[n - 1].status
    case Active => ActiveRun(currency, oid, events, active, m, homes, book, n, ctx, id);
    case Cancelled => CancelledRun(currency, oid, events, active, m, homes, book, n, ctx, id);
    case Filled => FilledRun(currency, oid, events, active, m, homes, book, n, ctx, id);
    case Finished => FilledRun(currency, oid, events, active, m, homes, book, n, ctx, id);
    case OtherStatus(_) => assert false;
  }

  lemma StepSyncs(currency: string, oid: OrderId, events: seq<BotEvent>, active: nat, m: nat, homes: set<Ident>,
                  book: Book, n: nat, ctx: Context)
    requires Starts(currency, oid, events, active, m, homes, book, n, ctx)
    ensures var after := AfterPlan(book, Plan(currency, oid, events[..n], ctx));
            && Synced(currency, oid, events, n, AssignedIdents(oid, ctx.assignments), after)
            && (events[n - 1].status == Cancelled ==> after.Keys == book.Keys)
            && (Terminal(events[n - 1].status) && events[n - 1].status != Cancelled ==> after == book)
  {
    hide Plan, AfterPlan, Starts, AssignedIdents, ToCreateOrderRequest, Elements, Stored;
    StatusIs(currency, oid, events, active, m, homes, book, n, ctx);
    StoredAre(currency, oid, events, active, m, homes, book, n, ctx);
    StepHolds(currency, oid, events, active, m, homes, book, n, ctx);
  }

  lemma StepHolds(currency: string, oid: OrderId, events: seq<BotEvent>, active: nat, m: nat, homes: set<Ident>,
                  book: Book, n: nat, ctx: Context)
    requires Starts(currency, oid, events, active, m, homes, book, n, ctx)
    ensures var latest, current := events[n - 1], AssignedIdents(oid, ctx.assignments);
            var after := AfterPlan(book, Plan(currency, oid, events[..n], ctx));
            var request := ToCreateOrderRequest(currency, latest, oid);
            && (latest.status == Active ==>
                  after.Keys == current && forall id :: id in after ==> after[id] == Resting(request))
            && (latest.status == Cancelled ==>
                  after.Keys == book.Keys && forall id :: id in after ==> after[id] == Withdrawn)
            && (latest.status != Active && latest.status != Cancelled ==> after == book)
  {
    StatusIs(currency, oid, events, active, m, homes, book, n, ctx);
    hide Plan, AfterPlan, Starts, Expected, AssignedIdents, ToCreateOrderRequest, Held;
    var latest, current := events[n - 1], AssignedIdents(oid, ctx.assignments);
    var after := AfterPlan(book, Plan(currency, oid, events[..n], ctx));
    var request := ToCreateOrderRequest(currency, latest, oid);
    forall id ensures Held(after, id) == Expected(latest.status, book, current, request, id) {
      RunDoesAsExpected(currency, oid, events, active, m, homes, book, n, ctx, id);
    }
    HoldsAll(latest.status, book, after, current, request);
  }

  lemma StatusIs(currency: string, oid: OrderId, events: seq<BotEvent>, active: nat, m: nat, homes: set<Ident>,
                 book: Book, n: nat, ctx: Context)
    requires Starts(currency, oid, events, active, m, homes, book, n, ctx)
    ensures 1 <= n <= |events| && (events[n - 1].status == Active || Terminal(events[n - 1].status))
  {
  }

  /** From what each identifier holds to what the book is. */
  lemma HoldsAll(status: Status, book: Book, after: Book, homes: set<Ident>, request: OrderRequest)
    requires forall id :: Held(after, id) == Expected(status, book, homes, request, id)
    ensures status == Active ==> after.Keys == homes && forall id :: id in after ==> after[id] == Resting(request)
    ensures status == Cancelled ==> after.Keys == book.Keys && forall id :: id in after ==> after[id] == Withdrawn
    ensures status != Active && status != Cancelled ==> after == book
  {
    forall id
      ensures id in after <==> Expected(status, book, homes, request, id).Some?
      ensures id in after ==> Expected(status, book, homes, request, id) == Some(after[id])
    {
      assert Held(after, id) == Expected(status, book, homes, request, id);
    }
  }

  lemma {:induction false} RunsKeepSynced(currency: string, oid: OrderId, events: seq<BotEvent>, active: nat,
                                          runs: seq<Run>)
    requires Mirrorable(events, active) && WellScheduled(currency, oid, events, runs)
    ensures SeenBy(runs) <= |events| && (SeenBy(runs) > 0 ==> AssignedBy(oid, runs) != {})
    ensures Synced(currency, oid, events, SeenBy(runs), AssignedBy(oid, runs), BookAfter(currency, oid, events, runs))
    decreases |runs|
  {
    if runs != [] {
      var earlier, last := runs[..|runs| - 1], runs[|runs| - 1];
      RunsKeepSynced(currency, oid, events, active, earlier);
      StepSyncs(currency, oid, events, active, SeenBy(earlier), AssignedBy(oid, earlier),
                BookAfter(currency, oid, events, earlier),
                last.seen, last.ctx);
      assert IdentAt(last.ctx.assignments[0], oid) in AssignedIdents(oid, last.ctx.assignments);
    }
  }

  lemma LastRunStarts(currency: string, oid: OrderId, events: seq<BotEvent>, active: nat, runs: seq<Run>)
    requires Mirrorable(events, active) && WellScheduled(currency, oid, events, runs) && runs != []
    ensures var earlier, last := runs[..|runs| - 1], runs[|runs| - 1];
            Starts(currency, oid, events, active, SeenBy(earlier), AssignedBy(oid, earlier),
                   BookAfter(currency, oid, events, earlier), last.seen, last.ctx)
  {
    RunsKeepSynced(currency, oid, events, active, runs[..|runs| - 1]);
    hide Synced, BookAfter, Mirrorable;
  }

  /** What the latest snapshot demands of the venues: that exactly its order rests at exactly the
      assigned places, that every order ever created is withdrawn, or that nothing changes. */
  ghost predicate Mirrored(currency: string, oid: OrderId, latest: BotEvent, homes: set<Ident>, before: Book,
                           after: Book)
  {
    match latest.status
    case Active =>
      && after.Keys == homes
      && forall id :: id in after ==> after[id] == Resting(ToCreateOrderRequest(currency, latest, oid))
    case Cancelled => after.Keys == before.Keys && forall id :: id in after ==> after[id] == Withdrawn
    case Filled => after == before
    case Finished => after == before
    case OtherStatus(_) => false
  }

  lemma StepMirrors(currency: string, oid: OrderId, events: seq<BotEvent>, active: nat, m: nat, homes: set<Ident>,
                    book: Book, n: nat, ctx: Context)
    requires Starts(currency, oid, events, active, m, homes, book, n, ctx)
    ensures Mirrored(currency, oid, events[n - 1], AssignedIdents(oid, ctx.assignments), book,
                     AfterPlan(book, Plan(currency, oid, events[..n], ctx)))
  {
    hide Plan, AfterPlan, AssignedIdents, ToCreateOrderRequest;
    StatusIs(currency, oid, events, active, m, homes, book, n, ctx);
    StepHolds(currency, oid, events, active, m, homes, book, n, ctx);
    hide Starts;
  }

  /** Mirroring: over any schedule of runs, a run that ends on an active snapshot leaves exactly
      that snapshot's order resting at exactly the assigned venues; one that ends on a
      cancellation leaves every order ever created withdrawn and creates none; one that ends on a
      fill changes nothing. */
  lemma MirrorsLatest(currency: string, oid: OrderId, events: seq<BotEvent>, active: nat, runs: seq<Run>)
    requires Mirrorable(events, active) && WellScheduled(currency, oid, events, runs) && runs != []
    ensures Mirrored(currency, oid, events[SeenBy(runs) - 1], AssignedBy(oid, runs),
                     BookAfter(currency, oid, events, runs[..|runs| - 1]), BookAfter(currency, oid, events, runs))
  {
    var earlier, last := runs[..|runs| - 1], runs[|runs| - 1];
    var m, homes, book := SeenBy(earlier), AssignedBy(oid, earlier), BookAfter(currency, oid, events, earlier);
    hide Mirrored, Plan, AfterPlan, Starts, Mirrorable, Fits;
    LastRunStarts(currency, oid, events, active, runs);
    hide WellScheduled;
    StepMirrors(currency, oid, events, active, m, homes, book, last.seen, last.ctx);
  }

  // ---------- what the resting orders are ----------

  /** After a run that ends on an active snapshot exactly the assigned venues hold an order, and each
      rests on the snapshot's side, at its price, for its size and coin, under the order's identifier,
      with the time in force and the reduce-only flag the snapshot calls for. */
  lemma RestingOrdersAskForTheLatest(currency: string, oid: OrderId, events: seq<BotEvent>, active: nat, runs: seq<Run>)
    requires Mirrorable(events, active) && WellScheduled(currency, oid, events, runs) && runs != []
    requires events[SeenBy(runs) - 1].status == Active
    ensures var book, latest := BookAfter(currency, oid, events, runs), events[SeenBy(runs) - 1];
            && book.Keys == AssignedBy(oid, runs)
            && forall id :: id in book ==> book[id].Resting? && AsksFor(book[id].order, currency, latest, oid)
  {
    hide BookAfter;
    MirrorsLatest(currency, oid, events, active, runs);
    var latest := events[SeenBy(runs) - 1];
    RequestAsksFor(currency, latest, oid, ToCreateOrderRequest(currency, latest, oid));
    hide ToCreateOrderRequest, AsksFor, Mirrorable;
  }

  /** The order one identifier holds asks for one of the first n snapshots. */
  ghost predicate AsksForOneOf(order: Option<VenueOrder>, currency: string, oid: OrderId, events: seq<BotEvent>, n: nat)
    requires n <= |events|
  {
    order.Some? && order.value.Resting? ==>
      exists k :: 0 <= k < n && AsksButForSize(order.value.order, currency, events[k], oid)
                  && (events[k].orderType != TakeProfit ==> AsksFor(order.value.order, currency, events[k], oid))
  }

  lemma {:induction false} PerformAllAsks(order: Option<VenueOrder>, actions: seq<Action>, currency: string,
                                          oid: OrderId, events: seq<BotEvent>, n: nat)
    requires 0 < n <= |events| && AsksForOneOf(order, currency, oid, events, n)
    requires forall i :: 0 <= i < |actions| ==> AsksForLatest(actions[i], currency, events[n - 1], oid)
    ensures AsksForOneOf(PerformAll(order, actions), currency, oid, events, n)
    decreases |actions|
  {
    if actions != [] {
      assert AsksForLatest(actions[0], currency, events[n - 1], oid);
      assert AsksForOneOf(Perform(order, actions[0]), currency, oid, events, n);
      hide AsksForOneOf, AsksForLatest;
      PerformAllAsks(Perform(order, actions[0]), actions[1..], currency, oid, events, n);
    }
  }

  lemma {:induction false} ActionsForArePlanned(plan: seq<Emission>, id: Ident, currency: string, latest: BotEvent,
                                                oid: OrderId)
    requires forall e :: e in plan ==> AsksForLatest(e.action, currency, latest, oid)
    ensures forall i :: 0 <= i < |ActionsFor(plan, id)| ==>
              AsksForLatest(ActionsFor(plan, id)[i], currency, latest, oid)
    decreases |plan|
  {
    hide AsksForLatest;
    if plan != [] {
      assert plan[0] in plan;
      ActionsForArePlanned(plan[1..], id, currency, latest, oid);
      RepeatIs(plan[0].action, plan[0].targets[id]);
    }
  }

  lemma {:induction false} RepeatIs(action: Action, n: nat)
    ensures forall i :: 0 <= i < |Repeat(action, n)| ==> Repeat(action, n)[i] == action
    decreases n
  {
    if n > 0 {
      RepeatIs(action, n - 1);
    }
  }

  /** However a history is cut into runs, and whatever that history is, every order resting anywhere
      asks for some snapshot seen so far. */
  lemma {:induction false} RestingOrdersAskForASnapshot(currency: string, oid: OrderId, events: seq<BotEvent>,
                                                        runs: seq<Run>, id: Ident)
    requires WellScheduled(currency, oid, events, runs)
    ensures SeenBy(runs) <= |events|
    ensures AsksForOneOf(Held(BookAfter(currency, oid, events, runs), id), currency, oid, events, SeenBy(runs))
    decreases |runs|
  {
    if runs != [] {
      var earlier, last := runs[..|runs| - 1], runs[|runs| - 1];
      RestingOrdersAskForASnapshot(currency, oid, events, earlier, id);
      hide AsksForOneOf, Plan, AfterPlan, Fits;
      RunKeepsAsking(currency, oid, events, BookAfter(currency, oid, events, earlier), SeenBy(earlier), last, id);
    }
  }

  lemma RunKeepsAsking(currency: string, oid: OrderId, events: seq<BotEvent>, book: Book, m: nat, last: Run, id: Ident)
    requires m <= last.seen <= |events| && 0 < last.seen
    requires AsksForOneOf(Held(book, id), currency, oid, events, m)
    ensures AsksForOneOf(Held(AfterPlan(book, Plan(currency, oid, events[..last.seen], last.ctx)), id), currency, oid,
                         events, last.seen)
  {
    var plan := Plan(currency, oid, events[..last.seen], last.ctx);
    assert AsksForOneOf(Held(book, id), currency, oid, events, last.seen);
    EmissionsAskForTheLatest(currency, oid, events[..last.seen], last.ctx);
    hide Plan, AfterPlan, AsksForOneOf, AsksForLatest, ActionsFor, PerformAll;
    ActionsForArePlanned(plan, id, currency, events[last.seen - 1], oid);
    AfterPlanHolds(book, plan, id);
    PerformAllAsks(Held(book, id), ActionsFor(plan, id), currency, oid, events, last.seen);
  }

  // ---------- where the hypotheses matter ----------

  /** A venue holding the order of an older snapshot is brought up to date exactly when that order
      is already right, or the previous distinct snapshot is active and noticeably different. */
  lemma ResyncsExactlyWhen(currency: string, oid: OrderId, h: seq<BotEvent>, ctx: Context, book: Book, id: Ident,
                           e: BotEvent)
    requires h != [] && Latest(h).orderType != TakeProfit && Latest(h).status == Active && ctx.assignments != []
    requires id in Elements(Stored(ctx)) && Held(book, id) == Some(Resting(ToCreateOrderRequest(currency, e, oid)))
    ensures var previous, request := PreviousDistinct(h), ToCreateOrderRequest(currency, Latest(h), oid);
            Held(AfterPlan(book, Plan(currency, oid, h, ctx)), id) == Some(Resting(request)) <==>
            || ToCreateOrderRequest(currency, e, oid) == request
            || (previous.Some? && previous.value.status == Active && NeedsModify(previous.value, Latest(h)))
  {
    hide Plan, AfterPlan, Normalize, LastDistinct;
    RunHolds(currency, oid, h, ctx, book, id);
    ElementsEmpty(Stored(ctx));
  }

  /** A change within tolerance of the previous distinct snapshot is not sent where the order is. */
  lemma SmallChangeIsNotSent(currency: string, oid: OrderId, h: seq<BotEvent>, ctx: Context, book: Book, id: Ident)
    requires h != [] && Latest(h).orderType != TakeProfit && Latest(h).status == Active && ctx.assignments != []
    requires PreviousDistinct(h).Some? && PreviousDistinct(h).value.status == Active
    requires !NeedsModify(PreviousDistinct(h).value, Latest(h)) && id in Elements(Stored(ctx))
    ensures Held(AfterPlan(book, Plan(currency, oid, h, ctx)), id) == Held(book, id)
  {
    hide Plan, AfterPlan, Normalize, LastDistinct, AlmostEqual;
    RunHolds(currency, oid, h, ctx, book, id);
    ElementsEmpty(Stored(ctx));
  }

  lemma DriftingHistory(e: BotEvent, second: BotEvent, third: BotEvent)
    requires e.status == Active && e.price == 100.0
    requires second == e.(price := 100.00006) && third == e.(price := 100.00012)
    ensures PreviousDistinct([e, second, third]) == Some(second) && !NeedsModify(second, third)
    ensures AlmostEqual(e.price, second.price) && AlmostEqual(second.price, third.price)
            && !AlmostEqual(e.price, third.price)
  {
    assert [e, second, third][..2] == [e, second] && [e, second][..1] == [e];
    NearPrices();
    AlmostEqualSymmetric(e.size, e.size);
  }

  /** Small changes add up: each snapshot is within tolerance of the one before, the last is not
      within tolerance of the first, and the venue still holds the first. */
  lemma SmallChangesDrift(currency: string, oid: OrderId, e: BotEvent, ctx: Context, book: Book, id: Ident)
    requires e.status == Active && e.orderType != TakeProfit && e.price == 100.0 && ctx.assignments != []
    requires id in Elements(Stored(ctx)) && Held(book, id) == Some(Resting(ToCreateOrderRequest(currency, e, oid)))
    ensures var second, third := e.(price := 100.00006), e.(price := 100.00012);
            && AlmostEqual(e.price, second.price) && AlmostEqual(second.price, third.price)
            && !AlmostEqual(e.price, third.price)
            && Held(AfterPlan(book, Plan(currency, oid, [e, second, third], ctx)), id) == Held(book, id)
  {
    var second, third := e.(price := 100.00006), e.(price := 100.00012);
    DriftingHistory(e, second, third);
    hide AlmostEqual, NeedsModify, LastDistinct, PreviousDistinct, Plan, AfterPlan, Normalize;
    SmallChangeIsNotSent(currency, oid, [e, second, third], ctx, book, id);
  }

  lemma NearPrices()
    ensures AlmostEqual(100.0, 100.00006) && AlmostEqual(100.00006, 100.00012) && !AlmostEqual(100.0, 100.00012)
  {
  }

  /** An order that becomes active again after its end is not taken up: nothing changes where it
      was once placed. */
  lemma ReactivationIsIgnored(currency: string, oid: OrderId, h: seq<BotEvent>, ctx: Context, book: Book, id: Ident)
    requires h != [] && Latest(h).orderType != TakeProfit && Latest(h).status == Active && ctx.assignments != []
    requires PreviousDistinct(h).Some? && Terminal(PreviousDistinct(h).value.status)
    requires id in Elements(Stored(ctx))
    ensures Held(AfterPlan(book, Plan(currency, oid, h, ctx)), id) == Held(book, id)
  {
    hide Plan, AfterPlan, Normalize, LastDistinct;
    RunHolds(currency, oid, h, ctx, book, id);
    ElementsEmpty(Stored(ctx));
  }
}
