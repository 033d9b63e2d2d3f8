/** Which venues an action for one order goes to. */
module Targeting {
  import opened OrderIds
  import opened Wrappers
  import Sorting

  datatype Assignment = Assignment(venue: string, wallet: string)

  datatype ActionKind = NoneKind | CreateKind | ModifyKind | CancelKind

  // ---------- ordering ----------

  function CompareText(a: string, b: string): int
    decreases |a|
  {
    if a == "" then (if b == "" then 0 else -1)
    else if b == "" then 1
    else if a[0] < b[0] then -1
    else if a[0] > b[0] then 1
    else CompareText(a[1..], b[1..])
  }

  lemma {:induction false} CompareTextAntisymmetric(a: string, b: string)
    ensures CompareText(a, b) == -CompareText(b, a)
    decreases |a|
  {
    if a != "" && b != "" {
      CompareTextAntisymmetric(a[1..], b[1..]);
    }
  }

  /** By venue, then wallet; orders print alike only when they are alike, so comparing the
      numbers in an identifier stands for comparing its hexadecimal form. */
  function Compare(a: Ident, b: Ident): int {
    if CompareText(a.venue, b.venue) != 0 then CompareText(a.venue, b.venue)
    else if CompareText(a.wallet, b.wallet) != 0 then CompareText(a.wallet, b.wallet)
    else if a.order.botID != b.order.botID then (if a.order.botID < b.order.botID then -1 else 1)
    else if a.order.dealID != b.order.dealID then (if a.order.dealID < b.order.dealID then -1 else 1)
    else if a.order.botEventID < b.order.botEventID then -1
    else if a.order.botEventID > b.order.botEventID then 1
    else 0
  }

  predicate NotAfter(a: Ident, b: Ident) { Compare(a, b) <= 0 }

  ghost predicate InOrder(list: seq<Ident>) {
    Sorting.InOrder(list, NotAfter)
  }

  lemma NotAfterIsTotal()
    ensures Sorting.Total(NotAfter)
  {
    forall a, b ensures NotAfter(a, b) || NotAfter(b, a) {
      CompareTextAntisymmetric(a.venue, b.venue);
      CompareTextAntisymmetric(a.wallet, b.wallet);
    }
  }

  method SortIdentifiers(list: seq<Ident>) returns (ordered: seq<Ident>)
    ensures InOrder(ordered) && multiset(ordered) == multiset(list)
    ensures |ordered| == |list| && Elements(ordered) == Elements(list)
  {
    NotAfterIsTotal();
    ordered := Sorting.Sort(list, NotAfter);
    Sorting.SameMembers(ordered, list);
  }

  // ---------- normalising stored submissions ----------

  /** The wallet a venue is assigned, the last assignment winning. */
  function VenueWallet(assignments: seq<Assignment>, venue: string): Option<string>
    decreases |assignments|
  {
    if assignments == [] then None
    else
      var last := assignments[|assignments| - 1];
      if last.venue == venue then Some(last.wallet)
      else VenueWallet(assignments[..|assignments| - 1], venue)
  }

  /** The venue a wallet is assigned to, letter case aside, the last assignment winning. */
  function WalletVenue(assignments: seq<Assignment>, wallet: string): Option<string>
    decreases |assignments|
  {
    if assignments == [] then None
    else
      var last := assignments[|assignments| - 1];
      if last.wallet != "" && Lower(last.wallet) == Lower(wallet) then Some(last.venue)
      else WalletVenue(assignments[..|assignments| - 1], wallet)
  }

  function WithWallet(ident: Ident, wallet: string): Ident {
    if wallet == "" then ident else ident.(wallet := wallet)
  }

  /** A stored submission seen through today's assignments; None when neither its venue nor its
      wallet is assigned any more. */
  function Normalized(assignments: seq<Assignment>, ident: Ident): Option<Ident> {
    if assignments == [] then Some(ident)
    else
      match VenueWallet(assignments, ident.venue)
      case Some(wallet) => Some(WithWallet(ident, wallet))
      case None =>
        match WalletVenue(assignments, ident.wallet)
        case None => None
        case Some(venue) =>
          var moved := ident.(venue := venue);
          match VenueWallet(assignments, venue)
          case Some(wallet) => Some(WithWallet(moved, wallet))
          case None => Some(moved)
  }

  /** Submissions count as the same when venue and wallet agree, letter case aside. */
  function Slot(ident: Ident): (string, string) { (ident.venue, Lower(ident.wallet)) }

  function Slots(list: seq<Ident>): set<(string, string)>
    decreases |list|
  {
    if list == [] then {} else Slots(list[..|list| - 1]) + {Slot(list[|list| - 1])}
  }

  lemma {:induction false} SlotsAre(list: seq<Ident>)
    ensures forall i :: 0 <= i < |list| ==> Slot(list[i]) in Slots(list)
    ensures forall s :: s in Slots(list) ==> exists i :: 0 <= i < |list| && Slot(list[i]) == s
    decreases |list|
  {
    if list != [] {
      var n := |list| - 1;
      SlotsAre(list[..n]);
      forall i | 0 <= i < |list| ensures Slot(list[i]) in Slots(list) {
        assert i < n ==> list[..n][i] == list[i];
      }
      forall s | s in Slots(list) ensures exists i :: 0 <= i < |list| && Slot(list[i]) == s {
        if s in Slots(list[..n]) {
          var i :| 0 <= i < n && Slot(list[..n][i]) == s;
          assert Slot(list[i]) == s;
        } else {
          assert Slot(list[n]) == s;
        }
      }
    }
  }

  /** Every stored submission normalised, first come first kept. */
  function Normalize(assignments: seq<Assignment>, stored: seq<Ident>): seq<Ident>
    decreases |stored|
  {
    if stored == [] then []
    else
      var earlier := Normalize(assignments, stored[..|stored| - 1]);
      match Normalized(assignments, stored[|stored| - 1])
      case None => earlier
      case Some(ident) => if Slot(ident) in Slots(earlier) then earlier else earlier + [ident]
  }

  function Lookup(m: map<string, string>, key: string): Option<string> {
    if key in m then Some(m[key]) else None
  }

  /** The two lookup tables, each agreeing with the assignments. */
  method BuildLookups(assignments: seq<Assignment>)
    returns (venueWallets: map<string, string>, walletLookup: map<string, string>)
    ensures forall v :: VenueWallet(assignments, v) == Lookup(venueWallets, v)
    ensures forall w :: WalletVenue(assignments, w) == Lookup(walletLookup, Lower(w))
  {
    venueWallets, walletLookup := map[], map[];
    for i := 0 to |assignments|
      invariant forall v :: VenueWallet(assignments[..i], v) == Lookup(venueWallets, v)
      invariant forall w :: WalletVenue(assignments[..i], w) == Lookup(walletLookup, Lower(w))
    {
      var assignment := assignments[i];
      assert assignments[..i + 1][..i] == assignments[..i];
      venueWallets := venueWallets[assignment.venue := assignment.wallet];
      if assignment.wallet != "" {
        walletLookup := walletLookup[Lower(assignment.wallet) := assignment.venue];
      }
    }
    assert assignments[..|assignments|] == assignments;
  }

  method NormalizeOne(assignments: seq<Assignment>, venueWallets: map<string, string>,
                      walletLookup: map<string, string>, ident: Ident)
    returns (normalized: Option<Ident>)
    requires VenueWallet(assignments, ident.venue) == Lookup(venueWallets, ident.venue)
    requires WalletVenue(assignments, ident.wallet) == Lookup(walletLookup, Lower(ident.wallet))
    requires forall v :: VenueWallet(assignments, v) == Lookup(venueWallets, v)
    ensures normalized == Normalized(assignments, ident)
  {
    if |assignments| > 0 {
      if ident.venue !in venueWallets {
        if Lower(ident.wallet) !in walletLookup {
          return None;
        }
        var mapped := walletLookup[Lower(ident.wallet)];
        assert VenueWallet(assignments, mapped) == Lookup(venueWallets, mapped);
        var wallet := if mapped in venueWallets then venueWallets[mapped] else "";
        normalized := Some(if wallet != "" then ident.(venue := mapped, wallet := wallet) else ident.(venue := mapped));
      } else {
        var wallet := venueWallets[ident.venue];
        normalized := Some(if wallet != "" then ident.(wallet := wallet) else ident);
      }
    } else {
      normalized := Some(ident);
    }
  }

  method NormalizeSubmissionIdentifiers(assignments: seq<Assignment>, stored: seq<Ident>) returns (filtered: seq<Ident>)
    ensures filtered == Normalize(assignments, stored)
  {
    var venueWallets, walletLookup := BuildLookups(assignments);
    var seen: set<(string, string)> := {};
    filtered := [];
    for i := 0 to |stored|
      invariant filtered == Normalize(assignments, stored[..i])
      invariant seen == Slots(filtered)
    {
      assert stored[..i + 1][..i] == stored[..i];
      var normalized := NormalizeOne(assignments, venueWallets, walletLookup, stored[i]);
      if normalized == None || Slot(normalized.value) in seen {
        continue;
      }
      assert (filtered + [normalized.value])[..|filtered|] == filtered;
      seen := seen + {Slot(normalized.value)};
      filtered := filtered + [normalized.value];
    }
    assert stored[..|stored|] == stored;
  }

  lemma {:induction false} WalletVenueIsAssigned(assignments: seq<Assignment>, wallet: string)
    ensures var v := WalletVenue(assignments, wallet);
            v.Some? ==> VenueWallet(assignments, v.value).Some?
    decreases |assignments|
  {
    if assignments != [] {
      WalletVenueIsAssigned(assignments[..|assignments| - 1], wallet);
    }
  }

  lemma NormalizedTwice(assignments: seq<Assignment>, ident: Ident)
    ensures var n := Normalized(assignments, ident);
            n.Some? ==> Normalized(assignments, n.value) == n
  {
    WalletVenueIsAssigned(assignments, ident.wallet);
  }

  ghost predicate DistinctSlots(list: seq<Ident>) {
    forall i, j :: 0 <= i < j < |list| ==> Slot(list[i]) != Slot(list[j])
  }

  lemma {:induction false} NormalizeIsDistinct(assignments: seq<Assignment>, stored: seq<Ident>)
    ensures DistinctSlots(Normalize(assignments, stored))
    decreases |stored|
  {
    if stored != [] {
      NormalizeIsDistinct(assignments, stored[..|stored| - 1]);
      SlotsAre(Normalize(assignments, stored[..|stored| - 1]));
    }
  }

  ghost predicate StandsFor(assignments: seq<Assignment>, stored: seq<Ident>, ident: Ident) {
    exists j :: 0 <= j < |stored| && Normalized(assignments, stored[j]) == Some(ident)
  }

  lemma {:induction false} NormalizeStandsForStored(assignments: seq<Assignment>, stored: seq<Ident>, i: nat)
    requires i < |Normalize(assignments, stored)|
    ensures StandsFor(assignments, stored, Normalize(assignments, stored)[i])
    decreases |stored|
  {
    var k := |stored| - 1;
    var earlier, ident := Normalize(assignments, stored[..k]), Normalize(assignments, stored)[i];
    if i < |earlier| {
      NormalizeStandsForStored(assignments, stored[..k], i);
      assert ident == earlier[i];
      var j :| 0 <= j < k && Normalized(assignments, stored[..k][j]) == Some(ident);
      assert Normalized(assignments, stored[j]) == Some(ident);
    } else {
      assert Normalized(assignments, stored[k]) == Some(ident);
    }
  }

  lemma {:induction false} NormalizeCovers(assignments: seq<Assignment>, stored: seq<Ident>, j: nat)
    requires j < |stored| && Normalized(assignments, stored[j]).Some?
    ensures Slot(Normalized(assignments, stored[j]).value) in Slots(Normalize(assignments, stored))
    decreases |stored|
  {
    var k := |stored| - 1;
    var earlier, n := Normalize(assignments, stored[..k]), Normalize(assignments, stored);
    if |n| > |earlier| {
      assert n[..|n| - 1] == earlier;
    }
    if j < k {
      NormalizeCovers(assignments, stored[..k], j);
    }
  }

  /** Normalising leaves one submission per venue and wallet, each already in normal form and
      standing for a stored one, and leaves none out that has a normal form. */
  lemma NormalizeHasNoDuplicates(assignments: seq<Assignment>, stored: seq<Ident>)
    ensures var n := Normalize(assignments, stored);
            && DistinctSlots(n)
            && (forall i :: 0 <= i < |n| ==>
                  Normalized(assignments, n[i]) == Some(n[i]) && StandsFor(assignments, stored, n[i]))
            && (forall j :: 0 <= j < |stored| && Normalized(assignments, stored[j]).Some? ==>
                  exists i :: 0 <= i < |n| && Slot(n[i]) == Slot(Normalized(assignments, stored[j]).value))
  {
    var n := Normalize(assignments, stored);
    NormalizeIsDistinct(assignments, stored);
    forall i | 0 <= i < |n|
      ensures Normalized(assignments, n[i]) == Some(n[i]) && StandsFor(assignments, stored, n[i])
    {
      NormalizeStandsForStored(assignments, stored, i);
      var j :| 0 <= j < |stored| && Normalized(assignments, stored[j]) == Some(n[i]);
      NormalizedTwice(assignments, stored[j]);
    }
    forall j | 0 <= j < |stored| && Normalized(assignments, stored[j]).Some?
      ensures exists i :: 0 <= i < |n| && Slot(n[i]) == Slot(Normalized(assignments, stored[j]).value)
    {
      NormalizeCovers(assignments, stored, j);
      SlotsAre(n);
    }
  }

  /** Submissions in normal form, one per slot, are left as they are. */
  lemma {:induction false} NormalFormIsKept(assignments: seq<Assignment>, stored: seq<Ident>)
    requires DistinctSlots(stored)
    requires forall i :: 0 <= i < |stored| ==> Normalized(assignments, stored[i]) == Some(stored[i])
    ensures Normalize(assignments, stored) == stored
    decreases |stored|
  {
    if stored != [] {
      NormalFormIsKept(assignments, stored[..|stored| - 1]);
      SlotsAre(stored[..|stored| - 1]);
    }
  }

  /** Normalising is idempotent. */
  lemma NormalizeIdempotent(assignments: seq<Assignment>, stored: seq<Ident>)
    ensures Normalize(assignments, Normalize(assignments, stored)) == Normalize(assignments, stored)
  {
    NormalizeHasNoDuplicates(assignments, stored);
    NormalFormIsKept(assignments, Normalize(assignments, stored));
  }

  // ---------- targets ----------

  function IdentAt(assignment: Assignment, oid: OrderId): Ident { Ident(assignment.venue, assignment.wallet, oid) }

  function AssignedIdents(oid: OrderId, assignments: seq<Assignment>): set<Ident> {
    set i | 0 <= i < |assignments| :: IdentAt(assignments[i], oid)
  }

  function Elements(list: seq<Ident>): set<Ident> { set x | x in list }

  lemma ElementsEmpty(list: seq<Ident>)
    ensures Elements(list) == {} <==> list == []
  {
    assert list != [] ==> list[0] in Elements(list);
  }

  function AllTargets(oid: OrderId, assignments: seq<Assignment>, stored: seq<Ident>,
                      fallback: Option<Assignment>): set<Ident>
  {
    var everywhere := AssignedIdents(oid, assignments) + Elements(stored);
    if everywhere == {} && fallback.Some? then {IdentAt(fallback.value, oid)} else everywhere
  }

  /** Creates go where nothing was submitted, modifies and cancels where something was. */
  function TargetSet(oid: OrderId, assignments: seq<Assignment>, stored: seq<Ident>, kind: ActionKind,
                     fallback: Option<Assignment>): set<Ident>
  {
    var all := AllTargets(oid, assignments, stored, fallback);
    match kind
    case CreateKind => all - Elements(stored)
    case ModifyKind => Elements(stored)
    case CancelKind => Elements(stored)
    case NoneKind => all
  }

  /** Every place the order could be, and whether a submission is known there. */
  method CollectTargets(oid: OrderId, assignments: seq<Assignment>, stored: seq<Ident>, fallback: Option<Assignment>)
    returns (targets: map<Ident, bool>)
    ensures targets.Keys == AllTargets(oid, assignments, stored, fallback)
    ensures forall t :: t in targets ==> (targets[t] <==> t in Elements(stored))
  {
    targets := map[];
    for i := 0 to |stored|
      invariant targets.Keys == Elements(stored[..i]) && forall t :: t in targets ==> targets[t]
    {
      assert stored[..i + 1] == stored[..i] + [stored[i]];
      targets := targets[stored[i] := true];
    }
    assert stored[..|stored|] == stored;
    for i := 0 to |assignments|
      invariant targets.Keys == Elements(stored) + AssignedIdents(oid, assignments[..i])
      invariant forall t :: t in targets ==> (targets[t] <==> t in Elements(stored))
    {
      var ident := IdentAt(assignments[i], oid);
      AssignedSnoc(oid, assignments, i);
      if ident !in targets {
        targets := targets[ident := false];
      }
    }
    assert assignments[..|assignments|] == assignments;
    if targets == map[] && fallback.Some? {
      ElementsEmpty(stored);
      targets := targets[IdentAt(fallback.value, oid) := |stored| > 0];
    }
  }

  method KeepWanted(targets: map<Ident, bool>, kind: ActionKind) returns (list: seq<Ident>)
    ensures forall x :: x in list <==> x in targets && Wanted(kind, targets[x])
    ensures forall i, j :: 0 <= i < j < |list| ==> list[i] != list[j]
  {
    hide Wanted;
    list := [];
    var remaining := targets.Keys;
    while remaining != {}
      invariant remaining <= targets.Keys
      invariant forall x :: x in list <==> x in targets.Keys - remaining && Wanted(kind, targets[x])
      invariant forall i, j :: 0 <= i < j < |list| ==> list[i] != list[j]
      decreases |remaining|
    {
      var ident :| ident in remaining;
      remaining := remaining - {ident};
      if Wanted(kind, targets[ident]) {
        list := list + [ident];
      }
    }
  }

  method ResolveOrderTargets(oid: OrderId, assignments: seq<Assignment>, stored: seq<Ident>, kind: ActionKind,
                             fallback: Option<Assignment>)
    returns (list: seq<Ident>)
    ensures Elements(list) == TargetSet(oid, assignments, stored, kind, fallback)
    ensures InOrder(list) && |list| == |Elements(list)|
  {
    var targets := CollectTargets(oid, assignments, stored, fallback);
    list := KeepWanted(targets, kind);
    WantedAre(oid, assignments, stored, kind, fallback, targets, list);
    DistinctLength(list);
    hide TargetSet, InOrder, Elements, Wanted, AllTargets;
    list := SortIdentifiers(list);
  }

  lemma WantedAre(oid: OrderId, assignments: seq<Assignment>, stored: seq<Ident>, kind: ActionKind,
                  fallback: Option<Assignment>, targets: map<Ident, bool>, list: seq<Ident>)
    requires targets.Keys == AllTargets(oid, assignments, stored, fallback)
    requires forall t :: t in targets ==> (targets[t] <==> t in Elements(stored))
    requires forall x :: x in list <==> x in targets && Wanted(kind, targets[x])
    ensures Elements(list) == TargetSet(oid, assignments, stored, kind, fallback)
  {
    StoredAreTargets(oid, assignments, stored, fallback);
    hide AllTargets;
  }

  lemma StoredAreTargets(oid: OrderId, assignments: seq<Assignment>, stored: seq<Ident>, fallback: Option<Assignment>)
    ensures Elements(stored) <= AllTargets(oid, assignments, stored, fallback)
  {
  }

  predicate Wanted(kind: ActionKind, hadSubmission: bool) {
    match kind
    case CreateKind => !hadSubmission
    case ModifyKind => hadSubmission
    case CancelKind => hadSubmission
    case NoneKind => true
  }

  lemma AssignedSnoc(oid: OrderId, assignments: seq<Assignment>, i: nat)
    requires i < |assignments|
    ensures AssignedIdents(oid, assignments[..i + 1]) ==
              AssignedIdents(oid, assignments[..i]) + {IdentAt(assignments[i], oid)}
  {
    var a, b := assignments[..i + 1], assignments[..i];
    forall x | x in AssignedIdents(oid, a)
      ensures x in AssignedIdents(oid, b) + {IdentAt(assignments[i], oid)}
    {
      var j :| 0 <= j < |a| && x == IdentAt(a[j], oid);
      if j < i {
        assert x == IdentAt(b[j], oid);
      }
    }
    forall x | x in AssignedIdents(oid, b) ensures x in AssignedIdents(oid, a) {
      var j :| 0 <= j < |b| && x == IdentAt(b[j], oid);
      assert x == IdentAt(a[j], oid);
    }
    assert IdentAt(a[i], oid) in AssignedIdents(oid, a);
  }

  lemma {:induction false} LengthDistinct(list: seq<Ident>)
    requires |Elements(list)| == |list|
    ensures forall i, j :: 0 <= i < j < |list| ==> list[i] != list[j]
    decreases |list|
  {
    if list != [] {
      var n := |list| - 1;
      assert Elements(list) == Elements(list[..n]) + {list[n]};
      ElementsAtMost(list[..n]);
      LengthDistinct(list[..n]);
    }
  }

  lemma {:induction false} ElementsAtMost(list: seq<Ident>)
    ensures |Elements(list)| <= |list|
    decreases |list|
  {
    if list != [] {
      var n := |list| - 1;
      assert Elements(list) == Elements(list[..n]) + {list[n]};
      ElementsAtMost(list[..n]);
    }
  }

  lemma {:induction false} DistinctLength(list: seq<Ident>)
    requires forall i, j :: 0 <= i < j < |list| ==> list[i] != list[j]
    ensures |Elements(list)| == |list|
    decreases |list|
  {
    if list != [] {
      var n := |list| - 1;
      DistinctLength(list[..n]);
      assert Elements(list) == Elements(list[..n]) + {list[n]};
    }
  }

  /** A bot is assigned each venue once. */
  ghost predicate UniqueVenues(assignments: seq<Assignment>) {
    forall i, j :: 0 <= i < j < |assignments| ==> assignments[i].venue != assignments[j].venue
  }

  /** The assigned places without a submission, as often as they are assigned. */
  function MissingList(oid: OrderId, assignments: seq<Assignment>, stored: seq<Ident>): seq<Ident>
    decreases |assignments|
  {
    if assignments == [] then []
    else
      var earlier := MissingList(oid, assignments[..|assignments| - 1], stored);
      var ident := IdentAt(assignments[|assignments| - 1], oid);
      if ident in Elements(stored) then earlier else earlier + [ident]
  }

  method MissingAssignmentTargets(oid: OrderId, assignments: seq<Assignment>, stored: seq<Ident>)
    returns (missing: seq<Ident>)
    ensures multiset(missing) == multiset(MissingList(oid, assignments, stored)) && InOrder(missing)
    ensures Elements(missing) == MissingSet(oid, assignments, stored)
    ensures UniqueVenues(assignments) ==> |missing| == |Elements(missing)|
  {
    MissingListIs(oid, assignments, stored);
    if |assignments| == 0 {
      return [];
    }
    var seen := Elements(stored);
    missing := [];
    for i := 0 to |assignments|
      invariant missing == MissingList(oid, assignments[..i], stored)
    {
      assert assignments[..i + 1][..i] == assignments[..i];
      var ident := IdentAt(assignments[i], oid);
      if ident in seen {
        continue;
      }
      missing := missing + [ident];
    }
    assert assignments[..|assignments|] == assignments;
    if UniqueVenues(assignments) {
      MissingOnce(oid, assignments, stored);
    }
    missing := SortIdentifiers(missing);
  }

  function MissingSet(oid: OrderId, assignments: seq<Assignment>, stored: seq<Ident>): set<Ident> {
    AssignedIdents(oid, assignments) - Elements(stored)
  }

  /** The missing places are the assigned ones without a submission. */
  lemma {:induction false} MissingListIs(oid: OrderId, assignments: seq<Assignment>, stored: seq<Ident>)
    ensures Elements(MissingList(oid, assignments, stored)) == MissingSet(oid, assignments, stored)
    decreases |assignments|
  {
    var list, places := MissingList(oid, assignments, stored), MissingSet(oid, assignments, stored);
    if assignments != [] {
      var n := |assignments| - 1;
      var ident := IdentAt(assignments[n], oid);
      MissingListIs(oid, assignments[..n], stored);
      AssignedSnoc(oid, assignments, n);
      assert assignments[..n + 1] == assignments;
      assert ident !in Elements(stored) ==>
               Elements(list) == Elements(MissingList(oid, assignments[..n], stored)) + {ident};
    } else {
      assert Elements(list) == {} == places;
    }
  }

  /** Each missing place is listed once when each venue is assigned once. */
  lemma {:induction false} MissingOnce(oid: OrderId, assignments: seq<Assignment>, stored: seq<Ident>)
    requires UniqueVenues(assignments)
    ensures |MissingList(oid, assignments, stored)| == |Elements(MissingList(oid, assignments, stored))|
    decreases |assignments|
  {
    if assignments != [] {
      var n := |assignments| - 1;
      var earlier := MissingList(oid, assignments[..n], stored);
      MissingOnce(oid, assignments[..n], stored);
      MissingListIs(oid, assignments[..n], stored);
      NewVenueIsNew(oid, assignments, n);
      assert Elements(earlier + [IdentAt(assignments[n], oid)]) == Elements(earlier) + {IdentAt(assignments[n], oid)};
    }
  }

  lemma NewVenueIsNew(oid: OrderId, assignments: seq<Assignment>, n: nat)
    requires UniqueVenues(assignments) && n < |assignments|
    ensures IdentAt(assignments[n], oid) !in AssignedIdents(oid, assignments[..n])
  {
  }

  lemma DistinctMultiset(list: seq<Ident>)
    requires |list| == |Elements(list)|
    ensures multiset(list) == multiset(Elements(list))
  {
    LengthDistinct(list);
    forall x ensures multiset(list)[x] == multiset(Elements(list))[x] {
      if x in list {
        var i :| 0 <= i < |list| && list[i] == x;
        assert list == list[..i] + [x] + list[i + 1..];
        assert x !in list[..i] && x !in list[i + 1..];
        assert x !in multiset(list[..i]) && x !in multiset(list[i + 1..]);
      } else {
        assert x !in multiset(list);
      }
    }
  }

  /** With assignments, an ordinary create goes exactly where a replay would. */
  lemma CreateTargetsAreTheMissing(oid: OrderId, assignments: seq<Assignment>, stored: seq<Ident>,
                                   fallback: Option<Assignment>)
    requires assignments != []
    ensures TargetSet(oid, assignments, stored, CreateKind, fallback) == MissingSet(oid, assignments, stored)
  {
    assert IdentAt(assignments[0], oid) in AssignedIdents(oid, assignments);
  }

  /** The fallback place is used exactly when there is no other: no assignment and no submission. */
  lemma FallbackIsUsedExactlyWhen(oid: OrderId, assignments: seq<Assignment>, stored: seq<Ident>, fallback: Assignment)
    ensures TargetSet(oid, assignments, stored, CreateKind, Some(fallback)) ==
              if assignments == [] && stored == [] then {Ident(fallback.venue, fallback.wallet, oid)}
              else MissingSet(oid, assignments, stored)
  {
    ElementsEmpty(stored);
    if assignments != [] {
      assert IdentAt(assignments[0], oid) in AssignedIdents(oid, assignments);
    }
  }

  ghost predicate WellAssigned(assignments: seq<Assignment>) {
    UniqueVenues(assignments) && forall i :: 0 <= i < |assignments| ==> assignments[i].wallet != ""
  }

  lemma {:induction false} VenueWalletIs(assignments: seq<Assignment>, i: nat)
    requires WellAssigned(assignments) && i < |assignments|
    ensures VenueWallet(assignments, assignments[i].venue) == Some(assignments[i].wallet)
    decreases |assignments|
  {
    var n := |assignments| - 1;
    if i < n {
      VenueWalletIs(assignments[..n], i);
    }
  }

  lemma {:induction false} NoVenueWallet(assignments: seq<Assignment>, venue: string)
    requires forall i :: 0 <= i < |assignments| ==> assignments[i].venue != venue
    ensures VenueWallet(assignments, venue) == None
    decreases |assignments|
  {
    if assignments != [] {
      NoVenueWallet(assignments[..|assignments| - 1], venue);
    }
  }

  lemma {:induction false} WalletVenueIs(assignments: seq<Assignment>, wallet: string)
    ensures match WalletVenue(assignments, wallet)
            case None =>
              forall i :: 0 <= i < |assignments| && assignments[i].wallet != "" ==>
                Lower(assignments[i].wallet) != Lower(wallet)
            case Some(venue) =>
              exists i :: 0 <= i < |assignments| && assignments[i].venue == venue
                          && Lower(assignments[i].wallet) == Lower(wallet)
    decreases |assignments|
  {
    hide Lower;
    if assignments != [] {
      var n := |assignments| - 1;
      WalletVenueIs(assignments[..n], wallet);
      assert forall i :: 0 <= i < n ==> assignments[..n][i] == assignments[i];
      if WalletVenue(assignments, wallet).Some? {
        if WalletVenue(assignments[..n], wallet) == WalletVenue(assignments, wallet) {
          var i :| 0 <= i < n && assignments[..n][i].venue == WalletVenue(assignments, wallet).value
                   && Lower(assignments[..n][i].wallet) == Lower(wallet);
          assert assignments[i].venue == WalletVenue(assignments, wallet).value;
        } else {
          assert assignments[n].venue == WalletVenue(assignments, wallet).value;
        }
      }
    }
  }

  /** What a stored submission stands for today: at a venue that is still assigned, the venue's
      wallet; elsewhere, a place whose wallet is the submission's, letter case aside; and nothing if
      neither its venue nor its wallet is assigned. It is always the same order. */
  lemma NormalFormIs(assignments: seq<Assignment>, ident: Ident)
    requires WellAssigned(assignments) && assignments != []
    ensures match Normalized(assignments, ident)
            case None =>
              forall i :: 0 <= i < |assignments| ==>
                assignments[i].venue != ident.venue && Lower(assignments[i].wallet) != Lower(ident.wallet)
            case Some(n) =>
              && n.order == ident.order
              && exists i :: 0 <= i < |assignments| && n == IdentAt(assignments[i], ident.order)
                             && (assignments[i].venue == ident.venue
                                 || (Lower(assignments[i].wallet) == Lower(ident.wallet)
                                     && forall j :: 0 <= j < |assignments| ==> assignments[j].venue != ident.venue))
  {
    hide Lower;
    if k :| 0 <= k < |assignments| && assignments[k].venue == ident.venue {
      VenueWalletIs(assignments, k);
      assert Normalized(assignments, ident) == Some(IdentAt(assignments[k], ident.order));
    } else {
      NoVenueWallet(assignments, ident.venue);
      WalletVenueIs(assignments, ident.wallet);
      if WalletVenue(assignments, ident.wallet).Some? {
        var i :| 0 <= i < |assignments| && assignments[i].venue == WalletVenue(assignments, ident.wallet).value
                 && Lower(assignments[i].wallet) == Lower(ident.wallet);
        VenueWalletIs(assignments, i);
        assert Normalized(assignments, ident) == Some(IdentAt(assignments[i], ident.order));
      }
    }
  }

  /** No two normalised submissions share a venue and a wallet, whatever the letter case. */
  lemma OnePerPlace(assignments: seq<Assignment>, stored: seq<Ident>, i: nat, j: nat)
    requires i < j < |Normalize(assignments, stored)|
    ensures var a, b := Normalize(assignments, stored)[i], Normalize(assignments, stored)[j];
            a.venue != b.venue || Lower(a.wallet) != Lower(b.wallet)
  {
    NormalizeHasNoDuplicates(assignments, stored);
  }

  /** With unique venues and wallets on record, a venue that holds a submission for the order,
      whatever wallet it was placed from, is never taken for missing. */
  lemma HeldVenueIsNeverMissing(oid: OrderId, assignments: seq<Assignment>, stored: seq<Ident>, held: Ident)
    requires WellAssigned(assignments) && held in stored
    requires forall s :: s in stored ==> s.order == oid
    ensures forall x :: x in MissingSet(oid, assignments, Normalize(assignments, stored)) ==> x.venue != held.venue
  {
    var n := Normalize(assignments, stored);
    forall i | 0 <= i < |assignments| && assignments[i].venue == held.venue
      ensures IdentAt(assignments[i], oid) in n
    {
      VenueWalletIs(assignments, i);
      NormalizeHasNoDuplicates(assignments, stored);
      var j :| 0 <= j < |stored| && stored[j] == held;
      var k :| 0 <= k < |n| && Slot(n[k]) == Slot(Normalized(assignments, stored[j]).value);
      NormalizedKeepsOrder(assignments, stored, n[k]);
      assert Normalized(assignments, n[k]) == Some(n[k]);
      assert n[k] == IdentAt(assignments[i], oid);
    }
  }

  lemma NormalizedKeepsOrder(assignments: seq<Assignment>, stored: seq<Ident>, ident: Ident)
    requires StandsFor(assignments, stored, ident)
    ensures exists j :: 0 <= j < |stored| && ident.order == stored[j].order
  {
    var j :| 0 <= j < |stored| && Normalized(assignments, stored[j]) == Some(ident);
    assert ident.order == stored[j].order;
  }

  /** Submissions at assigned venues from assigned wallets are already in normal form. */
  lemma AssignedIsNormal(oid: OrderId, assignments: seq<Assignment>, stored: seq<Ident>)
    requires WellAssigned(assignments)
    requires forall i :: 0 <= i < |stored| ==> stored[i] in AssignedIdents(oid, assignments)
    requires forall i, j :: 0 <= i < j < |stored| ==> stored[i] != stored[j]
    ensures Normalize(assignments, stored) == stored
  {
    forall i | 0 <= i < |stored|
      ensures Normalized(assignments, stored[i]) == Some(stored[i])
      ensures exists k :: 0 <= k < |assignments| && stored[i] == IdentAt(assignments[k], oid)
    {
      var k :| 0 <= k < |assignments| && stored[i] == IdentAt(assignments[k], oid);
      VenueWalletIs(assignments, k);
    }
    forall i, j | 0 <= i < j < |stored| ensures Slot(stored[i]) != Slot(stored[j]) {
      var a :| 0 <= a < |assignments| && stored[i] == IdentAt(assignments[a], oid);
      var b :| 0 <= b < |assignments| && stored[j] == IdentAt(assignments[b], oid);
    }
    NormalFormIsKept(assignments, stored);
  }
}
