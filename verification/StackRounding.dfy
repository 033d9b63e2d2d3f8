/** Rounding a stack of take-profit legs to a venue's size step by exhaustive backtracking.
    Floating-point numbers are modelled as reals, so arithmetic is exact. */
module StackRounding {

  const EQUALITY_PENALTY := 1.0
  const RATIO_TOLERANCE := 0.000000001

  function Abs(x: real): (r: real)
    ensures r >= 0.0 && (r == 0.0 <==> x == 0.0)
  {
    if x < 0.0 then -x else x
  }

  function Total(xs: seq<real>): real {
    if xs == [] then 0.0 else Total(xs[..|xs| - 1]) + xs[|xs| - 1]
  }

  /** What leg i adds to the cost: the weights are 0.05 for rounding and 1 for the ratio to the
      first leg; a leg that ought to exceed the one before it but does not pays a penalty. */
  function LegCost(original: seq<real>, targets: seq<real>, sizes: seq<real>, i: nat): real
    requires i < |original| == |targets| == |sizes|
  {
    0.05 * Abs(sizes[i] - targets[i]) +
    (if i > 0 && original[i] > original[i - 1] + RATIO_TOLERANCE && sizes[i] <= sizes[i - 1]
     then EQUALITY_PENALTY else 0.0) +
    (if i > 0 && original[0] > RATIO_TOLERANCE && sizes[0] > RATIO_TOLERANCE
     then 1.0 * Abs(sizes[i] / sizes[0] - original[i] / original[0]) else 0.0)
  }

  function LegCosts(original: seq<real>, targets: seq<real>, sizes: seq<real>, n: nat): real
    requires n <= |original| == |targets| == |sizes|
  {
    if n == 0 then 0.0
    else LegCosts(original, targets, sizes, n - 1) + LegCost(original, targets, sizes, n - 1)
  }

  function StackCost(original: seq<real>, targets: seq<real>, sizes: seq<real>): real
    requires |original| == |targets| == |sizes|
  {
    0.1 * Abs(Total(sizes) - Total(targets)) + LegCosts(original, targets, sizes, |original|)
  }

  method EvaluateStackCost(original: seq<real>, targets: seq<real>, sizes: seq<real>) returns (cost: real)
    requires 0 < |original| == |targets| == |sizes|
    ensures cost == StackCost(original, targets, sizes)
  {
    var totalTarget, totalSize := 0.0, 0.0;
    for i := 0 to |targets|
      invariant totalTarget == Total(targets[..i]) && totalSize == Total(sizes[..i])
    {
      assert targets[..i + 1][..i] == targets[..i] && sizes[..i + 1][..i] == sizes[..i];
      totalTarget := totalTarget + targets[i];
      totalSize := totalSize + sizes[i];
    }
    assert targets[..|targets|] == targets && sizes[..|sizes|] == sizes;
    var fromTotal := 0.1 * Abs(totalSize - totalTarget);
    cost := fromTotal;
    var baseOriginal, baseSize := original[0], sizes[0];
    for i := 0 to |original|
      invariant cost == fromTotal + LegCosts(original, targets, sizes, i)
    {
      ghost var before := cost;
      cost := cost + 0.05 * Abs(sizes[i] - targets[i]);
      if i == 0 {
        continue;
      }
      if original[i] > original[i - 1] + RATIO_TOLERANCE && sizes[i] <= sizes[i - 1] {
        cost := cost + EQUALITY_PENALTY;
      }
      if baseOriginal > RATIO_TOLERANCE && baseSize > RATIO_TOLERANCE {
        var desiredRatio, actualRatio := original[i] / baseOriginal, sizes[i] / baseSize;
        cost := cost + 1.0 * Abs(actualRatio - desiredRatio);
      }
      assert cost == before + LegCost(original, targets, sizes, i);
    }
  }

  // ---------- the choices ----------

  function Ceil(x: real): int { -((-x).Floor) }

  predicate Ascending(s: seq<int>) { forall i, j :: 0 <= i < j < |s| ==> s[i] < s[j] }

  /** The whole step counts next to x that are not negative; zero when there is none. */
  ghost predicate Candidate(x: real, v: int) {
    if Ceil(x) < 0 then v == 0 else v >= 0 && (v == x.Floor || v == Ceil(x))
  }

  /** The candidates for one leg, in increasing order. */
  method Options(base: real) returns (opts: seq<int>)
    ensures Ascending(opts) && opts != []
    ensures forall v :: v in opts <==> Candidate(base, v)
  {
    var lower, upper := base.Floor, Ceil(base);
    assert lower <= upper <= lower + 1;
    opts := [];
    if lower >= 0 {
      opts := [lower];
    }
    if upper >= 0 && upper != lower {
      opts := opts + [upper];
    }
    if opts == [] {
      opts := [0];
    }
  }

  function Sizes(steps: seq<int>, step: real): seq<real> {
    seq(|steps|, i requires 0 <= i < |steps| => steps[i] as real * step)
  }

  datatype Problem = Problem(original: seq<real>, targets: seq<real>, step: real, options: seq<seq<int>>) {
    ghost predicate Valid() {
      && 0 < |original| == |targets| == |options|
      && forall i :: 0 <= i < |options| ==> options[i] != [] && Ascending(options[i])
    }

    /** One option picked per leg. */
    ghost predicate Choice(c: seq<int>) {
      |c| == |options| && forall i :: 0 <= i < |c| ==> c[i] in options[i]
    }

    ghost function CostOf(c: seq<int>): real {
      if |c| == |original| == |targets| then StackCost(original, targets, Sizes(c, step)) else 0.0
    }
  }

  ghost predicate LexLess(a: seq<int>, b: seq<int>) {
    exists k :: 0 <= k < |a| && k < |b| && a[..k] == b[..k] && a[k] < b[k]
  }

  // ---------- the enumeration, and scanning it for the cheapest choice ----------

  /** All choices extending a prefix, in the order the recursion reaches them. */
  ghost function Completions(p: Problem, prefix: seq<int>): seq<seq<int>>
    decreases |p.options| - |prefix|, 0, 0
  {
    if |prefix| >= |p.options| then [prefix] else Branches(p, prefix, 0)
  }

  ghost function Branches(p: Problem, prefix: seq<int>, k: nat): seq<seq<int>>
    requires |prefix| < |p.options|
    decreases |p.options| - |prefix| - 1, 1, |p.options[|prefix|]| - k
  {
    var opts := p.options[|prefix|];
    if k >= |opts| then [] else Completions(p, prefix + [opts[k]]) + Branches(p, prefix, k + 1)
  }

  datatype Incumbent = Nobody | Best(choice: seq<int>)

  /** A choice replaces the incumbent only by being strictly cheaper. */
  ghost function Better(p: Problem, b: Incumbent, c: seq<int>): Incumbent {
    if b.Nobody? || p.CostOf(c) < p.CostOf(b.choice) then Best(c) else b
  }

  ghost function Scan(p: Problem, b: Incumbent, cs: seq<seq<int>>): Incumbent
    decreases |cs|
  {
    if cs == [] then b else Scan(p, Better(p, b, cs[0]), cs[1..])
  }

  lemma {:induction false} ScanConcat(p: Problem, b: Incumbent, xs: seq<seq<int>>, ys: seq<seq<int>>)
    ensures Scan(p, b, xs + ys) == Scan(p, Scan(p, b, xs), ys)
    decreases |xs|
  {
    if xs == [] {
      assert xs + ys == ys;
    } else {
      assert (xs + ys)[1..] == xs[1..] + ys;
      ScanConcat(p, Better(p, b, xs[0]), xs[1..], ys);
    }
  }

  /** Scanning keeps the incumbent unless something is cheaper, and then ends on the first of
      the cheapest. */
  lemma {:induction false} ScanFindsFirstCheapest(p: Problem, b: Incumbent, cs: seq<seq<int>>) returns (i: nat)
    requires b.Best? || cs != []
    ensures Scan(p, b, cs).Best?
    ensures var w := Scan(p, b, cs).choice;
            && (forall j :: 0 <= j < |cs| ==> p.CostOf(w) <= p.CostOf(cs[j]))
            && (b.Best? ==> p.CostOf(w) <= p.CostOf(b.choice))
            && i <= |cs|
            && (i == |cs| ==> b.Best? && w == b.choice)
            && (i < |cs| ==>
                  && w == cs[i]
                  && (b.Best? ==> p.CostOf(w) < p.CostOf(b.choice))
                  && forall j :: 0 <= j < i ==> p.CostOf(w) < p.CostOf(cs[j]))
    decreases |cs|
  {
    if cs == [] {
      i := 0;
    } else {
      var next := Better(p, b, cs[0]);
      var rest := ScanFindsFirstCheapest(p, next, cs[1..]);
      i := if rest < |cs[1..]| then rest + 1 else if next == b then |cs| else 0;
      var w := Scan(p, b, cs).choice;
      assert forall j :: 1 <= j < |cs| ==> cs[j] == cs[1..][j - 1];
      if b.Best? && next == b && rest == |cs[1..]| {
        assert w == b.choice;
      }
    }
  }

  ghost predicate Prefix(a: seq<int>, b: seq<int>) { |a| <= |b| && b[..|a|] == a }

  ghost predicate Sorted(cs: seq<seq<int>>) {
    forall i, j :: 0 <= i < j < |cs| ==> LexLess(cs[i], cs[j])
  }

  /** The enumeration lists exactly the choices that extend the prefix. */
  lemma {:induction false} CompletionsComplete(p: Problem, prefix: seq<int>, c: seq<int>)
    requires |prefix| <= |p.options| && (forall i :: 0 <= i < |prefix| ==> prefix[i] in p.options[i])
    ensures c in Completions(p, prefix) <==> p.Choice(c) && Prefix(prefix, c)
    decreases |p.options| - |prefix|, 0, 0
  {
    if |prefix| == |p.options| {
      if p.Choice(c) && Prefix(prefix, c) {
        assert c == c[..|prefix|];
      }
    } else {
      BranchesComplete(p, prefix, 0, c);
    }
  }

  lemma {:induction false} BranchesComplete(p: Problem, prefix: seq<int>, k: nat, c: seq<int>)
    requires |prefix| < |p.options| && (forall i :: 0 <= i < |prefix| ==> prefix[i] in p.options[i])
    requires k <= |p.options[|prefix|]|
    ensures c in Branches(p, prefix, k)
       <==> p.Choice(c) && Prefix(prefix, c) && c[|prefix|] in p.options[|prefix|][k..]
    decreases |p.options| - |prefix| - 1, 1, |p.options[|prefix|]| - k
  {
    var opts, n := p.options[|prefix|], |prefix|;
    if k < |opts| {
      CompletionsComplete(p, prefix + [opts[k]], c);
      BranchesComplete(p, prefix, k + 1, c);
      assert opts[k..] == [opts[k]] + opts[k + 1..];
      if p.Choice(c) {
        assert c[..n + 1] == c[..n] + [c[n]];
        assert Prefix(prefix + [opts[k]], c) <==> Prefix(prefix, c) && c[n] == opts[k];
      }
    }
  }

  lemma {:induction false} CompletionsSorted(p: Problem, prefix: seq<int>)
    requires p.Valid() && |prefix| <= |p.options|
    requires forall i :: 0 <= i < |prefix| ==> prefix[i] in p.options[i]
    ensures Sorted(Completions(p, prefix))
    decreases |p.options| - |prefix|, 0, 0
  {
    if |prefix| < |p.options| {
      BranchesSorted(p, prefix, 0);
    }
  }

  lemma {:induction false} BranchesSorted(p: Problem, prefix: seq<int>, k: nat)
    requires p.Valid() && |prefix| < |p.options| && (forall i :: 0 <= i < |prefix| ==> prefix[i] in p.options[i])
    requires k <= |p.options[|prefix|]|
    ensures Sorted(Branches(p, prefix, k))
    decreases |p.options| - |prefix| - 1, 1, |p.options[|prefix|]| - k
  {
    var opts, n := p.options[|prefix|], |prefix|;
    if k < |opts| {
      var here, later := Completions(p, prefix + [opts[k]]), Branches(p, prefix, k + 1);
      CompletionsSorted(p, prefix + [opts[k]]);
      BranchesSorted(p, prefix, k + 1);
      forall a, b | a in here && b in later ensures LexLess(a, b) {
        CompletionsComplete(p, prefix + [opts[k]], a);
        BranchesComplete(p, prefix, k + 1, b);
        assert a[..n + 1][..n] == a[..n] && a[..n + 1][n] == a[n];
        assert a[..n] == prefix == b[..n] && a[n] == opts[k] < b[n];
      }
    }
  }

  /** The whole enumeration, scanned from scratch, ends on the lexicographically first of the
      cheapest choices. */
  ghost predicate FirstCheapest(p: Problem, w: seq<int>) {
    && p.Choice(w)
    && forall c :: p.Choice(c) ==>
         p.CostOf(w) < p.CostOf(c) || (p.CostOf(w) == p.CostOf(c) && (c == w || LexLess(w, c)))
  }

  lemma SearchIsOptimal(p: Problem)
    requires p.Valid()
    ensures var r := Scan(p, Nobody, Completions(p, []));
            r.Best? && FirstCheapest(p, r.choice)
  {
    var cs := Completions(p, []);
    NonEmpty(p, []);
    var i := ScanFindsFirstCheapest(p, Nobody, cs);
    var w := Scan(p, Nobody, cs).choice;
    CompletionsComplete(p, [], w);
    CompletionsSorted(p, []);
    forall c | p.Choice(c)
      ensures p.CostOf(w) < p.CostOf(c) || (p.CostOf(w) == p.CostOf(c) && (c == w || LexLess(w, c)))
    {
      CompletionsComplete(p, [], c);
      var j :| 0 <= j < |cs| && cs[j] == c;
    }
  }

  lemma {:induction false} NonEmpty(p: Problem, prefix: seq<int>)
    requires p.Valid() && |prefix| <= |p.options|
    ensures Completions(p, prefix) != []
    decreases |p.options| - |prefix|
  {
    if |prefix| < |p.options| {
      NonEmpty(p, prefix + [p.options[|prefix|][0]]);
    }
  }

  // ---------- the search as the program runs it ----------

  datatype Cost = Infinite | Finite(value: real)

  /** The variables the backtracking closure shares between its calls. */
  class Search {
    const p: Problem

    var steps: seq<int>
    var best: seq<real>
    var bestCost: Cost

    /** The choice `best` was computed from, once there is one. */
    ghost var winner: Incumbent

    ghost predicate Valid()
      reads this
    {
      && p.Valid() && |steps| == |best| == |p.options|
      && (bestCost.Infinite? <==> winner.Nobody?)
      && (winner.Best? ==>
            && |winner.choice| == |p.options|
            && best == Sizes(winner.choice, p.step) && bestCost.value == p.CostOf(winner.choice))
    }

    constructor (p: Problem)
      requires p.Valid()
      ensures Valid() && winner == Nobody && this.p == p
    {
      this.p := p;
      steps := seq(|p.options|, _ => 0);
      best := seq(|p.options|, _ => 0.0);
      bestCost, winner := Infinite, Nobody;
    }

    method Backtrack(idx: nat)
      requires Valid() && idx <= |steps|
      modifies this
      ensures Valid() && steps[..idx] == old(steps[..idx])
      ensures winner == Scan(p, old(winner), Completions(p, old(steps[..idx])))
      decreases |p.options| - idx
    {
      if idx == |p.options| {
        var sizes := Sizes(steps, p.step);
        var cost := EvaluateStackCost(p.original, p.targets, sizes);
        assert steps[..idx] == steps;
        ghost var cs := Completions(p, steps);
        assert cs == [steps] && cs[1..] == [];
        if bestCost.Infinite? || cost < bestCost.value {
          bestCost := Finite(cost);
          best := sizes;
          winner := Best(steps);
        }
        return;
      }
      ghost var prefix := steps[..idx];
      var opts := p.options[idx];
      var k := 0;
      while k < |opts|
        invariant 0 <= k <= |opts| && Valid() && |steps| == |p.options| && steps[..idx] == prefix
        invariant Scan(p, winner, Branches(p, prefix, k)) == Scan(p, old(winner), Completions(p, prefix))
      {
        steps := steps[idx := opts[k]];
        assert steps[..idx + 1] == prefix + [opts[k]];
        ghost var before := winner;
        Backtrack(idx + 1);
        ScanConcat(p, before, Completions(p, prefix + [opts[k]]), Branches(p, prefix, k + 1));
        assert steps[..idx] == steps[..idx + 1][..idx] == prefix;
        k := k + 1;
      }
    }
  }

  function Targets(original: seq<real>, multiplier: real): seq<real> {
    seq(|original|, i requires 0 <= i < |original| => original[i] * multiplier)
  }

  /** One way of rounding every leg down or up (to zero where the target is negative). */
  ghost predicate Rounding(targets: seq<real>, step: real, c: seq<int>)
    requires step > 0.0
  {
    |c| == |targets| && forall i :: 0 <= i < |c| ==> Candidate(targets[i] / step, c[i])
  }

  ghost function RoundingCost(original: seq<real>, multiplier: real, step: real, c: seq<int>): real
    requires |c| == |original|
  {
    StackCost(original, Targets(original, multiplier), Sizes(c, step))
  }

  /** The lexicographically first of the cheapest roundings. */
  ghost predicate BestRounding(original: seq<real>, multiplier: real, step: real, w: seq<int>)
    requires step > 0.0
  {
    && Rounding(Targets(original, multiplier), step, w)
    && forall c :: Rounding(Targets(original, multiplier), step, c) ==>
         var (mine, theirs) := (RoundingCost(original, multiplier, step, w),
                                RoundingCost(original, multiplier, step, c));
         mine < theirs || (mine == theirs && (c == w || LexLess(w, c)))
  }

  /** Options that are exactly the candidates make the two notions of optimal agree. */
  lemma FirstCheapestIsBestRounding(p: Problem, multiplier: real, w: seq<int>)
    requires p.Valid() && p.step > 0.0 && p.targets == Targets(p.original, multiplier) && FirstCheapest(p, w)
    requires forall i, v :: 0 <= i < |p.options| ==> (v in p.options[i] <==> Candidate(p.targets[i] / p.step, v))
    ensures BestRounding(p.original, multiplier, p.step, w)
  {
    forall c | Rounding(p.targets, p.step, c)
      ensures p.Choice(c) && RoundingCost(p.original, multiplier, p.step, c) == p.CostOf(c)
    {
    }
  }

  method ComputeStackRoundedSizes(original: seq<real>, multiplier: real, sizeStep: real) returns (out: seq<real>)
    ensures |out| == |original|
    ensures sizeStep <= 0.0 ==> out == Targets(original, multiplier)
    ensures sizeStep > 0.0 && original != [] ==>
              exists w :: BestRounding(original, multiplier, sizeStep, w) && out == Sizes(w, sizeStep)
  {
    if |original| == 0 {
      return [];
    }
    var targets := Targets(original, multiplier);
    if sizeStep <= 0.0 {
      return targets;
    }
    var options: seq<seq<int>> := [];
    for i := 0 to |targets|
      invariant |options| == i
      invariant forall j :: 0 <= j < i ==> options[j] != [] && Ascending(options[j])
      invariant forall j, v :: 0 <= j < i ==> (v in options[j] <==> Candidate(targets[j] / sizeStep, v))
    {
      var opts := Options(targets[i] / sizeStep);
      options := options + [opts];
    }
    var p := Problem(original, targets, sizeStep, options);
    var search := new Search(p);
    search.Backtrack(0);
    SearchIsOptimal(p);
    if search.bestCost.Infinite? {
      // The fallback to plain rounding: some choice always has a finite cost.
      assert false;
    }
    FirstCheapestIsBestRounding(p, multiplier, search.winner.choice);
    out := search.best;
  }

  // ---------- what the result is worth ----------

  lemma {:induction false} LegCostsNonNegative(original: seq<real>, targets: seq<real>, sizes: seq<real>, n: nat)
    requires n <= |original| == |targets| == |sizes|
    ensures LegCosts(original, targets, sizes, n) >= 0.0
    ensures forall i :: 0 <= i < n ==> LegCosts(original, targets, sizes, n) >= 0.05 * Abs(sizes[i] - targets[i])
  {
    if n > 0 {
      LegCostsNonNegative(original, targets, sizes, n - 1);
    }
  }

  /** For a positive multiplier the cost vanishes exactly on the targets themselves. */
  lemma CostVanishesOnlyOnTargets(original: seq<real>, multiplier: real, sizes: seq<real>)
    requires |sizes| == |original| && multiplier > 0.0
    ensures StackCost(original, Targets(original, multiplier), sizes) == 0.0 <==> sizes == Targets(original, multiplier)
  {
    var targets := Targets(original, multiplier);
    LegCostsNonNegative(original, targets, sizes, |original|);
    if sizes == targets {
      ExactLegsAreFree(original, multiplier, |original|);
    } else {
      var i :| 0 <= i < |sizes| && sizes[i] != targets[i];
      assert Abs(sizes[i] - targets[i]) > 0.0;
    }
  }

  lemma ExactLegIsFree(original: seq<real>, multiplier: real, i: nat)
    requires i < |original| && multiplier > 0.0
    ensures LegCost(original, Targets(original, multiplier), Targets(original, multiplier), i) == 0.0
  {
    var t := Targets(original, multiplier);
    if i > 0 {
      ScalingKeepsOrder(original[i - 1], original[i], multiplier);
      if original[0] > RATIO_TOLERANCE && t[0] > RATIO_TOLERANCE {
        ScalingKeepsRatio(original[i], original[0], multiplier);
      }
    }
  }

  lemma {:induction false} ExactLegsAreFree(original: seq<real>, multiplier: real, n: nat)
    requires n <= |original| && multiplier > 0.0
    ensures LegCosts(original, Targets(original, multiplier), Targets(original, multiplier), n) == 0.0
  {
    if n > 0 {
      ExactLegsAreFree(original, multiplier, n - 1);
      ExactLegIsFree(original, multiplier, n - 1);
    }
  }

  lemma ScalingKeepsOrder(a: real, b: real, m: real)
    requires m > 0.0
    ensures a < b ==> a * m < b * m
  {
    if a < b {
      assert (b - a) * m > 0.0;
    }
  }

  lemma ScalingKeepsRatio(a: real, b: real, m: real)
    requires m > 0.0 && b > 0.0 && b * m > 0.0
    ensures (a * m) / (b * m) == a / b
  {
    var q := a / b;
    assert a == q * b;
    assert a * m == q * (b * m);
  }

  ghost predicate LegsWithin(xs: seq<real>, ys: seq<real>, step: real) {
    |xs| == |ys| && forall i :: 0 <= i < |xs| ==> Abs(xs[i] - ys[i]) < step
  }

  lemma LegIsClose(targets: seq<real>, step: real, w: seq<int>, i: nat)
    requires step > 0.0 && Rounding(targets, step, w) && i < |w| && targets[i] >= 0.0
    ensures w[i] >= 0 && Abs(Sizes(w, step)[i] - targets[i]) < step
  {
    CandidateIsClose(targets[i], step, w[i]);
  }

  lemma LegsAreClose(targets: seq<real>, step: real, w: seq<int>)
    requires step > 0.0 && Rounding(targets, step, w)
    requires forall i :: 0 <= i < |targets| ==> targets[i] >= 0.0
    ensures LegsWithin(Sizes(w, step), targets, step) && forall i :: 0 <= i < |w| ==> w[i] >= 0
  {
    forall i | 0 <= i < |w| ensures w[i] >= 0 && Abs(Sizes(w, step)[i] - targets[i]) < step {
      LegIsClose(targets, step, w, i);
    }
  }

  lemma CandidateIsClose(target: real, step: real, v: int)
    requires step > 0.0 && target >= 0.0 && Candidate(target / step, v)
    ensures v >= 0 && Abs(v as real * step - target) < step
  {
    var x := target / step;
    var d := v as real - x;
    assert -1.0 < d < 1.0;
    ScalingKeepsOrder(d, 1.0, step);
    ScalingKeepsOrder(-1.0, d, step);
    Stretch(v as real, x, target, step);
    assert v as real * step - target == d * step;
  }

  lemma Stretch(v: real, x: real, target: real, step: real)
    requires step > 0.0 && x == target / step
    ensures v * step - target == (v - x) * step
  {
    assert target == x * step;
  }

  /** n steps, added up. */
  function Span(n: nat, step: real): real { if n == 0 then 0.0 else Span(n - 1, step) + step }

  lemma {:induction false} SpanIsProduct(n: nat, step: real)
    ensures Span(n, step) == n as real * step
  {
    if n > 0 {
      SpanIsProduct(n - 1, step);
      assert n as real * step == (n - 1) as real * step + step;
    }
  }

  lemma AddLeg(a: real, b: real, x: real, y: real, bound: real, step: real)
    requires Abs(a - b) <= bound && Abs(x - y) < step
    ensures Abs((a + x) - (b + y)) < bound + step
  {
  }

  lemma {:induction false} TotalsStayClose(xs: seq<real>, ys: seq<real>, step: real)
    requires step > 0.0 && LegsWithin(xs, ys, step)
    ensures Abs(Total(xs) - Total(ys)) <= Span(|xs|, step)
    ensures xs != [] ==> Abs(Total(xs) - Total(ys)) < Span(|xs|, step)
    decreases |xs|
  {
    if xs != [] {
      var n := |xs| - 1;
      TotalsStayClose(xs[..n], ys[..n], step);
      AddLeg(Total(xs[..n]), Total(ys[..n]), xs[n], ys[n], Span(n, step), step);
    }
  }

  lemma SpanBound(gap: real, n: nat, step: real)
    requires n > 0 ==> gap < Span(n, step)
    ensures n > 0 ==> gap < n as real * step
  {
    SpanIsProduct(n, step);
  }

  /** A rounding of non-negative targets, and so the best one, takes each of n legs to a whole,
      non-negative number of steps less than one step away from its target, and the stack as a
      whole off by less than n steps. */
  lemma RoundingStaysClose(targets: seq<real>, step: real, w: seq<int>, n: nat)
    requires step > 0.0 && Rounding(targets, step, w) && n == |targets|
    requires forall i :: 0 <= i < n ==> targets[i] >= 0.0
    ensures LegsWithin(Sizes(w, step), targets, step) && forall i :: 0 <= i < |w| ==> w[i] >= 0
    ensures n > 0 ==> Abs(Total(Sizes(w, step)) - Total(targets)) < n as real * step
  {
    LegsAreClose(targets, step, w);
    StackIsClose(Sizes(w, step), targets, step, n);
  }

  lemma StackIsClose(xs: seq<real>, ys: seq<real>, step: real, n: nat)
    requires step > 0.0 && LegsWithin(xs, ys, step) && n == |ys|
    ensures n > 0 ==> Abs(Total(xs) - Total(ys)) < n as real * step
  {
    TotalsStayClose(xs, ys, step);
    SpanBound(Abs(Total(xs) - Total(ys)), n, step);
  }

  lemma LexLessIsStrict(a: seq<int>, b: seq<int>)
    requires |a| == |b| && LexLess(a, b)
    ensures !LexLess(b, a)
  {
    var i :| 0 <= i < |a| && a[..i] == b[..i] && a[i] < b[i];
    forall j | 0 <= j < |a| && b[..j] == a[..j] ensures b[j] >= a[j] {
      assert j < i ==> a[j] == a[..i][j] && b[j] == b[..i][j];
    }
  }

  /** A stack has one best rounding. */
  lemma BestRoundingUnique(original: seq<real>, multiplier: real, step: real, a: seq<int>, b: seq<int>)
    requires step > 0.0 && BestRounding(original, multiplier, step, a) && BestRounding(original, multiplier, step, b)
    ensures a == b
  {
    if a != b {
      LexLessIsStrict(a, b);
    }
  }
}
