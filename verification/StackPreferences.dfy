/** What the search over roundings prefers, told from the sizes themselves. */
module StackPreferences {
  import opened StackRounding

  // ---------- what a rounding can get wrong ----------

  function TotalError(targets: seq<real>, sizes: seq<real>): real { Abs(Total(sizes) - Total(targets)) }

  function LegError(targets: seq<real>, sizes: seq<real>, i: nat): real
    requires i < |targets| == |sizes|
  {
    Abs(sizes[i] - targets[i])
  }

  /** A leg that was larger than the one before it no longer is. */
  predicate Collapsed(original: seq<real>, sizes: seq<real>, i: nat)
    requires i < |original| == |sizes|
  {
    i > 0 && original[i] - original[i - 1] > 0.000000001 && sizes[i] <= sizes[i - 1]
  }

  /** Proportions are compared when the first leg is positive before and after. */
  predicate Proportioned(original: seq<real>, sizes: seq<real>)
    requires 0 < |original| == |sizes|
  {
    original[0] > 0.000000001 && sizes[0] > 0.000000001
  }

  /** How far a leg's ratio to the first leg is from what it was. */
  function RatioError(original: seq<real>, sizes: seq<real>, i: nat): real
    requires i < |original| == |sizes| && Proportioned(original, sizes)
  {
    Abs(sizes[i] / sizes[0] - original[i] / original[0])
  }

  ghost predicate SameShape(original: seq<real>, targets: seq<real>, a: seq<real>, b: seq<real>) {
    0 < |original| == |targets| == |a| == |b|
  }

  /** Leg i is no further off in `a` than in `b`, in size, in order and in proportion. */
  predicate LegNoWorse(original: seq<real>, targets: seq<real>, a: seq<real>, b: seq<real>, i: nat)
    requires i < |original| == |targets| == |a| == |b|
  {
    && LegError(targets, a, i) <= LegError(targets, b, i)
    && (Collapsed(original, a, i) ==> Collapsed(original, b, i))
    && (i > 0 && Proportioned(original, a) ==>
          Proportioned(original, b) && RatioError(original, a, i) <= RatioError(original, b, i))
  }

  /** And strictly nearer in one of the three. */
  predicate LegBetter(original: seq<real>, targets: seq<real>, a: seq<real>, b: seq<real>, i: nat)
    requires i < |original| == |targets| == |a| == |b|
  {
    || LegError(targets, a, i) < LegError(targets, b, i)
    || (!Collapsed(original, a, i) && Collapsed(original, b, i))
    || (i > 0 && Proportioned(original, a) && Proportioned(original, b)
        && RatioError(original, a, i) < RatioError(original, b, i))
  }

  /** `a` is nowhere worse than `b` and somewhere better: in its total, or in one of its legs. */
  ghost predicate Dominates(original: seq<real>, targets: seq<real>, a: seq<real>, b: seq<real>)
    requires SameShape(original, targets, a, b)
  {
    && TotalError(targets, a) <= TotalError(targets, b)
    && (forall i :: 0 <= i < |original| ==> LegNoWorse(original, targets, a, b, i))
    && (TotalError(targets, a) < TotalError(targets, b)
        || exists i :: 0 <= i < |original| && LegBetter(original, targets, a, b, i))
  }

  // ---------- domination is always cheaper ----------

  lemma LegCostIs(original: seq<real>, targets: seq<real>, sizes: seq<real>, i: nat)
    requires i < |original| == |targets| == |sizes|
    ensures LegCost(original, targets, sizes, i) ==
              0.05 * LegError(targets, sizes, i) + (if Collapsed(original, sizes, i) then 1.0 else 0.0)
              + (if i > 0 && Proportioned(original, sizes) then RatioError(original, sizes, i) else 0.0)
  {
    assert original[i] - original[if i > 0 then i - 1 else 0] > 0.000000001 <==>
           original[i] > original[if i > 0 then i - 1 else 0] + 0.000000001;
  }

  lemma LegOrder(original: seq<real>, targets: seq<real>, a: seq<real>, b: seq<real>, i: nat)
    requires i < |original| == |targets| == |a| == |b| && LegNoWorse(original, targets, a, b, i)
    ensures LegCost(original, targets, a, i) <= LegCost(original, targets, b, i)
    ensures LegBetter(original, targets, a, b, i) ==>
              LegCost(original, targets, a, i) < LegCost(original, targets, b, i)
  {
    LegCostIs(original, targets, a, i);
    LegCostIs(original, targets, b, i);
    hide LegCost, LegError, RatioError, Collapsed;
    if i > 0 && Proportioned(original, b) {
      RatioErrorNonNegative(original, b, i);
    }
    hide Proportioned;
  }

  lemma RatioErrorNonNegative(original: seq<real>, sizes: seq<real>, i: nat)
    requires i < |original| == |sizes| && Proportioned(original, sizes)
    ensures RatioError(original, sizes, i) >= 0.0
  {
  }

  lemma {:induction false} LegsOrder(original: seq<real>, targets: seq<real>, a: seq<real>, b: seq<real>, n: nat)
    requires n <= |original| == |targets| == |a| == |b|
    requires forall i :: 0 <= i < n ==> LegNoWorse(original, targets, a, b, i)
    ensures LegCosts(original, targets, a, n) <= LegCosts(original, targets, b, n)
    ensures (exists i :: 0 <= i < n && LegBetter(original, targets, a, b, i)) ==>
              LegCosts(original, targets, a, n) < LegCosts(original, targets, b, n)
  {
    hide LegCost, LegNoWorse, LegBetter;
    if n > 0 {
      LegsOrder(original, targets, a, b, n - 1);
      LegOrder(original, targets, a, b, n - 1);
    }
  }

  /** A rounding that dominates another is strictly cheaper: nearer in total, nearer in a leg, with
      a leg that no longer collapses onto its predecessor, or truer to the original proportions. */
  lemma DominatingIsCheaper(original: seq<real>, targets: seq<real>, a: seq<real>, b: seq<real>)
    requires SameShape(original, targets, a, b) && Dominates(original, targets, a, b)
    ensures StackCost(original, targets, a) < StackCost(original, targets, b)
  {
    LegsOrder(original, targets, a, b, |original|);
    hide LegCosts, LegNoWorse, LegBetter;
  }

  /** So no rounding of the stack dominates the one chosen. */
  lemma ChosenIsUndominated(original: seq<real>, multiplier: real, step: real, w: seq<int>, c: seq<int>)
    requires step > 0.0 && original != [] && BestRounding(original, multiplier, step, w)
    requires Rounding(Targets(original, multiplier), step, c)
    ensures SameShape(original, Targets(original, multiplier), Sizes(c, step), Sizes(w, step))
    ensures !Dominates(original, Targets(original, multiplier), Sizes(c, step), Sizes(w, step))
  {
    var targets := Targets(original, multiplier);
    assert |c| == |w| == |original|;
    assert RoundingCost(original, multiplier, step, w) <= RoundingCost(original, multiplier, step, c);
    hide Dominates, StackCost, BestRounding, Rounding;
    if Dominates(original, targets, Sizes(c, step), Sizes(w, step)) {
      DominatingIsCheaper(original, targets, Sizes(c, step), Sizes(w, step));
    }
  }

  // ---------- what there is to choose from ----------

  /** A leg may go to any whole number of steps less than one step away; a negative one goes to none. */
  lemma CandidateExactlyWhen(target: real, step: real, v: int)
    requires step > 0.0
    ensures Candidate(target / step, v) <==>
            if target < 0.0 then v == 0 else -step < v as real * step - target < step
  {
    var x := target / step;
    Stretch(v as real, x, target, step);
    Between(v as real - x, step, v as real * step - target);
    SameSign(x, step, target);
    WholeNeighbours(x, v);
    hide Candidate;
  }

  lemma Between(d: real, step: real, scaled: real)
    requires step > 0.0 && scaled == d * step
    ensures -1.0 < d < 1.0 <==> -step < scaled < step
  {
    ScalingKeepsOrder(d, 1.0, step);
    ScalingKeepsOrder(1.0, d, step);
    ScalingKeepsOrder(-1.0, d, step);
    ScalingKeepsOrder(d, -1.0, step);
  }

  lemma SameSign(x: real, step: real, target: real)
    requires step > 0.0 && x == target / step
    ensures x < 0.0 <==> target < 0.0
  {
    assert target == x * step;
    ScalingKeepsOrder(x, 0.0, step);
    ScalingKeepsOrder(0.0, x, step);
  }

  lemma WholeNeighbours(x: real, v: int)
    ensures Candidate(x, v) <==> if x < 0.0 then v == 0 else -1.0 < v as real - x < 1.0
  {
  }

  /** The roundings searched are exactly those that take every non-negative leg less than one step up
      or down, and every negative one to nothing. */
  lemma RoundingExactlyWhen(original: seq<real>, multiplier: real, step: real, c: seq<int>)
    requires step > 0.0
    ensures Rounding(Targets(original, multiplier), step, c) <==>
            && |c| == |original|
            && forall i :: 0 <= i < |c| ==>
                 if original[i] * multiplier < 0.0 then c[i] == 0
                 else -step < c[i] as real * step - original[i] * multiplier < step
  {
    var targets := Targets(original, multiplier);
    if |c| == |original| {
      forall i | 0 <= i < |c|
        ensures Candidate(targets[i] / step, c[i]) <==>
                if original[i] * multiplier < 0.0 then c[i] == 0
                else -step < c[i] as real * step - original[i] * multiplier < step
      {
        CandidateExactlyWhen(targets[i], step, c[i]);
      }
    }
    hide Candidate;
  }

  // ---------- what one error is worth against another ----------

  /** The two roundings differ in one leg after the first. */
  ghost predicate DifferAt(a: seq<real>, b: seq<real>, i: nat) {
    0 < i < |a| == |b| && forall j :: 0 <= j < |a| && j != i ==> a[j] == b[j]
  }

  function Collapses(original: seq<real>, sizes: seq<real>, i: nat): int
    requires i < |original| == |sizes|
  {
    (if Collapsed(original, sizes, i) then 1 else 0)
    + (if i + 1 < |original| && Collapsed(original, sizes, i + 1) then 1 else 0)
  }

  /** Errors of a leg against the total and each other: an error in the total counts twice as much
      as the same error in a leg, and a collapse, or a ratio off by one, as much as twenty. */
  function WeighedErrors(original: seq<real>, targets: seq<real>, sizes: seq<real>, i: nat): real
    requires 0 < |original| == |targets| == |sizes| && i < |original|
  {
    2.0 * TotalError(targets, sizes) + LegError(targets, sizes, i) + 20.0 * Collapses(original, sizes, i) as real
    + (if Proportioned(original, sizes) then 20.0 * RatioError(original, sizes, i) else 0.0)
  }

  lemma UntouchedLeg(original: seq<real>, targets: seq<real>, a: seq<real>, b: seq<real>, i: nat, j: nat)
    requires SameShape(original, targets, a, b) && DifferAt(a, b, i) && j < |a| && j != i && j != i + 1
    ensures LegCost(original, targets, a, j) == LegCost(original, targets, b, j)
  {
  }

  /** The cost of the legs apart from what leg i decides: its own error and ratio, and whether it
      and its successor collapse. */
  function Decided(original: seq<real>, targets: seq<real>, sizes: seq<real>, i: nat, n: nat): real
    requires n <= |original| == |targets| == |sizes| && i < |original|
  {
    (if i < n then LegCost(original, targets, sizes, i) else 0.0)
    + (if i + 1 < n then LegCost(original, targets, sizes, i + 1) else 0.0)
  }

  lemma {:induction false} OtherLegsAgree(original: seq<real>, targets: seq<real>, a: seq<real>, b: seq<real>, i: nat,
                                          n: nat)
    requires SameShape(original, targets, a, b) && DifferAt(a, b, i) && n <= |a|
    ensures LegCosts(original, targets, a, n) - Decided(original, targets, a, i, n) ==
              LegCosts(original, targets, b, n) - Decided(original, targets, b, i, n)
  {
    hide LegCost;
    if n > 0 {
      OtherLegsAgree(original, targets, a, b, i, n - 1);
      if n - 1 != i && n - 1 != i + 1 {
        UntouchedLeg(original, targets, a, b, i, n - 1);
      }
    }
  }

  lemma NextLegAgrees(original: seq<real>, targets: seq<real>, a: seq<real>, b: seq<real>, i: nat)
    requires SameShape(original, targets, a, b) && DifferAt(a, b, i) && i + 1 < |a|
    ensures LegCost(original, targets, a, i + 1) - (if Collapsed(original, a, i + 1) then 1.0 else 0.0) ==
              LegCost(original, targets, b, i + 1) - (if Collapsed(original, b, i + 1) then 1.0 else 0.0)
  {
    LegCostIs(original, targets, a, i + 1);
    LegCostIs(original, targets, b, i + 1);
    hide LegCost, Collapsed;
  }

  /** Of two roundings that differ in one leg, the one whose weighed errors are smaller is cheaper,
      and by a twentieth of the difference. */
  lemma OneLegDecidesByItsErrors(original: seq<real>, targets: seq<real>, a: seq<real>, b: seq<real>, i: nat)
    requires SameShape(original, targets, a, b) && DifferAt(a, b, i)
    ensures 20.0 * (StackCost(original, targets, b) - StackCost(original, targets, a)) ==
              WeighedErrors(original, targets, b, i) - WeighedErrors(original, targets, a, i)
  {
    OtherLegsAgree(original, targets, a, b, i, |a|);
    LegCostIs(original, targets, a, i);
    LegCostIs(original, targets, b, i);
    if i + 1 < |a| {
      NextLegAgrees(original, targets, a, b, i);
    }
    assert Proportioned(original, a) <==> Proportioned(original, b);
    hide LegCost, LegCosts, Collapsed, LegError, RatioError, Proportioned, Total;
  }
}
