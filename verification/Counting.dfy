/** Counting instants in an interval, and the little integer arithmetic that goes with it. */
module Counting {

  function CountIn(times: seq<int>, from: int, until: int): nat {
    if times == [] then 0
    else (if from <= times[0] < until then 1 else 0) + CountIn(times[1..], from, until)
  }

  lemma {:induction false} CountConcat(xs: seq<int>, ys: seq<int>, from: int, until: int)
    ensures CountIn(xs + ys, from, until) == CountIn(xs, from, until) + CountIn(ys, from, until)
    decreases |xs|
  {
    if xs == [] {
      assert xs + ys == ys;
    } else {
      assert (xs + ys)[1..] == xs[1..] + ys;
      CountConcat(xs[1..], ys, from, until);
    }
  }

  lemma {:induction false} CountAtMost(times: seq<int>, from: int, until: int)
    ensures CountIn(times, from, until) <= |times|
    decreases |times|
  {
    if times != [] {
      CountAtMost(times[1..], from, until);
    }
  }

  lemma {:induction false} CountNone(times: seq<int>, from: int, until: int)
    requires forall i :: 0 <= i < |times| ==> !(from <= times[i] < until)
    ensures CountIn(times, from, until) == 0
    decreases |times|
  {
    if times != [] {
      CountNone(times[1..], from, until);
    }
  }

  lemma MulMonotone(a: int, b: int, w: int)
    requires w >= 0
    ensures a <= b ==> a * w <= b * w
  {
    if a <= b {
      assert (b - a) * w >= 0;
    }
  }

  lemma DivBelow(x: int, y: int, w: int)
    requires w > 0 && x <= y - w
    ensures x / w <= y / w - 1
  {
    assert x == (x / w) * w + x % w;
    assert y == (y / w) * w + y % w;
    MulMonotone(y / w, x / w, w);
  }

  lemma DivMonotone(x: int, y: int, w: int)
    requires w > 0 && x <= y
    ensures x / w <= y / w
  {
    assert x == (x / w) * w + x % w;
    assert y == (y / w) * w + y % w;
    MulMonotone(y / w + 1, x / w, w);
  }
}
