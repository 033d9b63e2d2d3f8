/** Powers of ten and rounding to a decimal grid, over exact reals. */
module Decimals {

  function Pow(e: int): real
    decreases if e < 0 then -e else e
  {
    if e == 0 then 1.0 else if e > 0 then 10.0 * Pow(e - 1) else Pow(e + 1) / 10.0
  }

  lemma {:induction false} PowPositive(e: int)
    ensures Pow(e) > 0.0
    decreases if e < 0 then -e else e
  {
    if e > 0 {
      PowPositive(e - 1);
    } else if e < 0 {
      PowPositive(e + 1);
    }
  }

  lemma PowNext(e: int)
    ensures Pow(e + 1) == 10.0 * Pow(e)
  {
  }

  lemma {:induction false} PowAdd(a: int, b: int)
    ensures Pow(a + b) == Pow(a) * Pow(b)
    decreases if b < 0 then -b else b
  {
    hide Pow;
    if b > 0 {
      PowAdd(a, b - 1);
      PowAddUp(a, b - 1);
    } else if b < 0 {
      PowAdd(a, b + 1);
      PowAddUp(a, b);
    } else {
      PowZero();
    }
  }

  lemma PowZero()
    ensures Pow(0) == 1.0
  {
  }

  lemma PowAddUp(a: int, b: int)
    ensures Pow(a + b) == Pow(a) * Pow(b) <==> Pow(a + (b + 1)) == Pow(a) * Pow(b + 1)
  {
    PowNext(a + b);
    PowNext(b);
    hide Pow;
    assert a + b + 1 == a + (b + 1);
    TakeOutTen(Pow(a), Pow(b), Pow(b + 1), Pow(a + b), Pow(a + b + 1));
  }

  lemma TakeOutTen(a: real, b: real, tenB: real, ab: real, tenAB: real)
    requires tenB == 10.0 * b && tenAB == 10.0 * ab
    ensures ab == a * b <==> tenAB == a * tenB
  {
    assert a * tenB == 10.0 * (a * b);
  }

  lemma {:induction false} PowMonotone(a: int, b: int)
    requires a <= b
    ensures Pow(a) <= Pow(b)
    decreases b - a
  {
    if a < b {
      PowMonotone(a, b - 1);
      PowNext(b - 1);
      PowPositive(b - 1);
    }
  }

  predicate IsWhole(x: real) { x == x.Floor as real }

  lemma WholeProduct(a: real, b: real)
    requires IsWhole(a) && IsWhole(b)
    ensures IsWhole(a * b)
  {
    assert a * b == (a.Floor * b.Floor) as real;
  }

  lemma {:induction false} PowWhole(e: nat)
    ensures IsWhole(Pow(e))
  {
    if e > 0 {
      PowWhole(e - 1);
      WholeProduct(10.0, Pow(e - 1));
    }
  }

  lemma Scale(x: real, y: real, m: real)
    requires m > 0.0
    ensures x <= y <==> x * m <= y * m
    ensures x < y <==> x * m < y * m
  {
    if x < y {
      assert (y - x) * m > 0.0;
    } else if y < x {
      assert (x - y) * m > 0.0;
    }
  }

  /** Products are named, so that the comparison is linear. */
  lemma Unscale(x: real, y: real, m: real, xm: real, ym: real)
    requires m > 0.0 && xm == x * m && ym == y * m && xm < ym
    ensures x < y
  {
    Scale(x, y, m);
  }

  lemma Negated(x: real, m: real, xm: real) returns (y: real)
    requires xm == x * m
    ensures y == -x && -xm == y * m
  {
    y := -x;
  }

  // ---------- nearest whole number ----------

  /** Nearest whole number, halves away from zero. */
  function Round(x: real): int {
    if x >= 0.0 then (x + 0.5).Floor else -((-x + 0.5).Floor)
  }

  /** Nearest whole number, halves to the even neighbour, found as the program does: split off
      the fraction toward zero and compare it with one half. */
  function RoundToEven(y: real): int {
    var f := if y >= 0.0 then y.Floor else -((-y).Floor);
    var frac := y - f as real;
    var absFrac := if frac < 0.0 then -frac else frac;
    var away := if y > 0.0 then f + 1 else f - 1;
    if absFrac < 0.5 then f
    else if absFrac > 0.5 then away
    else if f % 2 == 0 then f
    else away
  }

  lemma RoundIsNearest(x: real)
    ensures -0.5 <= Round(x) as real - x <= 0.5
  {
  }

  lemma RoundToEvenIsNearest(y: real)
    ensures -0.5 <= RoundToEven(y) as real - y <= 0.5
    ensures RoundToEven(y) as real - y == 0.5 || RoundToEven(y) as real - y == -0.5 ==> RoundToEven(y) % 2 == 0
  {
  }

  /** Rounding never swaps two numbers. */
  lemma NearestMonotone(x: real, y: real)
    requires x <= y
    ensures Round(x) <= Round(y) && RoundToEven(x) <= RoundToEven(y)
  {
    RoundIsNearest(x);
    RoundIsNearest(y);
    RoundToEvenIsNearest(x);
    RoundToEvenIsNearest(y);
  }

  // ---------- a decimal grid ----------

  /** `value` rounded to the grid with `scale` points per unit. */
  function Grid(value: real, scale: real): real
    requires scale != 0.0
  {
    Round(value * scale) as real / scale
  }

  /** Rounded numbers are grid points. */
  lemma OnGrid(value: real, scale: real)
    requires scale > 0.0
    ensures Grid(value, scale) * scale == Round(value * scale) as real
  {
    DivideBack(Round(value * scale) as real, scale);
  }

  /** Grid points are rounded to themselves. */
  lemma GridPointKept(value: real, scale: real, n: int)
    requires scale > 0.0 && value * scale == n as real
    ensures Grid(value, scale) == value
  {
    WholeRoundsToItself(n as real);
    assert Round(value * scale) == n;
    Undo(value, scale, n as real);
  }

  lemma Undo(a: real, b: real, product: real)
    requires b > 0.0 && a * b == product
    ensures product / b == a
  {
    DivideBack(product, b);
    Scale(a, product / b, b);
    Scale(product / b, a, b);
  }

  lemma DivideBack(a: real, b: real)
    requires b != 0.0
    ensures a / b * b == a
  {
  }

  lemma WholeRoundsToItself(x: real)
    requires IsWhole(x)
    ensures Round(x) as real == x && RoundToEven(x) as real == x
  {
    var n := x.Floor;
    FloorIs(x + 0.5, n);
    FloorIs(-x + 0.5, -n);
    FloorIs(-x, -n);
  }

  lemma FloorIs(x: real, n: int)
    requires n as real <= x < n as real + 1.0
    ensures x.Floor == n
  {
  }

  lemma FloorMonotone(x: real, y: real)
    ensures x <= y ==> x.Floor <= y.Floor
  {
  }

  lemma DivideMonotone(a: real, b: real, m: real)
    requires m > 0.0 && a <= b
    ensures a / m <= b / m
  {
    DivideBack(a, m);
    DivideBack(b, m);
    Scale(a / m, b / m, m);
  }

  lemma GridMonotone(x: real, y: real, scale: real)
    requires scale > 0.0 && x <= y
    ensures Grid(x, scale) <= Grid(y, scale)
  {
    var u, v := x * scale, y * scale;
    Scale(x, y, scale);
    NearestMonotone(u, v);
    DivideMonotone(Round(u) as real, Round(v) as real, scale);
  }

  /** The rounding error, in units of the grid, is at most one half. */
  lemma GridError(value: real, scale: real)
    requires scale > 0.0
    ensures -0.5 <= (Grid(value, scale) - value) * scale <= 0.5
  {
    OnGrid(value, scale);
    RoundIsNearest(value * scale);
    assert (Grid(value, scale) - value) * scale == Grid(value, scale) * scale - value * scale;
  }

  /** A number between two grid points is rounded to one between them. */
  lemma GridBetween(low: real, x: real, high: real, scale: real, m: int, n: int)
    requires scale > 0.0 && low <= x <= high
    requires low * scale == m as real && high * scale == n as real
    ensures low <= Grid(x, scale) <= high
  {
    GridMonotone(low, x, scale);
    GridMonotone(x, high, scale);
    GridPointKept(low, scale, m);
    GridPointKept(high, scale, n);
  }

  lemma GridIdempotent(x: real, scale: real)
    requires scale > 0.0
    ensures Grid(Grid(x, scale), scale) == Grid(x, scale)
  {
    OnGrid(x, scale);
    GridPointKept(Grid(x, scale), scale, Round(x * scale));
  }

  lemma FloorBetween(low: real, x: real, high: real)
    requires IsWhole(low) && low <= x < high
    ensures low <= x.Floor as real <= high
  {
    FloorMonotone(low, x);
  }
}
