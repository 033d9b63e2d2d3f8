/** Hyperliquid's price and size rounding, in exact arithmetic. */
module PriceRounding {
  import opened Decimals

  /** x has its leading digit at 10^e. */
  ghost predicate InDecade(x: real, e: int) { Pow(e) <= x < Pow(e + 1) }

  lemma DecadeUnique(x: real, a: int, b: int)
    requires InDecade(x, a) && InDecade(x, b)
    ensures a == b
  {
    if a < b {
      PowMonotone(a + 1, b);
    } else if b < a {
      PowMonotone(b + 1, a);
    }
  }

  /** Where the leading digit of a positive number is. */
  ghost function Decade(x: real): (e: int)
    requires x > 0.0
    ensures InDecade(x, e)
  {
    DecadeExists(x);
    var e :| InDecade(x, e);
    e
  }

  lemma {:induction false} DecadeExists(x: real)
    requires x > 0.0
    ensures exists e :: InDecade(x, e)
    decreases x < 1.0, if x < 1.0 then (1.0 / x).Floor else x.Floor
  {
    if x >= 10.0 {
      DecadeExists(x / 10.0);
      var e :| InDecade(x / 10.0, e);
      PowNext(e);
      PowNext(e + 1);
      assert InDecade(x, e + 1);
    } else if x >= 1.0 {
      assert InDecade(x, 0);
    } else {
      UpscaleProgress(x);
      DecadeExists(x * 10.0);
      var e :| InDecade(x * 10.0, e);
      PowNext(e - 1);
      PowNext(e);
      assert InDecade(x, e - 1);
    }
  }

  /** Multiplying a number below one by ten lowers the whole part of its inverse. */
  lemma UpscaleProgress(x: real)
    requires 0.0 < x < 1.0
    ensures 1.0 / (x * 10.0) == (1.0 / x) / 10.0
    ensures 0 <= (1.0 / (x * 10.0)).Floor < (1.0 / x).Floor
  {
    var inverse := 1.0 / x;
    assert inverse * x == 1.0;
    assert inverse > 1.0 by {
      Scale(inverse, 1.0, x);
    }
    assert (inverse / 10.0) * (x * 10.0) == 1.0;
    DivideBack(1.0, x * 10.0);
    Scale(inverse / 10.0, 1.0 / (x * 10.0), x * 10.0);
    Scale(1.0 / (x * 10.0), inverse / 10.0, x * 10.0);
  }

  /** A positive number rounded to `sig` significant figures, given the decade it lies in. Whole
      digits are never dropped: from `sig` whole digits on, only the fraction is cut off. */
  ghost function Significant(x: real, sig: int, e: int): real {
    PowPositive(sig - 1 - e);
    if sig - 1 - e > 0 then Grid(x, Pow(sig - 1 - e)) else x.Floor as real
  }

  ghost function SigRound(price: real, sig: int): real {
    if sig <= 0 then price
    else if price == 0.0 then 0.0
    else if price > 0.0 then Significant(price, sig, Decade(price))
    else -Significant(-price, sig, Decade(-price))
  }

  // ---------- the program ----------

  function RoundToDecimals(value: real, decimals: nat): real {
    PowPositive(decimals);
    Grid(value, Pow(decimals))
  }

  function CopySign(magnitude: real, sign: real): real { if sign < 0.0 then -magnitude else magnitude }

  function Magnitude(price: real): real { if price < 0.0 then -price else price }

  method RoundToSignificantFigures(price: real, sigFigs: int) returns (r: real)
    ensures r == SigRound(price, sigFigs)
  {
    if sigFigs <= 0 {
      return price;
    }
    if price == 0.0 {
      return 0.0;
    }
    var absPrice := Magnitude(price);
    var integerPart := absPrice.Floor;
    if integerPart > 0 {
      var numIntegerDigits := 0;
      var temp := integerPart;
      while temp > 0
        invariant DigitsLeft(absPrice, temp, numIntegerDigits)
        decreases temp
      {
        DropDigit(absPrice, temp, numIntegerDigits);
        temp := temp / 10;
        numIntegerDigits := numIntegerDigits + 1;
      }
      WithWholeDigits(price, sigFigs, numIntegerDigits);
      if numIntegerDigits >= sigFigs {
        return CopySign(integerPart as real, price);
      }
      var sigFigsLeft := sigFigs - numIntegerDigits;
      var rounded := RoundToDecimals(absPrice, sigFigsLeft);
      return CopySign(rounded, price);
    }
    var multiplications := 0;
    while absPrice < 1.0
      invariant Upscaled(Magnitude(price), absPrice, multiplications)
      decreases if absPrice < 1.0 then (1.0 / absPrice).Floor else -1
    {
      UpscaleProgress(absPrice);
      UpscaleOnce(Magnitude(price), absPrice, multiplications);
      absPrice := absPrice * 10.0;
      multiplications := multiplications + 1;
    }
    var rounded := RoundToDecimals(absPrice, sigFigs - 1);
    WithoutWholeDigits(price, sigFigs, absPrice, multiplications);
    PowPositive(multiplications);
    return CopySign(rounded / Pow(multiplications), price);
  }

  /** n digits of the whole part of x have been dropped and `temp` is what is left of it. */
  ghost predicate DigitsLeft(x: real, temp: int, n: int) {
    && temp >= 0 && n >= 0
    && temp as real * Pow(n) <= x < (temp + 1) as real * Pow(n)
    && (temp == 0 ==> n > 0 && Pow(n - 1) <= x)
  }

  /** `scaled` is x multiplied by ten m times. */
  ghost predicate Upscaled(x: real, scaled: real, m: int) {
    m >= 0 && 0.0 < scaled < 10.0 && scaled == x * Pow(m)
  }

  lemma DropDigitBounds(x: real, temp: real, q: real, p: real, ten: real)
    requires p > 0.0 && ten == 10.0 * p
    requires 10.0 * q <= temp && temp + 1.0 <= 10.0 * (q + 1.0)
    requires temp * p <= x < (temp + 1.0) * p
    ensures q * ten <= x < (q + 1.0) * ten
  {
    TenFoldBelow(x, temp, q, p, ten);
    TenFoldAbove(x, temp + 1.0, q + 1.0, p, ten);
  }

  lemma TenFoldBelow(x: real, t: real, q: real, p: real, ten: real)
    requires p > 0.0 && ten == 10.0 * p && 10.0 * q <= t && t * p <= x
    ensures q * ten <= x
  {
    Scale(10.0 * q, t, p);
    TimesTen(q, p, ten);
    TimesTen(p, q, 10.0 * q);
  }

  lemma TenFoldAbove(x: real, t: real, q: real, p: real, ten: real)
    requires p > 0.0 && ten == 10.0 * p && t <= 10.0 * q && x < t * p
    ensures x < q * ten
  {
    Scale(t, 10.0 * q, p);
    TimesTen(q, p, ten);
    TimesTen(p, q, 10.0 * q);
  }

  lemma TimesTen(q: real, p: real, ten: real)
    requires ten == 10.0 * p
    ensures q * ten == 10.0 * (q * p)
  {
  }

  /** Integer division by ten drops the last digit of the whole part. */
  lemma DropDigit(x: real, temp: int, n: int)
    requires temp > 0 && DigitsLeft(x, temp, n)
    ensures DigitsLeft(x, temp / 10, n + 1)
  {
    PowNext(n);
    PowPositive(n);
    DropDigitBounds(x, temp as real, (temp / 10) as real, Pow(n), Pow(n + 1));
    Scale(1.0, temp as real, Pow(n));
    assert 1.0 <= temp as real;
    assert Pow(n) <= temp as real * Pow(n);
    assert n + 1 - 1 == n;
  }

  lemma UpscaleOnce(x: real, scaled: real, m: int)
    requires Upscaled(x, scaled, m) && scaled < 1.0
    ensures Upscaled(x, scaled * 10.0, m + 1)
  {
    PowNext(m);
    TakeOutTen(x, Pow(m), Pow(m + 1), scaled, scaled * 10.0);
  }

  lemma WithWholeDigits(price: real, sig: int, n: int)
    requires sig > 0 && price != 0.0 && DigitsLeft(Magnitude(price), 0, n)
    ensures n >= sig ==> SigRound(price, sig) == CopySign(Magnitude(price).Floor as real, price)
    ensures n < sig ==> SigRound(price, sig) == CopySign(RoundToDecimals(Magnitude(price), sig - n), price)
  {
    DecadeUnique(Magnitude(price), n - 1, Decade(Magnitude(price)));
  }

  lemma UpscaledDecade(x: real, scaled: real, m: int)
    requires Upscaled(x, scaled, m) && scaled >= 1.0
    ensures InDecade(x, -m)
  {
    PowAdd(-m, m);
    PowAdd(1 - m, m);
    PowPositive(m);
    Scale(Pow(-m), x, Pow(m));
    Scale(x, Pow(1 - m), Pow(m));
    assert Pow(1) == 10.0;
  }

  /** Scaling up, rounding and scaling back is rounding on a finer grid. */
  lemma UpscaledGrid(x: real, a: real, b: real, c: real)
    requires a > 0.0 && b > 0.0 && c > 0.0 && c == b * a
    ensures Grid(x * a, b) / a == Grid(x, c)
  {
    var u, v := x * a * b, x * c;
    assert u == v by {
      Regroup(x, a, b);
    }
    var r := Round(v) as real;
    assert Grid(x * a, b) == r / b;
    DivideTwice(r, b, a, c);
  }

  lemma Regroup(x: real, a: real, b: real)
    ensures x * a * b == x * (b * a)
  {
  }

  lemma DivideTwice(a: real, b: real, c: real, product: real)
    requires b > 0.0 && c > 0.0 && product > 0.0 && product == b * c
    ensures a / b / c == a / product
  {
    var q := a / product;
    DivideBack(a, product);
    Regroup(q, c, b);
    assert a == q * c * b;
    assert a / b == q * c;
  }

  lemma ScaledBack(x: real, scaled: real, sig: int, m: int)
    requires sig > 0 && m > 0 && scaled == x * Pow(m)
    ensures Pow(m) > 0.0
    ensures RoundToDecimals(scaled, sig - 1) / Pow(m) == Significant(x, sig, -m)
  {
    PowPositive(m);
    PowPositive(sig - 1);
    PowPositive(sig - 1 + m);
    PowAdd(sig - 1, m);
    UpscaledGrid(x, Pow(m), Pow(sig - 1), Pow(sig - 1 + m));
    assert RoundToDecimals(scaled, sig - 1) == Grid(x * Pow(m), Pow(sig - 1));
    assert sig - 1 - (-m) == sig - 1 + m;
    assert Significant(x, sig, -m) == Grid(x, Pow(sig - 1 + m));
  }

  lemma UpscaledAtLeastOnce(x: real, scaled: real, m: int)
    requires Upscaled(x, scaled, m) && x < 1.0 <= scaled
    ensures m > 0
  {
    assert Pow(0) == 1.0;
  }

  lemma WithoutWholeDigits(price: real, sig: int, scaled: real, m: int)
    requires sig > 0 && price != 0.0 && Magnitude(price) < 1.0
    requires Upscaled(Magnitude(price), scaled, m) && scaled >= 1.0
    ensures Pow(m) > 0.0
    ensures SigRound(price, sig) == CopySign(RoundToDecimals(scaled, sig - 1) / Pow(m), price)
  {
    var x := Magnitude(price);
    UpscaledAtLeastOnce(x, scaled, m);
    ScaledBack(x, scaled, sig, m);
    UpscaledDecade(x, scaled, m);
    DecadeUnique(x, -m, Decade(x));
    var magnitude := RoundToDecimals(scaled, sig - 1) / Pow(m);
    assert Significant(x, sig, Decade(x)) == magnitude;
    SigRoundByMagnitude(price, sig, magnitude);
  }

  lemma SigRoundByMagnitude(price: real, sig: int, magnitude: real)
    requires sig > 0 && price != 0.0
    requires magnitude == Significant(Magnitude(price), sig, Decade(Magnitude(price)))
    ensures SigRound(price, sig) == CopySign(magnitude, price)
  {
  }

  // ---------- what the rounding is ----------

  /** A power of ten is a point of any grid fine enough. */
  lemma PowerOnGrid(e: int, d: int)
    requires e + d >= 0
    ensures Pow(e) * Pow(d) == Pow(e + d).Floor as real
  {
    PowAdd(e, d);
    PowWhole(e + d);
  }

  lemma FineGridStays(x: real, e: int, d: int)
    requires d > 0 && e + d >= 0 && InDecade(x, e)
    ensures Pow(d) > 0.0 && Pow(e) <= Grid(x, Pow(d)) <= Pow(e + 1)
  {
    hide Pow, Grid;
    PowPositive(d);
    PowerOnGrid(e, d);
    PowerOnGrid(e + 1, d);
    var m, n := Pow(e + d).Floor, Pow(e + 1 + d).Floor;
    assert Pow(e) * Pow(d) == m as real;
    assert Pow(e + 1) * Pow(d) == n as real;
    GridBetween(Pow(e), x, Pow(e + 1), Pow(d), m, n);
  }

  lemma CoarseGridStays(x: real, e: int)
    requires e >= 0 && InDecade(x, e)
    ensures Pow(e) <= x.Floor as real <= Pow(e + 1)
  {
    PowWhole(e);
    hide Pow;
    FloorBetween(Pow(e), x, Pow(e + 1));
  }

  /** Both ends of the decade are kept, so rounding never leaves the closed decade. */
  lemma StaysInDecade(x: real, sig: int, e: int)
    requires sig > 0 && InDecade(x, e)
    ensures Pow(e) <= Significant(x, sig, e) <= Pow(e + 1)
  {
    hide Pow, Grid;
    var d := sig - 1 - e;
    if d > 0 {
      FineGridStays(x, e, d);
    } else {
      CoarseGridStays(x, e);
    }
  }

  lemma SameDecadeMonotone(x: real, y: real, sig: int, e: int)
    requires x <= y
    ensures Significant(x, sig, e) <= Significant(y, sig, e)
  {
    PowPositive(sig - 1 - e);
    if sig - 1 - e > 0 {
      GridMonotone(x, y, Pow(sig - 1 - e));
    } else {
      FloorMonotone(x, y);
    }
  }

  lemma PositiveMonotone(x: real, y: real, sig: int)
    requires sig > 0 && 0.0 < x <= y
    ensures 0.0 < SigRound(x, sig) <= SigRound(y, sig)
  {
    var a, b := Decade(x), Decade(y);
    StaysInDecade(x, sig, a);
    StaysInDecade(y, sig, b);
    PowPositive(a);
    if a == b {
      SameDecadeMonotone(x, y, sig, a);
    } else {
      DecadesOrdered(x, y, a, b);
      PowMonotone(a + 1, b);
    }
  }

  lemma DecadesOrdered(x: real, y: real, a: int, b: int)
    requires InDecade(x, a) && InDecade(y, b) && x <= y
    ensures a <= b
  {
    if b < a {
      PowMonotone(b + 1, a);
    }
  }

  /** Rounding is odd. */
  lemma SigRoundOdd(price: real, sig: int)
    ensures SigRound(-price, sig) == -SigRound(price, sig)
  {
  }

  /** Rounding is monotone over all prices, across zero and every change in digit count. */
  lemma SigRoundMonotone(x: real, y: real, sig: int)
    requires x <= y
    ensures SigRound(x, sig) <= SigRound(y, sig)
  {
    if sig > 0 {
      if x > 0.0 {
        PositiveMonotone(x, y, sig);
      } else if y < 0.0 {
        PositiveMonotone(-y, -x, sig);
      } else {
        if x < 0.0 {
          PositiveMonotone(-x, -x, sig);
        }
        if y > 0.0 {
          PositiveMonotone(y, y, sig);
        }
      }
    }
  }

  /** A rounded number is one of the numbers rounding keeps: a point of its decade's grid. */
  lemma SignificantIsKept(x: real, sig: int, e: int)
    requires sig > 0
    ensures Significant(Significant(x, sig, e), sig, e) == Significant(x, sig, e)
  {
    PowPositive(sig - 1 - e);
    if sig - 1 - e > 0 {
      GridIdempotent(x, Pow(sig - 1 - e));
    } else {
      FloorIs(x.Floor as real, x.Floor);
    }
  }

  lemma PowerOnGridKept(e: int, d: int, point: real, scale: real)
    requires d > 0 && e + d >= 0 && point == Pow(e) && scale == Pow(d)
    ensures scale > 0.0 && Grid(point, scale) == point
  {
    PowPositive(d);
    PowerOnGrid(e, d);
    GridPointKept(point, scale, Pow(e + d).Floor);
  }

  lemma PowerOfTenIsKept(e: int, sig: int)
    requires sig > 0
    ensures Significant(Pow(e), sig, e) == Pow(e)
  {
    if sig - 1 - e > 0 {
      PowerOnGridKept(e, sig - 1 - e, Pow(e), Pow(sig - 1 - e));
    } else {
      PowWhole(e);
    }
  }

  lemma PositiveIdempotent(x: real, sig: int)
    requires sig > 0 && x > 0.0
    ensures SigRound(SigRound(x, sig), sig) == SigRound(x, sig)
  {
    var e := Decade(x);
    var r := Significant(x, sig, e);
    StaysInDecade(x, sig, e);
    PowPositive(e);
    if r < Pow(e + 1) {
      DecadeUnique(r, e, Decade(r));
      SignificantIsKept(x, sig, e);
    } else {
      PowNext(e + 1);
      PowPositive(e + 1);
      DecadeUnique(r, e + 1, Decade(r));
      PowerOfTenIsKept(e + 1, sig);
    }
  }

  /** Rounding twice is rounding once. */
  lemma SigRoundIdempotent(price: real, sig: int)
    ensures SigRound(SigRound(price, sig), sig) == SigRound(price, sig)
  {
    if sig > 0 && price > 0.0 {
      PositiveIdempotent(price, sig);
    } else if sig > 0 && price < 0.0 {
      PositiveIdempotent(-price, sig);
      PositiveMonotone(-price, -price, sig);
      SigRoundOdd(SigRound(-price, sig), sig);
    }
  }

  /** What a positive price in decade e is rounded to: the nearest number with `sig` significant
      figures, the larger of two equally near; or its whole part, once that has all the figures. */
  lemma RoundsToNearestFigure(x: real, sig: int, e: int) returns (n: int)
    requires sig > 0 && InDecade(x, e) && x > 0.0
    ensures var d := sig - 1 - e;
            if d > 0 then
              SigRound(x, sig) * Pow(d) == n as real && -0.5 < n as real - x * Pow(d) <= 0.5
            else SigRound(x, sig) == n as real && n as real <= x < n as real + 1.0
  {
    hide Pow, Grid, SigRound;
    var d := sig - 1 - e;
    PowPositive(d);
    SigRoundIn(x, sig, e);
    if d > 0 {
      n := NearestOnGrid(x, Pow(d), x * Pow(d));
    } else {
      n := x.Floor;
    }
  }

  lemma SigRoundIn(x: real, sig: int, e: int)
    requires sig > 0 && x > 0.0 && InDecade(x, e)
    ensures SigRound(x, sig) == Significant(x, sig, e)
  {
    hide Pow, Grid;
    DecadeUnique(x, e, Decade(x));
  }

  lemma NearestOnGrid(x: real, scale: real, scaled: real) returns (n: int)
    requires x > 0.0 && scale > 0.0 && scaled == x * scale
    ensures Grid(x, scale) * scale == n as real && -0.5 < n as real - scaled <= 0.5
  {
    n := Round(scaled);
    OnGrid(x, scale);
    Scale(0.0, x, scale);
    RoundsHalvesUp(scaled);
    hide Grid, Round;
  }

  lemma RoundsHalvesUp(x: real)
    requires x > 0.0
    ensures -0.5 < Round(x) as real - x <= 0.5
  {
  }

  /** One unit of the last significant figure, relative to a number in the decade. */
  lemma LastFigure(x: real, sig: int, e: int)
    requires InDecade(x, e)
    ensures Pow(e + (1 - sig)) <= x * Pow(1 - sig)
  {
    PowPositive(1 - sig);
    PowAdd(e, 1 - sig);
    Scale(Pow(e), x, Pow(1 - sig));
  }

  lemma DecadeError(x: real, sig: int, e: int)
    requires sig > 0 && InDecade(x, e)
    ensures Magnitude(Significant(x, sig, e) - x) < Pow(e + (1 - sig))
  {
    var d := sig - 1 - e;
    if d > 0 {
      PowPositive(d);
      PowPositive(-d);
      PowAdd(-d, d);
      GridError(x, Pow(d));
      HalfAGridStep(Grid(x, Pow(d)) - x, Pow(d), Pow(-d));
    } else {
      PowMonotone(0, -d);
    }
  }

  /** The relative error stays below 10^(1 - sig). */
  lemma RelativeError(x: real, sig: int)
    requires sig > 0 && x > 0.0
    ensures Magnitude(SigRound(x, sig) - x) < x * Pow(1 - sig)
  {
    DecadeError(x, sig, Decade(x));
    LastFigure(x, sig, Decade(x));
  }

  lemma HalfAGridStep(error: real, scale: real, step: real)
    requires scale > 0.0 && step > 0.0 && step * scale == 1.0
    requires -0.5 <= error * scale <= 0.5
    ensures Magnitude(error) < step
  {
    var scaled := error * scale;
    Unscale(error, step, scale, scaled, 1.0);
    var lowest := Negated(step, scale, 1.0);
    Unscale(lowest, error, scale, -1.0, scaled);
  }

  // ---------- the two roundings callers use ----------

  const DEFAULT_SIG_FIGS := 5

  datatype CoinConstraints = CoinConstraints(sizeStep: real, priceSigFigs: int, minNotional: real) {

    /** Significant figures in force: five unless the coin says otherwise. */
    function SigFigs(): (sig: int)
      ensures sig > 0
    {
      if priceSigFigs <= 0 then DEFAULT_SIG_FIGS else priceSigFigs
    }

    ghost function Price(price: real): real { SigRound(price, SigFigs()) }

    method RoundPrice(price: real) returns (r: real)
      ensures r == Price(price) == SigRound(price, if priceSigFigs > 0 then priceSigFigs else 5)
    {
      r := RoundToSignificantFigures(price, SigFigs());
    }

    function RoundSize(size: real): real {
      if sizeStep <= 0.0 then size else Round(size / sizeStep) as real * sizeStep
    }

    predicate NotionalBelowMinimum(size: real, price: real) {
      minNotional > 0.0 && Magnitude(size * price) + 0.000000000001 < minNotional
    }

    /** A rounded size is the nearest whole number of lots. */
    lemma RoundSizeIsNearestLot(size: real)
      requires sizeStep > 0.0
      ensures Magnitude(RoundSize(size) - size) <= 0.5 * sizeStep
      ensures RoundSize(RoundSize(size)) == RoundSize(size)
    {
      RoundedLot(size, sizeStep, size / sizeStep, RoundSize(size));
    }
  }

  lemma RoundedLot(size: real, step: real, lots: real, rounded: real)
    requires step > 0.0 && lots == size / step && rounded == Round(lots) as real * step
    ensures Magnitude(rounded - size) <= 0.5 * step
    ensures Round(rounded / step) == Round(lots)
  {
    LotsKept(Round(lots), step, rounded);
    DivideBack(size, step);
    RoundIsNearest(lots);
    hide Round;
    NearestLot(size, step, lots, Round(lots) as real, Round(lots) as real - lots);
  }

  lemma NearestLot(size: real, step: real, lots: real, n: real, off: real)
    requires step > 0.0 && lots * step == size && off == n - lots && -0.5 <= off <= 0.5
    ensures Magnitude(n * step - size) <= 0.5 * step
  {
    Scale(off, 0.5, step);
    Scale(-0.5, off, step);
    Distribute(n, lots, step, off);
    assert off * step <= 0.5 * step;
    assert -0.5 * step <= off * step;
    assert off * step == n * step - lots * step;
    assert n * step - size == off * step;
  }

  lemma LotsKept(n: int, step: real, product: real)
    requires step > 0.0 && product == n as real * step
    ensures Round(product / step) == n
  {
    WholeRoundsToItself(n as real);
    Undo(n as real, step, product);
  }

  lemma Distribute(a: real, b: real, c: real, d: real)
    requires d == a - b
    ensures d * c == a * c - b * c
  {
  }
}
