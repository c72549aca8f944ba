/** Decimal rounding as the services use it: Python's `round(value, digits)` is rounding
    to the nearest multiple of a unit, with exact halves going to the even multiple. */
module Grid {

  /** Nearest integer, ties to even. */
  function RoundHalfEven(x: real): int {
    var low := x.Floor;
    var rest := x - low as real;
    if rest < 0.5 then low
    else if rest > 0.5 then low + 1
    else if low % 2 == 0 then low else low + 1
  }

  function RoundTo(x: real, unit: real): real
    requires unit > 0.0
  {
    RoundHalfEven(x / unit) as real * unit
  }

  ghost predicate OnGrid(x: real, unit: real)
  {
    exists k: int :: x == Multiple(k, unit)
  }

  function Multiple(k: int, unit: real): real {
    k as real * unit
  }

  lemma RoundHalfEvenMonotone(x: real, y: real)
    requires x <= y
    ensures RoundHalfEven(x) <= RoundHalfEven(y)
  {
    assert x.Floor <= y.Floor;
  }

  lemma RoundHalfEvenNearest(x: real)
    ensures -0.5 <= RoundHalfEven(x) as real - x <= 0.5
  {
  }

  lemma RoundHalfEvenInteger(n: int)
    ensures RoundHalfEven(n as real) == n
  {
  }

  lemma DivMonotone(x: real, y: real, unit: real)
    requires unit > 0.0 && x <= y
    ensures x / unit <= y / unit
  {
    assert (y - x) / unit >= 0.0;
  }

  lemma DivMultiple(k: int, unit: real)
    requires unit > 0.0
    ensures Multiple(k, unit) / unit == k as real
  {
  }

  lemma ProductSign(x: real, unit: real)
    requires unit > 0.0
    ensures x > 0.0 ==> x * unit > 0.0
    ensures x == 0.0 ==> x * unit == 0.0
    ensures x < 0.0 ==> x * unit < 0.0
  {
  }

  lemma DivThenTimes(x: real, unit: real)
    requires unit != 0.0
    ensures x / unit * unit == x
  {
  }

  lemma ScaledGap(x: real, y: real, c: real, unit: real, mx: real, my: real, mc: real, gap: real)
    requires mx == x * unit && my == y * unit && mc == c * unit && gap == y + c - x
    ensures gap * unit == my + mc - mx
  {
    assert gap * unit == (y + c - x) * unit;
  }

  /** Scaling by a positive unit keeps the order of x and y + c, both ways. The scaled
      values come as arguments so that callers reason about them linearly. */
  lemma ScaledOrder(x: real, y: real, c: real, unit: real, mx: real, my: real, mc: real)
    requires unit > 0.0
    requires mx == x * unit && my == y * unit && mc == c * unit
    ensures x < y + c ==> mx < my + mc
    ensures x == y + c ==> mx == my + mc
    ensures x > y + c ==> mx > my + mc
  {
    var gap := y + c - x;
    ScaledGap(x, y, c, unit, mx, my, mc, gap);
    ProductSign(gap, unit);
  }

  lemma CompareMultiples(a: int, b: int, unit: real)
    requires unit > 0.0
    ensures Multiple(a, unit) <= Multiple(b, unit) <==> a <= b
    ensures Multiple(0, unit) == 0.0 && Multiple(1, unit) == unit
  {
    ScaledOrder(a as real, b as real, 0.0, unit, Multiple(a, unit), Multiple(b, unit), 0.0);
  }

  /** A positive factor determines the other. */
  lemma SameFactor(x: real, y: real, unit: real, product: real)
    requires unit > 0.0 && x * unit == product && y * unit == product
    ensures x == y
  {
    ScaledOrder(x, y, 0.0, unit, product, product, 0.0);
  }

  lemma OneMoreTimes(x: real, n: real, more: real)
    requires more == n + 1.0
    ensures x * more == x * n + x
  {
  }

  lemma RoundToMonotone(x: real, y: real, unit: real)
    requires unit > 0.0 && x <= y
    ensures RoundTo(x, unit) <= RoundTo(y, unit)
  {
    DivMonotone(x, y, unit);
    RoundHalfEvenMonotone(x / unit, y / unit);
    CompareMultiples(RoundHalfEven(x / unit), RoundHalfEven(y / unit), unit);
    assert RoundTo(x, unit) == Multiple(RoundHalfEven(x / unit), unit);
    assert RoundTo(y, unit) == Multiple(RoundHalfEven(y / unit), unit);
  }

  /** Values already on the grid are left alone. */
  lemma RoundToOnGrid(x: real, unit: real)
    requires unit > 0.0 && OnGrid(x, unit)
    ensures RoundTo(x, unit) == x
  {
    var k: int :| x == Multiple(k, unit);
    DivMultiple(k, unit);
    RoundHalfEvenInteger(k);
  }

  /** Only they are. */
  lemma RoundToFixes(x: real, unit: real)
    requires unit > 0.0
    ensures RoundTo(x, unit) == x <==> OnGrid(x, unit)
  {
    assert RoundTo(x, unit) == Multiple(RoundHalfEven(x / unit), unit);
    if OnGrid(x, unit) {
      RoundToOnGrid(x, unit);
    }
  }

  /** Rounding lands on the grid and moves a value by at most half a unit. */
  lemma RoundToNearest(x: real, unit: real)
    requires unit > 0.0
    ensures OnGrid(RoundTo(x, unit), unit)
    ensures x - unit / 2.0 <= RoundTo(x, unit) <= x + unit / 2.0
  {
    var q := x / unit;
    var k := RoundHalfEven(q);
    assert RoundTo(x, unit) == Multiple(k, unit);
    RoundHalfEvenNearest(q);
    DivThenTimes(x, unit);
    ScaledOrder(q, k as real, 0.5, unit, x, Multiple(k, unit), 0.5 * unit);
    ScaledOrder(k as real, q, 0.5, unit, Multiple(k, unit), x, 0.5 * unit);
  }

  /** A bound on the grid survives rounding, from either side. */
  lemma RoundToKeepsBound(x: real, bound: real, unit: real)
    requires unit > 0.0 && OnGrid(bound, unit)
    ensures bound <= x ==> bound <= RoundTo(x, unit)
    ensures x <= bound ==> RoundTo(x, unit) <= bound
  {
    RoundToOnGrid(bound, unit);
    if bound <= x {
      RoundToMonotone(bound, x, unit);
    }
    if x <= bound {
      RoundToMonotone(x, bound, unit);
    }
  }
}
