/**
 * Python's built-in `round(x, n)` on an exact real value: round to the nearest
 * multiple of 1/10^n, ties to the even neighbour.  The model works on exact
 * reals, so the binary representation of floats is not part of it.
 */
module Rounding {

  /** 10^digits, the scale of a rounding to `digits` decimal places. */
  function Scale(digits: nat): (p: nat)
    ensures p >= 1
  {
    if digits == 0 then 1 else 10 * Scale(digits - 1)
  }

  /** The integer nearest to `y`, ties to the even one. */
  function RoundHalfEvenInt(y: real): (m: int)
    ensures y - 1.0 / 2.0 <= m as real <= y + 1.0 / 2.0
    ensures (y.Floor as real == y) ==> m as real == y
  {
    var n := y.Floor;
    var frac := y - n as real;
    if frac < 1.0 / 2.0 then n
    else if frac > 1.0 / 2.0 then n + 1
    else if n % 2 == 0 then n
    else n + 1
  }

  /** The multiple of 1/p nearest to `x`, ties to the even multiple. */
  function RoundToMultiple(x: real, p: real): real
    requires p >= 1.0
  {
    RoundHalfEvenInt(x * p) as real / p
  }

  /** `round(x, digits)`. */
  function Round(x: real, digits: nat): real
  {
    RoundToMultiple(x, Scale(digits) as real)
  }

  /** A value exactly halfway between two integers is rounded to the even one. */
  lemma RoundHalfEvenIntTiesToEven(y: real)
    requires y - y.Floor as real == 1.0 / 2.0
    ensures RoundHalfEvenInt(y) % 2 == 0
    ensures RoundHalfEvenInt(y) == y.Floor || RoundHalfEvenInt(y) == y.Floor + 1
  {
  }

  lemma {:induction false} RoundHalfEvenIntMonotone(y: real, z: real)
    requires y <= z
    ensures RoundHalfEvenInt(y) <= RoundHalfEvenInt(z)
  {
    var ny, nz := y.Floor, z.Floor;
    if ny < nz {
      assert RoundHalfEvenInt(y) <= ny + 1 <= nz <= RoundHalfEvenInt(z);
    } else {
      assert ny == nz;
      assert y - ny as real <= z - nz as real;
    }
  }

  lemma MulMonotone(a: real, b: real, p: real)
    requires a <= b && p > 0.0
    ensures a * p <= b * p
  {
    assert (b - a) * p >= 0.0;
  }

  lemma DivMonotone(a: real, b: real, p: real)
    requires a <= b && p > 0.0
    ensures a / p <= b / p
  {
    assert a / p == a * (1.0 / p) && b / p == b * (1.0 / p);
    MulMonotone(a, b, 1.0 / p);
  }

  lemma RoundToMultipleIsNearest(x: real, p: real)
    requires p >= 1.0
    ensures -1.0 / 2.0 <= (RoundToMultiple(x, p) - x) * p <= 1.0 / 2.0
  {
    assert (RoundToMultiple(x, p) - x) * p == RoundHalfEvenInt(x * p) as real - x * p;
  }

  lemma RoundToMultipleMonotone(x: real, y: real, p: real)
    requires x <= y && p >= 1.0
    ensures RoundToMultiple(x, p) <= RoundToMultiple(y, p)
  {
    MulMonotone(x, y, p);
    RoundHalfEvenIntMonotone(x * p, y * p);
    DivMonotone(RoundHalfEvenInt(x * p) as real, RoundHalfEvenInt(y * p) as real, p);
  }

  lemma MulDivCancel(a: real, p: real)
    requires p != 0.0
    ensures (a * p) / p == a
  {
  }

  /** A whole number is a multiple of 1/n for every whole n, so it is left unchanged. */
  lemma RoundToMultipleExact(k: int, n: int)
    requires n >= 1
    ensures RoundToMultiple(k as real, n as real) == k as real
  {
    var y := k as real * n as real;
    assert y == (k * n) as real;
    assert RoundHalfEvenInt(y) as real == y;
    MulDivCancel(k as real, n as real);
  }

  /** `round(x, 1)` is a whole number of tenths. */
  lemma RoundTenthOnGrid(x: real)
    ensures (Round(x, 1) * 10.0).Floor as real == Round(x, 1) * 10.0
  {
    assert Scale(1) == 10;
    var m := RoundHalfEvenInt(x * 10.0);
    assert Round(x, 1) == m as real / 10.0;
    assert (m as real).Floor == m;
  }

  /** Rounding moves a value by at most half a unit in the last place. */
  lemma RoundIsNearest(x: real, digits: nat)
    ensures -1.0 / 2.0 <= (Round(x, digits) - x) * Scale(digits) as real <= 1.0 / 2.0
  {
    RoundToMultipleIsNearest(x, Scale(digits) as real);
  }

  /** Rounding is monotone: it never reverses the order of two values. */
  lemma RoundMonotone(x: real, y: real, digits: nat)
    requires x <= y
    ensures Round(x, digits) <= Round(y, digits)
  {
    RoundToMultipleMonotone(x, y, Scale(digits) as real);
  }

  /** Rounding keeps a value inside any interval whose ends are whole numbers. */
  lemma RoundWithin(x: real, lo: int, hi: int, digits: nat)
    requires lo as real <= x <= hi as real
    ensures lo as real <= Round(x, digits) <= hi as real
  {
    RoundMonotone(lo as real, x, digits);
    RoundMonotone(x, hi as real, digits);
    RoundToMultipleExact(lo, Scale(digits));
    RoundToMultipleExact(hi, Scale(digits));
  }
}
