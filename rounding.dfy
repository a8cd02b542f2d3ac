/** Rounding for display. numpy rounds to `d` decimals by scaling with 10^d,
    rounding to the nearest integer with ties to even, and scaling back; the
    model does this on exact reals. tds gets 0 decimals, the others 2. */
module Rounding {
  import opened Readings

  function Pow10(n: nat): (r: nat)
    ensures r >= 1
  {
    if n == 0 then 1 else 10 * Pow10(n - 1)
  }

  /** The grid step of `places` decimals is 1 / Scale(places). */
  function Scale(places: nat): (s: real)
    ensures s >= 1.0
  {
    Pow10(places) as real
  }

  /** The nearest integer to `x`, ties going to the even neighbour. */
  function RoundHalfEven(x: real): (k: int)
    ensures x - 0.5 <= k as real <= x + 0.5
  {
    var f := x.Floor;
    var frac := x - f as real;
    if frac < 0.5 then f
    else if frac > 0.5 then f + 1
    else if f % 2 == 0 then f
    else f + 1
  }

  /** The grid point `k` steps above 0. */
  function Unscale(k: int, places: nat): real {
    k as real / Scale(places)
  }

  /** `round(v, places)`. */
  function RoundTo(v: real, places: nat): (r: real)
    ensures OnGrid(r, places)
  {
    UnscaleOnGrid(RoundHalfEven(v * Scale(places)), places);
    Unscale(RoundHalfEven(v * Scale(places)), places)
  }

  predicate IsInteger(x: real) {
    x.Floor as real == x
  }

  /** `v` is a multiple of 10^-places. */
  predicate OnGrid(v: real, places: nat) {
    IsInteger(v * Scale(places))
  }

  /** The number of decimals each measurement is displayed with. */
  function Places(m: Measure): nat {
    if m == Tds then 0 else 2
  }

  /** A whole column rounded to its measurement's precision: every value is on
      the grid, within half a step of the original, and still in range. */
  function RoundColumn(m: Measure, c: seq<real>): (r: seq<real>)
    ensures |r| == |c|
    ensures forall i :: 0 <= i < |c| ==> OnGrid(r[i], Places(m))
    ensures forall i :: 0 <= i < |c| ==>
              -0.5 / Scale(Places(m)) <= r[i] - c[i] <= 0.5 / Scale(Places(m))
    ensures forall i :: 0 <= i < |c| && InRange(m, c[i]) ==> InRange(m, r[i])
  {
    RoundColumnFacts(m, c);
    seq(|c|, i requires 0 <= i < |c| => RoundTo(c[i], Places(m)))
  }

  // ---- arithmetic helpers, each kept apart so that no proof below mixes
  //      a product inequality with the definitions ----

  lemma ScaleMonotone(v: real, w: real, s: real)
    requires v <= w && s > 0.0
    ensures v * s <= w * s
  {
    assert w * s - v * s == (w - v) * s;
  }

  lemma UnscaleMonotone(a: int, b: int, places: nat)
    requires a <= b
    ensures Unscale(a, places) <= Unscale(b, places)
  {
  }

  lemma UnscaleOnGrid(k: int, places: nat)
    ensures OnGrid(Unscale(k, places), places)
  {
    assert Unscale(k, places) * Scale(places) == k as real;
  }

  lemma UnscaleOfScaled(v: real, places: nat)
    requires IsInteger(v * Scale(places))
    ensures Unscale((v * Scale(places)).Floor, places) == v
  {
  }

  lemma UnscaleDistance(k: int, v: real, places: nat)
    requires v * Scale(places) - 0.5 <= k as real <= v * Scale(places) + 0.5
    ensures -0.5 / Scale(places) <= Unscale(k, places) - v <= 0.5 / Scale(places)
  {
    assert Unscale(k, places) - v == (k as real - v * Scale(places)) / Scale(places);
  }

  // ---- properties of rounding ----

  lemma RoundHalfEvenOfInteger(x: real)
    requires IsInteger(x)
    ensures RoundHalfEven(x) == x.Floor
  {
  }

  /** Rounding to the nearest integer never inverts an order. */
  lemma RoundHalfEvenMonotone(x: real, y: real)
    requires x <= y
    ensures RoundHalfEven(x) <= RoundHalfEven(y)
  {
    var fx, fy := x.Floor, y.Floor;
    if fx == fy {
      assert x - fx as real <= y - fy as real;
    } else {
      assert RoundHalfEven(x) <= fx + 1 <= fy <= RoundHalfEven(y);
    }
  }

  lemma ScaledRoundMonotone(v: real, w: real, places: nat)
    requires v <= w
    ensures RoundHalfEven(v * Scale(places)) <= RoundHalfEven(w * Scale(places))
  {
    ScaleMonotone(v, w, Scale(places));
    RoundHalfEvenMonotone(v * Scale(places), w * Scale(places));
  }

  /** The rounded value lies on the grid of the requested precision. */
  lemma RoundToOnGrid(v: real, places: nat)
    ensures OnGrid(RoundTo(v, places), places)
  {
    UnscaleOnGrid(RoundHalfEven(v * Scale(places)), places);
  }

  /** It is at most half a grid step away from the value rounded. */
  lemma RoundToIsNearest(v: real, places: nat)
    ensures -0.5 / Scale(places) <= RoundTo(v, places) - v <= 0.5 / Scale(places)
  {
    UnscaleDistance(RoundHalfEven(v * Scale(places)), v, places);
  }

  /** A value already on the grid is left as it is. */
  lemma RoundToFixesGrid(v: real, places: nat)
    requires OnGrid(v, places)
    ensures RoundTo(v, places) == v
  {
    RoundHalfEvenOfInteger(v * Scale(places));
    UnscaleOfScaled(v, places);
  }

  /** Rounding an already rounded value changes nothing. */
  lemma RoundToIdempotent(v: real, places: nat)
    ensures RoundTo(RoundTo(v, places), places) == RoundTo(v, places)
  {
    RoundToOnGrid(v, places);
    RoundToFixesGrid(RoundTo(v, places), places);
  }

  /** Rounding never inverts an order. */
  lemma RoundToMonotone(v: real, w: real, places: nat)
    requires v <= w
    ensures RoundTo(v, places) <= RoundTo(w, places)
  {
    ScaledRoundMonotone(v, w, places);
    UnscaleMonotone(RoundHalfEven(v * Scale(places)), RoundHalfEven(w * Scale(places)), places);
  }

  /** Integers are on every grid; in particular 0 and 14. */
  lemma IntegerOnGrid(k: int, places: nat)
    ensures OnGrid(k as real, places)
  {
    assert k as real * Scale(places) == (k * Pow10(places)) as real;
  }

  /** Rounding keeps a value that lies between two integer bounds between them. */
  lemma RoundToKeepsBounds(v: real, lo: int, hi: int, places: nat)
    requires lo as real <= v <= hi as real
    ensures lo as real <= RoundTo(v, places) <= hi as real
  {
    RoundToMonotone(lo as real, v, places);
    RoundToMonotone(v, hi as real, places);
    IntegerOnGrid(lo, places);
    IntegerOnGrid(hi, places);
    RoundToFixesGrid(lo as real, places);
    RoundToFixesGrid(hi as real, places);
  }

  /** Rounding keeps a non-negative value non-negative. */
  lemma RoundToKeepsNonNegative(v: real, places: nat)
    requires 0.0 <= v
    ensures 0.0 <= RoundTo(v, places)
  {
    RoundToMonotone(0.0, v, places);
    IntegerOnGrid(0, places);
    RoundToFixesGrid(0.0, places);
  }

  /** Rounding a measurement keeps it in its admissible range. */
  lemma RoundKeepsRange(m: Measure, v: real)
    requires InRange(m, v)
    ensures InRange(m, RoundTo(v, Places(m)))
  {
    if m == Ph {
      RoundToKeepsBounds(v, 0, 14, Places(m));
    } else {
      RoundToKeepsNonNegative(v, Places(m));
    }
  }

  lemma RoundColumnFacts(m: Measure, c: seq<real>)
    ensures forall i :: 0 <= i < |c| ==> OnGrid(RoundTo(c[i], Places(m)), Places(m))
    ensures forall i :: 0 <= i < |c| ==>
              -0.5 / Scale(Places(m)) <= RoundTo(c[i], Places(m)) - c[i] <= 0.5 / Scale(Places(m))
    ensures forall i :: 0 <= i < |c| && InRange(m, c[i]) ==> InRange(m, RoundTo(c[i], Places(m)))
  {
    forall i | 0 <= i < |c|
      ensures OnGrid(RoundTo(c[i], Places(m)), Places(m))
      ensures -0.5 / Scale(Places(m)) <= RoundTo(c[i], Places(m)) - c[i] <= 0.5 / Scale(Places(m))
      ensures InRange(m, c[i]) ==> InRange(m, RoundTo(c[i], Places(m)))
    {
      RoundToOnGrid(c[i], Places(m));
      RoundToIsNearest(c[i], Places(m));
      if InRange(m, c[i]) {
        RoundKeepsRange(m, c[i]);
      }
    }
  }

  /** Ties go to the even neighbour: 2.5 to 2, 3.5 to 4, 7.125 to 7.12. */
  lemma RoundTiesToEven()
    ensures RoundTo(2.5, 0) == 2.0 && RoundTo(3.5, 0) == 4.0
    ensures RoundTo(7.125, 2) == 7.12 && RoundTo(6.996, 2) == 7.0
  {
    assert Scale(0) == 1.0;
    assert Scale(2) == 100.0 by {
      assert Pow10(2) == 100;
    }
    assert (2.5).Floor == 2;
    assert (3.5).Floor == 3;
    assert (712.5).Floor == 712;
    assert (699.6).Floor == 699;
  }
}
