/** Column statistics (sum, mean, minimum, maximum) and the two decimal roundings the source
    relies on: SQLite's ROUND (half away from zero) and numpy's round (half to even). */
module Stats {
  import opened Common

  function Sum(s: seq<real>): real
  {
    if s == [] then 0.0 else Sum(s[..|s| - 1]) + s[|s| - 1]
  }

  /** Arithmetic mean, as SQL AVG and pandas `mean` compute it on non-missing values. */
  function Mean(s: seq<real>): real
    requires |s| > 0
  {
    Sum(s) / |s| as real
  }

  lemma {:induction false} SumBounds(s: seq<real>, lo: real, hi: real)
    requires forall k :: 0 <= k < |s| ==> lo <= s[k] <= hi
    ensures |s| as real * lo <= Sum(s) <= |s| as real * hi
  {
    if s != [] {
      SumBounds(s[..|s| - 1], lo, hi);
    }
  }

  /** The mean of values within [lo, hi] is within [lo, hi]. */
  lemma MeanBounds(s: seq<real>, lo: real, hi: real)
    requires |s| > 0
    requires forall k :: 0 <= k < |s| ==> lo <= s[k] <= hi
    ensures lo <= Mean(s) <= hi
  {
    SumBounds(s, lo, hi);
    var n := |s| as real;
    assert n * lo <= Sum(s) <= n * hi;
    DivBounds(Sum(s), n, lo, hi);
  }

  lemma DivBounds(x: real, n: real, lo: real, hi: real)
    requires n > 0.0 && n * lo <= x <= n * hi
    ensures lo <= x / n <= hi
  {
    assert x / n * n == x;
  }

  /** Smallest element (pandas `min`). */
  function Min(s: seq<real>): (m: real)
    requires |s| > 0
    ensures m in s && forall k :: 0 <= k < |s| ==> m <= s[k]
  {
    if |s| == 1 then s[0]
    else
      var m := Min(s[..|s| - 1]);
      assert forall k :: 0 <= k < |s| - 1 ==> s[..|s| - 1][k] == s[k];
      if s[|s| - 1] < m then s[|s| - 1] else m
  }

  /** Largest element (pandas `max`, numpy `ndarray.max`). */
  function Max(s: seq<real>): (m: real)
    requires |s| > 0
    ensures m in s && forall k :: 0 <= k < |s| ==> s[k] <= m
  {
    if |s| == 1 then s[0]
    else
      var m := Max(s[..|s| - 1]);
      assert forall k :: 0 <= k < |s| - 1 ==> s[..|s| - 1][k] == s[k];
      if s[|s| - 1] > m then s[|s| - 1] else m
  }

  /** The values of a column that are not NaN, in order (what pandas' `min`/`max` look at). */
  function PresentValues(xs: seq<Option<real>>): (r: seq<real>)
    ensures forall i :: 0 <= i < |xs| && xs[i].Some? ==> xs[i].value in r
    ensures forall k :: 0 <= k < |r| ==> Some(r[k]) in xs
  {
    if xs == [] then []
    else
      var prev := PresentValues(xs[..|xs| - 1]);
      assert forall i :: 0 <= i < |xs| - 1 ==> xs[..|xs| - 1][i] == xs[i];
      prev + (if xs[|xs| - 1].Some? then [xs[|xs| - 1].value] else [])
  }

  /** Nearest integer, halves away from zero (the rounding step of SQLite `ROUND`). */
  function RoundAwayInt(y: real): int
  {
    if y >= 0.0 then (y + 0.5).Floor else -((-y + 0.5).Floor)
  }

  /** SQLite `ROUND(x, d)` with `scale` = 10^d: x * 10^d rounded half away from zero, scaled back.
      x and x * 10^d have the same sign, so this is the sign test SQLite makes on x. */
  function RoundHalfAway(x: real, scale: nat): real
    requires scale > 0
  {
    RoundAwayInt(x * scale as real) as real / scale as real
  }

  /** Nearest integer, halves to the even neighbour (numpy `rint`). */
  function RoundToEven(y: real): int
  {
    var f := y.Floor;
    if y - f as real < 0.5 then f
    else if y - f as real > 0.5 then f + 1
    else if f % 2 == 0 then f else f + 1
  }

  /** numpy `round(x, d)` with `scale` = 10^d: `rint(x * scale) / scale`. */
  function RoundHalfEven(x: real, scale: nat): real
    requires scale > 0
  {
    RoundToEven(x * scale as real) as real / scale as real
  }

  /** A whole number divided by `scale` and multiplied back is that number again. */
  lemma DivMulBack(m: int, scale: nat)
    requires scale > 0
    ensures (m as real / scale as real) * scale as real == m as real
  {
  }

  /** m is a whole number at most half a unit from y, and on an exact half it lies on the side
      away from zero. */
  predicate NearestAwayFromZero(y: real, m: real)
  {
    && m == m.Floor as real
    && -0.5 <= m - y <= 0.5
    && (y - y.Floor as real == 0.5 ==> (y >= 0.0 ==> m > y) && (y < 0.0 ==> m < y))
  }

  /** SQLite `ROUND(x, d)` gives a multiple of 10^-d at most half a unit from x, and an exact
      half goes away from zero: scaled by 10^d, the result is the whole number nearest x * 10^d. */
  lemma RoundHalfAwayNearest(x: real, scale: nat)
    requires scale > 0
    ensures NearestAwayFromZero(x * scale as real, RoundHalfAway(x, scale) * scale as real)
  {
    RoundHalfAwayScaled(x, scale);
    RoundedAwayNearest(x * scale as real, RoundHalfAway(x, scale) * scale as real);
  }

  /** `RoundAwayIntNearest` for a real m that holds the rounded integer. */
  lemma RoundedAwayNearest(y: real, m: real)
    requires m == RoundAwayInt(y) as real
    ensures NearestAwayFromZero(y, m)
  {
    assert m.Floor == RoundAwayInt(y);
    RoundAwayIntNearest(y);
  }

  /** Rounding gives n / scale when the scaled value rounds to n. */
  lemma RoundHalfAwayOf(x: real, scale: nat, n: int)
    requires scale > 0 && RoundAwayInt(x * scale as real) == n
    ensures RoundHalfAway(x, scale) == n as real / scale as real
  {
  }

  /** Scaled back up, the rounded value is the integer the scaled value rounds to. */
  lemma RoundHalfAwayScaled(x: real, scale: nat)
    requires scale > 0
    ensures RoundHalfAway(x, scale) * scale as real == RoundAwayInt(x * scale as real) as real
  {
    var n := RoundAwayInt(x * scale as real);
    RoundHalfAwayOf(x, scale, n);
    DivMulBack(n, scale);
  }

  /** The nearest integer, at most half a unit away; an exact half goes away from zero. */
  lemma RoundAwayIntNearest(y: real)
    ensures var n := RoundAwayInt(y);
      && -0.5 <= n as real - y <= 0.5
      && (y - y.Floor as real == 0.5 ==> (y >= 0.0 ==> n as real > y) && (y < 0.0 ==> n as real < y))
  {
    if y >= 0.0 {
      HalfUp(y);
    } else {
      HalfUp(-y);
      if y - y.Floor as real == 0.5 {
        NegatedHalf(y);
      }
    }
  }

  /** A value halfway between two integers, negated, is still halfway between two integers. */
  lemma NegatedHalf(y: real)
    requires y - y.Floor as real == 0.5
    ensures (-y) - (-y).Floor as real == 0.5
  {
    var k := y.Floor;
    assert -y == (-k - 1) as real + 0.5;
    assert (-y).Floor == -k - 1;
  }

  /** Adding a half and flooring lands at most half a unit away, and on a half it goes up. */
  lemma HalfUp(y: real)
    ensures var f := (y + 0.5).Floor;
      && -0.5 < f as real - y <= 0.5
      && (y - y.Floor as real == 0.5 ==> f as real > y)
  {
  }

  /** m is a whole number at most half a unit from y, and on an exact half it is the even one. */
  predicate NearestToEven(y: real, m: real)
  {
    && m == m.Floor as real
    && -0.5 <= m - y <= 0.5
    && (y - y.Floor as real == 0.5 ==> m.Floor % 2 == 0)
  }

  /** numpy `round(x, d)` gives a multiple of 10^-d at most half a unit from x, and an exact half
      goes to the even multiple: scaled by 10^d, the result is the whole number nearest
      x * 10^d. */
  lemma RoundHalfEvenNearest(x: real, scale: nat)
    requires scale > 0
    ensures NearestToEven(x * scale as real, RoundHalfEven(x, scale) * scale as real)
  {
    var n := RoundToEven(x * scale as real);
    assert RoundHalfEven(x, scale) == n as real / scale as real;
    DivMulBack(n, scale);
    assert RoundHalfEven(x, scale) * scale as real == n as real;
  }

  /** Adding a half and flooring keeps a value between two integers between them. */
  lemma FloorHalfBounds(y: real, lo: int, hi: int)
    requires lo as real <= y <= hi as real
    ensures lo <= (y + 0.5).Floor <= hi
  {
  }

  /** A whole number between lo * scale and hi * scale, divided by scale, lies in [lo, hi]. */
  lemma DivWithin(f: int, scale: nat, lo: int, hi: int)
    requires scale > 0 && lo * scale <= f <= hi * scale
    ensures lo as real <= f as real / scale as real <= hi as real
  {
    var s := scale as real;
    DivBack(lo, scale);
    DivBack(hi, scale);
    ScaledBounds(f, scale, lo * scale, hi * scale);
  }

  /** Rounding a value of [lo, hi], for whole numbers 0 <= lo <= hi, stays in [lo, hi]. */
  lemma RoundHalfAwayWithin(x: real, scale: nat, lo: int, hi: int)
    requires scale > 0 && 0 <= lo
    requires lo as real <= x <= hi as real
    ensures lo as real <= RoundHalfAway(x, scale) <= hi as real
  {
    var y := x * scale as real;
    ScaledWithin(x, scale, lo, hi);
    FloorHalfBounds(y, lo * scale, hi * scale);
    assert RoundAwayInt(y) == (y + 0.5).Floor;
    RoundHalfAwayOf(x, scale, RoundAwayInt(y));
    DivWithin(RoundAwayInt(y), scale, lo, hi);
  }

  /** Scaling a value of [lo, hi] scales its bounds. */
  lemma ScaledWithin(x: real, scale: nat, lo: int, hi: int)
    requires scale > 0 && lo as real <= x <= hi as real
    ensures (lo * scale) as real <= x * scale as real <= (hi * scale) as real
  {
    var s := scale as real;
    MulMono(lo as real, x, s);
    MulMono(x, hi as real, s);
    DivBack(lo, scale);
    DivBack(hi, scale);
  }

  lemma MulMono(a: real, b: real, s: real)
    requires a <= b && s >= 0.0
    ensures a * s <= b * s
  {
    assert (b - a) * s >= 0.0;
  }

  /** Scaling a whole number up and back down gives it back. */
  lemma DivBack(x: int, scale: nat)
    requires scale > 0
    ensures (x * scale) as real == x as real * scale as real
    ensures (x * scale) as real / scale as real == x as real
  {
  }

  lemma ScaledBounds(f: int, scale: nat, lo: int, hi: int)
    requires scale > 0 && lo <= f <= hi
    ensures lo as real / scale as real <= f as real / scale as real <= hi as real / scale as real
  {
    var s := scale as real;
    assert lo as real / s <= f as real / s by {
      assert (f as real - lo as real) / s >= 0.0;
    }
    assert f as real / s <= hi as real / s by {
      assert (hi as real - f as real) / s >= 0.0;
    }
  }

  /** The same for numpy's half-to-even rounding, with bounds of either sign
      (for example loudness in [-30, 0] at two decimals). */
  lemma RoundHalfEvenBounds(x: real, scale: nat, lo: int, hi: int)
    requires scale > 0
    requires lo as real <= x * scale as real <= hi as real
    ensures lo as real / scale as real <= RoundHalfEven(x, scale) <= hi as real / scale as real
  {
    var y := x * scale as real;
    var f := y.Floor;
    assert lo <= f <= hi;
    assert RoundToEven(y) == f + 1 ==> y > f as real;
    assert lo <= RoundToEven(y) <= hi;
    ScaledBounds(RoundToEven(y), scale, lo, hi);
  }

  /** Rounding a value of [lo, hi], for whole numbers lo <= hi, half to even stays in [lo, hi]. */
  lemma RoundHalfEvenWithin(x: real, scale: nat, lo: int, hi: int)
    requires scale > 0
    requires lo as real <= x <= hi as real
    ensures lo as real <= RoundHalfEven(x, scale) <= hi as real
  {
    var s := scale as real;
    MulMono(lo as real, x, s);
    MulMono(x, hi as real, s);
    DivBack(lo, scale);
    DivBack(hi, scale);
    RoundHalfEvenBounds(x, scale, lo * scale, hi * scale);
  }

  /** A value already rounded to `scale` is left alone by rounding again. */
  lemma RoundHalfEvenIdempotent(x: real, scale: nat)
    requires scale > 0
    ensures RoundHalfEven(RoundHalfEven(x, scale), scale) == RoundHalfEven(x, scale)
  {
    var m := RoundToEven(x * scale as real);
    var y := m as real / scale as real;
    assert RoundHalfEven(x, scale) == y;
    assert y * scale as real == m as real;
    assert RoundToEven(m as real) == m;
    RoundHalfEvenOf(y, scale, m);
  }

  /** Rounding gives m / scale when the scaled value rounds to m. */
  lemma RoundHalfEvenOf(y: real, scale: nat, m: int)
    requires scale > 0 && RoundToEven(y * scale as real) == m
    ensures RoundHalfEven(y, scale) == m as real / scale as real
  {
  }
}
