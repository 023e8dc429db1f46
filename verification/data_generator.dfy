/** data_generator.py: the audio columns added to the base track list, and the data-quality
    problems (missing values, outliers, duplicate rows) injected into it before it is saved as
    `raw_songs`. Every random draw is a parameter: the standard-normal draws behind
    `rng.normal`, the row positions `rng.choice` and `DataFrame.sample` pick, and the indices of
    the outlier values `rng.choice` picks. A frame's rows are addressed by position, which is
    what its default index holds after `read_csv`. */
module DataGenerator {
  import opened Common
  import opened Seqs
  import opened Stats
  import opened Frames

  /** The seven audio features kept in [0, 1] (`AUDIO_FEATURE_COLS`). */
  const AudioFeatureCols: seq<string> :=
    ["energy", "valence", "danceability", "acousticness", "instrumentalness", "liveness", "speechiness"]

  /** Every column `add_synthetic_audio_features` writes. */
  const GeneratedCols: seq<string> := AudioFeatureCols + ["tempo", "loudness"]


  /** The columns `main` blanks at random (`NULL_TARGET_COLS`). */
  const NullTargetCols: seq<string> := ["tempo", "valence", "energy", "danceability"]

  /** The tempo outliers (below 50 or above 200 BPM) and the feature outliers (outside [0, 1]). */
  const TempoOutliers: seq<real> := [10.0, 30.0, 250.0, 320.0]
  const FeatureOutliers: seq<real> := [-0.4, -0.1, 1.2, 1.6]

  datatype GenError =
    | MissingPopularity
      /** a popularity cell that pandas cannot read as a float */
    | NonNumericPopularity
      /** `rng.choice(..., replace=False)` or `sample(n=...)` asked for more rows than there are */
    | SampleLargerThanPopulation(size: int, population: nat)

  // ---------------------------------------------------------------------------------------------
  // clamp01 and safe_popularity_norm
  // ---------------------------------------------------------------------------------------------

  /** `np.clip(x, lo, hi)` on a number. */
  function Clip(x: real, lo: real, hi: real): (r: real)
    requires lo <= hi
    ensures lo <= r <= hi
    ensures lo <= x <= hi ==> r == x
    ensures x < lo ==> r == lo
    ensures x > hi ==> r == hi
  {
    if x < lo then lo else if x > hi then hi else x
  }

  /** `clamp01`: the nearest value of [0, 1]. */
  function Clamp01(x: real): (r: real)
    ensures 0.0 <= r <= 1.0
    ensures 0.0 <= x <= 1.0 ==> r == x
  {
    Clip(x, 0.0, 1.0)
  }

  /** Clamping never reorders two values, and clamping twice is clamping once. */
  lemma Clamp01MonotoneIdempotent(x: real, y: real)
    ensures x <= y ==> Clamp01(x) <= Clamp01(y)
    ensures Clamp01(Clamp01(x)) == Clamp01(x)
  {
  }

  /** The number in a cell; NaN (`None`) for a missing cell. */
  function ValueOf(c: Cell): Option<real>
  {
    if c.Num? then Some(c.v) else None
  }

  /** The cell pandas stores for a number or a NaN. */
  function ToCell(x: Option<real>): Cell
  {
    if x.Some? then Num(x.value) else Null
  }

  predicate NoTextIn(rows: seq<Row>, c: string)
  {
    forall i :: 0 <= i < |rows| ==> !Get(rows[i], c).Text?
  }

  /** The popularity column as floats, NaN where it is missing; nothing when a cell holds text. */
  function PopularityOf(rows: seq<Row>): (r: Option<seq<Option<real>>>)
    ensures r.Some? <==> NoTextIn(rows, "popularity")
    ensures r.Some? ==> |r.value| == |rows| && forall i :: 0 <= i < |rows| ==>
      (r.value[i].None? <==> Get(rows[i], "popularity").Null?) &&
      (r.value[i].Some? ==> Get(rows[i], "popularity") == Num(r.value[i].value))
  {
    if NoTextIn(rows, "popularity") then
      Some(seq(|rows|, i requires 0 <= i < |rows| => ValueOf(Get(rows[i], "popularity"))))
    else None
  }

  /** The divisor of `safe_popularity_norm`: the spread, or 1 for a constant column. */
  function Spread(lo: real, hi: real): real
  {
    if hi - lo != 0.0 then hi - lo else 1.0
  }

  /** One popularity `v` rescaled against the column's minimum and maximum. */
  function Rescale(v: real, lo: real, hi: real): real
  {
    (v - lo) / Spread(lo, hi)
  }

  /** `safe_popularity_norm`: `(p - min) / spread` on every value, the minimum and maximum
      skipping NaN. A column with no number at all has a NaN minimum, so every result is NaN. */
  function SafePopularityNorm(p: seq<Option<real>>): (r: seq<Option<real>>)
    ensures |r| == |p|
    ensures forall i :: 0 <= i < |p| ==> (r[i].Some? <==> p[i].Some?)
  {
    var present := PresentValues(p);
    if present == [] then seq(|p|, i => None)
    else
      var lo, hi := Min(present), Max(present);
      seq(|p|, i requires 0 <= i < |p| => if p[i].Some? then Some(Rescale(p[i].value, lo, hi)) else None)
  }

  lemma {:induction false} NormInUnit(v: real, lo: real, hi: real)
    requires lo <= v <= hi
    ensures 0.0 <= Rescale(v, lo, hi) <= 1.0
  {
    if hi - lo != 0.0 {
      DivBounds(v - lo, hi - lo, 0.0, 1.0);
    }
  }

  /** A present popularity lies between the column's minimum and maximum and is normalised
      against them. */
  lemma {:induction false} NormAt(p: seq<Option<real>>, i: nat) returns (lo: real, hi: real)
    requires i < |p| && p[i].Some?
    ensures PresentValues(p) != [] && lo == Min(PresentValues(p)) && hi == Max(PresentValues(p))
    ensures lo <= p[i].value <= hi
    ensures SafePopularityNorm(p)[i] == Some(Rescale(p[i].value, lo, hi))
  {
    var present := PresentValues(p);
    assert p[i].value in present;
    lo, hi := Min(present), Max(present);
  }

  lemma DivMono(a: real, b: real, d: real)
    requires a <= b && d > 0.0
    ensures a / d <= b / d
  {
    assert b / d - a / d == (b - a) / d;
  }

  /** Every normalised popularity lies in [0, 1]. */
  lemma {:induction false} SafePopularityNormInUnit(p: seq<Option<real>>)
    ensures var r := SafePopularityNorm(p);
      forall i :: 0 <= i < |p| && r[i].Some? ==> 0.0 <= r[i].value <= 1.0
  {
    var present := PresentValues(p);
    if present != [] {
      var lo, hi := Min(present), Max(present);
      forall i | 0 <= i < |p| && p[i].Some?
        ensures 0.0 <= Rescale(p[i].value, lo, hi) <= 1.0
      {
        NormInUnit(p[i].value, lo, hi);
      }
    }
  }

  /** Normalising keeps the order of popularities. */
  lemma {:induction false} SafePopularityNormMonotone(p: seq<Option<real>>, i: nat, j: nat)
    requires i < |p| && j < |p| && p[i].Some? && p[j].Some? && p[i].value <= p[j].value
    ensures SafePopularityNorm(p)[i].value <= SafePopularityNorm(p)[j].value
  {
    var lo, hi := NormAt(p, i);
    var lo', hi' := NormAt(p, j);
    RescaleMono(p[i].value, p[j].value, lo, hi);
  }

  lemma RescaleMono(u: real, v: real, lo: real, hi: real)
    requires u <= v && lo <= hi
    ensures Rescale(u, lo, hi) <= Rescale(v, lo, hi)
  {
    DivMono(u - lo, v - lo, Spread(lo, hi));
  }

  /** The least popularity maps to 0. */
  lemma {:induction false} SafePopularityNormMin(p: seq<Option<real>>, i: nat)
    requires i < |p| && p[i].Some?
    requires forall k :: 0 <= k < |p| && p[k].Some? ==> p[i].value <= p[k].value
    ensures SafePopularityNorm(p)[i] == Some(0.0)
  {
    var lo, hi := NormAt(p, i);
    assert Some(lo) in p;
    assert p[i].value == lo;
  }

  /** The greatest popularity maps to 1, unless the column is constant. */
  lemma {:induction false} SafePopularityNormMax(p: seq<Option<real>>, i: nat, j: nat)
    requires i < |p| && j < |p| && p[i].Some? && p[j].Some? && p[j].value < p[i].value
    requires forall k :: 0 <= k < |p| && p[k].Some? ==> p[k].value <= p[i].value
    ensures SafePopularityNorm(p)[i] == Some(1.0)
  {
    var lo, hi := NormAt(p, i);
    var lo', hi' := NormAt(p, j);
    assert Some(hi) in p;
    assert p[i].value == hi;
    RescaleTop(lo, hi);
  }

  /** The maximum of a column that is not constant rescales to 1. */
  lemma RescaleTop(lo: real, hi: real)
    requires lo < hi
    ensures Rescale(hi, lo, hi) == 1.0
  {
    var d := hi - lo;
    assert Spread(lo, hi) == d;
    assert d / d == 1.0;
  }

  /** A constant column (denominator 1) normalises to all zeros. */
  lemma {:induction false} SafePopularityNormConstant(p: seq<Option<real>>, c: real)
    requires forall k :: 0 <= k < |p| && p[k].Some? ==> p[k].value == c
    ensures forall k :: 0 <= k < |p| && p[k].Some? ==> SafePopularityNorm(p)[k] == Some(0.0)
  {
    var present := PresentValues(p);
    if present != [] {
      assert Some(Min(present)) in p;
    }
  }

  // ---------------------------------------------------------------------------------------------
  // add_synthetic_audio_features
  // ---------------------------------------------------------------------------------------------

  /** The standard-normal draws behind each `rng.normal(loc, sd, size=len(out))` call, one
      vector per generated column: the call's result is `loc + sd * z`. */
  datatype Draws = Draws(
    energy: seq<real>, valence: seq<real>, danceability: seq<real>, acousticness: seq<real>,
    instrumentalness: seq<real>, liveness: seq<real>, speechiness: seq<real>,
    tempo: seq<real>, loudness: seq<real>)
  {
    /** One draw per row in every vector. */
    predicate Sized(n: nat)
    {
      && |energy| == n && |valence| == n && |danceability| == n && |acousticness| == n
      && |instrumentalness| == n && |liveness| == n && |speechiness| == n
      && |tempo| == n && |loudness| == n
    }
  }

  /** `clamp01(rng.normal(a + b * pop_norm, sd))`: NaN wherever the normalised popularity is. */
  function PopularityFeature(pn: seq<Option<real>>, a: real, b: real, sd: real, z: seq<real>): (r: seq<Option<real>>)
    requires |z| == |pn|
    ensures |r| == |pn|
    ensures forall i :: 0 <= i < |r| ==> (r[i].Some? <==> pn[i].Some?) && (r[i].Some? ==> 0.0 <= r[i].value <= 1.0)
  {
    seq(|pn|, i requires 0 <= i < |pn| => if pn[i].Some? then Some(PopularityDraw(pn[i].value, a, b, sd, z[i])) else None)
  }

  /** One row's `clamp01(a + b * p + sd * z)`, for normalised popularity p and standard draw z. */
  function PopularityDraw(p: real, a: real, b: real, sd: real, z: real): (v: real)
    ensures 0.0 <= v <= 1.0
  {
    Clamp01(Affine(a, b, p, sd * z))
  }

  /** a + b * p + c. */
  function Affine(a: real, b: real, p: real, c: real): real
  {
    a + b * p + c
  }

  /** a + b * p + c grows with p when b >= 0 and shrinks when b <= 0. */
  lemma AffineOrder(a: real, b: real, p: real, q: real, c: real)
    requires p <= q
    ensures b >= 0.0 ==> Affine(a, b, p, c) <= Affine(a, b, q, c)
    ensures b <= 0.0 ==> Affine(a, b, q, c) <= Affine(a, b, p, c)
  {
    if b >= 0.0 {
      MulMono(p, q, b);
    } else {
      MulMono(p, q, -b);
    }
  }

  /** A popularity-driven feature follows popularity: for the same draw, a more popular row gets
      a value no lower when the slope b is non-negative, and no higher when it is non-positive. */
  lemma PopularityFeatureFollows(pn: seq<Option<real>>, a: real, b: real, sd: real, z: seq<real>, i: nat, j: nat)
    requires |z| == |pn| && i < |pn| && j < |pn|
    requires pn[i].Some? && pn[j].Some? && pn[i].value <= pn[j].value && z[i] == z[j]
    ensures var r := PopularityFeature(pn, a, b, sd, z);
      && (b >= 0.0 ==> r[i].value <= r[j].value)
      && (b <= 0.0 ==> r[j].value <= r[i].value)
  {
    var r := PopularityFeature(pn, a, b, sd, z);
    assert r[i] == Some(PopularityDraw(pn[i].value, a, b, sd, z[i]));
    assert r[j] == Some(PopularityDraw(pn[j].value, a, b, sd, z[j]));
    PopularityDrawFollows(pn[i].value, pn[j].value, a, b, sd, z[i]);
  }

  /** For one draw z, clamp01(a + b * p + sd * z) keeps the order of p when b >= 0 and reverses
      it when b <= 0. */
  lemma PopularityDrawFollows(p: real, q: real, a: real, b: real, sd: real, z: real)
    requires p <= q
    ensures b >= 0.0 ==> PopularityDraw(p, a, b, sd, z) <= PopularityDraw(q, a, b, sd, z)
    ensures b <= 0.0 ==> PopularityDraw(q, a, b, sd, z) <= PopularityDraw(p, a, b, sd, z)
  {
    var u, v := Affine(a, b, p, sd * z), Affine(a, b, q, sd * z);
    AffineOrder(a, b, p, q, sd * z);
    Clamp01MonotoneIdempotent(u, v);
    Clamp01MonotoneIdempotent(v, u);
  }

  /** `clamp01(rng.normal(mean, sd))`: never NaN. */
  function SteadyFeature(mean: real, sd: real, z: seq<real>): (r: seq<Option<real>>)
    ensures |r| == |z|
    ensures forall i :: 0 <= i < |r| ==> r[i].Some? && 0.0 <= r[i].value <= 1.0
  {
    seq(|z|, i requires 0 <= i < |z| => Some(Clamp01(mean + sd * z[i])))
  }

  /** `np.clip(rng.normal(base + slope * (e - 0.5), sd), lo, hi).round(2)` for one row whose
      energy is `e`: a value of [lo, hi] at two decimals. */
  function EnergyDrivenValue(e: real, base: real, slope: real, sd: real, z: real, lo: int, hi: int): (v: real)
    requires lo <= hi
    ensures lo as real <= v <= hi as real
    ensures RoundHalfEven(v, 100) == v
  {
    var x := Clip(base + slope * (e - 0.5) + sd * z, lo as real, hi as real);
    RoundHalfEvenWithin(x, 100, lo, hi);
    RoundHalfEvenIdempotent(x, 100);
    RoundHalfEven(x, 100)
  }

  /** The tempo or loudness column: it follows the clamped (not yet rounded) energy, NaN where
      the energy is. */
  function EnergyDriven(energy: seq<Option<real>>, base: real, slope: real, sd: real, z: seq<real>, lo: int, hi: int): (r: seq<Option<real>>)
    requires |z| == |energy| && lo <= hi
    ensures |r| == |energy|
    ensures forall i :: 0 <= i < |r| ==> (r[i].Some? <==> energy[i].Some?)
    ensures forall i :: 0 <= i < |r| && r[i].Some? ==>
      lo as real <= r[i].value <= hi as real && RoundHalfEven(r[i].value, 100) == r[i].value
  {
    seq(|energy|, i requires 0 <= i < |energy| =>
      if energy[i].Some? then Some(EnergyDrivenValue(energy[i].value, base, slope, sd, z[i], lo, hi)) else None)
  }

  /** `out` is `f` with the columns `names` written and nothing else touched: the same rows, the
      columns of `f` first, the names added to the column list, every other cell as it was. */
  ghost predicate Writes(f: Frame, out: Frame, names: seq<string>)
  {
    && |out.rows| == |f.rows|
    && |f.cols| <= |out.cols| && (forall j :: 0 <= j < |f.cols| ==> out.cols[j] == f.cols[j])
    && (forall c :: c in out.cols <==> c in f.cols || c in names)
    && (forall i, c :: 0 <= i < |f.rows| && c !in names ==> Get(out.rows[i], c) == Get(f.rows[i], c))
  }

  /** Writing `n1` and then `n2` writes any list holding exactly the names of both. */
  lemma WritesCompose(a: Frame, b: Frame, c: Frame, n1: seq<string>, n2: seq<string>, n: seq<string>)
    requires Writes(a, b, n1) && Writes(b, c, n2)
    requires forall x :: x in n <==> x in n1 || x in n2
    ensures Writes(a, c, n)
  {
  }

  /** `out[col] = values`: the column is overwritten, or appended when the frame lacks it. */
  method SetColumn(f: Frame, c: string, values: seq<Option<real>>) returns (r: Frame)
    requires |values| == |f.rows|
    ensures Writes(f, r, [c])
    ensures |r.cols| <= |f.cols| + 1
    ensures forall i :: 0 <= i < |f.rows| ==> Get(r.rows[i], c) == ToCell(values[i])
    ensures forall i, d :: 0 <= i < |f.rows| && d != c ==> Get(r.rows[i], d) == Get(f.rows[i], d)
  {
    var rows := seq(|f.rows|, i requires 0 <= i < |f.rows| => f.rows[i][c := ToCell(values[i])]);
    r := Frame(if c in f.cols then f.cols else f.cols + [c], rows);
    assert forall i, d :: 0 <= i < |f.rows| && d != c ==> Get(r.rows[i], d) == Get(f.rows[i], d);
  }

  /** `.round(d)` on one float cell, with `scale` = 10^d: halves go to the even neighbour and a
      NaN stays NaN. */
  function RoundCell(x: Cell, scale: nat): Cell
    requires scale > 0
  {
    if x.Num? then Num(RoundHalfEven(x.v, scale)) else Null
  }

  /** `out[col].round(d)`: the column's cells, rounded. */
  function RoundedColumn(rows: seq<Row>, c: string, scale: nat): (r: seq<Option<real>>)
    requires scale > 0
    ensures |r| == |rows|
    ensures forall i :: 0 <= i < |rows| ==> ToCell(r[i]) == RoundCell(Get(rows[i], c), scale)
  {
    seq(|rows|, i requires 0 <= i < |rows| => ValueOf(RoundCell(Get(rows[i], c), scale)))
  }

  /** A missing cell, or a number of [lo, hi] that rounding to `scale` leaves alone. */
  predicate WithinAt(x: Cell, lo: real, hi: real, scale: nat)
    requires scale > 0
  {
    x.Null? || (x.Num? && lo <= x.v <= hi && RoundHalfEven(x.v, scale) == x.v)
  }

  /** The generated columns, written out: nine different names. */
  lemma GeneratedColsMembers()
    ensures |AudioFeatureCols| == 7
    ensures AudioFeatureCols[0] == "energy" && AudioFeatureCols[1] == "valence"
    ensures AudioFeatureCols[2] == "danceability" && AudioFeatureCols[3] == "acousticness"
    ensures AudioFeatureCols[4] == "instrumentalness" && AudioFeatureCols[5] == "liveness"
    ensures AudioFeatureCols[6] == "speechiness"
    ensures forall c :: c in AudioFeatureCols <==>
      c == "energy" || c == "valence" || c == "danceability" || c == "acousticness" ||
      c == "instrumentalness" || c == "liveness" || c == "speechiness"
    ensures forall c :: c in GeneratedCols <==> c in AudioFeatureCols || c == "tempo" || c == "loudness"
    ensures "energy" != "valence" && "energy" != "danceability" && "energy" != "acousticness"
    ensures "energy" != "instrumentalness" && "energy" != "liveness" && "energy" != "speechiness"
    ensures "energy" != "tempo" && "energy" != "loudness" && "valence" != "danceability"
    ensures "valence" != "acousticness" && "valence" != "instrumentalness" && "valence" != "liveness"
    ensures "valence" != "speechiness" && "valence" != "tempo" && "valence" != "loudness"
    ensures "danceability" != "acousticness" && "danceability" != "instrumentalness" && "danceability" != "liveness"
    ensures "danceability" != "speechiness" && "danceability" != "tempo" && "danceability" != "loudness"
    ensures "acousticness" != "instrumentalness" && "acousticness" != "liveness" && "acousticness" != "speechiness"
    ensures "acousticness" != "tempo" && "acousticness" != "loudness" && "instrumentalness" != "liveness"
    ensures "instrumentalness" != "speechiness" && "instrumentalness" != "tempo" && "instrumentalness" != "loudness"
    ensures "liveness" != "speechiness" && "liveness" != "tempo" && "liveness" != "loudness"
    ensures "speechiness" != "tempo" && "speechiness" != "loudness" && "tempo" != "loudness"
  {
  }

  /** The seven feature columns are distinct names, none of them tempo or loudness. */
  lemma FeatureColsDistinct()
    ensures Distinct(AudioFeatureCols)
    ensures forall m :: 0 <= m < |AudioFeatureCols| ==> AudioFeatureCols[m] != "tempo" && AudioFeatureCols[m] != "loudness"
    ensures "tempo" !in AudioFeatureCols && "loudness" !in AudioFeatureCols
  {
  }

  /** Column `c` of a frame with one row per entry of `pn` holds, in every row, a missing value
      or a number of [lo, hi], missing exactly where `pn` is when `driven` holds and never
      otherwise. */
  predicate DrawnWithin(out: Frame, pn: seq<Option<real>>, c: string, lo: real, hi: real, driven: bool)
  {
    && |out.rows| == |pn|
    && forall i :: 0 <= i < |pn| ==>
         var x := Get(out.rows[i], c);
         && (x.Null? || (x.Num? && lo <= x.v <= hi))
         && (x.Null? <==> driven && pn[i].None?)
  }

  /** Writing other columns keeps what is known of column `c`. */
  lemma DrawnWithinKept(a: Frame, b: Frame, names: seq<string>, pn: seq<Option<real>>, c: string, lo: real, hi: real, driven: bool)
    requires Writes(a, b, names) && c !in names
    requires DrawnWithin(a, pn, c, lo, hi, driven)
    ensures DrawnWithin(b, pn, c, lo, hi, driven)
  {
  }

  /** Column `c` holds `values`, row by row. */
  predicate ColumnHolds(out: Frame, c: string, values: seq<Option<real>>)
  {
    |out.rows| == |values| && forall i :: 0 <= i < |values| ==> Get(out.rows[i], c) == ToCell(values[i])
  }

  /** Writing other columns keeps column `c`. */
  lemma ColumnHoldsKept(a: Frame, b: Frame, names: seq<string>, c: string, values: seq<Option<real>>)
    requires Writes(a, b, names) && c !in names
    requires ColumnHolds(a, c, values)
    ensures ColumnHolds(b, c, values)
  {
  }

  /** A column holding a popularity-driven feature is drawn in [0, 1] and missing exactly where
      popularity is. */
  lemma HoldsDrawn(out: Frame, pn: seq<Option<real>>, c: string, values: seq<Option<real>>)
    requires |values| == |pn| && ColumnHolds(out, c, values)
    requires forall i :: 0 <= i < |values| ==>
      (values[i].Some? <==> pn[i].Some?) && (values[i].Some? ==> 0.0 <= values[i].value <= 1.0)
    ensures DrawnWithin(out, pn, c, 0.0, 1.0, true)
  {
  }

  /** The four features whose mean follows popularity, as drawn. */
  predicate PopularityFeaturesDrawn(out: Frame, pn: seq<Option<real>>)
  {
    && DrawnWithin(out, pn, "energy", 0.0, 1.0, true)
    && DrawnWithin(out, pn, "valence", 0.0, 1.0, true)
    && DrawnWithin(out, pn, "danceability", 0.0, 1.0, true)
    && DrawnWithin(out, pn, "acousticness", 0.0, 1.0, true)
  }

  /** The three features drawn around a fixed mean. */
  predicate SteadyFeaturesDrawn(out: Frame, pn: seq<Option<real>>)
  {
    && DrawnWithin(out, pn, "instrumentalness", 0.0, 1.0, false)
    && DrawnWithin(out, pn, "liveness", 0.0, 1.0, false)
    && DrawnWithin(out, pn, "speechiness", 0.0, 1.0, false)
  }

  /** The first four `out[col] = clamp01(rng.normal(a + b * pop_norm, sd))` assignments: each
      column holds its draw, so each value lies in [0, 1], is missing exactly where the
      normalised popularity is, and follows popularity. */
  method DrawPopularityFeatures(df: Frame, pn: seq<Option<real>>, z: Draws) returns (out: Frame)
    requires |pn| == |df.rows| && z.Sized(|df.rows|)
    ensures Writes(df, out, ["energy", "valence", "danceability", "acousticness"])
    ensures PopularityFeaturesDrawn(out, pn)
    ensures ColumnHolds(out, "energy", PopularityFeature(pn, 0.55, 0.20, 0.18, z.energy))
    ensures ColumnHolds(out, "valence", PopularityFeature(pn, 0.50, 0.10, 0.22, z.valence))
    ensures ColumnHolds(out, "danceability", PopularityFeature(pn, 0.58, 0.10, 0.17, z.danceability))
    ensures ColumnHolds(out, "acousticness", PopularityFeature(pn, 0.35, -0.15, 0.25, z.acousticness))
  {
    GeneratedColsMembers();
    var e := PopularityFeature(pn, 0.55, 0.20, 0.18, z.energy);
    var v := PopularityFeature(pn, 0.50, 0.10, 0.22, z.valence);
    var d := PopularityFeature(pn, 0.58, 0.10, 0.17, z.danceability);
    var a := PopularityFeature(pn, 0.35, -0.15, 0.25, z.acousticness);
    var f1 := SetColumn(df, "energy", e);
    var f2 := SetColumn(f1, "valence", v);
    ColumnHoldsKept(f1, f2, ["valence"], "energy", e);
    WritesCompose(df, f1, f2, ["energy"], ["valence"], ["energy", "valence"]);
    var f3 := SetColumn(f2, "danceability", d);
    ColumnHoldsKept(f2, f3, ["danceability"], "energy", e);
    ColumnHoldsKept(f2, f3, ["danceability"], "valence", v);
    WritesCompose(df, f2, f3, ["energy", "valence"], ["danceability"], ["energy", "valence", "danceability"]);
    out := SetColumn(f3, "acousticness", a);
    ColumnHoldsKept(f3, out, ["acousticness"], "energy", e);
    ColumnHoldsKept(f3, out, ["acousticness"], "valence", v);
    ColumnHoldsKept(f3, out, ["acousticness"], "danceability", d);
    WritesCompose(df, f3, out, ["energy", "valence", "danceability"], ["acousticness"],
      ["energy", "valence", "danceability", "acousticness"]);
    HoldsDrawn(out, pn, "energy", e);
    HoldsDrawn(out, pn, "valence", v);
    HoldsDrawn(out, pn, "danceability", d);
    HoldsDrawn(out, pn, "acousticness", a);
  }

  /** The next three assignments, `clamp01(rng.normal(mean, sd))`: each value lies in [0, 1]
      and is never missing. */
  method DrawSteadyFeatures(f: Frame, pn: seq<Option<real>>, z: Draws) returns (out: Frame)
    requires |pn| == |f.rows| && z.Sized(|f.rows|)
    ensures Writes(f, out, ["instrumentalness", "liveness", "speechiness"])
    ensures SteadyFeaturesDrawn(out, pn)
  {
    GeneratedColsMembers();
    var f1 := SetColumn(f, "instrumentalness", SteadyFeature(0.10, 0.20, z.instrumentalness));
    var f2 := SetColumn(f1, "liveness", SteadyFeature(0.18, 0.12, z.liveness));
    DrawnWithinKept(f1, f2, ["liveness"], pn, "instrumentalness", 0.0, 1.0, false);
    WritesCompose(f, f1, f2, ["instrumentalness"], ["liveness"], ["instrumentalness", "liveness"]);
    out := SetColumn(f2, "speechiness", SteadyFeature(0.08, 0.06, z.speechiness));
    DrawnWithinKept(f2, out, ["speechiness"], pn, "instrumentalness", 0.0, 1.0, false);
    DrawnWithinKept(f2, out, ["speechiness"], pn, "liveness", 0.0, 1.0, false);
    WritesCompose(f, f2, out, ["instrumentalness", "liveness"], ["speechiness"],
      ["instrumentalness", "liveness", "speechiness"]);
  }

  /** `out[col]` read as floats: NaN for a missing cell. */
  function ColumnValues(rows: seq<Row>, c: string): (r: seq<Option<real>>)
    ensures |r| == |rows|
    ensures forall i :: 0 <= i < |rows| ==> (r[i].Some? <==> Get(rows[i], c).Num?)
  {
    seq(|rows|, i requires 0 <= i < |rows| => ValueOf(Get(rows[i], c)))
  }

  /** The tempo and loudness assignments, which read the energy column just written: each value
      lies in its range at two decimals and is missing exactly where the energy is. */
  method DrawEnergyDriven(f: Frame, z: Draws) returns (out: Frame)
    requires z.Sized(|f.rows|)
    ensures Writes(f, out, ["tempo", "loudness"])
    ensures forall i :: 0 <= i < |f.rows| ==>
      && WithinAt(Get(out.rows[i], "tempo"), 60.0, 200.0, 100)
      && (Get(out.rows[i], "tempo").Null? <==> !Get(f.rows[i], "energy").Num?)
    ensures forall i :: 0 <= i < |f.rows| ==>
      && WithinAt(Get(out.rows[i], "loudness"), -30.0, 0.0, 100)
      && (Get(out.rows[i], "loudness").Null? <==> !Get(f.rows[i], "energy").Num?)
  {
    var energy := ColumnValues(f.rows, "energy");
    var f1 := SetColumn(f, "tempo", EnergyDriven(energy, 115.0, 25.0, 18.0, z.tempo, 60, 200));
    out := SetColumn(f1, "loudness", EnergyDriven(energy, -8.0, 6.0, 3.0, z.loudness, -30, 0));
    assert "tempo" !in ["loudness"];
    assert forall i :: 0 <= i < |f.rows| ==> Get(out.rows[i], "tempo") == Get(f1.rows[i], "tempo");
    WritesCompose(f, f1, out, ["tempo"], ["loudness"], ["tempo", "loudness"]);
  }

  /** The closing `for col in AUDIO_FEATURE_COLS: out[col] = out[col].round(4)`: every feature
      cell is replaced by its rounding. */
  method RoundFeatureColumns(f: Frame) returns (out: Frame)
    requires forall m :: 0 <= m < |AudioFeatureCols| ==> AudioFeatureCols[m] in f.cols
    ensures Writes(f, out, AudioFeatureCols)
    ensures forall i, m :: 0 <= i < |f.rows| && 0 <= m < |AudioFeatureCols| ==>
      Get(out.rows[i], AudioFeatureCols[m]) == RoundCell(Get(f.rows[i], AudioFeatureCols[m]), 10000)
  {
    FeatureColsDistinct();
    out := f;
    for k := 0 to |AudioFeatureCols|
      invariant Writes(f, out, AudioFeatureCols[..k])
      invariant forall i, m :: 0 <= i < |f.rows| && 0 <= m < k ==>
        Get(out.rows[i], AudioFeatureCols[m]) == RoundCell(Get(f.rows[i], AudioFeatureCols[m]), 10000)
    {
      var c := AudioFeatureCols[k];
      assert c !in AudioFeatureCols[..k];
      var next := SetColumn(out, c, RoundedColumn(out.rows, c, 10000));
      assert forall i, m :: 0 <= i < |f.rows| && 0 <= m < k ==>
        Get(next.rows[i], AudioFeatureCols[m]) == Get(out.rows[i], AudioFeatureCols[m]);
      assert AudioFeatureCols[..k + 1] == AudioFeatureCols[..k] + [c];
      WritesCompose(f, out, next, AudioFeatureCols[..k], [c], AudioFeatureCols[..k + 1]);
      out := next;
    }
    assert AudioFeatureCols[..|AudioFeatureCols|] == AudioFeatureCols;
  }

  /** Column `c` holds, in every row, a missing value or a number of [lo, hi] that rounding to
      `scale` leaves alone, missing exactly where the row's popularity is when `driven` holds and
      never otherwise. */
  predicate GeneratedWithin(out: Frame, df: Frame, c: string, lo: real, hi: real, scale: nat, driven: bool)
    requires scale > 0
  {
    && |out.rows| == |df.rows|
    && forall i :: 0 <= i < |df.rows| ==>
         && WithinAt(Get(out.rows[i], c), lo, hi, scale)
         && (Get(out.rows[i], c).Null? <==> driven && Get(df.rows[i], "popularity").Null?)
  }

  /** The seven feature columns as returned: in [0, 1] at four decimals, the first four missing
      where popularity is, the last three never missing. */
  predicate FeaturesGenerated(out: Frame, df: Frame)
  {
    && GeneratedWithin(out, df, "energy", 0.0, 1.0, 10000, true)
    && GeneratedWithin(out, df, "valence", 0.0, 1.0, 10000, true)
    && GeneratedWithin(out, df, "danceability", 0.0, 1.0, 10000, true)
    && GeneratedWithin(out, df, "acousticness", 0.0, 1.0, 10000, true)
    && GeneratedWithin(out, df, "instrumentalness", 0.0, 1.0, 10000, false)
    && GeneratedWithin(out, df, "liveness", 0.0, 1.0, 10000, false)
    && GeneratedWithin(out, df, "speechiness", 0.0, 1.0, 10000, false)
  }

  /** Rounding one drawn feature cell to four decimals keeps it in [0, 1] and keeps it missing
      or present. */
  lemma RoundedFeatureCell(x: Cell)
    requires x.Null? || (x.Num? && 0.0 <= x.v <= 1.0)
    ensures WithinAt(RoundCell(x, 10000), 0.0, 1.0, 10000)
    ensures RoundCell(x, 10000).Null? <==> x.Null?
  {
    if x.Num? {
      RoundHalfEvenWithin(x.v, 10000, 0, 1);
      RoundHalfEvenIdempotent(x.v, 10000);
    }
  }

  /** One feature column after rounding: what was drawn in [0, 1] is returned in [0, 1] at
      four decimals, missing in the same rows. */
  lemma RoundedFeature(out: Frame, drawn: Frame, df: Frame, pn: seq<Option<real>>, c: string, driven: bool)
    requires |out.rows| == |drawn.rows| == |df.rows|
    requires DrawnWithin(drawn, pn, c, 0.0, 1.0, driven)
    requires forall i :: 0 <= i < |df.rows| ==> (pn[i].None? <==> Get(df.rows[i], "popularity").Null?)
    requires forall i :: 0 <= i < |df.rows| ==> Get(out.rows[i], c) == RoundCell(Get(drawn.rows[i], c), 10000)
    ensures GeneratedWithin(out, df, c, 0.0, 1.0, 10000, driven)
  {
    forall i | 0 <= i < |df.rows|
      ensures WithinAt(Get(out.rows[i], c), 0.0, 1.0, 10000)
      ensures Get(out.rows[i], c).Null? <==> driven && Get(df.rows[i], "popularity").Null?
    {
      RoundedFeatureCell(Get(drawn.rows[i], c));
    }
  }

  /** All seven feature columns after rounding. */
  lemma RoundedFeatures(out: Frame, drawn: Frame, df: Frame, pn: seq<Option<real>>)
    requires |out.rows| == |drawn.rows| == |df.rows|
    requires PopularityFeaturesDrawn(drawn, pn) && SteadyFeaturesDrawn(drawn, pn)
    requires forall i :: 0 <= i < |df.rows| ==> (pn[i].None? <==> Get(df.rows[i], "popularity").Null?)
    requires forall i, m :: 0 <= i < |df.rows| && 0 <= m < |AudioFeatureCols| ==>
      Get(out.rows[i], AudioFeatureCols[m]) == RoundCell(Get(drawn.rows[i], AudioFeatureCols[m]), 10000)
    ensures FeaturesGenerated(out, df)
  {
    GeneratedColsMembers();
    RoundedFeature(out, drawn, df, pn, AudioFeatureCols[0], true);
    RoundedFeature(out, drawn, df, pn, AudioFeatureCols[1], true);
    RoundedFeature(out, drawn, df, pn, AudioFeatureCols[2], true);
    RoundedFeature(out, drawn, df, pn, AudioFeatureCols[3], true);
    RoundedFeature(out, drawn, df, pn, AudioFeatureCols[4], false);
    RoundedFeature(out, drawn, df, pn, AudioFeatureCols[5], false);
    RoundedFeature(out, drawn, df, pn, AudioFeatureCols[6], false);
  }

  /** What is known of the drawn features survives the tempo and loudness assignments. */
  lemma FeaturesKept(a: Frame, b: Frame, pn: seq<Option<real>>)
    requires Writes(a, b, ["tempo", "loudness"])
    requires PopularityFeaturesDrawn(a, pn) && SteadyFeaturesDrawn(a, pn)
    ensures PopularityFeaturesDrawn(b, pn) && SteadyFeaturesDrawn(b, pn)
  {
    GeneratedColsMembers();
    var names := ["tempo", "loudness"];
    DrawnWithinKept(a, b, names, pn, "energy", 0.0, 1.0, true);
    DrawnWithinKept(a, b, names, pn, "valence", 0.0, 1.0, true);
    DrawnWithinKept(a, b, names, pn, "danceability", 0.0, 1.0, true);
    DrawnWithinKept(a, b, names, pn, "acousticness", 0.0, 1.0, true);
    DrawnWithinKept(a, b, names, pn, "instrumentalness", 0.0, 1.0, false);
    DrawnWithinKept(a, b, names, pn, "liveness", 0.0, 1.0, false);
    DrawnWithinKept(a, b, names, pn, "speechiness", 0.0, 1.0, false);
  }

  /** What is known of the popularity features survives the three steady assignments. */
  lemma PopularityFeaturesKept(a: Frame, b: Frame, pn: seq<Option<real>>)
    requires Writes(a, b, ["instrumentalness", "liveness", "speechiness"])
    requires PopularityFeaturesDrawn(a, pn)
    ensures PopularityFeaturesDrawn(b, pn)
  {
    var names := ["instrumentalness", "liveness", "speechiness"];
    DrawnWithinKept(a, b, names, pn, "energy", 0.0, 1.0, true);
    DrawnWithinKept(a, b, names, pn, "valence", 0.0, 1.0, true);
    DrawnWithinKept(a, b, names, pn, "danceability", 0.0, 1.0, true);
    DrawnWithinKept(a, b, names, pn, "acousticness", 0.0, 1.0, true);
  }

  /** The three drawing stages together write exactly the generated columns. */
  lemma DrawnWrites(df: Frame, f1: Frame, f2: Frame, f3: Frame)
    requires Writes(df, f1, ["energy", "valence", "danceability", "acousticness"])
    requires Writes(f1, f2, ["instrumentalness", "liveness", "speechiness"])
    requires Writes(f2, f3, ["tempo", "loudness"])
    ensures Writes(df, f3, GeneratedCols)
    ensures forall m :: 0 <= m < |AudioFeatureCols| ==> AudioFeatureCols[m] in f3.cols
  {
    GeneratedColsMembers();
    WritesCompose(df, f1, f2, ["energy", "valence", "danceability", "acousticness"],
      ["instrumentalness", "liveness", "speechiness"], AudioFeatureCols);
    WritesCompose(df, f2, f3, AudioFeatureCols, ["tempo", "loudness"], GeneratedCols);
  }

  /** Tempo and loudness as returned: the rounding of the features leaves them alone, and they
      are missing exactly where the energy, hence the popularity, is. */
  lemma TempoLoudnessGenerated(out: Frame, driven: Frame, drawn: Frame, df: Frame, pn: seq<Option<real>>)
    requires |drawn.rows| == |df.rows|
    requires Writes(driven, out, AudioFeatureCols) && Writes(drawn, driven, ["tempo", "loudness"])
    requires DrawnWithin(drawn, pn, "energy", 0.0, 1.0, true)
    requires forall i :: 0 <= i < |df.rows| ==> (pn[i].None? <==> Get(df.rows[i], "popularity").Null?)
    requires forall i :: 0 <= i < |drawn.rows| ==>
      && WithinAt(Get(driven.rows[i], "tempo"), 60.0, 200.0, 100)
      && (Get(driven.rows[i], "tempo").Null? <==> !Get(drawn.rows[i], "energy").Num?)
    requires forall i :: 0 <= i < |drawn.rows| ==>
      && WithinAt(Get(driven.rows[i], "loudness"), -30.0, 0.0, 100)
      && (Get(driven.rows[i], "loudness").Null? <==> !Get(drawn.rows[i], "energy").Num?)
    ensures GeneratedWithin(out, df, "tempo", 60.0, 200.0, 100, true)
    ensures GeneratedWithin(out, df, "loudness", -30.0, 0.0, 100, true)
  {
    FeatureColsDistinct();
  }

  /** `add_synthetic_audio_features`: fails without a popularity column; otherwise writes the
      seven features, tempo and loudness column by column, then rounds the features to four
      decimals. Of the finished table this states ranges, decimals and missing cells: the
      popularity-driven features, tempo and loudness are missing exactly where the row's
      popularity is and the other three features never are; features lie in [0, 1], tempo in
      [60, 200] and loudness in [-30, 0]; every other column and the row count are unchanged.
      The drawn values themselves are stated by `DrawPopularityFeatures`, before rounding. */
  method AddSyntheticAudioFeatures(df: Frame, z: Draws) returns (r: Result<Frame, GenError>)
    requires z.Sized(|df.rows|)
    ensures "popularity" !in df.cols ==> r == Err(MissingPopularity)
    ensures "popularity" in df.cols && !NoTextIn(df.rows, "popularity") ==> r == Err(NonNumericPopularity)
    ensures "popularity" in df.cols && NoTextIn(df.rows, "popularity") ==> r.Ok?
    ensures r.Ok? ==> var out := r.value;
      && Writes(df, out, GeneratedCols)
      && FeaturesGenerated(out, df)
      && GeneratedWithin(out, df, "tempo", 60.0, 200.0, 100, true)
      && GeneratedWithin(out, df, "loudness", -30.0, 0.0, 100, true)
  {
    if "popularity" !in df.cols {
      return Err(MissingPopularity);
    }
    var popularity := PopularityOf(df.rows);
    if popularity.None? {
      return Err(NonNumericPopularity);
    }
    var pn := SafePopularityNorm(popularity.value);
    assert forall i :: 0 <= i < |df.rows| ==> (pn[i].None? <==> Get(df.rows[i], "popularity").Null?);
    var f1 := DrawPopularityFeatures(df, pn, z);
    var f2 := DrawSteadyFeatures(f1, pn, z);
    PopularityFeaturesKept(f1, f2, pn);
    var f3 := DrawEnergyDriven(f2, z);
    FeaturesKept(f2, f3, pn);
    DrawnWrites(df, f1, f2, f3);
    var out := RoundFeatureColumns(f3);
    WritesCompose(df, f3, out, GeneratedCols, AudioFeatureCols, GeneratedCols);
    RoundedFeatures(out, f3, df, pn);
    TempoLoudnessGenerated(out, f3, f2, df, pn);
    r := Ok(out);
  }

  // ---------------------------------------------------------------------------------------------
  // Picking rows and writing cells
  // ---------------------------------------------------------------------------------------------

  /** How many rows each injection touches: `max(1, int(n_rows * frac))`. */
  function SampleSize(n: nat, frac: real): (k: int)
    ensures k >= 1
    ensures frac <= 1.0 && n >= 1 && frac >= 0.0 ==> k <= n
  {
    var m := (n as real * frac).Floor;
    assert frac <= 1.0 && frac >= 0.0 ==> n as real * frac <= n as real by {
      if frac <= 1.0 && frac >= 0.0 {
        MulMono(frac, 1.0, n as real);
      }
    }
    if m > 1 then m else 1
  }

  /** Row positions as `rng.choice(out.index, replace=False)` or `df.sample` returns them:
      each a row of the frame, none twice. */
  predicate ValidPicks(p: seq<int>, n: nat)
  {
    (forall j :: 0 <= j < |p| ==> 0 <= p[j] < n) && Distinct(p)
  }

  /** A sample of `size` rows out of `n`. */
  predicate IsSample(p: seq<int>, n: nat, size: int)
  {
    |p| == size && ValidPicks(p, n)
  }

  /** `out.loc[idx, col] = values`: row `idx[j]` gets `values[j]` in column `c`. */
  function SetCells(rows: seq<Row>, idx: seq<int>, c: string, values: seq<Cell>): (r: seq<Row>)
    requires |values| == |idx| && ValidPicks(idx, |rows|)
    ensures |r| == |rows|
    ensures forall j :: 0 <= j < |idx| ==> Get(r[idx[j]], c) == values[j]
    ensures forall i :: 0 <= i < |rows| && i !in idx ==> r[i] == rows[i]
    ensures forall i, d :: 0 <= i < |rows| && d != c ==> Get(r[i], d) == Get(rows[i], d)
  {
    if idx == [] then rows
    else
      var last := |idx| - 1;
      var prev := SetCells(rows, idx[..last], c, values[..last]);
      assert forall j :: 0 <= j < last ==> idx[..last][j] == idx[j] && idx[j] != idx[last];
      prev[idx[last] := prev[idx[last]][c := values[last]]]
  }

  /** The distinct positions of a sample. */
  function Elements(p: seq<int>): set<int>
  {
    set j | 0 <= j < |p| :: p[j]
  }

  /** A sample without repeats names as many rows as it has entries. */
  lemma {:induction false} ElementsOfDistinct(p: seq<int>)
    requires Distinct(p)
    ensures |Elements(p)| == |p|
  {
    if p != [] {
      var last := |p| - 1;
      ElementsOfDistinct(p[..last]);
      assert Elements(p) == Elements(p[..last]) + {p[last]} by {
        forall x | x in Elements(p) ensures x in Elements(p[..last]) + {p[last]} {
          var j :| 0 <= j < |p| && p[j] == x;
          if j < last {
            assert p[..last][j] == x;
          }
        }
        forall x | x in Elements(p[..last]) ensures x in Elements(p) {
          var j :| 0 <= j < last && p[..last][j] == x;
          assert p[j] == x;
        }
      }
      assert p[last] !in Elements(p[..last]) by {
        assert forall j :: 0 <= j < last ==> p[..last][j] == p[j] && p[j] != p[last];
      }
    }
  }

  // ---------------------------------------------------------------------------------------------
  // inject_nulls
  // ---------------------------------------------------------------------------------------------

  /** Some listed column is one the frame has. */
  predicate AnyListed(columns: seq<string>, cols: seq<string>)
  {
    exists k :: 0 <= k < |columns| && columns[k] in cols
  }

  /** The rows after `picks[k]` is blanked in `columns[k]` for each listed column the frame has,
      in list order; a column the frame lacks is skipped. */
  function Nulled(rows: seq<Row>, cols: seq<string>, columns: seq<string>, picks: seq<seq<int>>): (r: seq<Row>)
    requires |picks| == |columns|
    requires forall k :: 0 <= k < |columns| && columns[k] in cols ==> ValidPicks(picks[k], |rows|)
    ensures |r| == |rows|
    decreases |columns|
  {
    if columns == [] then rows
    else
      var last := |columns| - 1;
      var prev := Nulled(rows, cols, columns[..last], picks[..last]);
      if columns[last] in cols then SetCells(prev, picks[last], columns[last], seq(|picks[last]|, j => Null))
      else prev
  }

  /** Cell (i, d) is one `inject_nulls` blanks. */
  predicate Blanked(cols: seq<string>, columns: seq<string>, picks: seq<seq<int>>, i: int, d: string)
    requires |picks| == |columns|
  {
    exists k :: 0 <= k < |columns| && columns[k] == d && d in cols && i in picks[k]
  }

  /** A cell ends up missing exactly when one of the listed columns the frame has blanks it;
      every other cell keeps its value. */
  lemma {:induction false} NulledCells(rows: seq<Row>, cols: seq<string>, columns: seq<string>, picks: seq<seq<int>>)
    requires |picks| == |columns|
    requires forall k :: 0 <= k < |columns| && columns[k] in cols ==> ValidPicks(picks[k], |rows|)
    ensures var r := Nulled(rows, cols, columns, picks);
      forall i, d :: 0 <= i < |rows| ==>
        Get(r[i], d) == if Blanked(cols, columns, picks, i, d) then Null else Get(rows[i], d)
    decreases |columns|
  {
    if columns != [] {
      var last := |columns| - 1;
      var cs, ps := columns[..last], picks[..last];
      NulledCells(rows, cols, cs, ps);
      var prev := Nulled(rows, cols, cs, ps);
      var r := Nulled(rows, cols, columns, picks);
      forall i, d | 0 <= i < |rows|
        ensures Get(r[i], d) == if Blanked(cols, columns, picks, i, d) then Null else Get(rows[i], d)
      {
        var lastHits := columns[last] == d && d in cols && i in picks[last];
        assert Blanked(cols, columns, picks, i, d) <==> Blanked(cols, cs, ps, i, d) || lastHits by {
          if Blanked(cols, columns, picks, i, d) {
            var k :| 0 <= k < |columns| && columns[k] == d && d in cols && i in picks[k];
            if k < last {
              assert cs[k] == d && i in ps[k];
            }
          }
          if Blanked(cols, cs, ps, i, d) {
            var k :| 0 <= k < |cs| && cs[k] == d && d in cols && i in ps[k];
            assert columns[k] == d && i in picks[k];
          }
        }
        if columns[last] in cols {
          if lastHits {
            var j :| 0 <= j < |picks[last]| && picks[last][j] == i;
            assert Get(r[i], d) == Null;
          } else {
            assert Get(r[i], d) == Get(prev[i], d);
          }
        }
      }
    }
  }

  /** The rows of a frame whose cell in column `c` is missing. */
  function NullRows(rows: seq<Row>, c: string): set<int>
  {
    set i | 0 <= i < |rows| && Get(rows[i], c).Null?
  }

  /** Each listed column the frame has ends up with at least as many missing cells as picks:
      every picked row is blank. When the column had no missing cell and is listed once, the
      blank rows are exactly the picked ones. */
  lemma {:induction false} NullsPerColumn(rows: seq<Row>, cols: seq<string>, columns: seq<string>, picks: seq<seq<int>>, k: nat)
    requires |picks| == |columns|
    requires forall k :: 0 <= k < |columns| && columns[k] in cols ==> ValidPicks(picks[k], |rows|)
    requires k < |columns| && columns[k] in cols
    ensures var r, c := Nulled(rows, cols, columns, picks), columns[k];
      && Elements(picks[k]) <= NullRows(r, c)
      && |NullRows(r, c)| >= |picks[k]|
      && (NullRows(rows, c) == {} && (forall k' :: 0 <= k' < |columns| && columns[k'] == c ==> k' == k) ==>
            NullRows(r, c) == Elements(picks[k]))
  {
    var r, c := Nulled(rows, cols, columns, picks), columns[k];
    NulledCells(rows, cols, columns, picks);
    forall x | x in Elements(picks[k]) ensures x in NullRows(r, c) {
      assert Blanked(cols, columns, picks, x, c);
    }
    ElementsOfDistinct(picks[k]);
    assert |NullRows(r, c)| >= |picks[k]| by {
      SubsetCard(Elements(picks[k]), NullRows(r, c));
    }
    if NullRows(rows, c) == {} && (forall k' :: 0 <= k' < |columns| && columns[k'] == c ==> k' == k) {
      forall x | x in NullRows(r, c) ensures x in Elements(picks[k]) {
        assert x !in NullRows(rows, c);
        assert Blanked(cols, columns, picks, x, c);
        var k' :| 0 <= k' < |columns| && columns[k'] == c && c in cols && x in picks[k'];
        assert k' == k;
      }
    }
  }

  lemma SubsetCard(a: set<int>, b: set<int>)
    requires a <= b
    ensures |a| <= |b|
  {
    assert b == a + (b - a);
  }

  /** `inject_nulls`: nothing happens for `frac <= 0`; otherwise each listed column the frame
      has gets `max(1, int(n_rows * frac))` picked rows blanked, and asking for more rows than
      the frame has fails at the first such column. */
  method InjectNulls(df: Frame, columns: seq<string>, frac: real, picks: seq<seq<int>>) returns (r: Result<Frame, GenError>)
    requires |picks| == |columns|
    requires SampleSize(|df.rows|, frac) <= |df.rows| ==>
      forall k :: 0 <= k < |columns| ==> |picks[k]| == SampleSize(|df.rows|, frac) && ValidPicks(picks[k], |df.rows|)
    ensures frac <= 0.0 ==> r == Ok(df)
    ensures frac > 0.0 && SampleSize(|df.rows|, frac) > |df.rows| && AnyListed(columns, df.cols) ==>
      r == Err(SampleLargerThanPopulation(SampleSize(|df.rows|, frac), |df.rows|))
    ensures frac > 0.0 && SampleSize(|df.rows|, frac) > |df.rows| && !AnyListed(columns, df.cols) ==> r == Ok(df)
    ensures frac > 0.0 && SampleSize(|df.rows|, frac) <= |df.rows| ==>
      r == Ok(Frame(df.cols, Nulled(df.rows, df.cols, columns, picks)))
  {
    if frac <= 0.0 {
      return Ok(df);
    }
    var n := |df.rows|;
    var size := SampleSize(n, frac);
    var out := df.rows;
    for k := 0 to |columns|
      invariant size > n ==> !AnyListed(columns[..k], df.cols) && out == df.rows
      invariant size <= n ==> out == Nulled(df.rows, df.cols, columns[..k], picks[..k])
    {
      assert columns[..k + 1][..k] == columns[..k] && picks[..k + 1][..k] == picks[..k];
      if columns[k] in df.cols {
        if size > n {
          assert AnyListed(columns, df.cols);
          return Err(SampleLargerThanPopulation(size, n));
        }
        out := SetCells(out, picks[k], columns[k], seq(|picks[k]|, j => Null));
      }
      assert !AnyListed(columns[..k], df.cols) && columns[k] !in df.cols ==> !AnyListed(columns[..k + 1], df.cols);
    }
    assert columns[..|columns|] == columns && picks[..|picks|] == picks;
    r := Ok(Frame(df.cols, out));
  }

  // ---------------------------------------------------------------------------------------------
  // inject_duplicates
  // ---------------------------------------------------------------------------------------------

  /** `inject_duplicates`: nothing happens for `frac <= 0`; otherwise `max(1, int(n * frac))`
      sampled rows are appended after the original ones (a sample larger than the frame
      fails). */
  function InjectDuplicates(df: Frame, frac: real, sample: seq<int>): (r: Result<Frame, GenError>)
    requires SampleSize(|df.rows|, frac) <= |df.rows| ==> IsSample(sample, |df.rows|, SampleSize(|df.rows|, frac))
    ensures frac <= 0.0 ==> r == Ok(df)
    ensures frac > 0.0 && SampleSize(|df.rows|, frac) > |df.rows| ==>
      r == Err(SampleLargerThanPopulation(SampleSize(|df.rows|, frac), |df.rows|))
    ensures frac > 0.0 && SampleSize(|df.rows|, frac) <= |df.rows| ==>
      && r.Ok?
      && r.value.cols == df.cols
      && |r.value.rows| == |df.rows| + SampleSize(|df.rows|, frac)
      && r.value.rows[..|df.rows|] == df.rows
      && (forall j :: |df.rows| <= j < |r.value.rows| ==> r.value.rows[j] == df.rows[sample[j - |df.rows|]])
  {
    if frac <= 0.0 then Ok(df)
    else
      var n := |df.rows|;
      var size := SampleSize(n, frac);
      if size > n then Err(SampleLargerThanPopulation(size, n))
      else Ok(Frame(df.cols, df.rows + seq(size, j requires 0 <= j < size => df.rows[sample[j]])))
  }

  /** Duplication adds no new row: the frame holds the same distinct rows as before. */
  lemma {:induction false} DuplicatesAddNothingNew(df: Frame, frac: real, sample: seq<int>)
    requires SampleSize(|df.rows|, frac) <= |df.rows| ==> IsSample(sample, |df.rows|, SampleSize(|df.rows|, frac))
    requires InjectDuplicates(df, frac, sample).Ok?
    ensures var rows := InjectDuplicates(df, frac, sample).value.rows;
      (set x | x in rows) == (set x | x in df.rows)
  {
    var rows := InjectDuplicates(df, frac, sample).value.rows;
    var n := |df.rows|;
    forall x | x in rows ensures x in df.rows {
      var j :| 0 <= j < |rows| && rows[j] == x;
      if j < n {
        assert rows[..n][j] == x;
      }
    }
    forall x | x in df.rows ensures x in rows {
      var j :| 0 <= j < n && df.rows[j] == x;
      assert rows[..n][j] == x;
    }
  }

  // ---------------------------------------------------------------------------------------------
  // inject_outliers
  // ---------------------------------------------------------------------------------------------

  /** Both parts of a split sample are samples, and a row outside the sample is in neither. */
  lemma PicksSplit(picks: seq<int>, half: nat, n: nat)
    requires half <= |picks| && ValidPicks(picks, n)
    ensures ValidPicks(picks[..half], n) && ValidPicks(picks[half..], n)
    ensures forall i :: i !in picks ==> i !in picks[..half] && i !in picks[half..]
  {
    assert forall j :: 0 <= j < half ==> picks[..half][j] == picks[j];
    assert forall j :: 0 <= j < |picks| - half ==> picks[half..][j] == picks[half + j];
  }

  /** The value indices `rng.choice([...], size=...)` returns: `half` tempo choices and, per
      feature column, `rest` feature choices, each an index into the four outliers. */
  predicate ChoicesFit(half: int, rest: int, tempoChoice: seq<int>, featureChoice: seq<seq<int>>)
  {
    && |tempoChoice| == half && (forall j :: 0 <= j < |tempoChoice| ==> 0 <= tempoChoice[j] < 4)
    && |featureChoice| == |AudioFeatureCols|
    && forall m :: 0 <= m < |featureChoice| ==>
         |featureChoice[m]| == rest && forall j :: 0 <= j < rest ==> 0 <= featureChoice[m][j] < 4
  }

  /** The outlier values the choices name. */
  function Pick(values: seq<real>, choice: seq<int>): (r: seq<Cell>)
    requires forall j :: 0 <= j < |choice| ==> 0 <= choice[j] < |values|
    ensures |r| == |choice|
  {
    seq(|choice|, j requires 0 <= j < |choice| => Num(values[choice[j]]))
  }

  /** The feature loop of `inject_outliers` after its first `m` columns: each of those the frame
      has gets a feature outlier in every row of `idx`. */
  function FeatureOutlierRows(rows: seq<Row>, cols: seq<string>, idx: seq<int>, featureChoice: seq<seq<int>>, m: nat): (r: seq<Row>)
    requires m <= |AudioFeatureCols| && |featureChoice| == |AudioFeatureCols| && ValidPicks(idx, |rows|)
    requires forall k :: 0 <= k < |featureChoice| ==>
      |featureChoice[k]| == |idx| && forall j :: 0 <= j < |idx| ==> 0 <= featureChoice[k][j] < 4
    ensures |r| == |rows|
  {
    if m == 0 then rows
    else
      var prev := FeatureOutlierRows(rows, cols, idx, featureChoice, m - 1);
      var c := AudioFeatureCols[m - 1];
      if c in cols && |idx| > 0 then SetCells(prev, idx, c, Pick(FeatureOutliers, featureChoice[m - 1])) else prev
  }

  /** The rows `inject_outliers` leaves: the first `half` picks get a tempo outlier (when the
      frame has tempo), the rest a feature outlier in every feature column the frame has. */
  function OutlierRows(rows: seq<Row>, cols: seq<string>, picks: seq<int>, half: nat, tempoChoice: seq<int>, featureChoice: seq<seq<int>>): (r: seq<Row>)
    requires half <= |picks| && ValidPicks(picks, |rows|)
    requires ChoicesFit(half, |picks| - half, tempoChoice, featureChoice)
    ensures |r| == |rows|
  {
    var idxTempo, idxFeat := picks[..half], picks[half..];
    assert forall j :: 0 <= j < half ==> idxTempo[j] == picks[j];
    assert forall j :: 0 <= j < |idxFeat| ==> idxFeat[j] == picks[half + j];
    var tempoDone := if "tempo" in cols && |idxTempo| > 0 then SetCells(rows, idxTempo, "tempo", Pick(TempoOutliers, tempoChoice)) else rows;
    FeatureOutlierRows(tempoDone, cols, idxFeat, featureChoice, |AudioFeatureCols|)
  }

  /** The feature loop leaves every row it does not pick as it was. */
  lemma {:induction false} FeatureOutlierRowsKept(rows: seq<Row>, cols: seq<string>, idx: seq<int>, featureChoice: seq<seq<int>>, m: nat)
    requires m <= |AudioFeatureCols| && |featureChoice| == |AudioFeatureCols| && ValidPicks(idx, |rows|)
    requires forall k :: 0 <= k < |featureChoice| ==>
      |featureChoice[k]| == |idx| && forall j :: 0 <= j < |idx| ==> 0 <= featureChoice[k][j] < 4
    ensures var r := FeatureOutlierRows(rows, cols, idx, featureChoice, m);
      forall i :: 0 <= i < |rows| && i !in idx ==> r[i] == rows[i]
  {
    if m > 0 {
      FeatureOutlierRowsKept(rows, cols, idx, featureChoice, m - 1);
    }
  }

  /** The feature loop touches only the feature columns. */
  lemma {:induction false} FeatureOutlierOtherCells(rows: seq<Row>, cols: seq<string>, idx: seq<int>, featureChoice: seq<seq<int>>, m: nat)
    requires m <= |AudioFeatureCols| && |featureChoice| == |AudioFeatureCols| && ValidPicks(idx, |rows|)
    requires forall k :: 0 <= k < |featureChoice| ==>
      |featureChoice[k]| == |idx| && forall j :: 0 <= j < |idx| ==> 0 <= featureChoice[k][j] < 4
    ensures var r := FeatureOutlierRows(rows, cols, idx, featureChoice, m);
      forall i, d :: 0 <= i < |rows| && d !in AudioFeatureCols ==> Get(r[i], d) == Get(rows[i], d)
  {
    if m > 0 {
      FeatureOutlierOtherCells(rows, cols, idx, featureChoice, m - 1);
    }
  }

  /** Each feature column the loop has reached, and the frame has, holds the chosen outlier in
      every picked row. */
  lemma {:induction false} FeatureOutlierValues(rows: seq<Row>, cols: seq<string>, idx: seq<int>, featureChoice: seq<seq<int>>, m: nat)
    requires m <= |AudioFeatureCols| && |featureChoice| == |AudioFeatureCols| && ValidPicks(idx, |rows|)
    requires forall k :: 0 <= k < |featureChoice| ==>
      |featureChoice[k]| == |idx| && forall j :: 0 <= j < |idx| ==> 0 <= featureChoice[k][j] < 4
    ensures var r := FeatureOutlierRows(rows, cols, idx, featureChoice, m);
      forall j, k :: 0 <= j < |idx| && 0 <= k < m && AudioFeatureCols[k] in cols ==>
        Get(r[idx[j]], AudioFeatureCols[k]) == Num(FeatureOutliers[featureChoice[k][j]])
  {
    if m > 0 {
      FeatureOutlierValues(rows, cols, idx, featureChoice, m - 1);
      FeatureColsDistinct();
    }
  }

  /** `inject_outliers`: nothing happens for `frac <= 0`; otherwise `max(1, int(n * frac))`
      rows are picked (more than the frame has fails), the first half of them get a tempo of
      10, 30, 250 or 320, and the others -0.4, -0.1, 1.2 or 1.6 in each feature column. */
  method InjectOutliers(df: Frame, frac: real, picks: seq<int>, tempoChoice: seq<int>, featureChoice: seq<seq<int>>)
    returns (r: Result<Frame, GenError>)
    requires var k := SampleSize(|df.rows|, frac);
      ChoicesFit(k / 2, k - k / 2, tempoChoice, featureChoice)
    requires SampleSize(|df.rows|, frac) <= |df.rows| ==> IsSample(picks, |df.rows|, SampleSize(|df.rows|, frac))
    ensures frac <= 0.0 ==> r == Ok(df)
    ensures frac > 0.0 && SampleSize(|df.rows|, frac) > |df.rows| ==>
      r == Err(SampleLargerThanPopulation(SampleSize(|df.rows|, frac), |df.rows|))
    ensures frac > 0.0 && SampleSize(|df.rows|, frac) <= |df.rows| ==>
      var k := SampleSize(|df.rows|, frac);
      r == Ok(Frame(df.cols, OutlierRows(df.rows, df.cols, picks, k / 2, tempoChoice, featureChoice)))
  {
    if frac <= 0.0 {
      return Ok(df);
    }
    var n := |df.rows|;
    var k := SampleSize(n, frac);
    if k > n {
      return Err(SampleLargerThanPopulation(k, n));
    }
    var half := k / 2;
    var idxTempo, idxFeat := picks[..half], picks[half..];
    PicksSplit(picks, half, n);
    var out := df.rows;
    if "tempo" in df.cols && |idxTempo| > 0 {
      out := SetCells(out, idxTempo, "tempo", Pick(TempoOutliers, tempoChoice));
    }
    ghost var tempoDone := out;
    for m := 0 to |AudioFeatureCols|
      invariant out == FeatureOutlierRows(tempoDone, df.cols, idxFeat, featureChoice, m)
    {
      var c := AudioFeatureCols[m];
      if c in df.cols && |idxFeat| > 0 {
        out := SetCells(out, idxFeat, c, Pick(FeatureOutliers, featureChoice[m]));
      }
    }
    r := Ok(Frame(df.cols, out));
  }

  /** The two stages of `inject_outliers`: the tempo assignment, then the feature loop over
      the rest of the picks. */
  lemma {:induction false} OutlierStages(rows: seq<Row>, cols: seq<string>, picks: seq<int>, half: nat, tempoChoice: seq<int>, featureChoice: seq<seq<int>>)
    returns (tempoDone: seq<Row>)
    requires half <= |picks| && ValidPicks(picks, |rows|)
    requires ChoicesFit(half, |picks| - half, tempoChoice, featureChoice)
    ensures |tempoDone| == |rows| && ValidPicks(picks[half..], |rows|)
    ensures OutlierRows(rows, cols, picks, half, tempoChoice, featureChoice) ==
      FeatureOutlierRows(tempoDone, cols, picks[half..], featureChoice, |AudioFeatureCols|)
    ensures forall i :: 0 <= i < |rows| && i !in picks[..half] ==> tempoDone[i] == rows[i]
    ensures forall j :: 0 <= j < half && "tempo" in cols ==> Get(tempoDone[picks[j]], "tempo") == Num(TempoOutliers[tempoChoice[j]])
    ensures forall i, d :: 0 <= i < |rows| && d != "tempo" ==> Get(tempoDone[i], d) == Get(rows[i], d)
  {
    var idxTempo, idxFeat := picks[..half], picks[half..];
    assert forall j :: 0 <= j < half ==> idxTempo[j] == picks[j];
    assert forall j :: 0 <= j < |idxFeat| ==> idxFeat[j] == picks[half + j];
    tempoDone := if "tempo" in cols && |idxTempo| > 0 then SetCells(rows, idxTempo, "tempo", Pick(TempoOutliers, tempoChoice)) else rows;
  }

  /** A row `inject_outliers` does not pick is left as it was. */
  lemma {:induction false} OutliersLeaveOtherRows(rows: seq<Row>, cols: seq<string>, picks: seq<int>, half: nat, tempoChoice: seq<int>, featureChoice: seq<seq<int>>)
    requires half <= |picks| && ValidPicks(picks, |rows|)
    requires ChoicesFit(half, |picks| - half, tempoChoice, featureChoice)
    ensures var r := OutlierRows(rows, cols, picks, half, tempoChoice, featureChoice);
      forall i :: 0 <= i < |rows| && i !in picks ==> r[i] == rows[i]
  {
    var tempoDone := OutlierStages(rows, cols, picks, half, tempoChoice, featureChoice);
    FeatureOutlierRowsKept(tempoDone, cols, picks[half..], featureChoice, |AudioFeatureCols|);
    PicksSplit(picks, half, |rows|);
  }

  /** Each of the first `half` picks carries a tempo below 50 or above 200 when the frame has a
      tempo column, and keeps every other cell. */
  lemma {:induction false} TempoOutliersPlaced(rows: seq<Row>, cols: seq<string>, picks: seq<int>, half: nat, tempoChoice: seq<int>, featureChoice: seq<seq<int>>)
    requires half <= |picks| && ValidPicks(picks, |rows|)
    requires ChoicesFit(half, |picks| - half, tempoChoice, featureChoice)
    ensures var r := OutlierRows(rows, cols, picks, half, tempoChoice, featureChoice);
      && (forall j :: 0 <= j < half && "tempo" in cols ==>
            Get(r[picks[j]], "tempo") == Num(TempoOutliers[tempoChoice[j]]) &&
            (TempoOutliers[tempoChoice[j]] < 50.0 || TempoOutliers[tempoChoice[j]] > 200.0))
      && (forall j, d :: 0 <= j < half && d != "tempo" ==> Get(r[picks[j]], d) == Get(rows[picks[j]], d))
  {
    var tempoDone := OutlierStages(rows, cols, picks, half, tempoChoice, featureChoice);
    var idxFeat := picks[half..];
    FeatureOutlierRowsKept(tempoDone, cols, idxFeat, featureChoice, |AudioFeatureCols|);
    var r := OutlierRows(rows, cols, picks, half, tempoChoice, featureChoice);
    forall j | 0 <= j < half ensures r[picks[j]] == tempoDone[picks[j]] {
      assert picks[j] !in idxFeat by {
        assert forall t :: 0 <= t < |idxFeat| ==> idxFeat[t] == picks[half + t] && picks[half + t] != picks[j];
      }
    }
    OutlierValuesOutOfRange();
  }

  /** Each of the other picks carries a value below 0 or above 1 in every feature column the
      frame has, and keeps every cell outside the feature columns. */
  lemma {:induction false} FeatureOutliersPlaced(rows: seq<Row>, cols: seq<string>, picks: seq<int>, half: nat, tempoChoice: seq<int>, featureChoice: seq<seq<int>>)
    requires half <= |picks| && ValidPicks(picks, |rows|)
    requires ChoicesFit(half, |picks| - half, tempoChoice, featureChoice)
    ensures var r := OutlierRows(rows, cols, picks, half, tempoChoice, featureChoice);
      && (forall j, m :: half <= j < |picks| && 0 <= m < |AudioFeatureCols| && AudioFeatureCols[m] in cols ==>
            Get(r[picks[j]], AudioFeatureCols[m]) == Num(FeatureOutliers[featureChoice[m][j - half]]) &&
            (FeatureOutliers[featureChoice[m][j - half]] < 0.0 || FeatureOutliers[featureChoice[m][j - half]] > 1.0))
      && (forall j, d :: half <= j < |picks| && d !in AudioFeatureCols ==> Get(r[picks[j]], d) == Get(rows[picks[j]], d))
  {
    var tempoDone := OutlierStages(rows, cols, picks, half, tempoChoice, featureChoice);
    var idxTempo, idxFeat := picks[..half], picks[half..];
    FeatureOutlierOtherCells(tempoDone, cols, idxFeat, featureChoice, |AudioFeatureCols|);
    FeatureOutlierValues(tempoDone, cols, idxFeat, featureChoice, |AudioFeatureCols|);
    FeatureColsDistinct();
    forall j | half <= j < |picks| ensures idxFeat[j - half] == picks[j] && picks[j] !in idxTempo {
      assert forall t :: 0 <= t < half ==> idxTempo[t] == picks[t] && picks[t] != picks[j];
    }
    OutlierValuesOutOfRange();
  }

  lemma OutlierValuesOutOfRange()
    ensures forall t :: 0 <= t < |TempoOutliers| ==> TempoOutliers[t] < 50.0 || TempoOutliers[t] > 200.0
    ensures forall t :: 0 <= t < |FeatureOutliers| ==> FeatureOutliers[t] < 0.0 || FeatureOutliers[t] > 1.0
  {
  }
}
