/** `SpotifyDataCleaner` of backend/data_cleaner.py: finding the artist column, and rebuilding
    `cleaned_songs` from `raw_songs` by a fixed series of SQL statements. The database is a map
    from table names to frames; each statement is given its meaning on the sequence of rows. */
module DataCleaner {
  import opened Common
  import opened Seqs
  import opened Stats
  import opened Strings
  import opened Frames

  /** The RuntimeErrors the cleaner raises. */
  datatype CleanError =
    | TableNotFound(table: string)       // ensure_table_exists
    | ColumnsUnreadable(table: string)   // resolve_artist_column on a table without columns
    | NoArtistColumn(table: string)      // resolve_artist_column finds nothing

  /** The artist column names tried first, in order of preference. */
  const ArtistCandidates: seq<string> :=
    ["artist_name", "artist", "artists", "artist_names", "artists_name", "artistName"]

  /** `"artist" in c.lower()` */
  predicate MentionsArtist(c: string)
  {
    Contains(Lower(c), "artist")
  }

  /** Position in `names` of the first one that is a column, if any. */
  function FirstPresent(names: seq<string>, cols: seq<string>): (r: Option<nat>)
    ensures r.Some? ==> r.value < |names| && names[r.value] in cols
    ensures r.Some? ==> forall k :: 0 <= k < r.value ==> names[k] !in cols
    ensures r.None? ==> forall k :: 0 <= k < |names| ==> names[k] !in cols
  {
    if names == [] then None
    else if names[0] in cols then Some(0)
    else match FirstPresent(names[1..], cols)
      case None => None
      case Some(k) => Some(k + 1)
  }

  /** Position of the first column whose lower-cased name contains "artist", if any. */
  function FirstMentioning(cols: seq<string>): (r: Option<nat>)
    ensures r.Some? ==> r.value < |cols| && MentionsArtist(cols[r.value])
    ensures r.Some? ==> forall k :: 0 <= k < r.value ==> !MentionsArtist(cols[k])
    ensures r.None? ==> forall k :: 0 <= k < |cols| ==> !MentionsArtist(cols[k])
  {
    if cols == [] then None
    else if MentionsArtist(cols[0]) then Some(0)
    else match FirstMentioning(cols[1..])
      case None => None
      case Some(k) => Some(k + 1)
  }

  /** What `resolve_artist_column` answers for a table with these columns. */
  function ArtistColumn(table: string, cols: seq<string>): Result<string, CleanError>
  {
    if cols == [] then Err(ColumnsUnreadable(table))
    else match FirstPresent(ArtistCandidates, cols)
      case Some(k) => Ok(ArtistCandidates[k])
      case None =>
        match FirstMentioning(cols)
        case Some(k) => Ok(cols[k])
        case None => Err(NoArtistColumn(table))
  }

  predicate OccursAt(s: string, sub: string, k: nat)
  {
    k + |sub| <= |s| && s[k..k + |sub|] == sub
  }

  /** `sub in s` holds only when `sub` occurs at some position of `s`. */
  lemma {:induction false} ContainsAt(s: string, sub: string)
    requires Contains(s, sub)
    ensures exists k: nat :: OccursAt(s, sub, k)
    decreases |s|
  {
    if StartsWith(s, sub) {
      assert OccursAt(s, sub, 0);
    } else {
      ContainsAt(s[1..], sub);
      var k: nat :| OccursAt(s[1..], sub, k);
      assert s[k + 1..k + 1 + |sub|] == s[1..][k..k + |sub|];
      assert OccursAt(s, sub, k + 1);
    }
  }

  /** A name that starts with "artist" mentions the artist. */
  lemma StartsWithArtist(c: string)
    requires |c| >= 6 && c[..6] == "artist"
    ensures MentionsArtist(c)
  {
    var l := Lower(c);
    assert l[..6] == "artist";
    assert StartsWith(l, "artist");
  }

  /** Every preferred name would also be found by the fallback search. */
  lemma CandidatesMentionArtist()
    ensures forall k :: 0 <= k < |ArtistCandidates| ==> MentionsArtist(ArtistCandidates[k])
  {
    forall k | 0 <= k < |ArtistCandidates| ensures MentionsArtist(ArtistCandidates[k]) {
      StartsWithArtist(ArtistCandidates[k]);
    }
  }

  /** `resolve_artist_column` succeeds exactly when the table has a column whose lower-cased name
      contains "artist", and the column it returns is one of the table's and mentions the artist.
      Failing that it reports unreadable columns for a table without columns, and no artist
      column otherwise. */
  lemma ArtistColumnFound(table: string, cols: seq<string>)
    ensures ArtistColumn(table, cols).Ok? <==> exists k :: 0 <= k < |cols| && MentionsArtist(cols[k])
    ensures ArtistColumn(table, cols).Ok? ==>
      ArtistColumn(table, cols).value in cols && MentionsArtist(ArtistColumn(table, cols).value)
    ensures ArtistColumn(table, cols).Err? ==>
      ArtistColumn(table, cols).error == (if cols == [] then ColumnsUnreadable(table) else NoArtistColumn(table))
  {
    CandidatesMentionArtist();
  }

  /** Priority follows the candidate list, not the column order: when some candidate is a column,
      the answer is the earliest candidate that is; otherwise it is the earliest column that
      mentions the artist. */
  lemma ArtistColumnPriority(table: string, cols: seq<string>)
    ensures forall k :: 0 <= k < |ArtistCandidates| && ArtistCandidates[k] in cols ==>
      exists j :: 0 <= j <= k && ArtistColumn(table, cols) == Ok(ArtistCandidates[j])
        && forall i :: 0 <= i < j ==> ArtistCandidates[i] !in cols
    ensures (forall k :: 0 <= k < |ArtistCandidates| ==> ArtistCandidates[k] !in cols) ==>
      forall k :: 0 <= k < |cols| && MentionsArtist(cols[k]) ==>
        exists j :: 0 <= j <= k && ArtistColumn(table, cols) == Ok(cols[j])
          && forall i :: 0 <= i < j ==> !MentionsArtist(cols[i])
  {
  }

  /** The columns tested by the fill steps never mention the artist, so the artist column is
      never one of them. */
  lemma FillColumnsAreNotArtist(c: string)
    requires MentionsArtist(c)
    ensures c != "tempo" && c != "valence" && c != "energy"
  {
    var l := Lower(c);
    ContainsAt(l, "artist");
    var k: nat :| OccursAt(l, "artist", k);
    assert l[k..k + 6] == "artist";
    assert l[k] == 'a' && l[k + 1] == 'r' by {
      assert l[k..k + 6][0] == l[k] && l[k..k + 6][1] == l[k + 1];
    }
  }

  // ---------------------------------------------------------------------------------------------
  // SQLite's order of values, used by ORDER BY in the window of the deduplication step.
  // ---------------------------------------------------------------------------------------------

  /** Text comparison by code points (SQLite's BINARY collation). */
  predicate TextLt(s: string, t: string)
    decreases |s|
  {
    if s == [] then t != []
    else if t == [] then false
    else if s[0] != t[0] then s[0] < t[0]
    else TextLt(s[1..], t[1..])
  }

  /** NULL sorts first, then numbers by value, then text. */
  predicate CellLt(a: Cell, b: Cell)
  {
    match (a, b)
    case (Null, Null) => false
    case (Null, _) => true
    case (Num(x), Num(y)) => x < y
    case (Num(_), Text(_)) => true
    case (Text(s), Text(t)) => TextLt(s, t)
    case _ => false
  }

  lemma {:induction false} TextLtIrreflexive(s: string)
    ensures !TextLt(s, s)
    decreases |s|
  {
    if s != [] {
      TextLtIrreflexive(s[1..]);
    }
  }

  lemma {:induction false} TextLtTransitive(s: string, t: string, u: string)
    requires TextLt(s, t) && TextLt(t, u)
    ensures TextLt(s, u)
    decreases |s|
  {
    if s != [] && s[0] == t[0] && t[0] == u[0] {
      TextLtTransitive(s[1..], t[1..], u[1..]);
    }
  }

  lemma {:induction false} TextLtTotal(s: string, t: string)
    requires s != t
    ensures TextLt(s, t) || TextLt(t, s)
    decreases |s|
  {
    if s != [] && t != [] && s[0] == t[0] {
      TextLtTotal(s[1..], t[1..]);
    }
  }

  /** SQLite's value order is a strict total order. */
  lemma CellLtOrder(a: Cell, b: Cell, c: Cell)
    ensures !CellLt(a, a)
    ensures CellLt(a, b) && CellLt(b, c) ==> CellLt(a, c)
    ensures a != b ==> CellLt(a, b) || CellLt(b, a)
  {
    if a.Text? {
      TextLtIrreflexive(a.s);
    }
    if a.Text? && b.Text? && c.Text? && CellLt(a, b) && CellLt(b, c) {
      TextLtTransitive(a.s, b.s, c.s);
    }
    if a.Text? && b.Text? && a != b {
      TextLtTotal(a.s, b.s);
    }
  }

  // ---------------------------------------------------------------------------------------------
  // Step 1: ROW_NUMBER() OVER (PARTITION BY track_id, track_name, artist ORDER BY order DESC) = 1
  // ---------------------------------------------------------------------------------------------

  /** The partition of a row: NULLs fall in one partition, like any other value. */
  function KeyOf(r: Row, artist: string): seq<Cell>
  {
    [Get(r, "track_id"), Get(r, "track_name"), Get(r, artist)]
  }

  predicate HasDedupKeys(cols: seq<string>, artist: string)
  {
    "track_id" in cols && "track_name" in cols && artist in cols
  }

  /** The window's ordering column. */
  function OrderColumn(cols: seq<string>): string
  {
    if "popularity" in cols then "popularity" else "track_id"
  }

  /** Row j comes before row i under `ORDER BY order DESC`. SQL leaves the order of equal values
      open; the model puts the earlier row first. */
  predicate Outranks(rows: seq<Row>, order: string, j: nat, i: nat)
    requires j < |rows| && i < |rows|
  {
    var a, b := Get(rows[j], order), Get(rows[i], order);
    CellLt(b, a) || (a == b && j < i)
  }

  /** Row i gets row number 1 in its partition. */
  predicate FirstInPartition(rows: seq<Row>, artist: string, order: string, i: nat)
    requires i < |rows|
  {
    forall j :: 0 <= j < |rows| && KeyOf(rows[j], artist) == KeyOf(rows[i], artist) ==> !Outranks(rows, order, j, i)
  }

  function DedupMask(rows: seq<Row>, artist: string, order: string): (mask: seq<bool>)
    ensures |mask| == |rows| && forall i :: 0 <= i < |rows| ==> mask[i] == FirstInPartition(rows, artist, order, i)
  {
    seq(|rows|, i requires 0 <= i < |rows| => FirstInPartition(rows, artist, order, i))
  }

  /** Step 1: the rows inserted into the fresh `cleaned_songs`. Without all three key columns
      every raw row is copied. */
  function Deduplicated(raw: Frame, artist: string): seq<Row>
  {
    if HasDedupKeys(raw.cols, artist) then Select(raw.rows, DedupMask(raw.rows, artist, OrderColumn(raw.cols)))
    else raw.rows
  }

  /** Outranking is a strict total order on the positions of a table. */
  lemma OutranksOrder(rows: seq<Row>, order: string, i: nat, j: nat, k: nat)
    requires i < |rows| && j < |rows| && k < |rows|
    ensures !Outranks(rows, order, i, i)
    ensures Outranks(rows, order, i, j) && Outranks(rows, order, j, k) ==> Outranks(rows, order, i, k)
    ensures i != j ==> Outranks(rows, order, i, j) || Outranks(rows, order, j, i)
  {
    var a, b, c := Get(rows[i], order), Get(rows[j], order), Get(rows[k], order);
    CellLtOrder(a, a, a);
    CellLtOrder(c, b, a);
    CellLtOrder(a, b, c);
  }

  /** The best-ranked row of partition `key` among the first n rows. */
  function Leader(rows: seq<Row>, artist: string, order: string, key: seq<Cell>, n: nat): (r: Option<nat>)
    requires n <= |rows|
    ensures r.Some? ==> r.value < n
  {
    if n == 0 then None
    else
      var prev := Leader(rows, artist, order, key, n - 1);
      if KeyOf(rows[n - 1], artist) != key then prev
      else if prev.None? then Some(n - 1)
      else if Outranks(rows, order, n - 1, prev.value) then Some(n - 1)
      else prev
  }

  lemma {:induction false} LeaderIsFirst(rows: seq<Row>, artist: string, order: string, key: seq<Cell>, n: nat)
    requires n <= |rows|
    ensures var r := Leader(rows, artist, order, key, n);
      && (r.Some? ==> r.value < n && KeyOf(rows[r.value], artist) == key)
      && (r.Some? ==> forall j :: 0 <= j < n && KeyOf(rows[j], artist) == key ==> !Outranks(rows, order, j, r.value))
      && (r.None? ==> forall j :: 0 <= j < n ==> KeyOf(rows[j], artist) != key)
  {
    if n > 0 {
      LeaderIsFirst(rows, artist, order, key, n - 1);
      var prev := Leader(rows, artist, order, key, n - 1);
      var r := Leader(rows, artist, order, key, n);
      if r.Some? {
        forall j | 0 <= j < n && KeyOf(rows[j], artist) == key
          ensures !Outranks(rows, order, j, r.value)
        {
          if prev.Some? {
            OutranksOrder(rows, order, j, n - 1, prev.value);
            OutranksOrder(rows, order, j, prev.value, n - 1);
          } else {
            OutranksOrder(rows, order, j, j, j);
          }
        }
      }
    }
  }

  /** Every partition has a row that gets row number 1. */
  lemma Champion(rows: seq<Row>, artist: string, order: string, i: nat) returns (c: nat)
    requires i < |rows|
    ensures c < |rows| && KeyOf(rows[c], artist) == KeyOf(rows[i], artist)
    ensures FirstInPartition(rows, artist, order, c)
  {
    var key := KeyOf(rows[i], artist);
    LeaderIsFirst(rows, artist, order, key, |rows|);
    var r := Leader(rows, artist, order, key, |rows|);
    assert r.Some?;
    c := r.value;
  }

  /** Some row of `rows` lies in partition `key`. */
  predicate HasKey(rows: seq<Row>, artist: string, key: seq<Cell>)
  {
    exists k :: 0 <= k < |rows| && KeyOf(rows[k], artist) == key
  }

  /** Deduplication keeps one row of every partition of the raw table... */
  lemma DedupKeepsEveryKey(rows: seq<Row>, artist: string, order: string)
    ensures forall i :: 0 <= i < |rows| ==> HasKey(Select(rows, DedupMask(rows, artist, order)), artist, KeyOf(rows[i], artist))
  {
    var mask := DedupMask(rows, artist, order);
    var kept, idx := Select(rows, mask), TrueIndices(mask);
    forall i | 0 <= i < |rows| ensures HasKey(kept, artist, KeyOf(rows[i], artist)) {
      var c := Champion(rows, artist, order, i);
      assert mask[c];
      assert c in idx;
      var k :| 0 <= k < |idx| && idx[k] == c;
      assert kept[k] == rows[c];
    }
  }

  /** ...and no more than one... */
  lemma DedupKeysDistinct(rows: seq<Row>, artist: string, order: string)
    ensures var kept := Select(rows, DedupMask(rows, artist, order));
      forall a, b :: 0 <= a < b < |kept| ==> KeyOf(kept[a], artist) != KeyOf(kept[b], artist)
  {
    var mask := DedupMask(rows, artist, order);
    var kept, idx := Select(rows, mask), TrueIndices(mask);
    forall a, b | 0 <= a < b < |kept| ensures KeyOf(kept[a], artist) != KeyOf(kept[b], artist) {
      var i, j := idx[a], idx[b];
      assert i < j && FirstInPartition(rows, artist, order, i) && FirstInPartition(rows, artist, order, j);
      OutranksOrder(rows, order, i, j, j);
    }
  }

  /** ...namely one whose ordering value no row of its partition exceeds. */
  lemma DedupKeepsHighest(rows: seq<Row>, artist: string, order: string)
    ensures var kept := Select(rows, DedupMask(rows, artist, order));
      forall k, j :: 0 <= k < |kept| && 0 <= j < |rows| && KeyOf(rows[j], artist) == KeyOf(kept[k], artist) ==>
        !CellLt(Get(kept[k], order), Get(rows[j], order))
  {
  }

  // ---------------------------------------------------------------------------------------------
  // Steps 2 to 7
  // ---------------------------------------------------------------------------------------------

  /** Step 2: `DELETE ... WHERE artist IS NULL`. Exactly the rows with an artist are kept. */
  function WithoutNullArtist(rows: seq<Row>, artist: string): (r: seq<Row>)
    ensures |r| <= |rows|
    ensures forall k :: 0 <= k < |r| ==> Get(r[k], artist) != Null && r[k] in rows
    ensures forall i :: 0 <= i < |rows| && Get(rows[i], artist) != Null ==> rows[i] in r
  {
    var mask := seq(|rows|, i requires 0 <= i < |rows| => Get(rows[i], artist) != Null);
    SelectKeeps(rows, mask);
    Select(rows, mask)
  }

  /** The values `c IS NOT NULL AND c BETWEEN lo AND hi` admits, in row order. Text sorts after
      every number, so no text value is between two numbers. */
  function InRangeValues(rows: seq<Row>, c: string, lo: int, hi: int): (vals: seq<real>)
    ensures forall k :: 0 <= k < |vals| ==> lo as real <= vals[k] <= hi as real
  {
    if rows == [] then []
    else
      var x := Get(rows[|rows| - 1], c);
      InRangeValues(rows[..|rows| - 1], c, lo, hi)
        + (if x.Num? && lo as real <= x.v <= hi as real then [x.v] else [])
  }

  lemma {:induction false} NoValuesInRange(rows: seq<Row>, c: string, lo: int, hi: int)
    ensures InRangeValues(rows, c, lo, hi) == [] <==>
      forall i :: 0 <= i < |rows| ==> !(Get(rows[i], c).Num? && lo as real <= Get(rows[i], c).v <= hi as real)
  {
    if rows != [] {
      var init := rows[..|rows| - 1];
      NoValuesInRange(init, c, lo, hi);
      assert forall i :: 0 <= i < |init| ==> init[i] == rows[i];
    }
  }

  /** `ROUND(AVG(...), d)` over the admitted values, with scale = 10^d; NULL when there are none. */
  function FillValue(rows: seq<Row>, c: string, lo: int, hi: int, scale: nat): Option<real>
    requires scale > 0
  {
    var vals := InRangeValues(rows, c, lo, hi);
    if vals == [] then None else Some(RoundHalfAway(Mean(vals), scale))
  }


  /** The fill value lies in the range of the values it averages (the bounds are whole numbers,
      so rounding cannot leave the range). */
  lemma FillValueInRange(rows: seq<Row>, c: string, lo: int, hi: int, scale: nat)
    requires scale > 0 && 0 <= lo
    ensures var m := FillValue(rows, c, lo, hi, scale);
      m.Some? ==> lo as real <= m.value <= hi as real
  {
    var vals := InRangeValues(rows, c, lo, hi);
    if vals != [] {
      MeanBounds(vals, lo as real, hi as real);
      RoundHalfAwayWithin(Mean(vals), scale, lo, hi);
    }
  }

  /** Steps 3 and 4: `UPDATE ... SET c = (SELECT ROUND(AVG(c), d) ...) WHERE c IS NULL`. The
      subquery is evaluated once, on the table before the update. Only column c changes. */
  function FilledMean(rows: seq<Row>, c: string, lo: int, hi: int, scale: nat): (r: seq<Row>)
    requires scale > 0
    ensures |r| == |rows|
    ensures forall i, d :: 0 <= i < |rows| && d != c ==> Get(r[i], d) == Get(rows[i], d)
  {
    match FillValue(rows, c, lo, hi, scale)
    case None => rows
    case Some(m) => seq(|rows|, i requires 0 <= i < |rows| => if Get(rows[i], c) == Null then rows[i][c := Num(m)] else rows[i])
  }

  /** The fill writes the in-range mean into the missing cells of column c: rows whose cell is
      present are untouched, and the written value lies in [lo, hi]. When no value is in range,
      the missing cells stay missing. */
  lemma FilledMeanChanges(rows: seq<Row>, c: string, lo: int, hi: int, scale: nat)
    requires scale > 0 && 0 <= lo
    ensures var r, m := FilledMean(rows, c, lo, hi, scale), FillValue(rows, c, lo, hi, scale);
      && (forall i :: 0 <= i < |rows| && Get(rows[i], c) != Null ==> r[i] == rows[i])
      && (forall i :: 0 <= i < |rows| && Get(rows[i], c) == Null ==>
            Get(r[i], c) == (if m.Some? then Num(m.value) else Null))
      && (m.Some? ==> lo as real <= m.value <= hi as real)
      && (m.None? <==> forall i :: 0 <= i < |rows| ==> !(Get(rows[i], c).Num? && lo as real <= Get(rows[i], c).v <= hi as real))
  {
    FillValueInRange(rows, c, lo, hi, scale);
    NoValuesInRange(rows, c, lo, hi);
  }

  /** `x < bound` is true: NULL compares unknown and text sorts after numbers. */
  predicate Below(x: Cell, bound: real)
  {
    x.Num? && x.v < bound
  }

  /** `x > bound` is true. */
  predicate Above(x: Cell, bound: real)
  {
    (x.Num? && x.v > bound) || x.Text?
  }

  /** Step 5: `DELETE ... WHERE tempo < 50 OR tempo > 200`. What is left has a missing tempo or
      one in [50, 200], and every such row is left. */
  function WithoutTempoOutliers(rows: seq<Row>): (r: seq<Row>)
    ensures |r| <= |rows|
    ensures forall k :: 0 <= k < |r| ==>
      (Get(r[k], "tempo").Null? || (Get(r[k], "tempo").Num? && 50.0 <= Get(r[k], "tempo").v <= 200.0)) && r[k] in rows
    ensures forall i :: 0 <= i < |rows| && TempoInRange(rows[i]) ==> rows[i] in r
  {
    var mask := seq(|rows|, i requires 0 <= i < |rows| =>
      !(Below(Get(rows[i], "tempo"), 50.0) || Above(Get(rows[i], "tempo"), 200.0)));
    SelectKeeps(rows, mask);
    Select(rows, mask)
  }

  const FeatureColumns: seq<string> :=
    ["valence", "energy", "danceability", "acousticness", "instrumentalness", "liveness", "speechiness"]

  /** The condition of steps 6-7 is true: some present feature is definitely outside [0, 1]. */
  predicate OutOfUnit(r: Row, cols: seq<string>)
  {
    exists c :: c in FeatureColumns && c in cols && (Below(Get(r, c), 0.0) || Above(Get(r, c), 1.0))
  }

  /** Each present feature column holds a missing value or one in [0, 1]. */
  predicate FeaturesInUnit(x: Row, cols: seq<string>)
  {
    forall c :: c in FeatureColumns && c in cols ==> CellInRange(Get(x, c), 0.0, 1.0)
  }

  /** A missing value or a number of [lo, hi]. */
  predicate CellInRange(x: Cell, lo: real, hi: real)
  {
    x.Null? || (x.Num? && lo <= x.v <= hi)
  }

  /** The deletion condition catches exactly the rows that fail the in-range test. */
  lemma InUnitNotOut(x: Row, cols: seq<string>)
    ensures FeaturesInUnit(x, cols) <==> !OutOfUnit(x, cols)
  {
  }

  /** The mask of the rows steps 6-7 keep. */
  function FeatureMask(rows: seq<Row>, cols: seq<string>): (mask: seq<bool>)
    ensures |mask| == |rows|
    ensures forall i :: 0 <= i < |rows| ==> (mask[i] <==> !OutOfUnit(rows[i], cols))
  {
    seq(|rows|, i requires 0 <= i < |rows| => !OutOfUnit(rows[i], cols))
  }

  /** Steps 6-7: one DELETE over the disjunction of the present feature columns' conditions. What
      is left has, in each present feature column, a missing value or one in [0, 1], and every
      such row is left. */
  function WithoutFeatureOutliers(rows: seq<Row>, cols: seq<string>): (r: seq<Row>)
    ensures |r| <= |rows|
    ensures forall k, c :: 0 <= k < |r| && c in FeatureColumns && c in cols ==>
      Get(r[k], c).Null? || (Get(r[k], c).Num? && 0.0 <= Get(r[k], c).v <= 1.0)
    ensures forall k :: 0 <= k < |r| ==> r[k] in rows
    ensures forall i :: 0 <= i < |rows| && FeaturesInUnit(rows[i], cols) ==> rows[i] in r
  {
    var mask := FeatureMask(rows, cols);
    var r := Select(rows, mask);
    SelectKeeps(rows, mask);
    forall i | 0 <= i < |rows| && FeaturesInUnit(rows[i], cols) ensures mask[i] {
      InUnitNotOut(rows[i], cols);
    }
    forall k | 0 <= k < |r| ensures FeaturesInUnit(r[k], cols) {
      assert mask[TrueIndices(mask)[k]];
      InUnitNotOut(r[k], cols);
    }
    r
  }

  /** Step 2 as `clean_data` guards it. */
  function ArtistStage(rows: seq<Row>, cols: seq<string>, artist: string): (r: seq<Row>)
    ensures |r| <= |rows|
    ensures forall i :: 0 <= i < |rows| && (artist in cols ==> Get(rows[i], artist) != Null) ==> rows[i] in r
  {
    if artist in cols then WithoutNullArtist(rows, artist) else rows
  }

  /** Steps 3 and 4: the fills of the tempo, valence and energy columns that exist. */
  function FillStage(rows: seq<Row>, cols: seq<string>): (r: seq<Row>)
    ensures |r| == |rows|
    ensures forall i, d :: 0 <= i < |rows| && d != "tempo" && d != "valence" && d != "energy" ==>
      Get(r[i], d) == Get(rows[i], d)
  {
    var t := MaybeFilled(rows, "tempo" in cols, "tempo", 50, 200, 100);
    var v := MaybeFilled(t, "valence" in cols, "valence", 0, 1, 10000);
    MaybeFilled(v, "energy" in cols, "energy", 0, 1, 10000)
  }

  /** One fill of steps 3 and 4, run only when its column exists. */
  function MaybeFilled(rows: seq<Row>, on: bool, c: string, lo: int, hi: int, scale: nat): (r: seq<Row>)
    requires scale > 0
    ensures |r| == |rows|
    ensures forall i, d :: 0 <= i < |rows| && d != c ==> Get(r[i], d) == Get(rows[i], d)
  {
    if on then FilledMean(rows, c, lo, hi, scale) else rows
  }

  /** Steps 5 to 7: the deletions of out-of-range rows. A row is deleted only for a value that is
      present and out of range: every row whose tempo (when that column exists) and present
      features are missing or in range is kept. */
  function DeleteStage(rows: seq<Row>, cols: seq<string>): (r: seq<Row>)
    ensures |r| <= |rows|
    ensures forall k :: 0 <= k < |r| ==> r[k] in rows
    ensures forall i :: 0 <= i < |rows| && ("tempo" in cols ==> TempoInRange(rows[i])) && FeaturesInUnit(rows[i], cols) ==>
      rows[i] in r
    ensures "tempo" in cols ==> forall k :: 0 <= k < |r| ==>
      Get(r[k], "tempo").Null? || (Get(r[k], "tempo").Num? && 50.0 <= Get(r[k], "tempo").v <= 200.0)
    ensures forall k, c :: 0 <= k < |r| && c in FeatureColumns && c in cols ==>
      Get(r[k], c).Null? || (Get(r[k], c).Num? && 0.0 <= Get(r[k], c).v <= 1.0)
  {
    var t := if "tempo" in cols then WithoutTempoOutliers(rows) else rows;
    FeatureDeletionKeeps(t, cols, TempoInRange);
    WithoutFeatureOutliers(t, cols)
  }

  /** A missing tempo or one in [50, 200]. */
  predicate TempoInRange(x: Row)
  {
    CellInRange(Get(x, "tempo"), 50.0, 200.0)
  }

  /** The deletion of steps 6-7 keeps a property every row has. */
  lemma FeatureDeletionKeeps(rows: seq<Row>, cols: seq<string>, P: Row -> bool)
    ensures (forall i :: 0 <= i < |rows| ==> P(rows[i])) ==>
      forall k :: 0 <= k < |WithoutFeatureOutliers(rows, cols)| ==> P(WithoutFeatureOutliers(rows, cols)[k])
  {
    var mask := FeatureMask(rows, cols);
    assert WithoutFeatureOutliers(rows, cols) == Select(rows, mask);
    if forall i :: 0 <= i < |rows| ==> P(rows[i]) {
      SelectAll(rows, mask, P);
    }
  }

  /** Deletion keeps a property every row has, and one every earlier row has to every later. */
  lemma DeleteStageKeeps(rows: seq<Row>, cols: seq<string>, P: Row -> bool, R: (Row, Row) -> bool)
    requires forall i :: 0 <= i < |rows| ==> P(rows[i])
    requires forall a, b :: 0 <= a < b < |rows| ==> R(rows[a], rows[b])
    ensures var r := DeleteStage(rows, cols);
      && (forall k :: 0 <= k < |r| ==> P(r[k]))
      && (forall a, b :: 0 <= a < b < |r| ==> R(r[a], r[b]))
  {
    var t := if "tempo" in cols then WithoutTempoOutliers(rows) else rows;
    if "tempo" in cols {
      var mask := seq(|rows|, i requires 0 <= i < |rows| =>
        !(Below(Get(rows[i], "tempo"), 50.0) || Above(Get(rows[i], "tempo"), 200.0)));
      SelectAll(rows, mask, P);
      SelectPairwise(rows, mask, R);
    }
    var mask := FeatureMask(t, cols);
    SelectAll(t, mask, P);
    SelectPairwise(t, mask, R);
  }

  /** The table `clean_data` leaves in `cleaned_songs`, built from `raw_songs` alone. */
  function Cleaned(raw: Frame, artist: string): Frame
  {
    var cols := raw.cols;
    Frame(cols, DeleteStage(FillStage(ArtistStage(Deduplicated(raw, artist), cols, artist), cols), cols))
  }

  // ---------------------------------------------------------------------------------------------
  // Properties of the cleaned table
  // ---------------------------------------------------------------------------------------------

  /** Rows are only deleted or changed, never added: the cleaned table has at most as many rows
      as the raw one, and the same columns. */
  lemma CleanedNoLarger(raw: Frame, artist: string)
    ensures Cleaned(raw, artist).cols == raw.cols
    ensures |Cleaned(raw, artist).rows| <= |raw.rows|
  {
  }

  /** No cleaned row lacks an artist. */
  lemma {:induction false} CleanedHasArtist(raw: Frame, artist: string)
    requires ArtistColumn("raw_songs", raw.cols) == Ok(artist)
    ensures forall k :: 0 <= k < |Cleaned(raw, artist).rows| ==> Get(Cleaned(raw, artist).rows[k], artist) != Null
  {
    ArtistColumnFound("raw_songs", raw.cols);
    FillColumnsAreNotArtist(artist);
    var cols := raw.cols;
    var s2 := WithoutNullArtist(Deduplicated(raw, artist), artist);
    assert s2 == ArtistStage(Deduplicated(raw, artist), cols, artist);
    assert forall k :: 0 <= k < |s2| ==> Get(s2[k], artist) != Null;
    var s5 := FillStage(s2, cols);
    assert forall k :: 0 <= k < |s5| ==> Get(s5[k], artist) != Null;
    DeleteStageKeeps(s5, cols, (x: Row) => Get(x, artist) != Null, (x: Row, y: Row) => true);
  }

  /** Every tempo left is missing or in [50, 200], and every value left in a feature column is
      missing or in [0, 1]. */
  lemma CleanedInRange(raw: Frame, artist: string)
    ensures var rows := Cleaned(raw, artist).rows;
      && ("tempo" in raw.cols ==> forall k :: 0 <= k < |rows| ==>
            Get(rows[k], "tempo").Null? || (Get(rows[k], "tempo").Num? && 50.0 <= Get(rows[k], "tempo").v <= 200.0))
      && (forall k, c :: 0 <= k < |rows| && c in FeatureColumns && c in raw.cols ==>
            Get(rows[k], c).Null? || (Get(rows[k], c).Num? && 0.0 <= Get(rows[k], c).v <= 1.0))
  {
  }

  /** A fill writes only an in-range value into a missing cell, so a cell of column c that was
      missing or in range still is. */
  lemma FilledMeanKeepsInRange(rows: seq<Row>, c: string, lo: int, hi: int, scale: nat, i: nat)
    requires scale > 0 && 0 <= lo && i < |rows|
    requires CellInRange(Get(rows[i], c), lo as real, hi as real)
    ensures CellInRange(Get(FilledMean(rows, c, lo, hi, scale)[i], c), lo as real, hi as real)
  {
    FilledMeanChanges(rows, c, lo, hi, scale);
  }

  /** The fills keep a row's tempo and present features missing or in range. */
  lemma {:induction false} FillStageKeepsInRange(rows: seq<Row>, cols: seq<string>)
    ensures var r := FillStage(rows, cols);
      forall i :: 0 <= i < |rows| && ("tempo" in cols ==> TempoInRange(rows[i])) && FeaturesInUnit(rows[i], cols) ==>
        ("tempo" in cols ==> TempoInRange(r[i])) && FeaturesInUnit(r[i], cols)
  {
    forall i | 0 <= i < |rows| && ("tempo" in cols ==> TempoInRange(rows[i])) && FeaturesInUnit(rows[i], cols)
      ensures ("tempo" in cols ==> TempoInRange(FillStage(rows, cols)[i])) && FeaturesInUnit(FillStage(rows, cols)[i], cols)
    {
      FillStageRowInRange(rows, cols, i);
    }
  }

  /** `FillStageKeepsInRange` for row i. */
  lemma FillStageRowInRange(rows: seq<Row>, cols: seq<string>, i: nat)
    requires i < |rows| && ("tempo" in cols ==> TempoInRange(rows[i])) && FeaturesInUnit(rows[i], cols)
    ensures ("tempo" in cols ==> TempoInRange(FillStage(rows, cols)[i])) && FeaturesInUnit(FillStage(rows, cols)[i], cols)
  {
    if "tempo" in cols {
      FillStageCellInRange(rows, cols, i, "tempo", 50.0, 200.0);
    }
    forall c | c in FeatureColumns && c in cols ensures CellInRange(Get(FillStage(rows, cols)[i], c), 0.0, 1.0) {
      FillStageCellInRange(rows, cols, i, c, 0.0, 1.0);
    }
  }

  /** The fills keep one cell of row i missing or in [lo, hi], when [lo, hi] is the range a fill
      of that column averages over. */
  lemma FillStageCellInRange(rows: seq<Row>, cols: seq<string>, i: nat, d: string, lo: real, hi: real)
    requires i < |rows| && CellInRange(Get(rows[i], d), lo, hi)
    requires d == "tempo" ==> lo == 50.0 && hi == 200.0
    requires d == "valence" || d == "energy" ==> lo == 0.0 && hi == 1.0
    ensures CellInRange(Get(FillStage(rows, cols)[i], d), lo, hi)
  {
    var t := MaybeFilled(rows, "tempo" in cols, "tempo", 50, 200, 100);
    var v := MaybeFilled(t, "valence" in cols, "valence", 0, 1, 10000);
    MaybeFilledKeeps(rows, "tempo" in cols, "tempo", 50, 200, 100, i, d, lo, hi);
    MaybeFilledKeeps(t, "valence" in cols, "valence", 0, 1, 10000, i, d, lo, hi);
    MaybeFilledKeeps(v, "energy" in cols, "energy", 0, 1, 10000, i, d, lo, hi);
  }

  /** One fill keeps a cell of row i missing or in [lo, hi]: another column is untouched, and
      the filled column receives only a value of its averaging range. */
  lemma MaybeFilledKeeps(rows: seq<Row>, on: bool, c: string, flo: int, fhi: int, scale: nat, i: nat, d: string, lo: real, hi: real)
    requires scale > 0 && 0 <= flo && i < |rows|
    requires CellInRange(Get(rows[i], d), lo, hi)
    requires d == c ==> lo == flo as real && hi == fhi as real
    ensures CellInRange(Get(MaybeFilled(rows, on, c, flo, fhi, scale)[i], d), lo, hi)
  {
    if on && d == c {
      FilledMeanKeepsInRange(rows, c, flo, fhi, scale, i);
    }
  }

  /** Steps 5 to 7 delete a row only for a value that is present and out of range. Every row the
      artist filter leaves whose tempo and present features are missing or in range reaches the
      cleaned table, with its missing tempo, valence and energy filled; every cleaned row is such
      a filled row. */
  lemma {:induction false} CleanedKeepsInRange(raw: Frame, artist: string)
    ensures var cols := raw.cols;
      var s2 := ArtistStage(Deduplicated(raw, artist), cols, artist);
      var filled := FillStage(s2, cols);
      var rows := Cleaned(raw, artist).rows;
      && (forall k :: 0 <= k < |rows| ==> rows[k] in filled)
      && (forall i :: 0 <= i < |s2| && ("tempo" in cols ==> TempoInRange(s2[i])) && FeaturesInUnit(s2[i], cols) ==>
            filled[i] in rows)
  {
    var cols := raw.cols;
    var s2 := ArtistStage(Deduplicated(raw, artist), cols, artist);
    FillStageKeepsInRange(s2, cols);
  }

  /** After deduplication no two rows share a key. */
  lemma {:induction false} DeduplicatedKeysDistinct(raw: Frame, artist: string)
    requires HasDedupKeys(raw.cols, artist)
    ensures var s1 := Deduplicated(raw, artist);
      forall a, b :: 0 <= a < b < |s1| ==> KeyOf(s1[a], artist) != KeyOf(s1[b], artist)
  {
    var order := OrderColumn(raw.cols);
    assert Deduplicated(raw, artist) == Select(raw.rows, DedupMask(raw.rows, artist, order));
    DedupKeysDistinct(raw.rows, artist, order);
  }

  /** Dropping the rows without an artist keeps the other rows' keys apart. */
  lemma {:induction false} ArtistFilterKeysDistinct(rows: seq<Row>, artist: string)
    requires forall a, b :: 0 <= a < b < |rows| ==> KeyOf(rows[a], artist) != KeyOf(rows[b], artist)
    ensures var r := WithoutNullArtist(rows, artist);
      forall a, b :: 0 <= a < b < |r| ==> KeyOf(r[a], artist) != KeyOf(r[b], artist)
  {
    var R := (x: Row, y: Row) => KeyOf(x, artist) != KeyOf(y, artist);
    SelectPairwise(rows, seq(|rows|, i requires 0 <= i < |rows| => Get(rows[i], artist) != Null), R);
  }

  /** The fills never touch a key column, so keys that differed still differ. */
  lemma {:induction false} FillStageKeysDistinct(rows: seq<Row>, cols: seq<string>, artist: string)
    requires MentionsArtist(artist)
    requires forall a, b :: 0 <= a < b < |rows| ==> KeyOf(rows[a], artist) != KeyOf(rows[b], artist)
    ensures var r := FillStage(rows, cols);
      forall a, b :: 0 <= a < b < |r| ==> KeyOf(r[a], artist) != KeyOf(r[b], artist)
  {
    FillColumnsAreNotArtist(artist);
    var r := FillStage(rows, cols);
    assert forall k :: 0 <= k < |r| ==> KeyOf(r[k], artist) == KeyOf(rows[k], artist);
  }

  /** With all three key columns, no two cleaned rows share (track_id, track_name, artist). */
  lemma {:induction false} CleanedKeysDistinct(raw: Frame, artist: string)
    requires ArtistColumn("raw_songs", raw.cols) == Ok(artist)
    requires HasDedupKeys(raw.cols, artist)
    ensures var rows := Cleaned(raw, artist).rows;
      forall a, b :: 0 <= a < b < |rows| ==> KeyOf(rows[a], artist) != KeyOf(rows[b], artist)
  {
    ArtistColumnFound("raw_songs", raw.cols);
    DeduplicatedKeysDistinct(raw, artist);
    ArtistFilterKeysDistinct(Deduplicated(raw, artist), artist);
    var s2 := ArtistStage(Deduplicated(raw, artist), raw.cols, artist);
    FillStageKeysDistinct(s2, raw.cols, artist);
    var R := (x: Row, y: Row) => KeyOf(x, artist) != KeyOf(y, artist);
    DeleteStageKeeps(FillStage(s2, raw.cols), raw.cols, (x: Row) => true, R);
  }

  /** The SQLite database behind `self.conn`, by table name. */
  class SpotifyDataCleaner {
    var tables: map<string, Frame>

    constructor(tables: map<string, Frame>)
      ensures this.tables == tables
    {
      this.tables := tables;
    }

    /** `get_table_columns`: PRAGMA table_info gives no rows for a table that does not exist. */
    function ColumnsOf(table: string): seq<string>
      reads this
    {
      if table in tables then tables[table].cols else []
    }

    /** `resolve_artist_column`: the preferred names in order, then any column mentioning the
        artist, each search returning at its first hit. */
    method ResolveArtistColumn(table: string) returns (r: Result<string, CleanError>)
      ensures r == ArtistColumn(table, ColumnsOf(table))
    {
      var cols := ColumnsOf(table);
      if cols == [] {
        return Err(ColumnsUnreadable(table));
      }
      for i := 0 to |ArtistCandidates|
        invariant forall k :: 0 <= k < i ==> ArtistCandidates[k] !in cols
      {
        if ArtistCandidates[i] in cols {
          return Ok(ArtistCandidates[i]);
        }
      }
      for i := 0 to |cols|
        invariant forall k :: 0 <= k < i ==> !MentionsArtist(cols[k])
      {
        if MentionsArtist(cols[i]) {
          return Ok(cols[i]);
        }
      }
      return Err(NoArtistColumn(table));
    }

    /** Replaces the content of `cleaned_songs`, which every step rewrites; every other table
        keeps the content it had in `start`. */
    method Store(ghost start: map<string, Frame>, f: Frame)
      requires "cleaned_songs" in tables && tables == start["cleaned_songs" := tables["cleaned_songs"]]
      modifies this
      ensures tables == start["cleaned_songs" := f]
    {
      tables := tables["cleaned_songs" := f];
    }

    /** `clean_data`: checks that `raw_songs` exists and resolves its artist column, then drops
        and recreates `cleaned_songs` and applies the seven steps to it in turn. Nothing but
        `cleaned_songs` changes, and its new content depends on `raw_songs` alone, so a second
        run leaves the same table. */
    method CleanData() returns (err: Option<CleanError>)
      modifies this
      ensures "raw_songs" !in old(tables) ==> err == Some(TableNotFound("raw_songs")) && tables == old(tables)
      ensures "raw_songs" in old(tables) ==>
        match ArtistColumn("raw_songs", old(tables)["raw_songs"].cols)
        case Err(e) => err == Some(e) && tables == old(tables)
        case Ok(artist) => err == None && tables == old(tables)["cleaned_songs" := Cleaned(old(tables)["raw_songs"], artist)]
    {
      ghost var start := tables;
      if "raw_songs" !in tables {
        return Some(TableNotFound("raw_songs"));
      }
      var raw := tables["raw_songs"];
      var resolved := ResolveArtistColumn("raw_songs");
      if resolved.Err? {
        return Some(resolved.error);
      }
      var artist := resolved.value;
      var cols := raw.cols;
      tables := tables["cleaned_songs" := Frame(cols, [])];
      var rows := Deduplicated(raw, artist);
      Store(start, Frame(cols, rows));
      if artist in cols {
        rows := WithoutNullArtist(rows, artist);
        Store(start, Frame(cols, rows));
      }
      assert rows == ArtistStage(Deduplicated(raw, artist), cols, artist);
      var filled := rows;
      if "tempo" in cols {
        rows := FilledMean(rows, "tempo", 50, 200, 100);
        Store(start, Frame(cols, rows));
      }
      if "valence" in cols {
        rows := FilledMean(rows, "valence", 0, 1, 10000);
        Store(start, Frame(cols, rows));
      }
      if "energy" in cols {
        rows := FilledMean(rows, "energy", 0, 1, 10000);
        Store(start, Frame(cols, rows));
      }
      assert rows == FillStage(filled, cols);
      var kept := rows;
      if "tempo" in cols {
        rows := WithoutTempoOutliers(rows);
        Store(start, Frame(cols, rows));
      }
      rows := WithoutFeatureOutliers(rows, cols);
      Store(start, Frame(cols, rows));
      assert Frame(cols, rows) == Cleaned(raw, artist);
      err := None;
    }
  }
}
