/** The catalogue row and the rule-based mood and tempo filters of SongRecommender, identical in
    backend/recommender.py and recommender.py. */
module Filters {
  import opened Common
  import opened Seqs
  import opened Strings

  /** One catalogue row with the raw (unscaled) columns the filters read. */
  datatype Track = Track(trackId: string, valence: real, energy: real, danceability: real,
                         acousticness: real, tempo: real)

  /** Every failure the recommender raises; all but the last two are ValueError. */
  datatype RecError =
    | NotLoaded                 // "Dataset not loaded"
    | ModelNotReady             // "Model not ready"
    | FeatureMatrixNotBuilt     // "Feature matrix not built"
    | KnnNotBuilt               // "KNN model not built"
    | UnknownMood(mood: string)
    | UnknownTempo(tempo: string)
    | SongNotFound(id: string)
    | UnknownMethod(name: string)
    | EmptySelection            // numpy: max of a zero-size array
    | KnnTooFewSamples          // sklearn: n_neighbors larger than the fitted sample count
    | KnnFitRejected            // sklearn: fit refuses n_neighbors < 1 or a missing or empty matrix
    | KnnNotFitted              // sklearn NotFittedError (a ValueError): query on an index whose fit failed
    | AttributeError            // attribute access on None
    | TypeError                 // subscripting None
  {
    predicate IsValueError()
    {
      !(AttributeError? || TypeError?)
    }
  }

  predicate KnownColumn(name: string)
  {
    name == "valence" || name == "energy" || name == "danceability" || name == "acousticness" || name == "tempo"
  }

  /** `df[name]` for one row. */
  function Column(t: Track, name: string): real
    requires KnownColumn(name)
  {
    if name == "valence" then t.valence
    else if name == "energy" then t.energy
    else if name == "danceability" then t.danceability
    else if name == "acousticness" then t.acousticness
    else t.tempo
  }

  /** One entry of a mood's threshold dictionary. */
  datatype Threshold = Threshold(key: string, value: real)

  /** `MOOD_FILTERS`: a key ending in `_max` is an upper bound on the column it names once the
      suffix is removed; any other key is a lower bound on the column of that name. */
  const MoodFilters: map<string, seq<Threshold>> := map[
    "happy"     := [Threshold("valence", 0.6), Threshold("energy", 0.5)],
    "sad"       := [Threshold("valence_max", 0.4), Threshold("energy_max", 0.4)],
    "energetic" := [Threshold("energy", 0.7), Threshold("danceability", 0.5)],
    "calm"      := [Threshold("energy_max", 0.4), Threshold("acousticness", 0.5)],
    "dark"      := [Threshold("valence_max", 0.3), Threshold("energy", 0.6)],
    "romantic"  := [Threshold("valence", 0.5), Threshold("acousticness", 0.4), Threshold("energy_max", 0.6)],
    "angry"     := [Threshold("energy", 0.7), Threshold("valence_max", 0.4)],
    "party"     := [Threshold("danceability", 0.7), Threshold("energy", 0.6), Threshold("valence", 0.5)]
  ]

  /** `TEMPO_FILTERS`: optional inclusive lower (`tempo_min`) and upper (`tempo_max`) bounds. */
  const TempoFilters: map<string, map<string, real>> := map[
    "slow"   := map["tempo_max" := 100.0],
    "medium" := map["tempo_min" := 100.0, "tempo_max" := 120.0],
    "fast"   := map["tempo_min" := 120.0]
  ]

  predicate IsMaxKey(key: string)
  {
    EndsWith(key, "_max")
  }

  /** The column a threshold key reads. */
  function ThresholdColumn(key: string): string
  {
    if IsMaxKey(key) then RemoveAll(key, "_max") else key
  }

  predicate ThresholdHolds(t: Track, th: Threshold)
    requires KnownColumn(ThresholdColumn(th.key))
  {
    if IsMaxKey(th.key) then Column(t, ThresholdColumn(th.key)) <= th.value
    else Column(t, th.key) >= th.value
  }

  /** `c + "_max"` is an upper-bound key on column `c` when `c` has no underscore. */
  lemma {:induction false} MaxKeyColumn(c: string)
    requires forall i :: 0 <= i < |c| ==> c[i] != '_'
    ensures IsMaxKey(c + "_max") && ThresholdColumn(c + "_max") == c
  {
    assert (c + "_max")[|c|..] == "_max";
    RemoveSuffix(c, "_max");
  }

  lemma {:induction false} RemoveSuffix(c: string, pat: string)
    requires pat != [] && pat[0] == '_'
    requires forall i :: 0 <= i < |c| ==> c[i] != '_'
    ensures RemoveAll(c + pat, pat) == c
  {
    if c == [] {
      assert c + pat == pat;
      assert RemoveAll(pat[|pat|..], pat) == [];
    } else {
      assert (c + pat)[0] == c[0];
      assert !StartsWith(c + pat, pat);
      assert (c + pat)[1..] == c[1..] + pat;
      RemoveSuffix(c[1..], pat);
      assert [c[0]] + c[1..] == c;
    }
  }

  /** A key whose last letter is not `x` is a lower-bound key. */
  lemma PlainKey(c: string)
    requires c != [] && c[|c| - 1] != 'x'
    ensures !IsMaxKey(c) && ThresholdColumn(c) == c
  {
    if |c| >= 4 {
      assert c[|c| - 4..][3] == c[|c| - 1];
    }
  }

  /** Every key of the mood table names a column of the catalogue. */
  lemma MoodTableWellFormed()
    ensures forall mood :: mood in MoodFilters ==> WellFormedThresholds(MoodFilters[mood])
  {
    forall mood, k | mood in MoodFilters && 0 <= k < |MoodFilters[mood]|
      ensures KnownColumn(ThresholdColumn(MoodFilters[mood][k].key))
    {
      var ths := MoodFilters[mood];
      assert forall j :: 0 <= j < |ths| ==> TableKey(ths[j].key) by {
        if mood == "happy" {} else if mood == "sad" {} else if mood == "energetic" {}
        else if mood == "calm" {} else if mood == "dark" {} else if mood == "romantic" {}
        else if mood == "angry" {} else {}
      }
      TableKeyKnown(ths[k].key);
    }
  }

  predicate TableKey(key: string)
  {
    key == "valence" || key == "energy" || key == "danceability" || key == "acousticness"
    || key == "valence_max" || key == "energy_max"
  }

  lemma TableKeyKnown(key: string)
    requires TableKey(key)
    ensures KnownColumn(ThresholdColumn(key))
  {
    if key == "valence_max" || key == "energy_max" {
      MaxKeyFacts();
    } else {
      PlainKeyFacts();
    }
  }

  /** How the four lower-bound keys of the mood table are read. */
  lemma PlainKeyFacts()
    ensures !IsMaxKey("valence") && ThresholdColumn("valence") == "valence"
    ensures !IsMaxKey("energy") && ThresholdColumn("energy") == "energy"
    ensures !IsMaxKey("danceability") && ThresholdColumn("danceability") == "danceability"
    ensures !IsMaxKey("acousticness") && ThresholdColumn("acousticness") == "acousticness"
  {
    PlainKey("valence");
    PlainKey("energy");
    PlainKey("danceability");
    PlainKey("acousticness");
  }

  /** How the two upper-bound keys of the mood table are read. */
  lemma MaxKeyFacts()
    ensures IsMaxKey("valence_max") && ThresholdColumn("valence_max") == "valence"
    ensures IsMaxKey("energy_max") && ThresholdColumn("energy_max") == "energy"
  {
    assert "valence_max" == "valence" + "_max";
    MaxKeyColumn("valence");
    assert "energy_max" == "energy" + "_max";
    MaxKeyColumn("energy");
  }

  predicate WellFormedThresholds(ths: seq<Threshold>)
  {
    forall j :: 0 <= j < |ths| ==> KnownColumn(ThresholdColumn(ths[j].key))
  }

  /** The first `k` thresholds all hold of the row. */
  predicate AllHold(t: Track, ths: seq<Threshold>, k: nat)
    requires WellFormedThresholds(ths) && k <= |ths|
  {
    k == 0 || (AllHold(t, ths, k - 1) && ThresholdHolds(t, ths[k - 1]))
  }

  /** A row passes a mood when every threshold of that mood holds. */
  predicate MoodHolds(mood: string, t: Track)
    requires mood in MoodFilters
  {
    MoodTableWellFormed();
    AllHold(t, MoodFilters[mood], |MoodFilters[mood]|)
  }

  predicate TempoHolds(tempoType: string, t: Track)
    requires tempoType in TempoFilters
  {
    var th := TempoFilters[tempoType];
    && ("tempo_min" in th ==> t.tempo >= th["tempo_min"])
    && ("tempo_max" in th ==> t.tempo <= th["tempo_max"])
  }

  /** The mood table read as explicit predicates over the raw columns. */
  lemma MoodPredicates(t: Track)
    ensures MoodHolds("happy", t) <==> t.valence >= 0.6 && t.energy >= 0.5
    ensures MoodHolds("sad", t) <==> t.valence <= 0.4 && t.energy <= 0.4
    ensures MoodHolds("energetic", t) <==> t.energy >= 0.7 && t.danceability >= 0.5
    ensures MoodHolds("calm", t) <==> t.energy <= 0.4 && t.acousticness >= 0.5
    ensures MoodHolds("dark", t) <==> t.valence <= 0.3 && t.energy >= 0.6
    ensures MoodHolds("romantic", t) <==> t.valence >= 0.5 && t.acousticness >= 0.4 && t.energy <= 0.6
    ensures MoodHolds("angry", t) <==> t.energy >= 0.7 && t.valence <= 0.4
    ensures MoodHolds("party", t) <==> t.danceability >= 0.7 && t.energy >= 0.6 && t.valence >= 0.5
  {
    MoodHappy(t);
    MoodSad(t);
    MoodEnergetic(t);
    MoodCalm(t);
    MoodDark(t);
    MoodRomantic(t);
    MoodAngry(t);
    MoodParty(t);
  }

  lemma MoodHappy(t: Track)
    ensures MoodHolds("happy", t) <==> t.valence >= 0.6 && t.energy >= 0.5
  {
    LowerThreshold(t, "valence", 0.6);
    LowerThreshold(t, "energy", 0.5);
    assert MoodFilters["happy"] == [Threshold("valence", 0.6), Threshold("energy", 0.5)];
    AllHoldTwo(t, Threshold("valence", 0.6), Threshold("energy", 0.5));
  }

  lemma MoodSad(t: Track)
    ensures MoodHolds("sad", t) <==> t.valence <= 0.4 && t.energy <= 0.4
  {
    UpperThreshold(t, "valence", "valence_max", 0.4);
    UpperThreshold(t, "energy", "energy_max", 0.4);
    assert MoodFilters["sad"] == [Threshold("valence_max", 0.4), Threshold("energy_max", 0.4)];
    AllHoldTwo(t, Threshold("valence_max", 0.4), Threshold("energy_max", 0.4));
  }

  lemma MoodEnergetic(t: Track)
    ensures MoodHolds("energetic", t) <==> t.energy >= 0.7 && t.danceability >= 0.5
  {
    LowerThreshold(t, "energy", 0.7);
    LowerThreshold(t, "danceability", 0.5);
    assert MoodFilters["energetic"] == [Threshold("energy", 0.7), Threshold("danceability", 0.5)];
    AllHoldTwo(t, Threshold("energy", 0.7), Threshold("danceability", 0.5));
  }

  lemma MoodCalm(t: Track)
    ensures MoodHolds("calm", t) <==> t.energy <= 0.4 && t.acousticness >= 0.5
  {
    UpperThreshold(t, "energy", "energy_max", 0.4);
    LowerThreshold(t, "acousticness", 0.5);
    assert MoodFilters["calm"] == [Threshold("energy_max", 0.4), Threshold("acousticness", 0.5)];
    AllHoldTwo(t, Threshold("energy_max", 0.4), Threshold("acousticness", 0.5));
  }

  lemma MoodDark(t: Track)
    ensures MoodHolds("dark", t) <==> t.valence <= 0.3 && t.energy >= 0.6
  {
    UpperThreshold(t, "valence", "valence_max", 0.3);
    LowerThreshold(t, "energy", 0.6);
    assert MoodFilters["dark"] == [Threshold("valence_max", 0.3), Threshold("energy", 0.6)];
    AllHoldTwo(t, Threshold("valence_max", 0.3), Threshold("energy", 0.6));
  }

  lemma MoodRomantic(t: Track)
    ensures MoodHolds("romantic", t) <==> t.valence >= 0.5 && t.acousticness >= 0.4 && t.energy <= 0.6
  {
    LowerThreshold(t, "valence", 0.5);
    LowerThreshold(t, "acousticness", 0.4);
    UpperThreshold(t, "energy", "energy_max", 0.6);
    assert MoodFilters["romantic"] == [Threshold("valence", 0.5), Threshold("acousticness", 0.4), Threshold("energy_max", 0.6)];
    AllHoldThree(t, Threshold("valence", 0.5), Threshold("acousticness", 0.4), Threshold("energy_max", 0.6));
  }

  lemma MoodAngry(t: Track)
    ensures MoodHolds("angry", t) <==> t.energy >= 0.7 && t.valence <= 0.4
  {
    LowerThreshold(t, "energy", 0.7);
    UpperThreshold(t, "valence", "valence_max", 0.4);
    assert MoodFilters["angry"] == [Threshold("energy", 0.7), Threshold("valence_max", 0.4)];
    AllHoldTwo(t, Threshold("energy", 0.7), Threshold("valence_max", 0.4));
  }

  lemma MoodParty(t: Track)
    ensures MoodHolds("party", t) <==> t.danceability >= 0.7 && t.energy >= 0.6 && t.valence >= 0.5
  {
    LowerThreshold(t, "danceability", 0.7);
    LowerThreshold(t, "energy", 0.6);
    LowerThreshold(t, "valence", 0.5);
    assert MoodFilters["party"] == [Threshold("danceability", 0.7), Threshold("energy", 0.6), Threshold("valence", 0.5)];
    AllHoldThree(t, Threshold("danceability", 0.7), Threshold("energy", 0.6), Threshold("valence", 0.5));
  }

  /** A plain key is a lower bound on the column of the same name. */
  lemma LowerThreshold(t: Track, c: string, v: real)
    requires c == "valence" || c == "energy" || c == "danceability" || c == "acousticness"
    ensures KnownColumn(ThresholdColumn(c))
    ensures ThresholdHolds(t, Threshold(c, v)) <==> Column(t, c) >= v
  {
    PlainKey(c);
  }

  /** `c_max` is an upper bound on column `c`. */
  lemma UpperThreshold(t: Track, c: string, key: string, v: real)
    requires (c == "valence" && key == "valence_max") || (c == "energy" && key == "energy_max")
    ensures KnownColumn(ThresholdColumn(key))
    ensures ThresholdHolds(t, Threshold(key, v)) <==> Column(t, c) <= v
  {
    assert key == c + "_max";
    MaxKeyColumn(c);
  }

  lemma AllHoldTwo(t: Track, a: Threshold, b: Threshold)
    requires KnownColumn(ThresholdColumn(a.key)) && KnownColumn(ThresholdColumn(b.key))
    ensures AllHold(t, [a, b], 2) <==> ThresholdHolds(t, a) && ThresholdHolds(t, b)
  {
    assert AllHold(t, [a, b], 1) <==> ThresholdHolds(t, a);
  }

  lemma AllHoldThree(t: Track, a: Threshold, b: Threshold, c: Threshold)
    requires KnownColumn(ThresholdColumn(a.key)) && KnownColumn(ThresholdColumn(b.key))
    requires KnownColumn(ThresholdColumn(c.key))
    ensures AllHold(t, [a, b, c], 3) <==> ThresholdHolds(t, a) && ThresholdHolds(t, b) && ThresholdHolds(t, c)
  {
    var ths := [a, b, c];
    WellFormedThree(a, b, c);
    assert ths[0] == a && ths[1] == b && ths[2] == c;
    assert AllHold(t, ths, 1) == ThresholdHolds(t, a);
    assert AllHold(t, ths, 2) == (AllHold(t, ths, 1) && ThresholdHolds(t, b));
    assert AllHold(t, ths, 3) == (AllHold(t, ths, 2) && ThresholdHolds(t, c));
  }

  lemma WellFormedThree(a: Threshold, b: Threshold, c: Threshold)
    requires KnownColumn(ThresholdColumn(a.key)) && KnownColumn(ThresholdColumn(b.key))
    requires KnownColumn(ThresholdColumn(c.key))
    ensures WellFormedThresholds([a, b, c])
  {
    var ths := [a, b, c];
    forall j | 0 <= j < |ths| ensures KnownColumn(ThresholdColumn(ths[j].key)) {
      if j == 0 {
        assert ths[j] == a;
      } else if j == 1 {
        assert ths[j] == b;
      } else {
        assert ths[j] == c;
      }
    }
  }

  /** The tempo categories are closed intervals: slow is tempo <= 100, medium is
      100 <= tempo <= 120, fast is tempo >= 120. The boundaries 100 and 120 belong to two
      categories each, and every tempo belongs to at least one. */
  lemma TempoCategories(t: Track)
    ensures TempoHolds("slow", t) <==> t.tempo <= 100.0
    ensures TempoHolds("medium", t) <==> 100.0 <= t.tempo <= 120.0
    ensures TempoHolds("fast", t) <==> t.tempo >= 120.0
    ensures t.tempo == 100.0 ==> TempoHolds("slow", t) && TempoHolds("medium", t) && !TempoHolds("fast", t)
    ensures t.tempo == 120.0 ==> TempoHolds("medium", t) && TempoHolds("fast", t) && !TempoHolds("slow", t)
    ensures TempoHolds("slow", t) || TempoHolds("medium", t) || TempoHolds("fast", t)
  {
  }

  /** The mask `_apply_mood_filter` returns, as a function of the rows. */
  function MoodMaskOf(rows: seq<Track>, mood: string): (mask: seq<bool>)
    requires mood in MoodFilters
    ensures |mask| == |rows| && forall i :: 0 <= i < |rows| ==> (mask[i] <==> MoodHolds(mood, rows[i]))
  {
    seq(|rows|, i requires 0 <= i < |rows| => MoodHolds(mood, rows[i]))
  }

  /** The mask `_apply_tempo_filter` returns, as a function of the rows. */
  function TempoMaskOf(rows: seq<Track>, tempoType: string): (mask: seq<bool>)
    requires tempoType in TempoFilters
    ensures |mask| == |rows| && forall i :: 0 <= i < |rows| ==> (mask[i] <==> TempoHolds(tempoType, rows[i]))
  {
    seq(|rows|, i requires 0 <= i < |rows| => TempoHolds(tempoType, rows[i]))
  }

  /** `_apply_mood_filter`: an unknown mood is rejected, otherwise the mood's thresholds narrow
      an all-true mask. */
  method MoodMask(rows: seq<Track>, mood: string) returns (r: Result<seq<bool>, RecError>)
    ensures mood !in MoodFilters ==> r == Err(UnknownMood(mood))
    ensures mood in MoodFilters ==> r == Ok(MoodMaskOf(rows, mood))
  {
    if mood !in MoodFilters {
      return Err(UnknownMood(mood));
    }
    MoodTableWellFormed();
    var mask := NarrowByThresholds(rows, MoodFilters[mood]);
    assert forall i :: 0 <= i < |rows| ==> mask[i] == MoodMaskOf(rows, mood)[i];
    assert mask == MoodMaskOf(rows, mood);
    return Ok(mask);
  }

  /** The threshold loop of `_apply_mood_filter`: the mask starts all-true and is narrowed with
      `&=` once per threshold, in the order of the mood's dictionary. */
  method NarrowByThresholds(rows: seq<Track>, thresholds: seq<Threshold>) returns (mask: seq<bool>)
    requires WellFormedThresholds(thresholds)
    ensures |mask| == |rows|
    ensures forall i :: 0 <= i < |rows| ==> mask[i] == AllHold(rows[i], thresholds, |thresholds|)
  {
    mask := seq(|rows|, i => true);
    for k := 0 to |thresholds|
      invariant |mask| == |rows|
      invariant forall i :: 0 <= i < |rows| ==> mask[i] == AllHold(rows[i], thresholds, k)
    {
      var th, prev := thresholds[k], mask;
      assert KnownColumn(ThresholdColumn(th.key));
      if IsMaxKey(th.key) {
        var col := ThresholdColumn(th.key);
        mask := seq(|rows|, i requires 0 <= i < |rows| => prev[i] && Column(rows[i], col) <= th.value);
      } else {
        mask := seq(|rows|, i requires 0 <= i < |rows| => prev[i] && Column(rows[i], th.key) >= th.value);
      }
      assert forall i :: 0 <= i < |rows| ==> mask[i] == (prev[i] && ThresholdHolds(rows[i], th));
    }
  }

  /** `_apply_tempo_filter`: an all-true mask narrowed by the bounds the category has. */
  method TempoMask(rows: seq<Track>, tempoType: string) returns (r: Result<seq<bool>, RecError>)
    ensures tempoType !in TempoFilters ==> r == Err(UnknownTempo(tempoType))
    ensures tempoType in TempoFilters ==> r == Ok(TempoMaskOf(rows, tempoType))
  {
    if tempoType !in TempoFilters {
      return Err(UnknownTempo(tempoType));
    }
    var thresholds := TempoFilters[tempoType];
    var mask := seq(|rows|, i => true);
    if "tempo_min" in thresholds {
      var prev := mask;
      mask := seq(|rows|, i requires 0 <= i < |rows| => prev[i] && rows[i].tempo >= thresholds["tempo_min"]);
    }
    if "tempo_max" in thresholds {
      var prev := mask;
      mask := seq(|rows|, i requires 0 <= i < |rows| => prev[i] && rows[i].tempo <= thresholds["tempo_max"]);
    }
    assert forall i :: 0 <= i < |rows| ==> mask[i] == TempoMaskOf(rows, tempoType)[i];
    assert mask == TempoMaskOf(rows, tempoType);
    return Ok(mask);
  }

  /** What a filter query returns: the first `n` rows the mask admits, in catalogue order. */
  function FirstMatching(rows: seq<Track>, mask: seq<bool>, n: int): seq<Track>
    requires |mask| == |rows|
  {
    Head(Select(rows, mask), n)
  }

  /** Every row a mood query returns passes the mood; the rows come in catalogue order and are
      the first min(n, #matches) matches. */
  lemma MoodQueryResult(rows: seq<Track>, mood: string, n: int)
    requires mood in MoodFilters
    ensures var r, idx := FirstMatching(rows, MoodMaskOf(rows, mood), n), TrueIndices(MoodMaskOf(rows, mood));
      && (n >= 0 ==> |r| == if n < |idx| then n else |idx|)
      && (forall k :: 0 <= k < |r| ==> MoodHolds(mood, r[k]) && r[k] == rows[idx[k]])
      && (forall a, b :: 0 <= a < b < |r| ==> idx[a] < idx[b])
      && (forall i, k :: 0 <= i < |rows| && MoodHolds(mood, rows[i]) && 0 <= k < |r| && i !in idx[..|r|] ==> idx[k] < i)
  {
    HeadOfSelect(rows, MoodMaskOf(rows, mood), n);
  }

  /** The same for a tempo query. */
  lemma TempoQueryResult(rows: seq<Track>, tempoType: string, n: int)
    requires tempoType in TempoFilters
    ensures var r, idx := FirstMatching(rows, TempoMaskOf(rows, tempoType), n), TrueIndices(TempoMaskOf(rows, tempoType));
      && (n >= 0 ==> |r| == if n < |idx| then n else |idx|)
      && (forall k :: 0 <= k < |r| ==> TempoHolds(tempoType, r[k]) && r[k] == rows[idx[k]])
      && (forall a, b :: 0 <= a < b < |r| ==> idx[a] < idx[b])
      && (forall i, k :: 0 <= i < |rows| && TempoHolds(tempoType, rows[i]) && 0 <= k < |r| && i !in idx[..|r|] ==> idx[k] < i)
  {
    HeadOfSelect(rows, TempoMaskOf(rows, tempoType), n);
  }

  /** The combined query uses the intersection of both masks: every row returned passes both
      filters, in catalogue order, and they are the first such rows. */
  lemma MoodAndTempoQueryResult(rows: seq<Track>, mood: string, tempoType: string, n: int)
    requires mood in MoodFilters && tempoType in TempoFilters
    ensures var mask := And(MoodMaskOf(rows, mood), TempoMaskOf(rows, tempoType));
      var r, idx := FirstMatching(rows, mask, n), TrueIndices(mask);
      && (n >= 0 ==> |r| == if n < |idx| then n else |idx|)
      && (forall k :: 0 <= k < |r| ==> MoodHolds(mood, r[k]) && TempoHolds(tempoType, r[k]) && r[k] == rows[idx[k]])
      && (forall a, b :: 0 <= a < b < |r| ==> idx[a] < idx[b])
      && (forall i, k ::
            (0 <= i < |rows| && MoodHolds(mood, rows[i]) && TempoHolds(tempoType, rows[i]) && 0 <= k < |r| && i !in idx[..|r|])
            ==> idx[k] < i)
  {
    HeadOfSelect(rows, And(MoodMaskOf(rows, mood), TempoMaskOf(rows, tempoType)), n);
  }

  /** When no row passes both filters the combined query returns an empty frame, not an
      error. */
  lemma MoodAndTempoNoMatch(rows: seq<Track>, mood: string, tempoType: string, n: int)
    requires mood in MoodFilters && tempoType in TempoFilters
    requires forall i :: 0 <= i < |rows| ==> !(MoodHolds(mood, rows[i]) && TempoHolds(tempoType, rows[i]))
    ensures FirstMatching(rows, And(MoodMaskOf(rows, mood), TempoMaskOf(rows, tempoType)), n) == []
  {
    var mask := And(MoodMaskOf(rows, mood), TempoMaskOf(rows, tempoType));
    assert forall i :: 0 <= i < |mask| ==> !mask[i];
    NoneTrue(mask);
  }
}
