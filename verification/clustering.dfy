/** `MoodClusterer` of clustering.py: feature selection with min-max tempo scaling, the choice
    of k by silhouette score, the k-means fit and the naming of clusters from their mean
    features. K-means itself and the silhouette metric are sklearn's; their outputs (the label
    of each row for a given k, the score of each k) are inputs here. */
module Clustering {
  import opened Common
  import opened Seqs
  import opened Stats

  /** The seven names `_interpret_cluster` can give a cluster. */
  datatype MoodLabel =
    | EnergeticHappy | IntenseDark | CalmPeaceful | Melancholic
    | PartyDance | AcousticMellow | BalancedVersatile
  {
    function Name(): string
    {
      match this
      case EnergeticHappy => "Energetic & Happy"
      case IntenseDark => "Intense & Dark"
      case CalmPeaceful => "Calm & Peaceful"
      case Melancholic => "Melancholic"
      case PartyDance => "Party & Dance"
      case AcousticMellow => "Acoustic & Mellow"
      case BalancedVersatile => "Balanced & Versatile"
    }
  }

  /** One row of `cluster_means`: the mean raw features of a cluster. */
  datatype Means = Means(valence: real, energy: real, danceability: real, tempo: real, acousticness: real)

  /** `_interpret_cluster`: the first rule whose strict comparisons hold. */
  function Interpret(m: Means): MoodLabel
  {
    if m.energy > 0.6 && m.valence > 0.6 && m.danceability > 0.6 then EnergeticHappy
    else if m.energy > 0.6 && m.valence < 0.4 then IntenseDark
    else if m.energy < 0.4 && m.valence > 0.6 then CalmPeaceful
    else if m.energy < 0.4 && m.valence < 0.4 then Melancholic
    else if m.danceability > 0.7 then PartyDance
    else if m.acousticness > 0.6 then AcousticMellow
    else BalancedVersatile
  }

  /** Neither energy nor valence is in a corner: one of them lies in [0.4, 0.6]. */
  predicate Middling(m: Means)
  {
    (0.4 <= m.energy <= 0.6) || (0.4 <= m.valence <= 0.6)
  }

  /** Each label, read as a condition on the means alone: its own strict comparisons together
      with the failure of every earlier rule. Boundary values 0.4 and 0.6 fall through the four
      energy/valence rules. */
  lemma InterpretExactly(m: Means)
    ensures Interpret(m) == EnergeticHappy <==> m.energy > 0.6 && m.valence > 0.6 && m.danceability > 0.6
    ensures Interpret(m) == IntenseDark <==> m.energy > 0.6 && m.valence < 0.4
    ensures Interpret(m) == CalmPeaceful <==> m.energy < 0.4 && m.valence > 0.6
    ensures Interpret(m) == Melancholic <==> m.energy < 0.4 && m.valence < 0.4
    ensures Interpret(m) == PartyDance <==> m.danceability > 0.7 && Middling(m)
    ensures Interpret(m) == AcousticMellow <==>
      m.acousticness > 0.6 && m.danceability <= 0.7
      && (Middling(m) || (m.energy > 0.6 && m.valence > 0.6 && m.danceability <= 0.6))
    ensures Interpret(m) == BalancedVersatile <==>
      m.acousticness <= 0.6 && m.danceability <= 0.7
      && (Middling(m) || (m.energy > 0.6 && m.valence > 0.6 && m.danceability <= 0.6))
  {
  }

  /** The mean tempo is read but never used: only valence, energy, danceability and
      acousticness decide the label. */
  lemma InterpretIgnoresTempo(m: Means, tempo: real)
    ensures Interpret(m.(tempo := tempo)) == Interpret(m)
  {
  }

  /** Where a value sits against the 0.4 / 0.6 cut points. */
  datatype Level = Low | Mid | High

  function LevelOf(x: real): Level
  {
    if x < 0.4 then Low else if x > 0.6 then High else Mid
  }

  /** The rules read as a table on (energy level, valence level); the middle of the table and the
      happy corner without enough danceability fall back to the danceability and acousticness
      rules. */
  function InterpretByLevels(m: Means): MoodLabel
  {
    match (LevelOf(m.energy), LevelOf(m.valence))
    case (High, High) => if m.danceability > 0.6 then EnergeticHappy else Fallback(m)
    case (High, Low) => IntenseDark
    case (Low, High) => CalmPeaceful
    case (Low, Low) => Melancholic
    case _ => Fallback(m)
  }

  function Fallback(m: Means): MoodLabel
  {
    if m.danceability > 0.7 then PartyDance
    else if m.acousticness > 0.6 then AcousticMellow
    else BalancedVersatile
  }

  /** The decision chain and the level table agree on every input. */
  lemma InterpretAgreesWithLevels(m: Means)
    ensures Interpret(m) == InterpretByLevels(m)
  {
  }

  /** The name `_interpret_cluster` gives a cluster with these means. */
  function LabelOf(m: Means): string
  {
    Interpret(m).Name()
  }

  /** The label table a new clusterer starts with. */
  const DefaultClusterLabels: map<int, string> := map[
    0 := "Energetic & Happy",
    1 := "Calm & Peaceful",
    2 := "Melancholic",
    3 := "Party & Dance",
    4 := "Intense & Dark"
  ]

  /** The default table covers ids 0 to 4 and names only labels the interpretation can give. */
  lemma DefaultLabelsShape()
    ensures DefaultClusterLabels.Keys == {0, 1, 2, 3, 4}
    ensures forall id :: id in DefaultClusterLabels ==>
      exists l: MoodLabel :: l.Name() == DefaultClusterLabels[id]
  {
    assert EnergeticHappy.Name() == DefaultClusterLabels[0];
    assert CalmPeaceful.Name() == DefaultClusterLabels[1];
    assert Melancholic.Name() == DefaultClusterLabels[2];
    assert PartyDance.Name() == DefaultClusterLabels[3];
    assert IntenseDark.Name() == DefaultClusterLabels[4];
  }

  /** The columns `select_features` reads from a catalogue row; `None` is NaN. */
  datatype SongFeatures = SongFeatures(valence: Option<real>, energy: Option<real>, danceability: Option<real>,
                                       tempo: Option<real>, acousticness: Option<real>)

  /** A row of the frame `select_features` returns: the five inputs and `tempo_normalized`. */
  datatype FeatureRow = FeatureRow(valence: real, energy: real, danceability: real, tempo: real,
                                   tempoNormalized: real, acousticness: real)

  /** `self.feature_names`, the column order of X. */
  const FeatureNames: seq<string> := ["valence", "energy", "danceability", "tempo_normalized", "acousticness"]

  function FeatureVector(r: FeatureRow): (x: seq<real>)
    ensures |x| == |FeatureNames|
  {
    [r.valence, r.energy, r.danceability, r.tempoNormalized, r.acousticness]
  }

  function Tempos(df: seq<SongFeatures>): (r: seq<Option<real>>)
    ensures |r| == |df| && forall i :: 0 <= i < |df| ==> r[i] == df[i].tempo
  {
    seq(|df|, i requires 0 <= i < |df| => df[i].tempo)
  }

  /** `(t - min) / (max - min)` over the column's non-NaN values: NaN when t is NaN, when the
      column has no value at all, or when every value is the same (0 / 0). */
  function TempoNormalized(t: Option<real>, present: seq<real>): Option<real>
  {
    if t.None? || present == [] then None
    else
      var lo, hi := Min(present), Max(present);
      if hi == lo then None else Some((t.value - lo) / (hi - lo))
  }

  /** The row as it appears in the selected frame, or `None` when `dropna` removes it. */
  function Featured(s: SongFeatures, present: seq<real>): Option<FeatureRow>
  {
    var tn := TempoNormalized(s.tempo, present);
    if s.valence.Some? && s.energy.Some? && s.danceability.Some? && s.tempo.Some? && tn.Some? && s.acousticness.Some?
    then Some(FeatureRow(s.valence.value, s.energy.value, s.danceability.value, s.tempo.value, tn.value, s.acousticness.value))
    else None
  }

  /** Which rows survive `dropna(subset=feature_names)`. */
  function KeptMask(df: seq<SongFeatures>): (mask: seq<bool>)
    ensures |mask| == |df|
    ensures forall i :: 0 <= i < |df| ==> mask[i] == Featured(df[i], PresentValues(Tempos(df))).Some?
  {
    var present := PresentValues(Tempos(df));
    seq(|df|, i requires 0 <= i < |df| => Featured(df[i], present).Some?)
  }

  /** The frame `select_features` returns, renumbered from 0. */
  function SelectedRows(df: seq<SongFeatures>): (rows: seq<FeatureRow>)
    ensures |rows| == |TrueIndices(KeptMask(df))|
  {
    var present := PresentValues(Tempos(df));
    var idx := TrueIndices(KeptMask(df));
    seq(|idx|, k requires 0 <= k < |idx| => Featured(df[idx[k]], present).value)
  }

  /** A normalised tempo of a value of the column lies in [0, 1]. */
  lemma TempoNormalizedInUnit(t: real, present: seq<real>)
    requires t in present
    ensures var tn := TempoNormalized(Some(t), present); tn.Some? ==> 0.0 <= tn.value <= 1.0
  {
    var lo, hi := Min(present), Max(present);
    if hi != lo {
      DivBounds(t - lo, hi - lo, 0.0, 1.0);
    }
  }

  /** The selected frame keeps, in their order, exactly the rows with no NaN among the five
      features. */
  lemma SelectedRowsOrigin(df: seq<SongFeatures>)
    ensures var rows, idx, present := SelectedRows(df), TrueIndices(KeptMask(df)), PresentValues(Tempos(df));
      && (forall k :: 0 <= k < |rows| ==> Featured(df[idx[k]], present) == Some(rows[k]))
      && (forall a, b :: 0 <= a < b < |rows| ==> idx[a] < idx[b])
      && (forall i :: 0 <= i < |df| && Featured(df[i], present).Some? ==> i in idx)
  {
  }

  /** Every kept `tempo_normalized` lies in [0, 1]. */
  lemma {:induction false} SelectedTempoInUnit(df: seq<SongFeatures>)
    ensures forall k :: 0 <= k < |SelectedRows(df)| ==> 0.0 <= SelectedRows(df)[k].tempoNormalized <= 1.0
  {
    var rows, idx, present := SelectedRows(df), TrueIndices(KeptMask(df)), PresentValues(Tempos(df));
    forall k | 0 <= k < |rows| ensures 0.0 <= rows[k].tempoNormalized <= 1.0 {
      var s := df[idx[k]];
      assert Featured(s, present).Some?;
      assert Tempos(df)[idx[k]] == s.tempo;
      TempoNormalizedInUnit(s.tempo.value, present);
    }
  }

  /** A tempo column with a single distinct value makes every `tempo_normalized` NaN (0 / 0), so
      the selection drops every row. */
  lemma {:induction false} ConstantTempoDropsAll(df: seq<SongFeatures>, c: real)
    requires forall i :: 0 <= i < |df| && df[i].tempo.Some? ==> df[i].tempo.value == c
    ensures SelectedRows(df) == []
  {
    var present := PresentValues(Tempos(df));
    if present != [] {
      assert Some(Min(present)) in Tempos(df) && Some(Max(present)) in Tempos(df);
      assert Min(present) == c && Max(present) == c;
    }
    assert forall i :: 0 <= i < |df| ==> !KeptMask(df)[i];
    NoneTrue(KeptMask(df));
  }

  /** `np.argmax`: the position of the first largest value. */
  function FirstArgMax(s: seq<real>): (i: nat)
    requires s != []
    ensures i < |s|
    ensures forall k :: 0 <= k < |s| ==> s[k] <= s[i]
    ensures forall k :: 0 <= k < i ==> s[k] < s[i]
  {
    if |s| == 1 then 0
    else
      var i := FirstArgMax(s[..|s| - 1]);
      assert forall k :: 0 <= k < |s| - 1 ==> s[..|s| - 1][k] == s[k];
      if s[|s| - 1] > s[i] then |s| - 1 else i
  }

  /** Ways the sklearn calls inside the clusterer fail, and the missing-cluster lookup. */
  datatype ClusterError =
    | NoSamples                    // StandardScaler refuses a feature matrix with no rows
    | EmptyKRange                  // argmax of no silhouette scores (max_clusters < 2)
    | ClusterCountRejected(k: int) // KMeans needs 1 <= k <= samples; silhouette needs 2 <= k < samples
    | MissingCluster(id: int)      // KeyError from cluster_means.loc[id]

  /** What `find_optimal_clusters` returns when `score(k)` is the silhouette score of the k-means
      labelling with k clusters: the smallest k in 2..maxClusters of highest score. */
  function OptimalK(score: int -> real, maxClusters: int, samples: nat): (r: Result<int, ClusterError>)
    ensures maxClusters < 2 ==> r == Err(EmptyKRange)
    ensures 2 <= maxClusters && samples <= maxClusters ==>
      r == Err(ClusterCountRejected(if samples < 2 then 2 else samples))
    ensures 2 <= maxClusters < samples ==>
      && r.Ok? && 2 <= r.value <= maxClusters
      && (forall k :: 2 <= k <= maxClusters ==> score(k) <= score(r.value))
      && (forall k :: 2 <= k < r.value ==> score(k) < score(r.value))
  {
    if maxClusters < 2 then Err(EmptyKRange)
    else if samples <= maxClusters then Err(ClusterCountRejected(if samples < 2 then 2 else samples))
    else
      var scores := seq(maxClusters - 1, i requires 0 <= i < maxClusters - 1 => score(i + 2));
      var best := FirstArgMax(scores);
      assert forall k :: 2 <= k <= maxClusters ==> scores[k - 2] == score(k);
      Ok(best + 2)
  }

  /** A K-means estimator: `n_clusters` and whether `fit_predict` succeeded. */
  datatype KMeansModel = KMeansModel(nClusters: int, fitted: bool)

  /** A row of the frame `fit` returns, with its `cluster` column. */
  datatype ClusteredRow = ClusteredRow(row: FeatureRow, cluster: int)

  /** The rows of one cluster. */
  function RowsOf(df: seq<ClusteredRow>, id: int): (rows: seq<FeatureRow>)
    ensures |rows| == 0 <==> forall i :: 0 <= i < |df| ==> df[i].cluster != id
  {
    if df == [] then []
    else
      var prev := RowsOf(df[..|df| - 1], id);
      assert forall i :: 0 <= i < |df| - 1 ==> df[..|df| - 1][i] == df[i];
      prev + (if df[|df| - 1].cluster == id then [df[|df| - 1].row] else [])
  }

  /** `groupby('cluster').mean()` for one cluster present in the frame. */
  function ClusterMeans(df: seq<ClusteredRow>, id: int): Means
    requires |RowsOf(df, id)| > 0
  {
    var rows := RowsOf(df, id);
    Means(Mean(seq(|rows|, i requires 0 <= i < |rows| => rows[i].valence)),
          Mean(seq(|rows|, i requires 0 <= i < |rows| => rows[i].energy)),
          Mean(seq(|rows|, i requires 0 <= i < |rows| => rows[i].danceability)),
          Mean(seq(|rows|, i requires 0 <= i < |rows| => rows[i].tempo)),
          Mean(seq(|rows|, i requires 0 <= i < |rows| => rows[i].acousticness)))
  }

  predicate HasCluster(df: seq<ClusteredRow>, id: int)
  {
    exists i :: 0 <= i < |df| && df[i].cluster == id
  }

  class MoodClusterer {
    var nClusters: int
    var randomState: int
    var featureNames: Option<seq<string>>
    var clusterLabels: map<int, string>
    var kmeans: Option<KMeansModel>

    /** `MoodClusterer(n_clusters, random_state)` with the default label table. */
    constructor(nClusters: int, randomState: int)
      ensures this.nClusters == nClusters && this.randomState == randomState
      ensures featureNames == None && kmeans == None
      ensures clusterLabels == DefaultClusterLabels
    {
      this.nClusters := nClusters;
      this.randomState := randomState;
      featureNames := None;
      clusterLabels := DefaultClusterLabels;
      kmeans := None;
    }

    /** `select_features`: records the feature order and returns X with one row per row of the
        selected frame, in that order. */
    method SelectFeatures(df: seq<SongFeatures>) returns (x: seq<seq<real>>, rows: seq<FeatureRow>)
      modifies this
      ensures featureNames == Some(FeatureNames)
      ensures rows == SelectedRows(df)
      ensures |x| == |rows| && forall i :: 0 <= i < |rows| ==> x[i] == FeatureVector(rows[i])
      ensures nClusters == old(nClusters) && randomState == old(randomState)
      ensures clusterLabels == old(clusterLabels) && kmeans == old(kmeans)
    {
      rows := SelectedRows(df);
      featureNames := Some(FeatureNames);
      x := seq(|rows|, i requires 0 <= i < |rows| => FeatureVector(rows[i]));
    }

    /** `find_optimal_clusters`: scores k = 2..maxClusters one k-means fit at a time, appending
        each silhouette score, and returns the k of the first largest score. */
    method FindOptimalClusters(x: seq<seq<real>>, maxClusters: int, score: int -> real) returns (r: Result<int, ClusterError>)
      ensures r == OptimalK(score, maxClusters, |x|)
    {
      var scores: seq<real> := [];
      var k := 2;
      while k <= maxClusters
        invariant 2 <= k && (k == 2 || k <= maxClusters + 1)
        invariant k == 2 || k <= |x|
        invariant |scores| == k - 2 && forall i :: 0 <= i < |scores| ==> scores[i] == score(i + 2)
      {
        if k >= |x| {
          return Err(ClusterCountRejected(k));
        }
        scores := scores + [score(k)];
        k := k + 1;
      }
      if scores == [] {
        return Err(EmptyKRange);
      }
      var best := FirstArgMax(scores);
      assert |scores| == maxClusters - 1;
      assert scores == seq(maxClusters - 1, i requires 0 <= i < maxClusters - 1 => score(i + 2));
      r := Ok(best + 2);
    }

    /** `fit`: selects the features, replaces `n_clusters` by the optimal k only when asked to,
        installs a new estimator before fitting it, and labels every selected row. The scaler
        refuses an empty selection before any estimator is installed. K-means
        refuses fewer than one cluster or more clusters than rows; the silhouette score refuses
        fewer than two or as many as the rows. `labels(k)` is the k-means labelling for k
        clusters. */
    method Fit(df: seq<SongFeatures>, autoOptimize: bool, score: int -> real, labels: int -> seq<int>)
      returns (r: Result<seq<ClusteredRow>, ClusterError>)
      requires forall k :: |labels(k)| == |SelectedRows(df)|
      modifies this
      ensures featureNames == Some(FeatureNames)
      ensures randomState == old(randomState) && clusterLabels == old(clusterLabels)
      ensures var n := |SelectedRows(df)|;
        var opt := OptimalK(score, 10, n);
        && (n == 0 ==> r == Err(NoSamples) && nClusters == old(nClusters) && kmeans == old(kmeans))
        && (n > 0 && !autoOptimize ==> nClusters == old(nClusters))
        && (n > 0 && autoOptimize && opt.Err? ==> r == Err(opt.error) && nClusters == old(nClusters) && kmeans == old(kmeans))
        && (n > 0 && autoOptimize && opt.Ok? ==> nClusters == opt.value)
        && (n > 0 && (!autoOptimize || opt.Ok?) ==>
              && kmeans == Some(KMeansModel(nClusters, 1 <= nClusters <= n))
              && (nClusters < 2 || n <= nClusters ==> r == Err(ClusterCountRejected(nClusters)))
              && (2 <= nClusters < n ==>
                    && r.Ok? && |r.value| == n
                    && forall i :: 0 <= i < n ==>
                         r.value[i] == ClusteredRow(SelectedRows(df)[i], labels(nClusters)[i])))
    {
      var x, rows := SelectFeatures(df);
      if |x| == 0 { return Err(NoSamples); }
      if autoOptimize {
        var k := FindOptimalClusters(x, 10, score);
        if k.Err? {
          return Err(k.error);
        }
        nClusters := k.value;
      }
      kmeans := Some(KMeansModel(nClusters, false));
      if nClusters < 1 || nClusters > |x| {
        return Err(ClusterCountRejected(nClusters));
      }
      var assignment := labels(nClusters);
      kmeans := Some(KMeansModel(nClusters, true));
      if nClusters < 2 || nClusters >= |x| {
        return Err(ClusterCountRejected(nClusters));
      }
      r := Ok(seq(|rows|, i requires 0 <= i < |rows| => ClusteredRow(rows[i], assignment[i])));
    }

    /** `analyze_clusters`: for ids 0..n_clusters-1 in turn, replaces the label by the
        interpretation of the cluster's mean features. An id no row carries stops the loop with
        a KeyError, keeping the labels already written. */
    method AnalyzeClusters(df: seq<ClusteredRow>) returns (r: Result<map<int, Means>, ClusterError>)
      modifies this
      ensures nClusters == old(nClusters) && randomState == old(randomState)
      ensures featureNames == old(featureNames) && kmeans == old(kmeans)
      ensures r.Ok? ==> r.value == AllClusterMeans(df) && forall id :: 0 <= id < nClusters ==> id in r.value
      ensures r.Err? ==>
        && r.error.MissingCluster? && 0 <= r.error.id < nClusters && r.error.id !in AllClusterMeans(df)
        && forall id :: 0 <= id < r.error.id ==> id in AllClusterMeans(df)
      ensures var done := if r.Ok? then nClusters else r.error.id;
        && (forall id :: id in clusterLabels <==> id in old(clusterLabels) || 0 <= id < done)
        && (forall id :: 0 <= id < done ==>
              id in AllClusterMeans(df) && clusterLabels[id] == LabelOf(AllClusterMeans(df)[id]))
        && (forall id :: id in old(clusterLabels) && !(0 <= id < done) ==> clusterLabels[id] == old(clusterLabels)[id])
    {
      var means := AllClusterMeans(df);
      var labels, missing := Relabel(clusterLabels, means, nClusters);
      clusterLabels := labels;
      if missing.Some? {
        return Err(MissingCluster(missing.value));
      }
      r := Ok(means);
    }
  }

  /** The loop of `analyze_clusters` over ids 0..n-1: each id's label becomes the
      interpretation of its means; the first id without means stops the loop (a KeyError), with
      the labels of the earlier ids already written. */
  method Relabel(labels: map<int, string>, means: map<int, Means>, n: int)
    returns (out: map<int, string>, missing: Option<int>)
    ensures missing.Some? ==> 0 <= missing.value < n && missing.value !in means
    ensures var done := if missing.Some? then missing.value else n;
      && (forall id :: 0 <= id < done ==> id in means && id in out && out[id] == LabelOf(means[id]))
      && (forall id :: id in out <==> id in labels || 0 <= id < done)
      && (forall id :: id in labels && !(0 <= id < done) ==> out[id] == labels[id])
  {
    out := labels;
    var id := 0;
    while id < n
      invariant 0 <= id && (id == 0 || id <= n)
      invariant forall c :: c in out <==> c in labels || 0 <= c < id
      invariant forall c :: 0 <= c < id ==> c in means && c in out && out[c] == LabelOf(means[c])
      invariant forall c :: c in labels && !(0 <= c < id) ==> out[c] == labels[c]
    {
      if id !in means {
        return out, Some(id);
      }
      out := out[id := LabelOf(means[id])];
      id := id + 1;
    }
    missing := None;
  }

  /** `df_clustered.groupby('cluster')[features].mean()`: one entry per cluster id in the frame. */
  function AllClusterMeans(df: seq<ClusteredRow>): (m: map<int, Means>)
    ensures forall id :: id in m <==> HasCluster(df, id)
    ensures forall id :: id in m ==> |RowsOf(df, id)| > 0 && m[id] == ClusterMeans(df, id)
  {
    map id | id in (set i | 0 <= i < |df| :: df[i].cluster) :: ClusterMeansOf(df, id)
  }

  /** `ClusterMeans` for any id that occurs in the frame. */
  function ClusterMeansOf(df: seq<ClusteredRow>, id: int): (m: Means)
    requires HasCluster(df, id)
    ensures |RowsOf(df, id)| > 0 && m == ClusterMeans(df, id)
  {
    ClusterMeans(df, id)
  }
}
