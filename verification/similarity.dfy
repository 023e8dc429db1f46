/** The ranking half of `recommend_by_song`: locating the seed row, sorting indices by a key
    (`np.argsort`), the three similarity methods and their [0, 1] scores. The numeric inputs
    (the seed's row of pairwise cosine similarities and of Euclidean distances) are given, as
    sklearn and scipy compute them. */
module Similarity {
  import opened Common
  import opened Seqs
  import opened Filters

  /** A float key that is finite or `np.inf`. */
  datatype Ext = Fin(v: real) | Inf

  /** The order numpy sorts keys by: `np.inf` above every finite value. */
  predicate Le(a: Ext, b: Ext)
  {
    b.Inf? || (a.Fin? && a.v <= b.v)
  }

  predicate InRange(keys: seq<Ext>, order: seq<nat>)
  {
    forall k :: 0 <= k < |order| ==> order[k] < |keys|
  }

  predicate Sorted(keys: seq<Ext>, order: seq<nat>)
    requires InRange(keys, order)
  {
    forall a, b :: 0 <= a < b < |order| ==> Le(keys[order[a]], keys[order[b]])
  }

  /** `order` lists every index of `keys` once, by non-decreasing key: what `np.argsort(keys)`
      returns, whatever order it gives to equal keys. */
  predicate IsArgSort(keys: seq<Ext>, order: seq<nat>)
  {
    && |order| == |keys| && InRange(keys, order) && Distinct(order)
    && (forall i :: 0 <= i < |keys| ==> i in order)
    && Sorted(keys, order)
  }

  /** Places index `i` after every index of the sorted `s` whose key is not larger. */
  function Insert(keys: seq<Ext>, s: seq<nat>, i: nat): (r: seq<nat>)
    requires i < |keys| && InRange(keys, s) && Sorted(keys, s)
    ensures |r| == |s| + 1 && InRange(keys, r) && Sorted(keys, r)
    ensures forall x :: x in r <==> x in s || x == i
    ensures Distinct(s) && i !in s ==> Distinct(r)
  {
    if s == [] then [i]
    else if Le(keys[s[0]], keys[i]) then
      var rest := Insert(keys, s[1..], i);
      InsertAfterHead(keys, s, i, rest);
      [s[0]] + rest
    else
      InsertAtFront(keys, s, i);
      [i] + s
  }

  /** A key smaller than the first of a sorted list goes in front. */
  lemma InsertAtFront(keys: seq<Ext>, s: seq<nat>, i: nat)
    requires i < |keys| && InRange(keys, s) && Sorted(keys, s)
    requires s != [] && !Le(keys[s[0]], keys[i])
    ensures InRange(keys, [i] + s) && Sorted(keys, [i] + s)
    ensures Distinct(s) && i !in s ==> Distinct([i] + s)
  {
    var r := [i] + s;
    forall a, b | 0 <= a < b < |r| ensures Le(keys[r[a]], keys[r[b]]) {
      if a == 0 && b > 1 {
        assert Le(keys[s[0]], keys[s[b - 1]]);
      }
    }
  }

  /** Otherwise the first entry stays first and the key goes into the rest. */
  lemma InsertAfterHead(keys: seq<Ext>, s: seq<nat>, i: nat, rest: seq<nat>)
    requires i < |keys| && InRange(keys, s) && Sorted(keys, s)
    requires s != [] && Le(keys[s[0]], keys[i])
    requires InRange(keys, rest) && Sorted(keys, rest)
    requires forall x :: x in rest <==> x in s[1..] || x == i
    requires Distinct(s[1..]) && i !in s[1..] ==> Distinct(rest)
    ensures InRange(keys, [s[0]] + rest) && Sorted(keys, [s[0]] + rest)
    ensures Distinct(s) && i !in s ==> Distinct([s[0]] + rest)
  {
    var r := [s[0]] + rest;
    forall a, b | 0 <= a < b < |r| ensures Le(keys[r[a]], keys[r[b]]) {
      if a == 0 {
        assert r[b] in rest;
        if r[b] != i {
          var q :| 1 <= q < |s| && s[q] == r[b];
          assert Le(keys[s[0]], keys[s[q]]);
        }
      } else {
        assert r[a] == rest[a - 1] && r[b] == rest[b - 1];
      }
    }
    if Distinct(s) && i !in s {
      assert Distinct(s[1..]) by {
        forall a, b | 0 <= a < b < |s| - 1 ensures s[1..][a] != s[1..][b] {
          assert s[1..][a] == s[a + 1] && s[1..][b] == s[b + 1];
        }
      }
      assert s[0] !in s[1..];
      forall a, b | 0 <= a < b < |r| ensures r[a] != r[b] {
        if a == 0 {
          assert r[b] in rest;
        } else {
          assert r[a] == rest[a - 1] && r[b] == rest[b - 1];
        }
      }
    }
  }

  function ArgSortPrefix(keys: seq<Ext>, m: nat): (r: seq<nat>)
    requires m <= |keys|
    ensures |r| == m && InRange(keys, r) && Sorted(keys, r) && Distinct(r)
    ensures forall x :: x in r <==> 0 <= x < m
  {
    if m == 0 then []
    else
      var prev := ArgSortPrefix(keys, m - 1);
      var r := Insert(keys, prev, m - 1);
      assert forall x :: x in r <==> 0 <= x < m by {
        forall x ensures x in r <==> 0 <= x < m {
          assert x in r <==> x in prev || x == m - 1;
        }
      }
      r
  }

  /** An argsort of `keys` (ties kept in index order). */
  function ArgSort(keys: seq<Ext>): (order: seq<nat>)
    ensures IsArgSort(keys, order)
  {
    ArgSortPrefix(keys, |keys|)
  }

  /** The first `m` entries of an argsort hold the `m` smallest keys, in non-decreasing order. */
  lemma {:induction false} AscendingTop(keys: seq<Ext>, order: seq<nat>, m: nat)
    requires IsArgSort(keys, order) && m <= |order|
    ensures forall j, k :: 0 <= j < |keys| && j !in order[..m] && 0 <= k < m ==> Le(keys[order[k]], keys[j])
  {
    forall j, k | 0 <= j < |keys| && j !in order[..m] && 0 <= k < m
      ensures Le(keys[order[k]], keys[j])
    {
      assert j in order;
      var p :| 0 <= p < |order| && order[p] == j;
      assert k < p;
    }
  }

  /** The first `|desc|` entries of a reversed argsort hold the largest keys, in non-increasing
      order. */
  lemma {:induction false} DescendingTop(keys: seq<Ext>, order: seq<nat>, desc: seq<nat>)
    requires IsArgSort(keys, order) && |desc| <= |order| && desc == Reverse(order)[..|desc|]
    ensures forall k :: 0 <= k < |desc| ==> desc[k] < |keys| && desc[k] == order[|order| - 1 - k]
    ensures Distinct(desc)
    ensures forall a, b :: 0 <= a < b < |desc| ==> Le(keys[desc[b]], keys[desc[a]])
    ensures forall j, k :: 0 <= j < |keys| && j !in desc && 0 <= k < |desc| ==> Le(keys[j], keys[desc[k]])
  {
    var n := |order|;
    assert forall k :: 0 <= k < |desc| ==> desc[k] == order[n - 1 - k];
    forall a, b | 0 <= a < b < |desc| ensures desc[a] != desc[b] && Le(keys[desc[b]], keys[desc[a]]) {
      assert desc[a] == order[n - 1 - a] && desc[b] == order[n - 1 - b];
    }
    forall j, k | 0 <= j < |keys| && j !in desc && 0 <= k < |desc|
      ensures Le(keys[j], keys[desc[k]])
    {
      assert j in order;
      var p :| 0 <= p < n && order[p] == j;
      assert Reverse(order)[n - 1 - p] == j;
      assert p < n - 1 - k;
      assert desc[k] == order[n - 1 - k];
    }
  }

  /** A score column value: a number, or NaN (`inf / inf`). */
  datatype Score = Num(value: real) | NaN

  /** One row of the frame `recommend_by_song` returns: the catalogue position, the row and
      its `similarity_score`. */
  datatype Recommendation = Recommendation(index: nat, track: Track, score: Score)

  predicate Chosen(r: seq<Recommendation>, j: nat)
  {
    exists k :: 0 <= k < |r| && r[k].index == j
  }

  /** Indices are positions of the catalogue, each carries its own row, and none repeats. */
  predicate WellIndexed(r: seq<Recommendation>, rows: seq<Track>)
  {
    && (forall k :: 0 <= k < |r| ==> r[k].index < |rows| && r[k].track == rows[r[k].index])
    && (forall a, b :: 0 <= a < b < |r| ==> r[a].index != r[b].index)
  }

  predicate NumbersInUnit(r: seq<Recommendation>)
  {
    forall k :: 0 <= k < |r| ==> r[k].score.Num? && 0.0 <= r[k].score.value <= 1.0
  }

  /** Every numeric score lies in [0, 1]; NaN scores are allowed. */
  predicate NumbersBounded(r: seq<Recommendation>)
  {
    forall k :: 0 <= k < |r| && r[k].score.Num? ==> 0.0 <= r[k].score.value <= 1.0
  }

  predicate NonIncreasing(r: seq<Recommendation>)
    requires NumbersInUnit(r)
  {
    forall a, b :: 0 <= a < b < |r| ==> r[a].score.value >= r[b].score.value
  }

  function FinKeys(xs: seq<real>): (keys: seq<Ext>)
    ensures |keys| == |xs| && forall j :: 0 <= j < |xs| ==> keys[j] == Fin(xs[j])
  {
    seq(|xs|, j requires 0 <= j < |xs| => Fin(xs[j]))
  }

  /** The positions where `track_id` equals `id`, first one first; `None` when there is none. */
  function FindSeed(rows: seq<Track>, id: string): (r: Option<nat>)
    ensures r.None? <==> forall i :: 0 <= i < |rows| ==> rows[i].trackId != id
    ensures r.Some? ==>
      && r.value < |rows| && rows[r.value].trackId == id
      && forall i :: 0 <= i < r.value ==> rows[i].trackId != id
  {
    var mask := IdMask(rows, id);
    FirstTrueIndex(mask);
    var idx := TrueIndices(mask);
    if idx == [] then None else Some(idx[0])
  }

  /** `df['track_id'] == song_id`. */
  function IdMask(rows: seq<Track>, id: string): (mask: seq<bool>)
    ensures |mask| == |rows| && forall i :: 0 <= i < |rows| ==> (mask[i] <==> rows[i].trackId == id)
  {
    seq(|rows|, i requires 0 <= i < |rows| => rows[i].trackId == id)
  }

  /** The first position of a mask that holds, if any. */
  lemma FirstTrueIndex(mask: seq<bool>)
    ensures TrueIndices(mask) == [] <==> forall i :: 0 <= i < |mask| ==> !mask[i]
    ensures TrueIndices(mask) != [] ==>
      var f := TrueIndices(mask)[0];
      f < |mask| && mask[f] && forall i :: 0 <= i < f ==> !mask[i]
  {
  }

  /** Cosine method: the seed's similarity is overwritten with -1 (`sim_vector[idx] = -1`), the
      indices are taken by descending similarity (`np.argsort(sim)[::-1][:n]`) and each
      similarity s is scored (s + 1) / 2. */
  function CosineSelection(rows: seq<Track>, sims: seq<real>, seed: nat, n: int): seq<Recommendation>
    requires |sims| == |rows| && seed < |rows|
  {
    var masked := sims[seed := -1.0];
    var order := ArgSort(FinKeys(masked));
    var top := Head(Reverse(order), n);
    DescendingTop(FinKeys(masked), order, top);
    seq(|top|, k requires 0 <= k < |top| =>
      Recommendation(top[k], rows[top[k]], Num((masked[top[k]] + 1.0) / 2.0)))
  }

  /** The cosine method returns min(n, rows) distinct catalogue rows (for n >= 0; Python's
      negative slice otherwise), each scored (s + 1) / 2 from its similarity. */
  lemma {:induction false} CosineSelectionShape(rows: seq<Track>, sims: seq<real>, seed: nat, n: int)
    requires |sims| == |rows| && seed < |rows|
    ensures var r, masked := CosineSelection(rows, sims, seed, n), sims[seed := -1.0];
      && |r| == HeadLength(|rows|, n)
      && WellIndexed(r, rows)
      && (forall k :: 0 <= k < |r| ==> r[k].score == Num((masked[r[k].index] + 1.0) / 2.0))
  {
    var masked := sims[seed := -1.0];
    var order := ArgSort(FinKeys(masked));
    DescendingTop(FinKeys(masked), order, Head(Reverse(order), n));
  }

  /** With similarities in [-1, 1], cosine scores lie in [0, 1] and do not increase. */
  lemma {:induction false} CosineSelectionScores(rows: seq<Track>, sims: seq<real>, seed: nat, n: int)
    requires |sims| == |rows| && seed < |rows|
    requires forall j :: 0 <= j < |sims| ==> -1.0 <= sims[j] <= 1.0
    ensures var r := CosineSelection(rows, sims, seed, n);
      NumbersInUnit(r) && NonIncreasing(r)
  {
    var masked := sims[seed := -1.0];
    var keys := FinKeys(masked);
    var order := ArgSort(keys);
    var top := Head(Reverse(order), n);
    DescendingTop(keys, order, top);
    var r := CosineSelection(rows, sims, seed, n);
    forall a, b | 0 <= a < b < |r| ensures r[a].score.value >= r[b].score.value {
      assert Le(keys[top[b]], keys[top[a]]);
    }
  }

  /** Every row left out has a similarity (the seed's counted as -1) no higher than every row
      chosen. */
  lemma {:induction false} CosineSelectionHighest(rows: seq<Track>, sims: seq<real>, seed: nat, n: int)
    requires |sims| == |rows| && seed < |rows|
    ensures var r, masked := CosineSelection(rows, sims, seed, n), sims[seed := -1.0];
      forall j, k :: 0 <= j < |rows| && !Chosen(r, j) && 0 <= k < |r| ==> masked[j] <= masked[r[k].index]
  {
    var r, masked := CosineSelection(rows, sims, seed, n), sims[seed := -1.0];
    var keys := FinKeys(masked);
    var order := ArgSort(keys);
    var top := Head(Reverse(order), n);
    DescendingTop(keys, order, top);
    ChosenIsIn(r, top);
    forall j, k | 0 <= j < |rows| && !Chosen(r, j) && 0 <= k < |r|
      ensures masked[j] <= masked[r[k].index]
    {
      assert Le(keys[j], keys[top[k]]);
    }
  }

  /** The seed is left out whenever fewer rows than the catalogue are asked for and no other row
      has similarity -1. */
  lemma {:induction false} CosineSelectionExcludesSeed(rows: seq<Track>, sims: seq<real>, seed: nat, n: int)
    requires |sims| == |rows| && seed < |rows|
    requires HeadLength(|rows|, n) < |rows|
    requires forall j :: 0 <= j < |rows| && j != seed ==> sims[j] > -1.0
    ensures !Chosen(CosineSelection(rows, sims, seed, n), seed)
  {
    var r, masked := CosineSelection(rows, sims, seed, n), sims[seed := -1.0];
    var keys := FinKeys(masked);
    var order := ArgSort(keys);
    var top := Head(Reverse(order), n);
    DescendingTop(keys, order, top);
    ChosenIsIn(r, top);
    DescendingTop(keys, order, Reverse(order)[..|top| + 1]);
    var rest := Reverse(order)[|top|];
    assert rest !in top by {
      forall p | 0 <= p < |top| ensures top[p] != rest { assert Reverse(order)[p] == top[p]; }
    }
    CosineSelectionHighest(rows, sims, seed, n);
    forall k | 0 <= k < |r| ensures r[k].index != seed {
      assert masked[rest] <= masked[r[k].index];
      assert r[k].index != rest;
    }
  }

  /** Euclidean keys: the seed's distance is overwritten with `np.inf`. */
  function EuclideanKeys(dists: seq<real>, seed: nat): (keys: seq<Ext>)
    ensures |keys| == |dists|
    ensures forall j :: 0 <= j < |dists| ==> keys[j] == if j == seed then Inf else Fin(dists[j])
  {
    seq(|dists|, j requires 0 <= j < |dists| => if j == seed then Inf else Fin(dists[j]))
  }

  /** `top_distances.max()`. */
  function MaxKey(es: seq<Ext>): (m: Ext)
    requires es != []
    ensures m in es && forall k :: 0 <= k < |es| ==> Le(es[k], m)
  {
    if |es| == 1 then es[0]
    else
      var m := MaxKey(es[..|es| - 1]);
      assert forall k :: 0 <= k < |es| - 1 ==> es[..|es| - 1][k] == es[k];
      if Le(m, es[|es| - 1]) then es[|es| - 1] else m
  }

  /** `1 - d / max_dist` with `max_dist` the largest selected distance, or 1 when that is 0. */
  function EuclideanScore(d: Ext, maxd: Ext): Score
    requires Le(d, maxd)
  {
    match maxd
    case Inf => if d.Inf? then NaN else Num(1.0)
    case Fin(m) => Num(1.0 - d.v / (if m > 0.0 then m else 1.0))
  }

  /** The keys of the listed indices (`dist_vector[top_indices]`). */
  function KeysAt(keys: seq<Ext>, idx: seq<nat>): (r: seq<Ext>)
    requires InRange(keys, idx)
    ensures |r| == |idx| && forall k :: 0 <= k < |idx| ==> r[k] == keys[idx[k]]
  {
    seq(|idx|, k requires 0 <= k < |idx| => keys[idx[k]])
  }

  /** `np.argsort(dist_vector)[:n]` once the seed's distance is `np.inf`. */
  function EuclideanTop(dists: seq<real>, seed: nat, n: int): (top: seq<nat>)
    requires seed < |dists|
    ensures |top| == HeadLength(|dists|, n) && InRange(EuclideanKeys(dists, seed), top)
    ensures top == ArgSort(EuclideanKeys(dists, seed))[..|top|]
  {
    Head(ArgSort(EuclideanKeys(dists, seed)), n)
  }

  /** Euclidean method: the `n` indices of smallest distance once the seed's is `np.inf`;
      `max()` of an empty selection is an error. */
  function EuclideanSelection(rows: seq<Track>, dists: seq<real>, seed: nat, n: int): Result<seq<Recommendation>, RecError>
    requires |dists| == |rows| && seed < |rows|
  {
    var top := EuclideanTop(dists, seed, n);
    if top == [] then Err(EmptySelection)
    else
      var topd := KeysAt(EuclideanKeys(dists, seed), top);
      var maxd := MaxKey(topd);
      Ok(seq(|top|, k requires 0 <= k < |top| =>
        Recommendation(top[k], rows[top[k]], EuclideanScore(topd[k], maxd))))
  }

  /** A result whose k-th entry is the row at `top[k]` has chosen exactly the indices in `top`. */
  lemma ChosenIsIn(r: seq<Recommendation>, top: seq<nat>)
    requires |r| == |top| && forall k :: 0 <= k < |r| ==> r[k].index == top[k]
    ensures forall j :: Chosen(r, j) <==> j in top
  {
    forall j ensures Chosen(r, j) <==> j in top {
      if j in top {
        var p :| 0 <= p < |top| && top[p] == j;
        assert r[p].index == j;
      }
    }
  }

  /** The seed, the only infinite key, sorts last. */
  lemma {:induction false} SeedSortsLast(dists: seq<real>, seed: nat, order: seq<nat>)
    requires seed < |dists| && IsArgSort(EuclideanKeys(dists, seed), order)
    ensures order[|order| - 1] == seed
  {
    var keys := EuclideanKeys(dists, seed);
    assert seed in order;
    var q :| 0 <= q < |order| && order[q] == seed;
    var last := |order| - 1;
    assert Le(keys[order[q]], keys[order[last]]);
    assert keys[order[last]] == Inf;
  }

  /** The Euclidean method fails exactly when the slice it takes is empty; otherwise it returns
      that many distinct catalogue rows, and the seed is among them exactly when the whole
      catalogue is asked for. */
  lemma {:induction false} EuclideanSelectionShape(rows: seq<Track>, dists: seq<real>, seed: nat, n: int)
    requires |dists| == |rows| && seed < |rows|
    ensures var res := EuclideanSelection(rows, dists, seed, n);
      && (res.Err? <==> HeadLength(|rows|, n) == 0)
      && (res.Err? ==> res.error == EmptySelection)
      && (res.Ok? ==> |res.value| == HeadLength(|rows|, n) && WellIndexed(res.value, rows))
      && (res.Ok? ==> (Chosen(res.value, seed) <==> HeadLength(|rows|, n) == |rows|))
  {
    var top := EuclideanTop(dists, seed, n);
    EuclideanSelectionForm(rows, dists, seed, n);
    EuclideanTopIndices(dists, seed, n);
    var res := EuclideanSelection(rows, dists, seed, n);
    if top != [] {
      var r := res.value;
      assert forall k :: 0 <= k < |r| ==> r[k].track == rows[top[k]];
      ChosenIsIn(r, top);
    }
  }

  /** The chosen indices are distinct positions, and the seed is among them exactly when every
      position is chosen. */
  lemma {:induction false} EuclideanTopIndices(dists: seq<real>, seed: nat, n: int)
    requires seed < |dists|
    ensures var top := EuclideanTop(dists, seed, n);
      && Distinct(top) && (forall k :: 0 <= k < |top| ==> top[k] < |dists|)
      && (seed in top <==> |top| == |dists|)
  {
    var order := ArgSort(EuclideanKeys(dists, seed));
    var top := EuclideanTop(dists, seed, n);
    SeedSortsLast(dists, seed, order);
    assert forall p :: 0 <= p < |top| ==> top[p] == order[p];
    if |top| == |order| {
      assert top[|top| - 1] == seed;
    } else {
      forall p | 0 <= p < |top| ensures top[p] != seed { assert order[p] == top[p]; }
    }
  }

  /** Apart from the seed, every row left out is at least as distant as every row chosen. */
  lemma {:induction false} EuclideanSelectionNearest(rows: seq<Track>, dists: seq<real>, seed: nat, n: int)
    requires |dists| == |rows| && seed < |rows|
    ensures var res := EuclideanSelection(rows, dists, seed, n);
      res.Ok? ==> forall j, k :: 0 <= j < |rows| && j != seed && !Chosen(res.value, j) && 0 <= k < |res.value| ==>
        dists[res.value[k].index] <= dists[j]
  {
    var keys := EuclideanKeys(dists, seed);
    var order := ArgSort(keys);
    var top := EuclideanTop(dists, seed, n);
    AscendingTop(keys, order, |top|);
    var res := EuclideanSelection(rows, dists, seed, n);
    if top != [] {
      var r := res.value;
      ChosenIsIn(r, top);
      forall j, k | 0 <= j < |rows| && j != seed && !Chosen(r, j) && 0 <= k < |r|
        ensures dists[r[k].index] <= dists[j]
      {
        assert Le(keys[order[k]], keys[j]);
      }
    }
  }

  /** With fewer rows asked for than the catalogue has, scores lie in [0, 1], do not increase,
      and the last is 0 when the largest chosen distance is positive. */
  lemma {:induction false} EuclideanSelectionScores(rows: seq<Track>, dists: seq<real>, seed: nat, n: int)
    requires |dists| == |rows| && seed < |rows|
    requires forall j :: 0 <= j < |dists| ==> dists[j] >= 0.0
    requires HeadLength(|rows|, n) < |rows|
    ensures var res := EuclideanSelection(rows, dists, seed, n);
      res.Ok? ==>
        var r := res.value;
        && NumbersInUnit(r) && NonIncreasing(r)
        && (dists[r[|r| - 1].index] > 0.0 ==> r[|r| - 1].score == Num(0.0))
  {
    EuclideanEntries(rows, dists, seed, n);
    var res := EuclideanSelection(rows, dists, seed, n);
    if res.Ok? {
      var r := res.value;
      var m := dists[r[|r| - 1].index];
      forall k | 0 <= k < |r| ensures r[k].score.Num? && 0.0 <= r[k].score.value <= 1.0 {
        ScoreInUnit(dists[r[k].index], m);
      }
      forall a, b | 0 <= a < b < |r| ensures r[a].score.value >= r[b].score.value {
        ScoreMono(dists[r[a].index], dists[r[b].index], m);
      }
      if m > 0.0 {
        DivSelf(m);
      }
    }
  }

  /** Each chosen row is scored against the distance of the last one, which is the largest. */
  lemma {:induction false} EuclideanEntries(rows: seq<Track>, dists: seq<real>, seed: nat, n: int)
    requires |dists| == |rows| && seed < |rows|
    requires forall j :: 0 <= j < |dists| ==> dists[j] >= 0.0
    requires HeadLength(|rows|, n) < |rows|
    ensures var res := EuclideanSelection(rows, dists, seed, n);
      res.Ok? ==>
        var r := res.value;
        var m := dists[r[|r| - 1].index];
        && |r| > 0
        && (forall k :: 0 <= k < |r| ==>
              0.0 <= dists[r[k].index] <= m && r[k].score == EuclideanScore(Fin(dists[r[k].index]), Fin(m)))
        && (forall a, b :: 0 <= a < b < |r| ==> dists[r[a].index] <= dists[r[b].index])
  {
    EuclideanSelectionForm(rows, dists, seed, n);
    EuclideanTopKeys(dists, seed, n);
  }

  /** The Euclidean result is the `top` rows, each scored against the largest chosen key. */
  lemma EuclideanSelectionForm(rows: seq<Track>, dists: seq<real>, seed: nat, n: int)
    requires |dists| == |rows| && seed < |rows|
    ensures var top, res := EuclideanTop(dists, seed, n), EuclideanSelection(rows, dists, seed, n);
      var topd := KeysAt(EuclideanKeys(dists, seed), top);
      && (res.Ok? <==> top != [])
      && (res.Ok? ==>
            && |res.value| == |top|
            && forall k :: 0 <= k < |top| ==>
                 res.value[k].index == top[k] && res.value[k].score == EuclideanScore(topd[k], MaxKey(topd)))
  {
  }

  /** Without the seed, the chosen rows are those of smallest finite distance, in non-decreasing
      order, so the largest chosen key is the last row's distance. */
  lemma {:induction false} EuclideanTopKeys(dists: seq<real>, seed: nat, n: int)
    requires seed < |dists| && HeadLength(|dists|, n) < |dists|
    ensures var top := EuclideanTop(dists, seed, n);
      var topd := KeysAt(EuclideanKeys(dists, seed), top);
      && (forall k :: 0 <= k < |top| ==> top[k] != seed && topd[k] == Fin(dists[top[k]]))
      && (forall a, b :: 0 <= a < b < |top| ==> dists[top[a]] <= dists[top[b]])
      && (top != [] ==> MaxKey(topd) == Fin(dists[top[|top| - 1]]))
  {
    var keys := EuclideanKeys(dists, seed);
    var order := ArgSort(keys);
    var top := EuclideanTop(dists, seed, n);
    var topd := KeysAt(keys, top);
    SeedSortsLast(dists, seed, order);
    forall k | 0 <= k < |top| ensures top[k] != seed && topd[k] == Fin(dists[top[k]]) {
      assert top[k] == order[k];
    }
    forall a, b | 0 <= a < b < |top| ensures dists[top[a]] <= dists[top[b]] {
      assert top[a] == order[a] && top[b] == order[b];
      assert Le(keys[order[a]], keys[order[b]]);
    }
    if top != [] {
      var maxd := MaxKey(topd);
      assert Le(topd[|top| - 1], maxd) && Le(maxd, topd[|top| - 1]);
    }
  }

  /** Asking for the whole catalogue brings the seed in at the end: its score is
      `1 - inf / inf`, NaN, and every other row scores `1 - d / inf` = 1. */
  lemma {:induction false} EuclideanSelectionWholeCatalogue(rows: seq<Track>, dists: seq<real>, seed: nat, n: int)
    requires |dists| == |rows| && seed < |rows|
    requires HeadLength(|rows|, n) == |rows|
    ensures var res := EuclideanSelection(rows, dists, seed, n);
      && res.Ok?
      && res.value[|rows| - 1].index == seed
      && forall k :: 0 <= k < |res.value| ==>
           res.value[k].score == if res.value[k].index == seed then NaN else Num(1.0)
  {
    var keys := EuclideanKeys(dists, seed);
    var order := ArgSort(keys);
    var top := EuclideanTop(dists, seed, n);
    SeedSortsLast(dists, seed, order);
    var topd := KeysAt(keys, top);
    assert topd[|top| - 1] == Inf;
  }

  /** The score of a distance in [0, m] lies in [0, 1]. */
  lemma ScoreInUnit(d: real, m: real)
    requires 0.0 <= d <= m
    ensures var s := EuclideanScore(Fin(d), Fin(m)); s.Num? && 0.0 <= s.value <= 1.0
  {
    if m > 0.0 {
      DivUnit(d, m);
    }
  }

  /** A larger distance scores no higher. */
  lemma ScoreMono(x: real, y: real, m: real)
    requires 0.0 <= x <= y <= m
    ensures EuclideanScore(Fin(x), Fin(m)).value >= EuclideanScore(Fin(y), Fin(m)).value
  {
    if m > 0.0 {
      DivMono(x, y, m);
    }
  }

  lemma DivSelf(m: real)
    requires m > 0.0
    ensures m / m == 1.0
  {
  }

  lemma DivUnit(d: real, m: real)
    requires 0.0 <= d <= m && m > 0.0
    ensures 0.0 <= d / m <= 1.0
  {
    assert d / m * m == d;
  }

  lemma DivMono(x: real, y: real, m: real)
    requires x <= y && m > 0.0
    ensures x / m <= y / m
  {
    assert x / m * m == x && y / m * m == y;
  }

  /** A fitted (or failed) `NearestNeighbors(n_neighbors, metric="cosine")` index. */
  datatype KnnModel = KnnModel(nNeighbors: int, fitted: bool)

  /** KNN method: `kneighbors` returns the `n_neighbors` indices of smallest cosine distance
      1 - s, the first of them is dropped, and each distance d is scored 1 - d / 2. */
  function KnnSelection(rows: seq<Track>, sims: seq<real>, model: KnnModel): Result<seq<Recommendation>, RecError>
    requires |sims| == |rows|
    requires model.fitted ==> model.nNeighbors >= 1
  {
    if !model.fitted then Err(KnnNotFitted)
    else if model.nNeighbors > |rows| then Err(KnnTooFewSamples)
    else
      var dist := CosineDistances(sims);
      var near := ArgSort(dist)[..model.nNeighbors];
      var neighbors := near[1..];
      Ok(seq(|neighbors|, k requires 0 <= k < |neighbors| =>
        Recommendation(neighbors[k], rows[neighbors[k]], Num(1.0 - dist[neighbors[k]].v / 2.0))))
  }

  /** The two failures of the KNN query and the size of its result. */
  lemma KnnSelectionShape(rows: seq<Track>, sims: seq<real>, model: KnnModel)
    requires |sims| == |rows| && (model.fitted ==> model.nNeighbors >= 1)
    ensures var res := KnnSelection(rows, sims, model);
      && (res == Err(KnnNotFitted) <==> !model.fitted)
      && (res == Err(KnnTooFewSamples) <==> model.fitted && model.nNeighbors > |rows|)
      && (res.Ok? ==> |res.value| == model.nNeighbors - 1 && WellIndexed(res.value, rows))
  {
  }

  /** The cosine distances the KNN index sorts by (sklearn's `1 - similarity`). */
  function CosineDistances(sims: seq<real>): (keys: seq<Ext>)
    ensures |keys| == |sims| && forall j :: 0 <= j < |sims| ==> keys[j] == Fin(1.0 - sims[j])
  {
    FinKeys(seq(|sims|, j requires 0 <= j < |sims| => 1.0 - sims[j]))
  }

  /** KNN scores are `(1 + s) / 2` for similarity s, so they lie in [0, 1], and they do not
      increase down the list. */
  lemma {:induction false} KnnSelectionScores(rows: seq<Track>, sims: seq<real>, model: KnnModel)
    requires |sims| == |rows| && (model.fitted ==> model.nNeighbors >= 1)
    requires forall j :: 0 <= j < |sims| ==> -1.0 <= sims[j] <= 1.0
    ensures var res := KnnSelection(rows, sims, model);
      res.Ok? ==>
        && NumbersInUnit(res.value) && NonIncreasing(res.value)
        && forall k :: 0 <= k < |res.value| ==> res.value[k].score == Num((1.0 + sims[res.value[k].index]) / 2.0)
  {
    KnnSelectionForm(rows, sims, model);
    if model.fitted && model.nNeighbors <= |rows| {
      var dist := CosineDistances(sims);
      var order := ArgSort(dist);
      var r := KnnSelection(rows, sims, model).value;
      forall k | 0 <= k < |r| ensures r[k].score.Num? && 0.0 <= r[k].score.value <= 1.0 {
        assert r[k].score == Num((1.0 + sims[r[k].index]) / 2.0);
      }
      forall a, b | 0 <= a < b < |r| ensures r[a].score.value >= r[b].score.value {
        assert Le(dist[order[a + 1]], dist[order[b + 1]]);
      }
    }
  }

  /** The KNN result is the argsort of the cosine distances without its first entry, each row
      scored `(1 + s) / 2`. */
  lemma KnnSelectionForm(rows: seq<Track>, sims: seq<real>, model: KnnModel)
    requires |sims| == |rows| && (model.fitted ==> model.nNeighbors >= 1)
    ensures var res := KnnSelection(rows, sims, model);
      res.Ok? ==>
        var order := ArgSort(CosineDistances(sims));
        && |res.value| == model.nNeighbors - 1 && model.nNeighbors <= |order|
        && forall k :: 0 <= k < |res.value| ==>
             res.value[k].index == order[k + 1] && res.value[k].score == Num((1.0 + sims[res.value[k].index]) / 2.0)
  {
  }

  /** Every row outside the neighbour list is at least as distant (no more similar) than every
      row returned. Nothing is promised about the seed: with duplicate vectors the dropped
      first neighbour need not be the seed itself. */
  lemma {:induction false} KnnSelectionNearest(rows: seq<Track>, sims: seq<real>, model: KnnModel)
    requires |sims| == |rows| && (model.fitted ==> model.nNeighbors >= 1)
    ensures var res := KnnSelection(rows, sims, model);
      res.Ok? ==>
        var dropped := ArgSort(CosineDistances(sims))[0];
        && (forall k :: 0 <= k < |res.value| ==> sims[res.value[k].index] <= sims[dropped])
        && (forall j, k :: 0 <= j < |rows| && j != dropped && !Chosen(res.value, j) && 0 <= k < |res.value| ==>
              sims[j] <= sims[res.value[k].index])
  {
    if model.fitted && model.nNeighbors <= |rows| {
      var dist := CosineDistances(sims);
      var order := ArgSort(dist);
      var near := order[..model.nNeighbors];
      AscendingTop(dist, order, model.nNeighbors);
      var r := KnnSelection(rows, sims, model).value;
      assert forall k :: 0 <= k < |r| ==> r[k].index == order[k + 1];
      forall k | 0 <= k < |r| ensures sims[r[k].index] <= sims[order[0]] {
        assert Le(dist[order[0]], dist[order[k + 1]]);
      }
      forall j, k | 0 <= j < |rows| && j != order[0] && !Chosen(r, j) && 0 <= k < |r|
        ensures sims[j] <= sims[r[k].index]
      {
        assert j !in near by {
          forall p | 0 <= p < |near| ensures near[p] != j {
            if p > 0 { assert r[p - 1].index == near[p]; }
          }
        }
        assert Le(dist[order[k + 1]], dist[j]);
      }
    }
  }

  /** Which similarity method a name selects; any other name is an error. */
  function SelectionByMethod(methodName: string, rows: seq<Track>, cosine: seq<real>, euclid: seq<real>,
                             knn: Option<KnnModel>, seed: nat, n: int): Result<seq<Recommendation>, RecError>
    requires |cosine| == |rows| && |euclid| == |rows| && seed < |rows|
    requires knn.Some? && knn.value.fitted ==> knn.value.nNeighbors >= 1
  {
    if methodName == "knn" then
      if knn.None? then Err(AttributeError) else KnnSelection(rows, cosine, knn.value)
    else if methodName == "cosine" then Ok(CosineSelection(rows, cosine, seed, n))
    else if methodName == "euclidean" then EuclideanSelection(rows, euclid, seed, n)
    else Err(UnknownMethod(methodName))
  }

  /** `feature_matrix_scaled` seen through the two measures taken of it: row i of `cosine` is
      `cosine_similarity(X[i], X)` and row i of `euclid` is `cdist(X[i], X)`. */
  datatype Geometry = Geometry(cosine: seq<seq<real>>, euclid: seq<seq<real>>)
  {
    /** Number of rows of the matrix. */
    function Size(): nat
    {
      |cosine|
    }

    /** Square tables, similarities in [-1, 1], distances non-negative. */
    predicate Valid()
    {
      && |euclid| == |cosine|
      && (forall i :: 0 <= i < |cosine| ==> |cosine[i]| == |cosine| && |euclid[i]| == |cosine|)
      && (forall i, j :: 0 <= i < |cosine| && 0 <= j < |cosine| ==> -1.0 <= cosine[i][j] <= 1.0)
      && (forall i, j :: 0 <= i < |cosine| && 0 <= j < |cosine| ==> euclid[i][j] >= 0.0)
    }
  }

  /** The frame `recommend_by_song` returns once the seed row is known: the chosen method's
      selection, cut again to `n_recommendations` rows (`result.head(n)`). */
  function BySong(methodName: string, rows: seq<Track>, g: Geometry, knn: Option<KnnModel>, seed: nat, n: int): Result<seq<Recommendation>, RecError>
    requires g.Valid() && g.Size() == |rows| && seed < |rows|
    requires knn.Some? && knn.value.fitted ==> knn.value.nNeighbors >= 1
  {
    match SelectionByMethod(methodName, rows, g.cosine[seed], g.euclid[seed], knn, seed, n)
    case Ok(r) => Ok(Head(r, n))
    case Err(e) => Err(e)
  }

  /** A prefix of a result keeps its indexing, its score bounds and its order. */
  lemma PrefixKeeps(r: seq<Recommendation>, rows: seq<Track>, m: nat)
    requires m <= |r|
    ensures WellIndexed(r, rows) ==> WellIndexed(r[..m], rows)
    ensures NumbersInUnit(r) ==> NumbersInUnit(r[..m]) && (NonIncreasing(r) ==> NonIncreasing(r[..m]))
    ensures NumbersBounded(r) ==> NumbersBounded(r[..m])
    ensures forall j :: Chosen(r[..m], j) ==> Chosen(r, j)
  {
    forall j | Chosen(r[..m], j) ensures Chosen(r, j) {
      var k :| 0 <= k < m && r[..m][k].index == j;
      assert r[k].index == j;
    }
  }

  /** What `recommend_by_song` promises of a successful call: distinct catalogue rows, at most
      `n` of them, every numeric score in [0, 1] and non-increasing down the frame; a NaN score
      appears only for the Euclidean method asked for the whole catalogue; and the Euclidean
      method leaves the seed out otherwise. The only failures are an unknown method name, a
      KNN query on a missing, unfitted or too small index, and an empty Euclidean slice. */
  lemma {:induction false} BySongProperties(methodName: string, rows: seq<Track>, g: Geometry, knn: Option<KnnModel>, seed: nat, n: int)
    requires g.Valid() && g.Size() == |rows| && seed < |rows|
    requires knn.Some? && knn.value.fitted ==> knn.value.nNeighbors >= 1
    ensures var res := BySong(methodName, rows, g, knn, seed, n);
      && (res.Ok? ==> WellIndexed(res.value, rows) && (n >= 0 ==> |res.value| <= n))
      && (res.Ok? ==> forall k :: 0 <= k < |res.value| && res.value[k].score.Num? ==>
                        0.0 <= res.value[k].score.value <= 1.0)
      && (res.Ok? && (methodName != "euclidean" || HeadLength(|rows|, n) < |rows|) ==>
            NumbersInUnit(res.value) && NonIncreasing(res.value))
      && (res.Ok? && methodName == "euclidean" && HeadLength(|rows|, n) < |rows| ==> !Chosen(res.value, seed))
      && (res.Err? ==>
            || res.error == UnknownMethod(methodName)
            || (methodName == "knn" && res.error in {AttributeError, KnnNotFitted, KnnTooFewSamples})
            || (methodName == "euclidean" && res.error == EmptySelection))
      && (res.Err? && res.error == UnknownMethod(methodName) <==>
            methodName != "knn" && methodName != "cosine" && methodName != "euclidean")
  {
    var cos, euc := g.cosine[seed], g.euclid[seed];
    SelectionProperties(methodName, rows, cos, euc, knn, seed, n);
    var sel := SelectionByMethod(methodName, rows, cos, euc, knn, seed, n);
    if sel.Ok? {
      PrefixKeeps(sel.value, rows, |Head(sel.value, n)|);
    }
  }

  /** The same promises for the chosen method's selection, before it is cut to `n` rows. */
  lemma {:induction false} SelectionProperties(methodName: string, rows: seq<Track>, cos: seq<real>, euc: seq<real>,
                                               knn: Option<KnnModel>, seed: nat, n: int)
    requires |cos| == |rows| && |euc| == |rows| && seed < |rows|
    requires forall j :: 0 <= j < |rows| ==> -1.0 <= cos[j] <= 1.0 && euc[j] >= 0.0
    requires knn.Some? && knn.value.fitted ==> knn.value.nNeighbors >= 1
    ensures var sel := SelectionByMethod(methodName, rows, cos, euc, knn, seed, n);
      && (sel.Ok? ==> WellIndexed(sel.value, rows) && NumbersBounded(sel.value))
      && (sel.Ok? && (methodName != "euclidean" || HeadLength(|rows|, n) < |rows|) ==>
            NumbersInUnit(sel.value) && NonIncreasing(sel.value))
      && (sel.Ok? && methodName == "euclidean" && HeadLength(|rows|, n) < |rows| ==> !Chosen(sel.value, seed))
      && (sel.Err? ==>
            || sel.error == UnknownMethod(methodName)
            || (methodName == "knn" && sel.error in {AttributeError, KnnNotFitted, KnnTooFewSamples})
            || (methodName == "euclidean" && sel.error == EmptySelection))
      && (sel.Err? && sel.error == UnknownMethod(methodName) <==>
            methodName != "knn" && methodName != "cosine" && methodName != "euclidean")
  {
    var sel := SelectionByMethod(methodName, rows, cos, euc, knn, seed, n);
    if sel.Ok? {
      if methodName == "knn" {
        KnnSelectionShape(rows, cos, knn.value);
        KnnSelectionScores(rows, cos, knn.value);
      } else if methodName == "cosine" {
        CosineSelectionShape(rows, cos, seed, n);
        CosineSelectionScores(rows, cos, seed, n);
      } else {
        EuclideanSelectionShape(rows, euc, seed, n);
        if HeadLength(|rows|, n) < |rows| {
          EuclideanSelectionScores(rows, euc, seed, n);
        } else {
          EuclideanSelectionWholeCatalogue(rows, euc, seed, n);
        }
      }
    } else if methodName == "knn" && knn.Some? {
      KnnSelectionShape(rows, cos, knn.value);
    } else if methodName == "euclidean" {
      EuclideanSelectionShape(rows, euc, seed, n);
    }
  }
}
