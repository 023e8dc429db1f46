/** `SongRecommender` of backend/recommender.py: the object callers load (`rec.df`,
    `rec.feature_matrix_scaled`), build a KNN index on, and query. Every query first checks that
    the data it reads is loaded. */
module BackendRecommender {
  import opened Common
  import opened Seqs
  import opened Filters
  import opened Similarity

  class SongRecommender {
    var nRecommendations: int
    var df: Option<seq<Track>>
    var featureMatrixScaled: Option<Geometry>
    var knnModel: Option<KnnModel>

    /** The feature matrix is built from the frame (one row per catalogue row) and a fitted
        index was fitted with at least one neighbour. */
    predicate Valid()
      reads this
    {
      && (featureMatrixScaled.Some? ==> featureMatrixScaled.value.Valid())
      && (df.Some? && featureMatrixScaled.Some? ==> featureMatrixScaled.value.Size() == |df.value|)
      && (knnModel.Some? && knnModel.value.fitted ==> knnModel.value.nNeighbors >= 1)
    }

    /** `SongRecommender(n_recommendations)`: nothing loaded yet. */
    constructor(nRecommendations: int)
      ensures Valid()
      ensures this.nRecommendations == nRecommendations
      ensures df == None && featureMatrixScaled == None && knnModel == None
    {
      this.nRecommendations := nRecommendations;
      df := None;
      featureMatrixScaled := None;
      knnModel := None;
    }

    /** `_apply_mood_filter`: not loaded, then unknown mood, then the mask. */
    method ApplyMoodFilter(mood: string) returns (r: Result<seq<bool>, RecError>)
      ensures df.None? ==> r == Err(NotLoaded)
      ensures df.Some? && mood !in MoodFilters ==> r == Err(UnknownMood(mood))
      ensures df.Some? && mood in MoodFilters ==> r == Ok(MoodMaskOf(df.value, mood))
    {
      if df.None? {
        return Err(NotLoaded);
      }
      r := MoodMask(df.value, mood);
    }

    /** `_apply_tempo_filter`: not loaded, then unknown tempo type, then the mask. */
    method ApplyTempoFilter(tempoType: string) returns (r: Result<seq<bool>, RecError>)
      ensures df.None? ==> r == Err(NotLoaded)
      ensures df.Some? && tempoType !in TempoFilters ==> r == Err(UnknownTempo(tempoType))
      ensures df.Some? && tempoType in TempoFilters ==> r == Ok(TempoMaskOf(df.value, tempoType))
    {
      if df.None? {
        return Err(NotLoaded);
      }
      r := TempoMask(df.value, tempoType);
    }

    /** `build_knn_model`: refuses to run without a feature matrix; otherwise the new index
        replaces the old one before it is fitted, so a fit that sklearn rejects (fewer than one
        neighbour, an empty matrix) leaves an unfitted index behind. */
    method BuildKnnModel(nNeighbors: int) returns (err: Option<RecError>)
      requires Valid()
      modifies this
      ensures Valid()
      ensures df == old(df) && featureMatrixScaled == old(featureMatrixScaled)
      ensures nRecommendations == old(nRecommendations)
      ensures featureMatrixScaled.None? ==> err == Some(FeatureMatrixNotBuilt) && knnModel == old(knnModel)
      ensures featureMatrixScaled.Some? ==>
        var ok := nNeighbors >= 1 && featureMatrixScaled.value.Size() > 0;
        && knnModel == Some(KnnModel(nNeighbors, ok))
        && err == (if ok then None else Some(KnnFitRejected))
    {
      if featureMatrixScaled.None? {
        return Some(FeatureMatrixNotBuilt);
      }
      knnModel := Some(KnnModel(nNeighbors, false));
      if nNeighbors < 1 || featureMatrixScaled.value.Size() == 0 {
        return Some(KnnFitRejected);
      }
      knnModel := Some(KnnModel(nNeighbors, true));
      err := None;
    }

    /** `recommend_by_mood`: the first `nSongs` rows that pass the mood. */
    method RecommendByMood(mood: string, nSongs: int) returns (r: Result<seq<Track>, RecError>)
      ensures df.None? ==> r == Err(NotLoaded)
      ensures df.Some? && mood !in MoodFilters ==> r == Err(UnknownMood(mood))
      ensures df.Some? && mood in MoodFilters ==>
        r == Ok(FirstMatching(df.value, MoodMaskOf(df.value, mood), nSongs))
    {
      if df.None? {
        return Err(NotLoaded);
      }
      var mask := ApplyMoodFilter(mood);
      if mask.Err? {
        return Err(mask.error);
      }
      r := Ok(FirstMatching(df.value, mask.value, nSongs));
    }

    /** `recommend_by_tempo`: the first `nSongs` rows in the tempo category. */
    method RecommendByTempo(tempoType: string, nSongs: int) returns (r: Result<seq<Track>, RecError>)
      ensures df.None? ==> r == Err(NotLoaded)
      ensures df.Some? && tempoType !in TempoFilters ==> r == Err(UnknownTempo(tempoType))
      ensures df.Some? && tempoType in TempoFilters ==>
        r == Ok(FirstMatching(df.value, TempoMaskOf(df.value, tempoType), nSongs))
    {
      if df.None? {
        return Err(NotLoaded);
      }
      var mask := ApplyTempoFilter(tempoType);
      if mask.Err? {
        return Err(mask.error);
      }
      r := Ok(FirstMatching(df.value, mask.value, nSongs));
    }

    /** `recommend_by_mood_and_tempo`: not loaded, then unknown mood, then unknown tempo; else
        the first `nSongs` rows that pass both. */
    method RecommendByMoodAndTempo(mood: string, tempo: string, nSongs: int) returns (r: Result<seq<Track>, RecError>)
      ensures df.None? ==> r == Err(NotLoaded)
      ensures df.Some? && mood !in MoodFilters ==> r == Err(UnknownMood(mood))
      ensures df.Some? && mood in MoodFilters && tempo !in TempoFilters ==> r == Err(UnknownTempo(tempo))
      ensures df.Some? && mood in MoodFilters && tempo in TempoFilters ==>
        r == Ok(FirstMatching(df.value, And(MoodMaskOf(df.value, mood), TempoMaskOf(df.value, tempo)), nSongs))
    {
      if df.None? {
        return Err(NotLoaded);
      }
      var moodMask := ApplyMoodFilter(mood);
      if moodMask.Err? {
        return Err(moodMask.error);
      }
      var tempoMask := ApplyTempoFilter(tempo);
      if tempoMask.Err? {
        return Err(tempoMask.error);
      }
      r := Ok(FirstMatching(df.value, And(moodMask.value, tempoMask.value), nSongs));
    }

    /** `recommend_by_song`: "Model not ready" when the frame or the matrix is missing, then "KNN
        model not built" for a KNN query without an index, then "not found" for an unknown id;
        otherwise the seed is the first row with that id and the chosen method ranks the rest. */
    method RecommendBySong(songId: string, methodName: string) returns (r: Result<seq<Recommendation>, RecError>)
      requires Valid()
      ensures df.None? || featureMatrixScaled.None? ==> r == Err(ModelNotReady)
      ensures df.Some? && featureMatrixScaled.Some? && methodName == "knn" && knnModel.None? ==>
        r == Err(KnnNotBuilt)
      ensures df.Some? && featureMatrixScaled.Some? && !(methodName == "knn" && knnModel.None?) ==>
        match FindSeed(df.value, songId)
        case None => r == Err(SongNotFound(songId))
        case Some(seed) => r == BySong(methodName, df.value, featureMatrixScaled.value, knnModel, seed, nRecommendations)
      ensures r.Ok? ==> df.Some? && WellIndexed(r.value, df.value)
      ensures r.Ok? && nRecommendations >= 0 ==> |r.value| <= nRecommendations
      ensures r.Ok? ==> forall k :: 0 <= k < |r.value| && r.value[k].score.Num? ==> 0.0 <= r.value[k].score.value <= 1.0
    {
      if df.None? || featureMatrixScaled.None? {
        return Err(ModelNotReady);
      }
      if methodName == "knn" && knnModel.None? {
        return Err(KnnNotBuilt);
      }
      var found := FindSeed(df.value, songId);
      if found.None? {
        return Err(SongNotFound(songId));
      }
      var seed := found.value;
      BySongProperties(methodName, df.value, featureMatrixScaled.value, knnModel, seed, nRecommendations);
      r := BySong(methodName, df.value, featureMatrixScaled.value, knnModel, seed, nRecommendations);
    }
  }
}
