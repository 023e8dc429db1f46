/** `SongRecommender` of the top-level recommender.py: the same tables, masks and ranking as the
    backend copy, without its "not loaded" guards. An unloaded frame is only noticed when it is
    first used, as an attribute or subscript error on `None`. */
module RootRecommender {
  import opened Common
  import opened Seqs
  import opened Filters
  import opened Similarity

  class SongRecommender {
    var nRecommendations: int
    var df: Option<seq<Track>>
    var featureMatrixScaled: Option<Geometry>
    var knnModel: Option<KnnModel>

    /** The feature matrix is built from the frame (one row per catalogue row) and a fitted
        index was fitted with at least one neighbour. */
    predicate Valid()
      reads this
    {
      && (featureMatrixScaled.Some? ==> featureMatrixScaled.value.Valid())
      && (df.Some? && featureMatrixScaled.Some? ==> featureMatrixScaled.value.Size() == |df.value|)
      && (knnModel.Some? && knnModel.value.fitted ==> knnModel.value.nNeighbors >= 1)
    }

    /** `SongRecommender(n_recommendations)`: nothing loaded yet. */
    constructor(nRecommendations: int)
      ensures Valid()
      ensures this.nRecommendations == nRecommendations
      ensures df == None && featureMatrixScaled == None && knnModel == None
    {
      this.nRecommendations := nRecommendations;
      df := None;
      featureMatrixScaled := None;
      knnModel := None;
    }

    /** `_apply_mood_filter`: the mood name is checked first; an unloaded frame then fails on
        `self.df.index`. */
    method ApplyMoodFilter(mood: string) returns (r: Result<seq<bool>, RecError>)
      ensures mood !in MoodFilters ==> r == Err(UnknownMood(mood))
      ensures mood in MoodFilters && df.None? ==> r == Err(AttributeError)
      ensures mood in MoodFilters && df.Some? ==> r == Ok(MoodMaskOf(df.value, mood))
    {
      if mood !in MoodFilters {
        return Err(UnknownMood(mood));
      }
      if df.None? {
        return Err(AttributeError);
      }
      r := MoodMask(df.value, mood);
    }

    /** `_apply_tempo_filter`: the tempo name is checked first; an unloaded frame then fails on
        `self.df.index`. */
    method ApplyTempoFilter(tempoType: string) returns (r: Result<seq<bool>, RecError>)
      ensures tempoType !in TempoFilters ==> r == Err(UnknownTempo(tempoType))
      ensures tempoType in TempoFilters && df.None? ==> r == Err(AttributeError)
      ensures tempoType in TempoFilters && df.Some? ==> r == Ok(TempoMaskOf(df.value, tempoType))
    {
      if tempoType !in TempoFilters {
        return Err(UnknownTempo(tempoType));
      }
      if df.None? {
        return Err(AttributeError);
      }
      r := TempoMask(df.value, tempoType);
    }

    /** `build_knn_model`: no guard. The new index replaces the old one before it is fitted, and
        the fit is rejected by sklearn without a matrix, on an empty one, or with fewer than one
        neighbour, leaving an unfitted index behind. */
    method BuildKnnModel(nNeighbors: int) returns (err: Option<RecError>)
      requires Valid()
      modifies this
      ensures Valid()
      ensures df == old(df) && featureMatrixScaled == old(featureMatrixScaled)
      ensures nRecommendations == old(nRecommendations)
      ensures var ok := nNeighbors >= 1 && featureMatrixScaled.Some? && featureMatrixScaled.value.Size() > 0;
        && knnModel == Some(KnnModel(nNeighbors, ok))
        && err == (if ok then None else Some(KnnFitRejected))
    {
      knnModel := Some(KnnModel(nNeighbors, false));
      if nNeighbors < 1 || featureMatrixScaled.None? || featureMatrixScaled.value.Size() == 0 {
        return Some(KnnFitRejected);
      }
      knnModel := Some(KnnModel(nNeighbors, true));
      err := None;
    }

    /** `recommend_by_mood`: the first `nSongs` rows that pass the mood. */
    method RecommendByMood(mood: string, nSongs: int) returns (r: Result<seq<Track>, RecError>)
      ensures mood !in MoodFilters ==> r == Err(UnknownMood(mood))
      ensures mood in MoodFilters && df.None? ==> r == Err(AttributeError)
      ensures mood in MoodFilters && df.Some? ==>
        r == Ok(FirstMatching(df.value, MoodMaskOf(df.value, mood), nSongs))
      ensures r.Err? ==> (r.error.IsValueError() <==> mood !in MoodFilters)
    {
      var mask := ApplyMoodFilter(mood);
      if mask.Err? {
        return Err(mask.error);
      }
      r := Ok(FirstMatching(df.value, mask.value, nSongs));
    }

    /** `recommend_by_tempo`: the first `nSongs` rows in the tempo category. */
    method RecommendByTempo(tempoType: string, nSongs: int) returns (r: Result<seq<Track>, RecError>)
      ensures tempoType !in TempoFilters ==> r == Err(UnknownTempo(tempoType))
      ensures tempoType in TempoFilters && df.None? ==> r == Err(AttributeError)
      ensures tempoType in TempoFilters && df.Some? ==>
        r == Ok(FirstMatching(df.value, TempoMaskOf(df.value, tempoType), nSongs))
      ensures r.Err? ==> (r.error.IsValueError() <==> tempoType !in TempoFilters)
    {
      var mask := ApplyTempoFilter(tempoType);
      if mask.Err? {
        return Err(mask.error);
      }
      r := Ok(FirstMatching(df.value, mask.value, nSongs));
    }

    /** `recommend_by_mood_and_tempo`: the mood mask is built first, so an unknown mood is
        reported before an unknown tempo, and an unloaded frame fails in the first known filter. */
    method RecommendByMoodAndTempo(mood: string, tempo: string, nSongs: int) returns (r: Result<seq<Track>, RecError>)
      ensures mood !in MoodFilters ==> r == Err(UnknownMood(mood))
      ensures mood in MoodFilters && df.None? ==> r == Err(AttributeError)
      ensures mood in MoodFilters && df.Some? && tempo !in TempoFilters ==> r == Err(UnknownTempo(tempo))
      ensures mood in MoodFilters && df.Some? && tempo in TempoFilters ==>
        r == Ok(FirstMatching(df.value, And(MoodMaskOf(df.value, mood), TempoMaskOf(df.value, tempo)), nSongs))
    {
      var moodMask := ApplyMoodFilter(mood);
      if moodMask.Err? {
        return Err(moodMask.error);
      }
      var tempoMask := ApplyTempoFilter(tempo);
      if tempoMask.Err? {
        return Err(tempoMask.error);
      }
      r := Ok(FirstMatching(df.value, And(moodMask.value, tempoMask.value), nSongs));
    }

    /** `recommend_by_song`: an unloaded frame fails on `self.df.index`, an unknown id is "not
        found", a missing matrix fails on `None[idx]`; then the method is dispatched, a KNN query
        without an index failing on `None.kneighbors`. */
    method RecommendBySong(songId: string, methodName: string) returns (r: Result<seq<Recommendation>, RecError>)
      requires Valid()
      ensures df.None? ==> r == Err(AttributeError)
      ensures df.Some? ==>
        match FindSeed(df.value, songId)
        case None => r == Err(SongNotFound(songId))
        case Some(seed) =>
          if featureMatrixScaled.None? then r == Err(TypeError)
          else r == BySong(methodName, df.value, featureMatrixScaled.value, knnModel, seed, nRecommendations)
      ensures r.Ok? ==> df.Some? && WellIndexed(r.value, df.value)
      ensures r.Ok? && nRecommendations >= 0 ==> |r.value| <= nRecommendations
      ensures r.Ok? ==> forall k :: 0 <= k < |r.value| && r.value[k].score.Num? ==> 0.0 <= r.value[k].score.value <= 1.0
    {
      if df.None? {
        return Err(AttributeError);
      }
      var found := FindSeed(df.value, songId);
      if found.None? {
        return Err(SongNotFound(songId));
      }
      if featureMatrixScaled.None? {
        return Err(TypeError);
      }
      var seed := found.value;
      BySongProperties(methodName, df.value, featureMatrixScaled.value, knnModel, seed, nRecommendations);
      r := BySong(methodName, df.value, featureMatrixScaled.value, knnModel, seed, nRecommendations);
    }
  }
}
