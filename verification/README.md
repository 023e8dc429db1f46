# VibeMap core in Dafny

VibeMap turns a catalogue of songs into mood playlists. This project models the core of that
pipeline and proves properties of the model.

- **Data generation.** `data_generator.py` adds synthetic audio features to a popularity list. It then injects missing values, outliers and duplicate rows.
- **Cleaning.** `backend/data_cleaner.py` cleans the raw SQLite table into `cleaned_songs`. It deduplicates with `ROW_NUMBER`, drops rows without an artist, fills missing tempo/valence/energy with rounded means, and deletes out-of-range rows.
- **Clustering.** `clustering.py` selects and normalises the clustering features and picks the number of clusters by silhouette score. It fits k-means and names each cluster from its mean features.
- **Recommendation.** `SongRecommender` answers queries in two copies: `backend/recommender.py` and the top-level `recommender.py`.
  - Rule-based queries use the mood and tempo threshold tables.
  - Song-to-song queries rank the catalogue by KNN, cosine or Euclidean similarity.

## How the model is organised

| Module | File | What it holds |
|---|---|---|
| `Common` | `common.dfy` | `Option` and `Result` |
| `Frames` | `frames.dfy` | tables of named columns whose cells are `Null`, `Num` or `Text` |
| `Seqs` | `seqs.dfy` | Python slicing (`head`) and pandas boolean indexing |
| `Strings` | `strings.dfy` | the `str` methods the source uses |
| `Stats` | `stats.dfy` | sums, means, min/max, SQLite's `ROUND` (halves away from zero) and numpy's `round` (halves to even) |
| `Filters` | `filters.dfy` | the mood/tempo tables and masks shared by both recommenders |
| `Similarity` | `similarity.dfy` | the three `recommend_by_song` rankings |
| `BackendRecommender` | `backend_recommender.dfy` | the backend `SongRecommender` class |
| `RootRecommender` | `root_recommender.dfy` | the top-level `SongRecommender` class |
| `Clustering` | `clustering.dfy` | `MoodClusterer` |
| `DataCleaner` | `data_cleaner.dfy` | `SpotifyDataCleaner` and the SQL steps of `clean_data` as functions on rows |
| `DataGenerator` | `data_generator.dfy` | the generator functions |

Some values come from numerical libraries that are not modelled. They enter the model as parameters:
- the similarity tables of the scaled feature matrix;
- the silhouette score for each k;
- the k-means labelling;
- the standard-normal draws behind `rng.normal`;
- the index samples behind `rng.choice` and `df.sample`.

The contracts state what the source computes from those values. For the generated audio features, the drawn columns are tied to their draws; after rounding, the contracts state ranges, decimals and which cells are missing.

Where the objects keep state, the model keeps it too:
- `SongRecommender`, `MoodClusterer` and `SpotifyDataCleaner` are classes;
- their methods update the fields the Python methods assign;
- the loops of the source are `while`/`for` loops with invariants.

## Model

| member | source | states |
|---|---|---|
| Seqs.Head | backend/recommender.py:146 | `head(n)` is a prefix of the frame; with n >= 0 it has min(n, len) rows, and with n < 0 it drops the last -n rows (none left when -n >= len) |
| Seqs.TrueIndices | backend/recommender.py:146 | the positions a boolean mask selects: exactly the positions where it holds, increasing, as many as `Count` |
| Seqs.Select | backend/recommender.py:146 | `df[mask]` holds the rows at the selected positions, in catalogue order |
| Seqs.SelectAll | backend/recommender.py:146 | every row of `df[mask]` has any property that every row of `df` has |
| Seqs.SelectPairwise | backend/recommender.py:146 | `df[mask]` keeps the relative order of the rows |
| Seqs.And | backend/recommender.py:160-161 | `mood_mask & tempo_mask` holds exactly where both masks hold |
| Seqs.HeadOfSelect | backend/recommender.py:146 | `df[mask].head(n)` is the first min(n, #matches) matching rows, in order; no matching row before the last returned one is skipped |
| Seqs.NoneTrue | backend/recommender.py:161 | a mask that holds nowhere selects no rows |
| Seqs.Reverse | backend/recommender.py:200 | `[::-1]` lists the elements from last to first |
| Stats.Min | data_generator.py:88 | `min()` of a non-empty column is one of its values and no larger than any |
| Stats.Max | data_generator.py:89 | `max()` of a non-empty column is one of its values and no smaller than any |
| Stats.PresentValues | clustering.py:73-74 | the non-NaN values pandas aggregates over: every present value and nothing else |
| Stats.MeanBounds | backend/data_cleaner.py:229-232 | `AVG` over values in [lo, hi] lies in [lo, hi] |
| Stats.RoundHalfAwayWithin | backend/data_cleaner.py:229 | SQLite `ROUND(x, d)` of a value in [lo, hi] (lo >= 0) stays in [lo, hi] |
| Stats.RoundHalfAwayNearest | backend/data_cleaner.py:229 | SQLite `ROUND(x, d)` is a multiple of 10^-d at most half a unit (10^-d / 2) from x, and an exact half goes away from zero |
| Stats.RoundHalfEvenWithin | data_generator.py:120-124 | numpy `round` of a value in [lo, hi] stays in [lo, hi] |
| Stats.RoundHalfEvenIdempotent | data_generator.py:134-135 | rounding an already rounded value changes nothing |
| Stats.RoundHalfEvenNearest | data_generator.py:124 | numpy `round(x, d)` is a multiple of 10^-d at most half a unit from x, and an exact half goes to the even multiple |
| Filters.MoodTableWellFormed | backend/recommender.py:51-60 | every key of `MOOD_FILTERS` names a catalogue column, once a `_max` suffix is removed |
| Filters.MaxKeyFacts | backend/recommender.py:94-97 | `valence_max` and `energy_max` are upper bounds on `valence` and `energy` |
| Filters.PlainKeyFacts | backend/recommender.py:98-99 | the other keys are lower bounds on the column of the same name |
| Filters.MaxKeyColumn | backend/recommender.py:94-95 | `c + "_max"` ends in `_max`, and `replace("_max", "")` gives back `c` when c has no underscore |
| Filters.MoodPredicates | backend/recommender.py:51-60 | the mask of each of the eight moods holds exactly when the conjunction of its thresholds holds, e.g. happy is valence >= 0.6 and energy >= 0.5 |
| Filters.MoodHappy | backend/recommender.py:52 | happy holds exactly when valence >= 0.6 and energy >= 0.5 |
| Filters.MoodSad | backend/recommender.py:53 | sad holds exactly when valence <= 0.4 and energy <= 0.4 |
| Filters.MoodEnergetic | backend/recommender.py:54 | energetic holds exactly when energy >= 0.7 and danceability >= 0.5 |
| Filters.MoodCalm | backend/recommender.py:55 | calm holds exactly when energy <= 0.4 and acousticness >= 0.5 |
| Filters.MoodDark | backend/recommender.py:56 | dark holds exactly when valence <= 0.3 and energy >= 0.6 |
| Filters.MoodRomantic | backend/recommender.py:57 | romantic holds exactly when valence >= 0.5, acousticness >= 0.4 and energy <= 0.6 |
| Filters.MoodAngry | backend/recommender.py:58 | angry holds exactly when energy >= 0.7 and valence <= 0.4 |
| Filters.MoodParty | backend/recommender.py:59 | party holds exactly when danceability >= 0.7, energy >= 0.6 and valence >= 0.5 |
| Filters.LowerThreshold | backend/recommender.py:98-99 | a plain key is satisfied exactly when the column is >= the value |
| Filters.UpperThreshold | backend/recommender.py:94-97 | a `_max` key is satisfied exactly when the column is <= the value |
| Filters.TempoCategories | backend/recommender.py:63-67 | slow is tempo <= 100, medium is 100..120, fast is >= 120, all inclusive; 100 and 120 each fall in two categories; every tempo falls in at least one |
| Filters.MoodMaskOf | backend/recommender.py:91-101 | the mood mask holds at a row exactly when the mood holds of it |
| Filters.TempoMaskOf | backend/recommender.py:113-121 | the tempo mask holds at a row exactly when the row is in the category |
| Filters.MoodMask | backend/recommender.py:86-101 | an unknown mood is an error naming it; otherwise the result is the mood mask |
| Filters.NarrowByThresholds | backend/recommender.py:91-99 | narrowing an all-true mask with `&=`, threshold by threshold, leaves exactly the rows that meet every threshold |
| Filters.TempoMask | backend/recommender.py:108-121 | an unknown tempo type is an error naming it; otherwise the mask applies the category's `tempo_min` and `tempo_max` |
| Filters.MoodQueryResult | backend/recommender.py:141-146 | a mood query returns rows that all pass the mood, in catalogue order, and they are the first min(n, #matches) of them |
| Filters.TempoQueryResult | backend/recommender.py:148-153 | the same for a tempo query |
| Filters.MoodAndTempoQueryResult | backend/recommender.py:155-161 | a combined query returns the first rows that pass both filters, in order |
| Filters.MoodAndTempoNoMatch | backend/recommender.py:155-161 | when no row passes both filters the result is empty, not an error |
| Similarity.ArgSort | backend/recommender.py:200 | `np.argsort` is a permutation of the positions that orders the keys non-decreasingly |
| Similarity.AscendingTop | backend/recommender.py:209 | the first m entries of an argsort hold the m smallest keys |
| Similarity.DescendingTop | backend/recommender.py:200 | `argsort()[::-1][:n]` gives distinct positions, keys non-increasing, none left out larger than one taken |
| Similarity.FindSeed | backend/recommender.py:182-185 | the seed is the first row with the requested id; "not found" exactly when no row has it |
| Similarity.IdMask | backend/recommender.py:182 | `df['track_id'] == song_id` holds exactly at the rows with that id |
| Similarity.FirstTrueIndex | backend/recommender.py:182-185 | `idx_list[0]` is the first position where the mask holds; the list is empty exactly when it holds nowhere |
| Similarity.CosineSelectionShape | backend/recommender.py:197-203 | the cosine result has HeadLength(rows, n) distinct catalogue rows, each scored (s+1)/2 with the seed's similarity set to -1 |
| Similarity.CosineSelectionScores | backend/recommender.py:197-203 | with similarities in [-1, 1], cosine scores lie in [0, 1] and do not increase down the result |
| Similarity.CosineSelectionHighest | backend/recommender.py:199-200 | no row left out has a higher (seed-masked) similarity than a row chosen |
| Similarity.CosineSelectionExcludesSeed | backend/recommender.py:199 | when every other row has similarity above -1 and not all rows are asked for, the seed is left out |
| Similarity.EuclideanKeys | backend/recommender.py:207 | the seed's distance is replaced by `np.inf`, the others kept |
| Similarity.MaxKey | backend/recommender.py:209-211 | `max()` of the chosen distances is one of them and no smaller than any |
| Similarity.EuclideanTop | backend/recommender.py:208 | `argsort(dist)[:n]` has HeadLength(rows, n) entries and is a prefix of the argsort |
| Similarity.EuclideanTopIndices | backend/recommender.py:207-208 | the chosen positions are distinct catalogue rows, and include the seed exactly when the whole catalogue is taken |
| Similarity.SeedSortsLast | backend/recommender.py:207-208 | the seed, the only infinite key, sorts last |
| Similarity.EuclideanSelectionShape | backend/recommender.py:205-212 | an empty slice fails (max of an empty array); otherwise HeadLength(rows, n) distinct rows, the seed among them exactly when all rows are taken |
| Similarity.EuclideanSelectionNearest | backend/recommender.py:207-208 | apart from the seed, every row left out is at least as far as every row chosen |
| Similarity.EuclideanSelectionScores | backend/recommender.py:209-212 | with non-negative distances and fewer rows than the catalogue, scores lie in [0, 1] and do not increase, and the farthest chosen row scores 0 when its distance is positive |
| Similarity.EuclideanEntries | backend/recommender.py:209-212 | each chosen distance lies in [0, max], distances are non-decreasing, and each score is 1 - d/max (1 when max is 0) |
| Similarity.EuclideanSelectionForm | backend/recommender.py:205-212 | the result is the top rows in argsort order, each scored against the largest chosen key |
| Similarity.EuclideanTopKeys | backend/recommender.py:207-211 | when fewer rows than the catalogue are taken, every chosen key is finite and non-decreasing, and the last is the maximum |
| Similarity.EuclideanSelectionWholeCatalogue | backend/recommender.py:207-212 | asked for every row, the seed comes last with a NaN score (inf/inf) and every other row scores 1 (1 - d/inf) |
| Similarity.ChosenIsIn | backend/recommender.py:208-210 | `df.iloc[top_indices]` chooses exactly the listed positions |
| Similarity.ScoreInUnit | backend/recommender.py:211-212 | a score 1 - d/m with d in [0, m] lies in [0, 1] |
| Similarity.ScoreMono | backend/recommender.py:211-212 | a larger distance scores no higher |
| Similarity.CosineDistances | backend/recommender.py:189-195 | the cosine KNN index sorts by distance 1 - similarity |
| Similarity.KnnSelectionShape | backend/recommender.py:189-195 | querying an unfitted index fails; asking for more neighbours than rows fails; otherwise n_neighbors - 1 distinct rows |
| Similarity.KnnSelectionScores | backend/recommender.py:192-195 | each KNN score is 1 - d/2 = (1+s)/2, in [0, 1], non-increasing |
| Similarity.KnnSelectionForm | backend/recommender.py:190-194 | the result is positions 1..n_neighbors-1 of the distance argsort (the nearest is dropped) |
| Similarity.KnnSelectionNearest | backend/recommender.py:190-194 | no chosen row is more similar than the dropped nearest row, and no row left out (other than it) is more similar than a chosen one |
| Similarity.PrefixKeeps | backend/recommender.py:217 | `head` keeps the indexing, score bounds and order of a result |
| Similarity.SelectionProperties | backend/recommender.py:187-215 | the chosen method's selection has distinct rows, numeric scores in [0, 1] and non-increasing scores (except the whole-catalogue Euclidean case); the only failures are an unknown method, KNN errors and an empty Euclidean slice |
| Similarity.BySongProperties | backend/recommender.py:187-217 | `recommend_by_song` returns at most n_recommendations distinct rows, each numeric score in [0, 1], non-increasing; Euclidean excludes the seed unless the whole catalogue is asked for; failures as above, and "unknown method" exactly for a name other than knn, cosine or euclidean |
| BackendRecommender.SongRecommender.constructor | backend/recommender.py:69-76 | a new recommender has nothing loaded and keeps `n_recommendations` |
| BackendRecommender.SongRecommender.ApplyMoodFilter | backend/recommender.py:81-101 | not loaded, then unknown mood, then the mood mask of the frame |
| BackendRecommender.SongRecommender.ApplyTempoFilter | backend/recommender.py:103-121 | not loaded, then unknown tempo type, then the category's mask |
| BackendRecommender.SongRecommender.BuildKnnModel | backend/recommender.py:126-137 | refuses without a feature matrix and leaves the index alone; otherwise replaces the index, fitted exactly when n_neighbors >= 1 and the matrix is non-empty, and changes nothing else |
| BackendRecommender.SongRecommender.RecommendByMood | backend/recommender.py:141-146 | not loaded, unknown mood, else the first n rows passing the mood |
| BackendRecommender.SongRecommender.RecommendByTempo | backend/recommender.py:148-153 | not loaded, unknown tempo type, else the first n rows in the category |
| BackendRecommender.SongRecommender.RecommendByMoodAndTempo | backend/recommender.py:155-161 | not loaded, unknown mood, unknown tempo (in that order), else the first n rows passing both |
| BackendRecommender.SongRecommender.RecommendBySong | backend/recommender.py:163-217 | "model not ready" without frame or matrix; "KNN not built" for KNN without an index; "not found" for an unknown id; otherwise the chosen ranking from the first row with that id, with at most n_recommendations distinct rows and scores in [0, 1] |
| RootRecommender.SongRecommender.constructor | recommender.py:60-67 | a new recommender has nothing loaded and keeps `n_recommendations` |
| RootRecommender.SongRecommender.ApplyMoodFilter | recommender.py:73-91 | unknown mood first; an unloaded frame then fails with an attribute error; else the mood mask |
| RootRecommender.SongRecommender.ApplyTempoFilter | recommender.py:93-109 | unknown tempo type first; an unloaded frame then fails with an attribute error; else the category's mask |
| RootRecommender.SongRecommender.BuildKnnModel | recommender.py:115-122 | always replaces the index, which is fitted exactly when n_neighbors >= 1 and a non-empty matrix exists |
| RootRecommender.SongRecommender.RecommendByMood | recommender.py:128-131 | as the filter, then the first n matching rows; the error is a ValueError exactly when the mood is unknown |
| RootRecommender.SongRecommender.RecommendByTempo | recommender.py:133-136 | as the filter, then the first n matching rows; the error is a ValueError exactly when the tempo type is unknown |
| RootRecommender.SongRecommender.RecommendByMoodAndTempo | recommender.py:138-142 | unknown mood, attribute error, unknown tempo (in that order), else the first n rows passing both |
| RootRecommender.SongRecommender.RecommendBySong | recommender.py:144-198 | an unloaded frame is an attribute error; an unknown id is "not found"; a missing matrix is a type error; otherwise the same ranking and guarantees as the backend |
| Clustering.InterpretExactly | clustering.py:236-270 | each of the seven labels is given exactly under a closed condition on the means; e.g. Party & Dance exactly when danceability > 0.7 and neither energy nor valence is in a corner |
| Clustering.InterpretIgnoresTempo | clustering.py:241 | the label does not depend on the tempo mean |
| Clustering.InterpretAgreesWithLevels | clustering.py:245-270 | the decision chain equals a table lookup on low/mid/high levels of energy and valence |
| Clustering.DefaultLabelsShape | clustering.py:44-50 | the default labels cover ids 0..4 and each is a name the interpretation can give |
| Clustering.FeatureVector | clustering.py:77-81 | a row of X has one entry per feature name |
| Clustering.KeptMask | clustering.py:80 | a row survives `dropna` exactly when all five features, including the normalised tempo, are present |
| Clustering.SelectedRows | clustering.py:80 | the selected frame has one row per kept row |
| Clustering.SelectedRowsOrigin | clustering.py:72-80 | each selected row is a kept input row with its normalised tempo, in input order, and every kept row appears |
| Clustering.TempoNormalizedInUnit | clustering.py:73-74 | a normalised tempo lies in [0, 1] |
| Clustering.SelectedTempoInUnit | clustering.py:73-80 | every selected row's `tempo_normalized` lies in [0, 1] |
| Clustering.ConstantTempoDropsAll | clustering.py:73-80 | when all present tempos are equal, 0/0 is NaN in every row and `dropna` leaves nothing |
| Clustering.FirstArgMax | clustering.py:149 | `np.argmax` is the first position of the largest value |
| Clustering.OptimalK | clustering.py:104-153 | no k range (max < 2) is an error; too few samples for k-means or silhouette is an error; otherwise the smallest k in 2..max with the highest silhouette |
| Clustering.RowsOf | clustering.py:212-214 | a cluster has no rows exactly when no row carries its id |
| Clustering.AllClusterMeans | clustering.py:212-214 | `groupby('cluster').mean()` has an entry exactly for each cluster present, holding that cluster's means |
| Clustering.ClusterMeansOf | clustering.py:221 | a present cluster's row of the means table |
| Clustering.Relabel | clustering.py:218-225 | labels ids 0..n-1 in order from their means and stops at the first id missing from the table, leaving other labels alone |
| Clustering.MoodClusterer.constructor | clustering.py:31-50 | keeps `n_clusters` and `random_state`, no model, no feature names, the default label table |
| Clustering.MoodClusterer.SelectFeatures | clustering.py:52-87 | records the feature names; returns the selected rows and their feature vectors; changes nothing else |
| Clustering.MoodClusterer.FindOptimalClusters | clustering.py:89-153 | the silhouette loop over k = 2..max returns `OptimalK` |
| Clustering.MoodClusterer.Fit | clustering.py:155-195 | an empty selection is refused by the scaler before any model is installed; with auto-optimisation, an error from the k search propagates and otherwise sets `n_clusters`; the new model is fitted exactly when 1 <= k <= samples; an out-of-range k is rejected; otherwise each selected row gets its cluster label |
| Clustering.MoodClusterer.AnalyzeClusters | clustering.py:197-234 | returns the cluster means, or a missing-cluster error for the first id in 0..n_clusters-1 without rows; the ids before it are relabelled from their means and the other labels kept |
| DataCleaner.FirstPresent | backend/data_cleaner.py:83-85 | the first candidate name that is a column, or none |
| DataCleaner.FirstMentioning | backend/data_cleaner.py:88-90 | the first column whose lower-cased name contains "artist", or none |
| DataCleaner.ArtistColumnFound | backend/data_cleaner.py:69-92 | a column is found exactly when some column mentions "artist", and it is one of them; otherwise "columns unreadable" for a table without columns, "no artist column" else |
| DataCleaner.ArtistColumnPriority | backend/data_cleaner.py:75-90 | a present candidate wins over later candidates and over the fallback; without candidates, the first column mentioning "artist" wins |
| DataCleaner.CandidatesMentionArtist | backend/data_cleaner.py:75-90 | every candidate name would also be found by the fallback |
| DataCleaner.StartsWithArtist | backend/data_cleaner.py:89 | a name starting with "artist" mentions the artist |
| DataCleaner.ContainsAt | backend/data_cleaner.py:89 | `sub in s` means `sub` occurs at some position of `s` |
| DataCleaner.FillColumnsAreNotArtist | backend/data_cleaner.py:224-264 | the artist column is never one of the filled columns |
| DataCleaner.CellLtOrder | backend/data_cleaner.py:207 | SQLite's value order (NULL, then numbers, then text) is a strict total order |
| DataCleaner.TextLtIrreflexive | backend/data_cleaner.py:207 | binary collation: no text is below itself |
| DataCleaner.TextLtTransitive | backend/data_cleaner.py:207 | binary collation is transitive |
| DataCleaner.TextLtTotal | backend/data_cleaner.py:207 | of two different texts one is below the other |
| DataCleaner.OutranksOrder | backend/data_cleaner.py:205-208 | the window order (order column descending, earlier row first on ties) is a strict total order on rows |
| DataCleaner.DedupMask | backend/data_cleaner.py:205-211 | a row is kept exactly when it gets row number 1 in its partition |
| DataCleaner.LeaderIsFirst | backend/data_cleaner.py:205-211 | the best-ranked row of a partition is in it and no row of it outranks that row |
| DataCleaner.Champion | backend/data_cleaner.py:205-211 | every partition has a row numbered 1 |
| DataCleaner.DedupKeepsEveryKey | backend/data_cleaner.py:198-213 | every (track_id, track_name, artist) key of the raw table survives |
| DataCleaner.DedupKeysDistinct | backend/data_cleaner.py:198-213 | no key survives twice |
| DataCleaner.DedupKeepsHighest | backend/data_cleaner.py:199-211 | the surviving row has the highest order value in its partition |
| DataCleaner.WithoutNullArtist | backend/data_cleaner.py:219-222 | no remaining row has a NULL artist, none is added, and every row with an artist remains |
| DataCleaner.InRangeValues | backend/data_cleaner.py:231-232 | the averaged values all lie within the BETWEEN bounds |
| DataCleaner.NoValuesInRange | backend/data_cleaner.py:229-232 | the average has no values exactly when no row has a number in range |
| DataCleaner.FillValueInRange | backend/data_cleaner.py:229-232 | the rounded mean, when there is one, lies in the range |
| DataCleaner.FilledMean | backend/data_cleaner.py:226-234 | the fill keeps the row count and touches no other column |
| DataCleaner.FilledMeanChanges | backend/data_cleaner.py:226-234 | only NULL cells change, each to the rounded in-range mean (NULL when there is none) |
| DataCleaner.WithoutTempoOutliers | backend/data_cleaner.py:266-271 | every remaining tempo is NULL or in [50, 200], no row is added, and every row whose tempo is NULL or in [50, 200] remains |
| DataCleaner.InUnitNotOut | backend/data_cleaner.py:273-287 | the deletion condition holds exactly for the rows with some present feature outside [0, 1] |
| DataCleaner.WithoutFeatureOutliers | backend/data_cleaner.py:273-287 | every remaining present audio feature lies in [0, 1], no row is added, and every row whose present features are NULL or in [0, 1] remains |
| DataCleaner.ArtistStage | backend/data_cleaner.py:219-222 | the artist step never adds rows and keeps every row with an artist |
| DataCleaner.FillStage | backend/data_cleaner.py:224-264 | the fills keep the row count and change only tempo, valence and energy |
| DataCleaner.DeleteStage | backend/data_cleaner.py:266-287 | after the deletions every tempo (when the column exists) and every present audio feature is NULL or in range; no row is added; every row whose values are all NULL or in range remains |
| DataCleaner.FeatureDeletionKeeps | backend/data_cleaner.py:283-287 | the feature deletion only removes rows |
| DataCleaner.DeleteStageKeeps | backend/data_cleaner.py:266-287 | the deletions keep any property of every row and the relative order of the rows |
| DataCleaner.CleanedNoLarger | backend/data_cleaner.py:186-287 | `cleaned_songs` has the raw columns and no more rows than `raw_songs` |
| DataCleaner.CleanedHasArtist | backend/data_cleaner.py:219-287 | no cleaned row has a NULL artist |
| DataCleaner.CleanedInRange | backend/data_cleaner.py:266-287 | every cleaned tempo is NULL or in [50, 200], every present audio feature in [0, 1] |
| DataCleaner.FilledMeanKeepsInRange | backend/data_cleaner.py:226-234 | a fill leaves a NULL or in-range cell NULL or in range |
| DataCleaner.MaybeFilled | backend/data_cleaner.py:224-264 | a fill guarded by its column's presence keeps the row count and touches no other column |
| DataCleaner.MaybeFilledKeeps | backend/data_cleaner.py:226-234 | a guarded fill leaves a cell that is NULL or in its column's averaging range NULL or in range, and other columns as they were |
| DataCleaner.FillStageCellInRange | backend/data_cleaner.py:224-264 | the three fills leave one NULL or in-range cell NULL or in range |
| DataCleaner.FillStageRowInRange | backend/data_cleaner.py:224-264 | the fills leave a row's NULL or in-range tempo and features NULL or in range |
| DataCleaner.FillStageKeepsInRange | backend/data_cleaner.py:224-264 | the same for every row |
| DataCleaner.CleanedKeepsInRange | backend/data_cleaner.py:219-287 | every cleaned row is a filled row of the artist step's output, and each row of that output whose tempo and features are NULL or in range reaches `cleaned_songs`, filled: a missing value never gets a row deleted |
| DataCleaner.DeduplicatedKeysDistinct | backend/data_cleaner.py:198-213 | after step 1 no two rows share a key |
| DataCleaner.ArtistFilterKeysDistinct | backend/data_cleaner.py:219-222 | step 2 keeps the keys distinct |
| DataCleaner.FillStageKeysDistinct | backend/data_cleaner.py:224-264 | the fills keep the keys distinct |
| DataCleaner.CleanedKeysDistinct | backend/data_cleaner.py:180-287 | with all three key columns, no two cleaned rows share (track_id, track_name, artist) |
| DataCleaner.SpotifyDataCleaner.constructor | backend/data_cleaner.py:62-67 | the cleaner sees the database's tables |
| DataCleaner.SpotifyDataCleaner.ResolveArtistColumn | backend/data_cleaner.py:69-92 | the two search loops return `ArtistColumn` of the table's columns |
| DataCleaner.SpotifyDataCleaner.CleanData | backend/data_cleaner.py:180-287 | a missing `raw_songs` or an unresolved artist column fails and changes no table; otherwise `cleaned_songs` becomes the cleaned table and no other table changes |
| DataGenerator.Clip | data_generator.py:120-131 | `np.clip` lies in [lo, hi], keeps values inside, and maps values below/above to lo/hi |
| DataGenerator.Clamp01 | data_generator.py:83-84 | `clamp01` lies in [0, 1] and keeps values inside |
| DataGenerator.Clamp01MonotoneIdempotent | data_generator.py:83-84 | `clamp01` is monotone and idempotent |
| DataGenerator.PopularityOf | data_generator.py:109 | the popularity column reads as floats exactly when no cell is text; missing cells become NaN |
| DataGenerator.SafePopularityNorm | data_generator.py:87-91 | the normalised popularity is missing exactly where popularity is |
| DataGenerator.NormAt | data_generator.py:87-91 | each present value maps to (p - min)/denominator over the present values |
| DataGenerator.SafePopularityNormInUnit | data_generator.py:87-91 | every normalised value lies in [0, 1] |
| DataGenerator.SafePopularityNormMonotone | data_generator.py:87-91 | normalisation preserves order |
| DataGenerator.SafePopularityNormMin | data_generator.py:87-91 | the minimum maps to 0 |
| DataGenerator.SafePopularityNormMax | data_generator.py:87-91 | when values differ, the maximum maps to 1 |
| DataGenerator.SafePopularityNormConstant | data_generator.py:90-91 | a constant column divides by 1 and maps every value to 0 |
| DataGenerator.PopularityFeature | data_generator.py:111-114 | a popularity-driven feature lies in [0, 1] and is missing exactly where popularity is |
| DataGenerator.PopularityDraw | data_generator.py:111-114 | one row's clamped draw lies in [0, 1] |
| DataGenerator.AffineOrder | data_generator.py:111-114 | the mean a + b·p grows with p for b >= 0 and shrinks for b <= 0 |
| DataGenerator.PopularityDrawFollows | data_generator.py:111-114 | for the same draw, the clamped value follows p: up for b >= 0, down for b <= 0 |
| DataGenerator.PopularityFeatureFollows | data_generator.py:111-114 | for equal draws, a more popular row gets energy, valence and danceability no lower and acousticness no higher |
| DataGenerator.SteadyFeature | data_generator.py:115-117 | a fixed-mean feature is always present and in [0, 1] |
| DataGenerator.EnergyDriven | data_generator.py:120-131 | tempo/loudness lie in their clip range, are already at two decimals, and are missing exactly where energy is |
| DataGenerator.EnergyDrivenValue | data_generator.py:120-131 | one clipped, rounded value stays in the clip range and is a fixed point of rounding |
| DataGenerator.SetColumn | data_generator.py:111 | `out[c] = values` writes column c, adds it to the end of the columns when new, and leaves other cells alone |
| DataGenerator.WritesCompose | data_generator.py:111-135 | two column writes in a row are one write of both column sets |
| DataGenerator.RoundedColumn | data_generator.py:135 | `round(4)` maps each cell to its rounded value, keeping missing cells missing |
| DataGenerator.GeneratedColsMembers | data_generator.py:53-61 | `AUDIO_FEATURE_COLS` lists the seven features in order; the generated columns are those plus tempo and loudness |
| DataGenerator.FeatureColsDistinct | data_generator.py:53-61 | the seven feature names are distinct and differ from tempo and loudness |
| DataGenerator.DrawnWithinKept | data_generator.py:111-131 | writing other columns keeps what is known of a column |
| DataGenerator.DrawPopularityFeatures | data_generator.py:111-114 | writes energy, valence, danceability and acousticness, each holding its draw `clamp01(a + b·pop_norm + sd·z)` with the source's constants, so in [0, 1] and missing exactly where popularity is |
| DataGenerator.ColumnHoldsKept | data_generator.py:111-114 | writing other columns keeps a column's values |
| DataGenerator.DrawSteadyFeatures | data_generator.py:115-117 | writes instrumentalness, liveness and speechiness, each present and in [0, 1] |
| DataGenerator.ColumnValues | data_generator.py:121 | reading a column gives a value exactly where the cell is a number |
| DataGenerator.DrawEnergyDriven | data_generator.py:119-131 | writes tempo in [60, 200] and loudness in [-30, 0], both at two decimals, missing exactly where energy is |
| DataGenerator.RoundFeatureColumns | data_generator.py:133-135 | the loop rounds each of the seven feature columns to four decimals and writes nothing else |
| DataGenerator.RoundedFeatureCell | data_generator.py:135 | rounding a feature cell in [0, 1] keeps it in [0, 1] and keeps it missing or present |
| DataGenerator.RoundedFeature | data_generator.py:134-135 | a drawn feature, once rounded, meets its final range and missingness |
| DataGenerator.RoundedFeatures | data_generator.py:134-135 | all seven rounded features meet their final range and missingness |
| DataGenerator.FeaturesKept | data_generator.py:119-131 | writing tempo and loudness keeps the seven drawn features |
| DataGenerator.PopularityFeaturesKept | data_generator.py:115-117 | writing the steady features keeps the popularity-driven ones |
| DataGenerator.DrawnWrites | data_generator.py:111-131 | the three drawing steps together write exactly the generated columns |
| DataGenerator.TempoLoudnessGenerated | data_generator.py:119-135 | tempo and loudness survive feature rounding, missing exactly where popularity is |
| DataGenerator.AddSyntheticAudioFeatures | data_generator.py:98-137 | a missing popularity column is an error, as is a non-numeric one; otherwise exactly the nine generated columns are written, every feature in [0, 1] at four decimals, tempo in [60, 200] and loudness in [-30, 0] at two decimals, the popularity-driven ones missing exactly where popularity is |
| DataGenerator.SampleSize | data_generator.py:149 | `max(1, int(n * frac))` is at least 1, and at most n for frac in [0, 1] and n >= 1 |
| DataGenerator.SetCells | data_generator.py:155 | `out.loc[idx, col] = v` sets each listed row's cell, leaves unlisted rows and other columns alone |
| DataGenerator.ElementsOfDistinct | data_generator.py:154 | a sample without replacement of size k covers k rows |
| DataGenerator.NulledCells | data_generator.py:151-155 | after `inject_nulls` a cell is missing exactly when its column is listed, exists, and its row was sampled for it; every other cell is as it was |
| DataGenerator.NullsPerColumn | data_generator.py:151-155 | each existing listed column gains NaN in all its sampled rows, at least as many as sampled, exactly those when it had none before and is listed once |
| DataGenerator.Nulled | data_generator.py:151-155 | blanking keeps the row count |
| DataGenerator.InjectNulls | data_generator.py:144-157 | a non-positive fraction returns the frame unchanged; a sample larger than the table fails when some listed column exists; otherwise the sampled cells are blanked |
| DataGenerator.InjectDuplicates | data_generator.py:160-165 | a non-positive fraction returns the frame unchanged; a sample larger than the table fails; otherwise the frame followed by copies of the sampled rows |
| DataGenerator.DuplicatesAddNothingNew | data_generator.py:163-165 | duplication adds no row that was not already there |
| DataGenerator.Pick | data_generator.py:186-190 | `rng.choice(values)` gives one value per position |
| DataGenerator.FeatureOutlierRows | data_generator.py:188-190 | the feature outlier writes keep the row count |
| DataGenerator.FeatureOutlierRowsKept | data_generator.py:188-190 | rows outside the feature sample are untouched |
| DataGenerator.FeatureOutlierOtherCells | data_generator.py:188-190 | cells outside the audio features are untouched |
| DataGenerator.FeatureOutlierValues | data_generator.py:188-190 | each existing feature of a sampled row holds its chosen outlier value |
| DataGenerator.OutlierRows | data_generator.py:178-190 | outlier injection keeps the row count |
| DataGenerator.InjectOutliers | data_generator.py:168-192 | a non-positive fraction returns the frame unchanged; a sample larger than the table fails; otherwise the first half of the sample gets tempo outliers and the rest feature outliers |
| DataGenerator.OutlierStages | data_generator.py:181-190 | the tempo step writes only the tempo of the first half; the feature step follows on the rest |
| DataGenerator.OutliersLeaveOtherRows | data_generator.py:178-190 | rows outside the sample are untouched |
| DataGenerator.TempoOutliersPlaced | data_generator.py:181-186 | each tempo-sampled row gets one of 10, 30, 250, 320 (outside [50, 200]) and nothing else of it changes |
| DataGenerator.FeatureOutliersPlaced | data_generator.py:183-190 | each feature-sampled row gets, in every existing feature, one of -0.4, -0.1, 1.2, 1.6 (outside [0, 1]) and nothing else of it changes |
| DataGenerator.OutlierValuesOutOfRange | data_generator.py:186-190 | every injected value is outside the range the cleaner keeps |

## Left out

- Numerical libraries are inputs, not models:
  - StandardScaler, `cosine_similarity`, `euclidean_distances`/`cdist` and the `NearestNeighbors` search itself;
  - KMeans, `silhouette_score` and `davies_bouldin_score`;
  - the `rng` draws.

  Floats are reals, so rounding error in those libraries is not modelled.
- Scores that tie: `np.argsort` and the KNN search break ties in their own way, and the model uses a stable sort. Every contract about a ranking holds whatever the tie order.
- SQLite output order and `ROW_NUMBER` ties: rows with equal order values are numbered with the earlier row first. SQLite leaves that order unspecified.
- `Strings.Lower` folds ASCII letters only.
- `execute_query` is not modelled: it swallows SQL errors, logs them and returns None. Each SQL step is modelled as succeeding.
- `analyze_data_quality`, `create_summary_statistics`, `export_cleaned_data`, `table_row_count`, `visualize_clusters`, `save_model`/`load_model`, the plots and all printing are not part of this model.
- The command lines and `main` functions are left out: argument parsing, logging, CSV and SQLite I/O.
  - `data_generator.py:239-270` runs `add_synthetic_audio_features`, `inject_nulls`, `inject_outliers` and `inject_duplicates` in that order. The four steps are modelled one by one.
- pandas index labels are modelled as row positions. `rng.choice(out.index, ...)` samples positions, which agrees when the frame has the default index.
- A popularity column holding text makes pandas raise in `astype(float)`. The model reports `NonNumericPopularity`.
- The recommender's catalogue rows (`Track`) carry numbers, so NaN in the raw audio columns of the recommender frame is not modelled.
- Clustering.MoodClusterer.Fit: takes the k-means labelling as a function `labels(k)` that gives one label per selected row.
- Clustering.OptimalK: assumes k-means finds k distinct clusters whenever k < samples. `silhouette_score` needs between 2 and samples - 1 distinct labels, so a labelling with fewer distinct clusters (duplicate points) would raise where the model succeeds.
- Clustering.MoodClusterer.Fit: makes the same assumption for the silhouette score it reports with a fixed k.
- Similarity.KnnSelectionShape: compares `n_neighbors` with the current row count. `kneighbors` compares it with the sample count seen at `build_knn_model`; a feature matrix replaced after fitting is not modelled.
- DataGenerator.AddSyntheticAudioFeatures: states ranges, decimals and missing cells of the finished table, not the rounded values themselves; `DataGenerator.DrawPopularityFeatures` states the drawn values before rounding.
- DataGenerator.RoundFeatureColumns: requires the seven feature columns to exist. `add_synthetic_audio_features` has just written them, and pandas would raise on a missing one.
- Similarity.KnnSelectionNearest: the seed is not promised to be the dropped nearest row. With duplicate feature vectors another row at distance 0 can sort first.
- Similarity.EuclideanSelectionScores: the ordering and [0, 1] bounds are stated only when fewer rows than the catalogue are asked for. Otherwise the seed's inf/inf score is NaN; `Similarity.EuclideanSelectionWholeCatalogue` states that case.
- DataGenerator.SetColumn: states that a new column goes after the existing ones. For the nine generated columns it says only which columns exist, not their relative order.
