# Emotion heatmap: a Dafny model

This project models the core of an eco-trip planner. The planner scores
travel reviews by emotion and turns the scores into a per-neighbourhood heatmap.
Its frontend lets a traveller browse the reviews and assemble an itinerary.

The model covers:

- **Heatmap generation** (`heatmap_scores.dfy`, `hotspot_store.dfy`,
  `heatmap_geojson.dfy`, `heatmap.dfy`).
  - Each neighbourhood's centre is decoded from its stored GeoJSON boundary.
  - The venues within 2 km are matched against that centre.
  - The requested emotion's scores over those venues' reviews are averaged.
  - One hotspot row per (neighbourhood, emotion) is upserted, then everything is committed at once.
  - The result is rendered as a FeatureCollection. A fixed five-point London fallback is returned when nothing was scored or a step failed.
  - Python's exception behaviour is modelled explicitly. `KeyError`, `IndexError` and JSON errors skip a neighbourhood. A `TypeError` aborts the whole scoring loop.
- **Sample data seeding** (`data_loader.py`, modelled in `data_loader.dfy` and
  `seed_properties.dfy`).
  - Five neighbourhoods, five venues and 3–5 reviews per venue are created.
  - Each review gets five keyword-based emotion scores, clamped to [0.1, 0.95].
  - One hotspot is created per (neighbourhood, emotion) pair, falling back to random values.
  - The work is five commits. The random draws are parameters constrained to the ranges Python's `random` module guarantees.
- **Review analysis** (`emotion_analyzer.dfy`).
  - The classifier's label list is converted to a dict.
  - The batch loop classifies every review that has no score yet and saves one score row per label, committing batch by batch.
  - The classifier is an oracle.
- **Entities and store** (`models.dfy`).
  - There is one datatype per table.
  - A `Database` class holds one sequence per table, with autoincrement ids.
- **Frontend list operations** (`dashboard.dfy`, `itinerary_builder.dfy`,
  `review_sidebar.dfy`, `heat_map_view.dfy`).
  - Itinerary add, with duplicate locations refused.
  - Itinerary remove, reorder and save.
  - The empty-city search guard.
  - The drag-and-drop move.
  - The descending, stable sort of reviews by the selected emotion.
  - The map's conversion of GeoJSON features into heat points and markers.

Where the documented design and the code differ, the model follows the code:

- The fallback review count is `int(score * 50)`, the floor (42, 37, 46, 44, 39), not a rounding.
- An overwritten hotspot keeps its `last_updated`. The column has only an insert default.
- No uniqueness of (neighbourhood, emotion) is declared on the hotspot table. The upsert therefore updates the first matching row only, and the model allows duplicates.

## Model

| member | source | states |
|---|---|---|
| Models.JoinedScores | app/services/geo/heatmap_generator.py:62-69 | a score is returned exactly when some score row of the emotion joins a review that passes the filter; never more scores than score rows |
| Models.JoinedScoresCount | app/services/geo/heatmap_generator.py:62-75 | the join yields one score per joining score row, duplicates kept, so len(scores) is the number of matched rows |
| Models.RenumberedVenues | app/models/models.py:6 | the k-th saved venue has id first + k and every other column of the k-th venue given |
| Models.RenumberedReviews | app/models/models.py:18 | the k-th saved review has id first + k and every other column of the k-th review given |
| Models.RenumberedScores | app/models/models.py:28 | the k-th saved score row has id first + k and every other column of the k-th row given |
| Models.RenumberedNeighborhoods | app/models/models.py:38 | the k-th saved neighbourhood has id first + k and every other column of the k-th one given |
| Models.RenumberedHotspots | app/models/models.py:46 | the k-th saved hotspot has id first + k and every other column of the k-th one given |
| Models.RenumberedAppend | app/services/sentiment/emotion_analyzer.py:61-64 | numbering two saves one after the other equals numbering their concatenation |
| Models.Database.AddNeighborhoods | app/services/data_loader.py:56-57 | add_all + commit appends the rows with the next ids and keeps every table's ids positional |
| Models.Database.AddVenues | app/services/data_loader.py:109-110 | add_all + commit appends the venues with the next ids; ids stay positional |
| Models.Database.AddReviews | app/services/data_loader.py:143-144 | add_all + commit appends the reviews with the next ids; ids stay positional |
| Models.Database.AddScores | app/services/sentiment/emotion_analyzer.py:61-63 | bulk save + commit appends the score rows with the next ids; ids stay positional |
| Models.Database.AddHotspots | app/services/data_loader.py:212-214 | adding and committing hotspots appends them with the next ids; ids stay positional |
| HeatmapScores.Nearby | app/services/geo/heatmap_generator.py:47-56 | a venue id is listed exactly when some venue with that id is at distance <= 2.0 |
| HeatmapScores.NearbyVenues | app/services/geo/heatmap_generator.py:48-56 | the venue loop returns the nearby ids, or TypeError when the centre is not numeric and there is a venue |
| HeatmapScores.CalculateNeighborhoodScores | app/services/geo/heatmap_generator.py:27-81 | on tables with unique primary keys, the loop over neighbourhoods returns exactly the scoring function's rows |
| HeatmapScores.CollectRaiseExtends | app/services/geo/heatmap_generator.py:36-44 | once an iteration raises an uncaught exception, the whole loop raises |
| HeatmapScores.CollectRaiseIff | app/services/geo/heatmap_generator.py:36-77 | the loop raises exactly when some neighbourhood's iteration raises |
| HeatmapScores.CollectRowsIff | app/services/geo/heatmap_generator.py:36-77 | without an exception, a row is in the result exactly when some neighbourhood's iteration yields it |
| HeatmapScores.CollectRowFrom | app/services/geo/heatmap_generator.py:36-77 | every row of the loop comes from some neighbourhood's iteration |
| HeatmapScores.CollectRowTo | app/services/geo/heatmap_generator.py:36-77 | every row an iteration yields is in the loop's result, unless the loop raised |
| HeatmapScores.CollectCharacterised | app/services/geo/heatmap_generator.py:36-77 | both of the above: raise iff some iteration raises; otherwise the rows are exactly the iterations' rows |
| HeatmapScores.SkippedBoundary | app/services/geo/heatmap_generator.py:38-44 | a boundary that fails with a JSON, key or index error skips only its own neighbourhood |
| HeatmapScores.AssessRaises | app/services/geo/heatmap_generator.py:38-56 | an iteration raises exactly for a NULL or unsubscriptable boundary, or non-numeric coordinates with a venue to measure, and always with TypeError |
| HeatmapScores.AssessRow | app/services/geo/heatmap_generator.py:38-75 | a row appears iff the centre decodes, a venue is nearby and a score matches; it holds the mean and count of those scores, with count >= 1 and min <= mean <= max |
| HeatmapScores.AssessRowCount | app/services/geo/heatmap_generator.py:58-75 | a row's count is the number of score rows of the emotion joining a review of a nearby venue, duplicates included |
| HeatmapScores.AbortDiscardsAll | app/services/geo/heatmap_generator.py:79-81 | any escaped exception makes the result [] |
| HeatmapScores.NullBoundaryDiscardsAll | app/services/geo/heatmap_generator.py:38-81 | a NULL boundary anywhere in the table makes the result [] |
| HeatmapScores.ScoresAreRows | app/services/geo/heatmap_generator.py:27-81 | every result row belongs to a neighbourhood of the table with a decoded boundary, has count >= 1 and averages that neighbourhood's matched scores; without exceptions, the rows are exactly those the neighbourhoods yield |
| HeatmapScores.PointCentre | app/services/geo/heatmap_generator.py:39-41 | a Point boundary [lng, lat, ...] is centred at latitude coordinates[1], longitude coordinates[0] |
| HeatmapScores.RadiusInclusive | app/services/geo/heatmap_generator.py:54-56 | a venue exactly 2.0 km away is nearby; one farther than 2.0 km is not |
| HotspotStore.FirstMatch | app/services/geo/heatmap_generator.py:86-89 | the query's first() is the first row with the key, or none when no row has it |
| HotspotStore.FindHotspot | app/services/geo/heatmap_generator.py:86-89 | the scan returns exactly the first matching row |
| HotspotStore.Upsert | app/services/geo/heatmap_generator.py:86-101 | the first row with the key takes the new average and count, keeping its id and timestamp; otherwise exactly one row is appended; every other row is untouched |
| HotspotStore.UpsertLoop | app/services/geo/heatmap_generator.py:85-101 | the loop's pending view of the table is the upsert of every tuple, in order, each query seeing the earlier changes |
| HotspotStore.UpdateHotspots | app/services/geo/heatmap_generator.py:83-103 | a successful commit leaves the table as upserting every row in order; a failed one leaves it unchanged; ids stay positional |
| HotspotStore.UpsertAllFrame | app/services/geo/heatmap_generator.py:85-101 | every old row stays the same record; rows that are not the first for a tuple's key are untouched; nothing is deleted; only rows of this emotion for the tuples' neighbourhoods are added |
| HotspotStore.OtherKeysUntouched | app/services/geo/heatmap_generator.py:85-101 | rows of another emotion, or of a neighbourhood without a tuple, are unchanged |
| HotspotStore.UpsertAllKeepsIds | app/services/geo/heatmap_generator.py:95-101 | new hotspots take the next free ids |
| HotspotStore.UpsertAllReflects | app/services/geo/heatmap_generator.py:85-101 | afterwards, the first row for every tuple's key holds the last such tuple's average and count |
| HotspotStore.UpsertAllOverwrites | app/services/geo/heatmap_generator.py:91-93 | when every key already exists, the loop only overwrites values |
| HotspotStore.UpsertAllIdempotent | app/services/geo/heatmap_generator.py:85-103 | running the update twice with the same tuples leaves the table the first run left |
| HeatmapGeoJson.CreateGeoJson | app/services/geo/heatmap_generator.py:105-140 | the feature loop computes the rendering function |
| HeatmapGeoJson.RenderCharacterised | app/services/geo/heatmap_generator.py:105-140 | rendering raises TypeError iff some boundary is NULL; otherwise the features are exactly those of rows with decoded boundaries, one per row and in row order when none is skipped |
| HeatmapGeoJson.RenderScoreRows | app/services/geo/heatmap_generator.py:109-132 | scored rows render one feature each, in order: the boundary verbatim as geometry, with name, emotion, score = avg, weight = 10 * avg and the count |
| HeatmapGeoJson.GenerateFallbackData | app/services/geo/heatmap_generator.py:161-193 | the loop builds the fixed fallback collection |
| HeatmapGeoJson.FallbackContents | app/services/geo/heatmap_generator.py:164-188 | five points with the fixed names and scores, the requested emotion, weight = 10 * score, review counts 42, 37, 46, 44, 39, each centred at its landmark |
| Heatmap.Generate | app/services/geo/heatmap_generator.py:142-159 | on tables with positional ids, the answer and the new hotspot table are those of the orchestration function, and ids stay positional |
| Heatmap.GenerateOutcomes | app/services/geo/heatmap_generator.py:142-159 | no rows or a failed commit give the fallback and an unchanged table; otherwise the table is the upsert and the answer one feature per row, in order |
| Heatmap.NoVenuesFallback | app/services/geo/heatmap_generator.py:146-150 | with no venues the answer is the fallback and the table is unchanged |
| Heatmap.GenerateIdempotent | app/services/geo/heatmap_generator.py:142-159 | a second call on the same data gives the same answer, and after a successful first call the same table |
| Heatmap.ExampleScoresNear | app/services/geo/heatmap_generator.py:62-72 | both joy scores of the example venue's reviews are matched |
| Heatmap.ExampleNearby | app/services/geo/heatmap_generator.py:38-56 | the example neighbourhood is centred on its venue, which is nearby |
| Heatmap.ExampleNeighborhoodScores | app/services/geo/heatmap_generator.py:27-77 | scores 0.8 and 0.6 give one row with average 0.7 and count 2 |
| Heatmap.EndToEndExample | app/services/geo/heatmap_generator.py:142-156 | generate("joy") on the example gives one feature with score 0.7, weight 7.0 and count 2, and one new hotspot row |
| DataLoader.Contains | app/services/data_loader.py:161 | `keyword in text` holds iff the keyword occurs at some position of the text |
| DataLoader.CountPresentCounts | app/services/data_loader.py:160-166 | the count is the number of keyword positions whose keyword occurs in the text, each counting once however often it occurs |
| DataLoader.KeywordScore | app/services/data_loader.py:154-166 | the two keyword loops compute 0.5 + 0.1 per positive keyword present - 0.05 per negative keyword present |
| DataLoader.BaseScoreRange | app/services/data_loader.py:154-166 | the base score lies in [0.35, 1.1] |
| DataLoader.BaseScoreByPresence | app/services/data_loader.py:160-166 | two texts containing the same keywords get the same base score, however often each keyword occurs |
| DataLoader.Clamp | app/services/data_loader.py:169 | min(max(x, 0.1), 0.95) lies in [0.1, 0.95] and is x inside that range |
| DataLoader.BuildVenues | app/services/data_loader.py:99-107 | the loop builds the five venue rows of venue_data |
| DataLoader.BuildReviews | app/services/data_loader.py:127-141 | the nested loop builds the drawn reviews of each venue, venue by venue |
| DataLoader.BuildScores | app/services/data_loader.py:150-176 | the nested loop builds five scores per review, review by review |
| DataLoader.BuildPair | app/services/data_loader.py:185-211 | one pair's hotspot: the mean and count of the nearby scores, or the drawn fallback |
| DataLoader.BuildNeighborhoodHotspots | app/services/data_loader.py:183-212 | the emotion loop builds one hotspot per emotion for the neighbourhood |
| DataLoader.BuildHotspots | app/services/data_loader.py:182-212 | the nested loop builds five hotspots per neighbourhood, in order |
| DataLoader.CommitNeighborhoods | app/services/data_loader.py:13-57 | the first commit saves the five neighbourhoods of the plan |
| DataLoader.CommitVenues | app/services/data_loader.py:59-110 | the second commit saves the five venues of the plan |
| DataLoader.CommitReviews | app/services/data_loader.py:112-144 | the third commit saves the reviews of the plan, which refer to the saved venues' ids |
| DataLoader.CommitScores | app/services/data_loader.py:146-179 | the fourth commit saves the scores of the plan, which refer to the saved reviews' ids |
| DataLoader.CommitHotspots | app/services/data_loader.py:181-214 | the hotspot loop queries the committed tables; its rows are saved only when the commit succeeds |
| DataLoader.RunCommits | app/services/data_loader.py:13-214 | the five commits in order: the store holds the plan's first k phases when commit k + 1 fails, with a raised Exception; all five and the four counts otherwise |
| DataLoader.LoadSampleData | app/services/data_loader.py:7-225 | a non-empty venue table gives the "already contains data" answer and no change; otherwise the commits that succeed are applied, and the answer is the four counts after all five, or a raised Exception |
| DataLoader.SampleReviewsCount | app/services/data_loader.py:127-141 | the number of reviews is the total of the drawn per-venue counts |
| SeedProperties.ScoreInRange | app/services/data_loader.py:154-175 | every seeded score lies in [0.1, 0.95], equals base + noise inside that range, and carries its review's id and emotion |
| SeedProperties.SampleScoresShape | app/services/data_loader.py:150-176 | 5 scores per review; score 5i+e is review i's score for emotion e |
| SeedProperties.SampleScoresPerReview | app/services/data_loader.py:148-176 | every review gets exactly five scores, one per emotion in the fixed order, all carrying its id and each in [0.1, 0.95] |
| SeedProperties.ReviewTotalBounds | app/services/data_loader.py:129 | with 3 to 5 reviews per venue, the total lies between 3 and 5 times the number of venues |
| SeedProperties.SampleReviewsShape | app/services/data_loader.py:127-141 | venue i's reviews are a block of the drawn length, after those of the earlier venues |
| SeedProperties.SampleReviewsFacts | app/services/data_loader.py:129-140 | every seeded review has source "sample", one of the sample texts, location "Sample City", an existing venue, and a date 1 to 90 days before now |
| SeedProperties.ReviewsPerVenue | app/services/data_loader.py:127-141 | with distinct venue ids, venue i has exactly its drawn number of reviews |
| SeedProperties.NoReviewsFor | app/services/data_loader.py:127-141 | a venue id that no venue has gets no review |
| SeedProperties.PairHotspotValues | app/services/data_loader.py:185-211 | each pair's hotspot has the pair's key; its values are the mean and count of the scores from venues strictly within 0.01 squared degrees (count >= 1, min <= mean <= max), or the drawn fallback when there are none |
| SeedProperties.HotspotPairsUnique | app/services/data_loader.py:182-212 | with distinct neighbourhood ids, hotspot k is for neighbourhood k/5 and emotion k%5, and no pair appears twice |
| SeedProperties.SeedHotspotPairs | app/services/data_loader.py:182-214 | the seeded hotspot table has 25 rows, row k for the k/5-th saved neighbourhood and emotion k%5, and no (neighbourhood, emotion) pair twice |
| SeedProperties.SeedCentres | app/services/data_loader.py:13-54 | each seeded boundary decodes to its neighbourhood's centre |
| SeedProperties.SeedSizes | app/services/data_loader.py:216-221 | the seed has 5 neighbourhoods, 5 venues, 15 to 25 reviews, 5 scores per review and 25 hotspots |
| SeedProperties.SeedReviewsPerVenue | app/services/data_loader.py:127-129 | each seeded venue has between 3 and 5 reviews |
| SeedProperties.RenumberedKeepsVenues | app/services/data_loader.py:143-144 | saving the reviews does not change which venue each belongs to |
| EmotionAnalyzer.DictPut | app/services/sentiment/emotion_analyzer.py:21-24 | assigning a dict key keeps an existing key in place with the new value, appends a new one, and leaves the other entries alone |
| EmotionAnalyzer.IndexOfFirst | app/services/sentiment/emotion_analyzer.py:21-24 | the key lookup behind a dict assignment finds the key's first position, and finds none exactly when no entry has the key |
| EmotionAnalyzer.ToDictCorrect | app/services/sentiment/emotion_analyzer.py:21-24 | the dict has each label exactly once and no other key, mapped to the score of its last entry |
| EmotionAnalyzer.Unprocessed | app/services/sentiment/emotion_analyzer.py:34-39 | a review is selected exactly when no score row refers to it |
| EmotionAnalyzer.AnalysisRowsAppend | app/services/sentiment/emotion_analyzer.py:44-64 | cutting the reviews into batches does not change the rows created |
| EmotionAnalyzer.AnalysisRowsRefer | app/services/sentiment/emotion_analyzer.py:47-58 | every created row records, for an analysed review, a label of that review's answer with the label's last score; so a failed or empty analysis contributes no row |
| EmotionAnalyzer.ReviewRowsCover | app/services/sentiment/emotion_analyzer.py:48-58 | one review gets no row iff its analysis is None or empty; otherwise exactly one row per label of its answer (no emotion twice, no other label), each with the label's last score and no id yet |
| EmotionAnalyzer.AnalysisRowsCover | app/services/sentiment/emotion_analyzer.py:47-58 | every classified review of the run gets a row for each label of its answer, with the label's last score |
| EmotionAnalyzer.AnalysisRowsUnique | app/services/sentiment/emotion_analyzer.py:47-58 | with distinct review ids, no (review, emotion) pair gets two rows; with AnalysisRowsCover and AnalysisRowsRefer, exactly one per answered label |
| EmotionAnalyzer.UnprocessedDistinct | app/services/sentiment/emotion_analyzer.py:33-38 | the unprocessed reviews keep the table's distinct ids |
| EmotionAnalyzer.AnalysisRunDistinct | app/services/sentiment/emotion_analyzer.py:33-64 | on a table with positional review ids whose score rows hold no pair twice, the saved run still holds no (review, emotion) pair twice |
| EmotionAnalyzer.SavedAppend | app/services/sentiment/emotion_analyzer.py:61-64 | saving batch after batch numbers the rows as saving them all at once |
| EmotionAnalyzer.AnalyzeBatch | app/services/sentiment/emotion_analyzer.py:47-58 | the inner loops produce the rows of the batch, review by review and one per dict item |
| EmotionAnalyzer.CreateScores | app/services/sentiment/emotion_analyzer.py:52-58 | the inner loop creates one unsaved score row per dict item, for the review, in dict order |
| EmotionAnalyzer.SaveBatch | app/services/sentiment/emotion_analyzer.py:45-64 | one batch's rows are appended with the next ids, or nothing when there are none |
| EmotionAnalyzer.ProcessBatches | app/services/sentiment/emotion_analyzer.py:44-64 | the batch loop appends the rows of all unprocessed reviews, in order, with the next ids |
| EmotionAnalyzer.AnalyzeReviews | app/services/sentiment/emotion_analyzer.py:31-66 | a batch size of 0 raises ValueError and a negative one saves nothing; either positive or negative returns the number of unprocessed reviews, and a positive size saves all their rows |
| EmotionAnalyzer.AnalysisProcessesAll | app/services/sentiment/emotion_analyzer.py:31-66 | after a run, every unprocessed review that the classifier answers with a label is processed |
| ReviewSidebar.FindScore | frontend/src/components/ReviewSidebar.tsx:30-32 | the find returns the first entry for the emotion, and nothing iff no entry has it |
| ReviewSidebar.GetEmotionScore | frontend/src/components/ReviewSidebar.tsx:29-34 | '0' iff the review has no entry for the emotion; otherwise the first entry's score times 100 |
| ReviewSidebar.SortKey | frontend/src/components/ReviewSidebar.tsx:59-60 | the sort key is the first entry's score, 0 when there is no entry |
| ReviewSidebar.SortReviewsCorrect | frontend/src/components/ReviewSidebar.tsx:58-62 | the sorted list is a permutation of the reviews, non-increasing by the selected emotion's score |
| ReviewSidebar.SortReviewsStable | frontend/src/components/ReviewSidebar.tsx:58-62 | reviews with equal scores keep their input order |
| ReviewSidebar.View | frontend/src/components/ReviewSidebar.tsx:36-62 | loading wins over the empty placeholder; a non-empty list is shown sorted and permuted |
| ItineraryBuilder.RemoveAt | frontend/src/components/ItineraryBuilder.tsx:31 | removing at i shifts later items down by one and drops exactly that item from the multiset |
| ItineraryBuilder.InsertAt | frontend/src/components/ItineraryBuilder.tsx:32 | inserting at j puts the item there, shifts later items up by one and adds it to the multiset |
| ItineraryBuilder.HandleDrop | frontend/src/components/ItineraryBuilder.tsx:25-34 | no reorder iff the indices are equal; otherwise the same length and multiset, the dragged item at the drop index, and every other item in its old relative order |
| ItineraryBuilder.MoveShifts | frontend/src/components/ItineraryBuilder.tsx:30-32 | items outside the two indices stay put, and those between them shift one place towards the drag index |
| Dashboard.ReviewScoreSumIsSum | frontend/src/components/Dashboard.tsx:97-100 | the reduce is the sum of each review's first score for the emotion, 0 when absent |
| Dashboard.ItineraryScoreIsMean | frontend/src/components/Dashboard.tsx:95-101 | the value is 0.8 without reviews, else the mean over all reviews (missing emotion = 0), between the least and greatest contribution |
| Dashboard.ItineraryScoreBounded | frontend/src/components/Dashboard.tsx:95-101 | scores in [0, 1] give a value in [0, 1] |
| Dashboard.FindAt | frontend/src/components/Dashboard.tsx:78-80 | an entry is found iff some entry has exactly that lat and lng |
| Dashboard.WithoutIdMembers | frontend/src/components/Dashboard.tsx:209 | an entry is kept iff it was there and its id differs from the removed one |
| Dashboard.WithoutIdAppend | frontend/src/components/Dashboard.tsx:209 | the filter keeps the original order: filtering a concatenation filters each part |
| Dashboard.WithoutAbsentId | frontend/src/components/Dashboard.tsx:209 | removing an id that no entry has changes nothing |
| Dashboard.WithoutIdDistinct | frontend/src/components/Dashboard.tsx:209 | removing keeps locations distinct |
| Dashboard.MoveDistinct | frontend/src/components/Dashboard.tsx:210 | a drag-and-drop move keeps locations distinct |
| Dashboard.DashboardState.constructor | frontend/src/components/Dashboard.tsx:13-20 | the initial state: empty city, "restaurants", "joy", not loading, no data, no reviews, an empty itinerary, no location |
| Dashboard.DashboardState.AddToItinerary | frontend/src/components/Dashboard.tsx:74-105 | no location, or one already listed, changes nothing; otherwise exactly one entry is appended with the location, its name and the single key of the selected emotion; no two entries ever share a location |
| Dashboard.DashboardState.RemoveHotspot | frontend/src/components/Dashboard.tsx:209 | the itinerary becomes the filtered list; locations stay distinct |
| Dashboard.DashboardState.ReorderHotspots | frontend/src/components/Dashboard.tsx:210 | the itinerary becomes the moved list, unchanged for equal indices; locations stay distinct |
| Dashboard.DashboardState.SaveItinerary | frontend/src/components/Dashboard.tsx:107-126 | an empty itinerary returns before any request; otherwise the request carries the ids in order and loading ends false |
| Dashboard.DashboardState.Search | frontend/src/components/Dashboard.tsx:35-49 | an empty city returns before any request; otherwise the request carries city, category and emotion, the heatmap is replaced only when the calls succeed, and loading ends false |
| HeatMapView.HeatWeight | frontend/src/components/Map.tsx:49 | weight if present and non-zero, else the score if non-zero, else 1; never 0 |
| HeatMapView.PointsOfCorrect | frontend/src/components/Map.tsx:44-67 | a heat point arises exactly from a Point feature, as [coordinates[1], coordinates[0], weight]; the k-th marker stands at the k-th point |
| HeatMapView.MapView.Redraw | frontend/src/components/Map.tsx:29-114 | markers and the heat layer are cleared first; features, even an empty list, win over legacy data; the layer and the fitted bounds are set only when there is a point |
| HeatMapView.PointsOfAllPoints | frontend/src/components/Map.tsx:44-51 | when every feature is a Point, the k-th heat point is the k-th feature's position and weight |
| HeatMapView.FallbackOnMap | frontend/src/components/Map.tsx:45-51 | the backend fallback, written [lng, lat], lands on the map at each landmark's (lat, lng) with weight 10 * score |

## Left out

- Haversine trigonometry. The distance is a function parameter; only the inclusive 2.0 km test is modelled.
- Floating point. Scores, coordinates and averages are exact reals, so rounding in sums and means is not modelled.
- JSON text. Boundaries are already decoded values, or a NULL or a decode failure.
- `str.lower()` lowers ASCII letters only.
- The transformers pipeline. The classifier is an oracle that returns a label list, or None when it raises.
- SQLAlchemy.
  - Sessions, queries and autoflush are modelled as sequences that each step reads and replaces.
  - A failed commit is a parameter and leaves its rows unsaved.
  - A commit failing inside `analyze_reviews` is not modelled.
- The `random` module. Its draws are parameters restricted to their documented ranges.
- `print` logging, `get_sample_data_status`, the scrapers, the Flask routes and the app factory are outside the modelled core.
- Concurrency. Runs of `generate` for the same emotion racing on one key are not modelled.
- Frontend rendering:
  - JSX and CSS;
  - Leaflet layer options and popup HTML;
  - `toFixed` and date formatting;
  - `alert`.
  `GetEmotionScore` returns the unformatted percentage.
- `Date.now()`. The new itinerary entry's id is a parameter.
- Clocks in seeding. One `now` parameter stands for both clocks: the local `datetime.now()` that dates the reviews and the UTC `datetime.utcnow` insert default of `last_updated`. The source also reads the local clock once per review; the model reads it once per run, so dates are days back from one fixed instant and the time zone offset between the two clocks is not modelled.
- Asynchrony. The API calls and React's batching of state updates are reduced to their results. `Search` takes the fetched heatmap, or None when a call throws. `SaveItinerary` takes whether the save succeeds.
- Handlers that only fetch: `handleNeighborhoodClick` and `handleEmotionChange`.
- JavaScript numbers. NaN, which is also falsy in `weight || score || 1` and `?.score || 0`, is not modelled.
- HandleDrop:
  - It requires both indices to be positions of the rendered list, as the drag-start and drop handlers supply.
  - A drag from elsewhere, where `parseInt` gives NaN or an out-of-range index and `splice` pads with `undefined`, is not modelled.
  - The copy and the two splices are reassignments of a local sequence. The copy is fresh, so no aliasing is lost.
- ReorderHotspots requires the same valid indices as HandleDrop.
- MapView.Redraw requires every Point feature to have at least two coordinates, as RFC 7946, section 3.1.1 requires of a position. A shorter one would give JavaScript `undefined` coordinates.
- The map's one-time creation (tile layer, default London view) is not modelled.
