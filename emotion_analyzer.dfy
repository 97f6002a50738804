/** EmotionAnalyzer: classify every review that has no emotion score yet and
    save one score row per label, committing batch by batch. The
    text-classification pipeline is an oracle. */
module EmotionAnalyzer {
  import opened Common
  import opened Models

  /** One `{'label': …, 'score': …}` entry of the pipeline's output. */
  datatype LabelScore = LabelScore(emotion: string, score: real)

  /** `emotion_pipeline(text)[0]`, or None when that raises (the exception is
      caught and printed). */
  type Classifier = string -> Option<seq<LabelScore>>

  /** A Python dict from labels to scores, in insertion order. */
  type Dict = seq<(string, real)>

  /** The position of the key in the dict, or None. */
  function IndexOf(d: Dict, k: string): (i: Option<nat>)
    ensures i.Some? ==> i.value < |d| && d[i.value].0 == k
  {
    if d == [] then None
    else if d[0].0 == k then Some(0)
    else
      match IndexOf(d[1..], k)
      case None => None
      case Some(i) => Some(i + 1)
  }

  /** IndexOf finds the first position holding the key, and None means no
      position holds it. */
  lemma {:induction false} IndexOfFirst(d: Dict, k: string)
    ensures IndexOf(d, k).Some? ==> forall j :: 0 <= j < IndexOf(d, k).value ==> d[j].0 != k
    ensures IndexOf(d, k).None? ==> forall j :: 0 <= j < |d| ==> d[j].0 != k
  {
    if d != [] && d[0].0 != k {
      IndexOfFirst(d[1..], k);
      assert forall j :: 1 <= j < |d| ==> d[j] == d[1..][j - 1];
    }
  }

  /** `d[k] = v`: an existing key keeps its position and takes the new value;
      a new key goes last. */
  function DictPut(d: Dict, k: string, v: real): (r: Dict)
    ensures IndexOf(d, k).Some? ==> |r| == |d| && r[IndexOf(d, k).value] == (k, v)
    ensures IndexOf(d, k).None? ==> r == d + [(k, v)]
    ensures forall j :: 0 <= j < |d| && d[j].0 != k ==> r[j] == d[j]
    ensures forall j :: 0 <= j < |d| ==> r[j].0 == d[j].0
  {
    match IndexOf(d, k)
    case Some(i) => d[i := (k, v)]
    case None => d + [(k, v)]
  }

  /** `{score['label']: score['score'] for score in results}` */
  function ToDict(results: seq<LabelScore>): Dict
  {
    if results == [] then []
    else
      var last := results[|results| - 1];
      DictPut(ToDict(results[..|results| - 1]), last.emotion, last.score)
  }

  /** The score of the last entry with this label. */
  function LastScore(results: seq<LabelScore>, emotion: string): Option<real>
  {
    if results == [] then None
    else if results[|results| - 1].emotion == emotion then Some(results[|results| - 1].score)
    else LastScore(results[..|results| - 1], emotion)
  }

  predicate HasKey(d: Dict, k: string)
  {
    exists j :: 0 <= j < |d| && d[j].0 == k
  }

  predicate HasLabel(results: seq<LabelScore>, k: string)
  {
    exists x :: x in results && x.emotion == k
  }

  ghost predicate DistinctKeys(d: Dict)
  {
    forall i, j :: 0 <= i < j < |d| ==> d[i].0 != d[j].0
  }

  /** The dict has each label of the results exactly once, and no other key,
      and maps it to the score of the label's last entry. */
  lemma {:induction false} ToDictCorrect(results: seq<LabelScore>)
    ensures DistinctKeys(ToDict(results))
    ensures forall k :: HasKey(ToDict(results), k) <==> HasLabel(results, k)
    ensures forall j :: 0 <= j < |ToDict(results)| ==> LastScore(results, ToDict(results)[j].0) == Some(ToDict(results)[j].1)
  {
    if results != [] {
      var init := results[..|results| - 1];
      var last := results[|results| - 1];
      ToDictCorrect(init);
      var d := ToDict(init);
      var r := ToDict(results);
      IndexOfFirst(d, last.emotion);
      assert forall x :: x in results <==> x in init || x == last;
      forall k
        ensures HasKey(r, k) <==> HasLabel(results, k)
      {
        if HasKey(r, k) {
          var j :| 0 <= j < |r| && r[j].0 == k;
          if j < |d| {
            assert HasKey(d, k);
            var x :| x in init && x.emotion == k;
            assert x in results;
          } else {
            assert last in results;
          }
        }
        if HasLabel(results, k) {
          var x :| x in results && x.emotion == k;
          if x in init {
            assert HasLabel(init, k);
            var j :| 0 <= j < |d| && d[j].0 == k;
            assert r[j].0 == k;
          } else {
            match IndexOf(d, k) {
              case Some(i) => assert r[i].0 == k;
              case None => assert r[|d|].0 == k;
            }
          }
        }
      }
    }
  }

  /** _analyze_text */
  function AnalyzeText(classify: Classifier, text: string): Option<Dict>
  {
    match classify(text)
    case None => None
    case Some(results) => Some(ToDict(results))
  }

  /** A review is processed when some score row refers to it. */
  predicate Processed(r: Review, scores: seq<EmotionScore>)
  {
    exists s :: s in scores && s.reviewId == r.id
  }

  /** `Review LEFT OUTER JOIN EmotionScore … WHERE EmotionScore.id IS NULL`, in table order. */
  function Unprocessed(reviews: seq<Review>, scores: seq<EmotionScore>): (u: seq<Review>)
    ensures |u| <= |reviews|
    ensures forall r :: r in u <==> r in reviews && !Processed(r, scores)
  {
    if reviews == [] then []
    else
      var init := Unprocessed(reviews[..|reviews| - 1], scores);
      var last := reviews[|reviews| - 1];
      assert forall x :: x in reviews <==> x in reviews[..|reviews| - 1] || x == last;
      if Processed(last, scores) then init else init + [last]
  }

  /** The score rows of one review: one per dict item, in dict order, or none
      when the analysis failed or produced an empty dict. */
  function ReviewRows(r: Review, classify: Classifier): seq<EmotionScore>
  {
    match AnalyzeText(classify, r.text)
    case None => []
    case Some(d) =>
      if d == [] then [] else DictRows(r.id, d)
  }

  /** One unsaved row (id 0) per dict item, in dict order. */
  function DictRows(reviewId: nat, d: Dict): seq<EmotionScore>
  {
    seq(|d|, j requires 0 <= j < |d| => EmotionScore(0, reviewId, d[j].0, d[j].1))
  }

  /** The score rows created for a run of reviews, review by review. */
  function AnalysisRows(reviews: seq<Review>, classify: Classifier): seq<EmotionScore>
  {
    if reviews == [] then []
    else AnalysisRows(reviews[..|reviews| - 1], classify) + ReviewRows(reviews[|reviews| - 1], classify)
  }

  /** Cutting the reviews into batches does not change the rows created. */
  lemma {:induction false} AnalysisRowsAppend(a: seq<Review>, b: seq<Review>, classify: Classifier)
    ensures AnalysisRows(a + b, classify) == AnalysisRows(a, classify) + AnalysisRows(b, classify)
  {
    if b != [] {
      assert (a + b)[..|a + b| - 1] == a + b[..|b| - 1];
      AnalysisRowsAppend(a, b[..|b| - 1], classify);
    } else {
      assert a + b == a;
    }
  }

  /** `x` is one entry of the classifier's answer for `r`. */
  predicate Answered(r: Review, x: LabelScore, classify: Classifier)
  {
    classify(r.text).Some? && x in classify(r.text).value
  }

  /** Row `s` records, for review `r`, a label of the classifier's answer
      with the label's last score in that answer. */
  predicate RecordsLabel(s: EmotionScore, r: Review, classify: Classifier)
  {
    && s.reviewId == r.id
    && classify(r.text).Some?
    && HasLabel(classify(r.text).value, s.emotion)
    && Some(s.score) == LastScore(classify(r.text).value, s.emotion)
  }

  /** Some row of `rows` records the label of `x` for `r`, with the label's
      last score in the answer. */
  predicate Covered(rows: seq<EmotionScore>, r: Review, x: LabelScore, classify: Classifier)
    requires Answered(r, x, classify)
  {
    exists s :: s in rows && s.emotion == x.emotion && RecordsLabel(s, r, classify)
  }

  /** No two rows hold the same (review, emotion) pair. */
  ghost predicate PairsDistinct(rows: seq<EmotionScore>)
  {
    forall i, j :: 0 <= i < j < |rows| ==> rows[i].reviewId != rows[j].reviewId || rows[i].emotion != rows[j].emotion
  }

  /** No two reviews share an id, as with the table's primary key. */
  ghost predicate IdsDistinct(reviews: seq<Review>)
  {
    forall i, j :: 0 <= i < j < |reviews| ==> reviews[i].id != reviews[j].id
  }

  /** The rows of one review: none when the analysis fails or answers no
      label; otherwise exactly one per label of the answer, each holding the
      label's last score. */
  lemma ReviewRowsCover(r: Review, classify: Classifier)
    ensures ReviewRows(r, classify) == [] <==> classify(r.text).None? || classify(r.text).value == []
    ensures PairsDistinct(ReviewRows(r, classify))
    ensures forall s :: s in ReviewRows(r, classify) ==> s.id == 0 && RecordsLabel(s, r, classify)
    ensures forall x :: Answered(r, x, classify) ==> Covered(ReviewRows(r, classify), r, x, classify)
  {
    var rows := ReviewRows(r, classify);
    if classify(r.text).Some? {
      var results := classify(r.text).value;
      ToDictCorrect(results);
      var d := ToDict(results);
      if results != [] {
        assert HasLabel(results, results[0].emotion);
        assert d != [];
      }
      forall s | s in rows
        ensures s.id == 0 && RecordsLabel(s, r, classify)
      {
        var j :| 0 <= j < |rows| && rows[j] == s;
        assert HasKey(d, d[j].0);
      }
      forall x | Answered(r, x, classify)
        ensures Covered(rows, r, x, classify)
      {
        assert HasLabel(results, x.emotion);
        var j :| 0 <= j < |d| && d[j].0 == x.emotion;
        assert rows[j] == EmotionScore(0, r.id, d[j].0, d[j].1);
        assert HasKey(d, d[j].0);
      }
    }
  }

  /** Every row created records, for one of the reviews, a label of that
      review's answer with the label's last score; a review whose analysis
      fails or answers no label contributes no row. */
  lemma {:induction false} AnalysisRowsRefer(reviews: seq<Review>, classify: Classifier)
    ensures forall s :: s in AnalysisRows(reviews, classify) ==> exists r :: r in reviews && RecordsLabel(s, r, classify)
  {
    if reviews != [] {
      var init := reviews[..|reviews| - 1];
      var last := reviews[|reviews| - 1];
      AnalysisRowsRefer(init, classify);
      ReviewRowsCover(last, classify);
      forall s | s in AnalysisRows(reviews, classify)
        ensures exists r :: r in reviews && RecordsLabel(s, r, classify)
      {
        if s in AnalysisRows(init, classify) {
          var r :| r in init && RecordsLabel(s, r, classify);
          assert r in reviews;
        } else {
          assert s in ReviewRows(last, classify);
          assert last in reviews;
        }
      }
    }
  }

  /** Every review of the run that the classifier answers gets a row for each
      label of the answer, holding the label's last score. */
  lemma {:induction false} AnalysisRowsCover(reviews: seq<Review>, classify: Classifier)
    ensures forall r, x :: r in reviews && Answered(r, x, classify) ==> Covered(AnalysisRows(reviews, classify), r, x, classify)
  {
    if reviews != [] {
      var init := reviews[..|reviews| - 1];
      var last := reviews[|reviews| - 1];
      AnalysisRowsCover(init, classify);
      var rows := AnalysisRows(reviews, classify);
      forall r, x | r in reviews && Answered(r, x, classify)
        ensures Covered(rows, r, x, classify)
      {
        if r in init {
          assert Covered(AnalysisRows(init, classify), r, x, classify);
          var s :| s in AnalysisRows(init, classify) && s.emotion == x.emotion && RecordsLabel(s, r, classify);
          assert s in rows;
        } else {
          assert r == last;
          ReviewRowsCover(r, classify);
          assert Covered(ReviewRows(r, classify), r, x, classify);
          var s :| s in ReviewRows(r, classify) && s.emotion == x.emotion && RecordsLabel(s, r, classify);
          assert s in rows;
        }
      }
    }
  }

  /** Two row lists without a (review, emotion) pair twice, and with no
      review in common, concatenate to one without a pair twice. */
  lemma PairsDistinctAppend(a: seq<EmotionScore>, b: seq<EmotionScore>)
    requires PairsDistinct(a) && PairsDistinct(b)
    requires forall x, y :: x in a && y in b ==> x.reviewId != y.reviewId
    ensures PairsDistinct(a + b)
  {
    var c := a + b;
    forall i, j | 0 <= i < j < |c|
      ensures c[i].reviewId != c[j].reviewId || c[i].emotion != c[j].emotion
    {
      if j < |a| {
        assert c[i] == a[i] && c[j] == a[j];
      } else if i >= |a| {
        assert c[i] == b[i - |a|] && c[j] == b[j - |a|];
      } else {
        assert c[i] in a && c[j] in b;
      }
    }
  }

  /** A review id that none of the reviews has appears in no row of the run. */
  lemma AnalysisRowsAvoid(reviews: seq<Review>, id: nat, classify: Classifier)
    requires forall r :: r in reviews ==> r.id != id
    ensures forall s :: s in AnalysisRows(reviews, classify) ==> s.reviewId != id
  {
    AnalysisRowsRefer(reviews, classify);
  }

  /** With distinct review ids, the run creates at most one row per
      (review, label): together with AnalysisRowsCover, exactly one. */
  lemma {:induction false} AnalysisRowsUnique(reviews: seq<Review>, classify: Classifier)
    requires IdsDistinct(reviews)
    ensures PairsDistinct(AnalysisRows(reviews, classify))
  {
    if reviews != [] {
      var init := reviews[..|reviews| - 1];
      var last := reviews[|reviews| - 1];
      assert IdsDistinct(init);
      AnalysisRowsUnique(init, classify);
      assert forall r :: r in init ==> r.id != last.id by {
        forall r | r in init ensures r.id != last.id {
          var k :| 0 <= k < |init| && init[k] == r;
          assert reviews[k] == r;
        }
      }
      AnalysisRowsAvoid(init, last.id, classify);
      ReviewRowsCover(last, classify);
      PairsDistinctAppend(AnalysisRows(init, classify), ReviewRows(last, classify));
    }
  }

  /** The reviews that are unprocessed keep the table's distinct ids. */
  lemma {:induction false} UnprocessedDistinct(reviews: seq<Review>, scores: seq<EmotionScore>)
    requires IdsDistinct(reviews)
    ensures IdsDistinct(Unprocessed(reviews, scores))
  {
    if reviews != [] {
      var init := reviews[..|reviews| - 1];
      var last := reviews[|reviews| - 1];
      assert IdsDistinct(init);
      UnprocessedDistinct(init, scores);
      var u := Unprocessed(init, scores);
      forall i | 0 <= i < |u|
        ensures u[i].id != last.id
      {
        assert u[i] in u;
        var k :| 0 <= k < |init| && init[k] == u[i];
        assert reviews[k] == u[i];
      }
    }
  }

  /** A run over a table with positional review ids adds no second row for a
      (review, emotion) pair: the new rows are distinct among themselves and
      refer only to reviews that had no row before. */
  lemma AnalysisRunDistinct(reviews: seq<Review>, scores: seq<EmotionScore>, classify: Classifier)
    requires ReviewIdsPositional(reviews) && PairsDistinct(scores)
    ensures PairsDistinct(scores + Renumbered(AnalysisRows(Unprocessed(reviews, scores), classify), |scores| + 1, WithScoreId))
  {
    var u := Unprocessed(reviews, scores);
    var rows := AnalysisRows(u, classify);
    var after := scores + Renumbered(rows, |scores| + 1, WithScoreId);
    assert IdsDistinct(reviews);
    UnprocessedDistinct(reviews, scores);
    AnalysisRowsUnique(u, classify);
    AnalysisRowsRefer(u, classify);
    forall i, j | 0 <= i < j < |after|
      ensures after[i].reviewId != after[j].reviewId || after[i].emotion != after[j].emotion
    {
      if i >= |scores| {
        assert after[i].reviewId == rows[i - |scores|].reviewId && after[i].emotion == rows[i - |scores|].emotion;
        assert after[j].reviewId == rows[j - |scores|].reviewId && after[j].emotion == rows[j - |scores|].emotion;
      } else if j >= |scores| {
        var s := rows[j - |scores|];
        assert s in rows;
        var r :| r in u && RecordsLabel(s, r, classify);
        assert !Processed(r, scores);
        assert after[i] == scores[i] && scores[i] in scores;
        assert after[j].reviewId == s.reviewId;
      }
    }
  }

  /** Saving `a` and then `b` numbers the rows as saving `a + b` at once. */
  lemma SavedAppend(scores: seq<EmotionScore>, a: seq<EmotionScore>, b: seq<EmotionScore>)
    ensures var before := scores + Renumbered(a, |scores| + 1, WithScoreId);
      scores + Renumbered(a + b, |scores| + 1, WithScoreId) == before + Renumbered(b, |before| + 1, WithScoreId)
  {
    RenumberedAppend(a, b, |scores| + 1, WithScoreId);
    var r1 := Renumbered(a, |scores| + 1, WithScoreId);
    var r2 := Renumbered(b, |scores| + |a| + 1, WithScoreId);
    assert scores + (r1 + r2) == (scores + r1) + r2;
  }

  /** The inner loop of analyze_reviews: the rows for one batch, review by
      review, one per item of its dict. */
  method AnalyzeBatch(batch: seq<Review>, classify: Classifier) returns (results: seq<EmotionScore>)
    ensures results == AnalysisRows(batch, classify)
  {
    results := [];
    for b := 0 to |batch|
      invariant results == AnalysisRows(batch[..b], classify)
    {
      var review := batch[b];
      var scores := AnalyzeText(classify, review.text);
      if scores.Some? && scores.value != [] {
        var rows := CreateScores(review.id, scores.value);
        assert ReviewRows(review, classify) == rows;
        results := results + rows;
      } else {
        assert ReviewRows(review, classify) == [];
      }
      assert batch[..b + 1][..b] == batch[..b];
    }
    assert batch[..|batch|] == batch;
  }

  /** `for emotion, score in emotion_scores.items()`: one EmotionScore per
      item, in dict order. */
  method CreateScores(reviewId: nat, d: Dict) returns (rows: seq<EmotionScore>)
    ensures rows == DictRows(reviewId, d)
  {
    rows := [];
    for j := 0 to |d|
      invariant rows == DictRows(reviewId, d[..j])
    {
      rows := rows + [EmotionScore(0, reviewId, d[j].0, d[j].1)];
      assert d[..j + 1][..j] == d[..j];
    }
    assert d[..|d|] == d;
  }

  /** One pass of the batch loop: analyse the batch, then
      `if results: bulk_save_objects(results); commit()`. */
  method SaveBatch(db: Database, classify: Classifier, batch: seq<Review>)
    requires db.Valid()
    modifies db`emotionScores
    ensures db.Valid()
    ensures db.emotionScores == old(db.emotionScores) +
      Renumbered(AnalysisRows(batch, classify), |old(db.emotionScores)| + 1, WithScoreId)
  {
    var results := AnalyzeBatch(batch, classify);
    if results != [] {
      var saved := db.AddScores(results);
    }
  }

  /** The score table once the reviews before position i are analysed
      and saved. */
  ghost function StoredUpTo(base: seq<EmotionScore>, u: seq<Review>, i: nat, classify: Classifier): seq<EmotionScore>
    requires i <= |u|
  {
    base + Renumbered(AnalysisRows(u[..i], classify), |base| + 1, WithScoreId)
  }

  /** Saving the rows of reviews i..end after those before i gives the
      table for the reviews before end. */
  lemma BatchSaved(base: seq<EmotionScore>, u: seq<Review>, i: nat, end: nat, classify: Classifier)
    requires i <= end <= |u|
    ensures StoredUpTo(base, u, end, classify) == StoredUpTo(base, u, i, classify) +
      Renumbered(AnalysisRows(u[i..end], classify), |StoredUpTo(base, u, i, classify)| + 1, WithScoreId)
  {
    assert u[..end] == u[..i] + u[i..end];
    AnalysisRowsAppend(u[..i], u[i..end], classify);
    SavedAppend(base, AnalysisRows(u[..i], classify), AnalysisRows(u[i..end], classify));
  }

  /** The batch loop of analyze_reviews for a positive batch size. The index
      steps by batchSize; stepping to min(i + batchSize, n) instead visits
      the same batches and ends the loop at the same point. */
  method ProcessBatches(db: Database, classify: Classifier, unprocessed: seq<Review>, batchSize: nat)
    requires db.Valid() && batchSize > 0
    modifies db`emotionScores
    ensures db.Valid()
    ensures db.emotionScores == old(db.emotionScores) +
      Renumbered(AnalysisRows(unprocessed, classify), |old(db.emotionScores)| + 1, WithScoreId)
  {
    var n := |unprocessed|;
    ghost var base := db.emotionScores;
    var i := 0;
    while i < n
      invariant 0 <= i <= n
      invariant db.Valid()
      invariant db.emotionScores == StoredUpTo(base, unprocessed, i, classify)
    {
      var end := if i + batchSize < n then i + batchSize else n;
      SaveBatch(db, classify, unprocessed[i..end]);
      BatchSaved(base, unprocessed, i, end, classify);
      i := end;
    }
    assert unprocessed[..n] == unprocessed;
  }

  /** analyze_reviews(batch_size). The unprocessed reviews are read once, up
      front; `range(0, n, batch_size)` raises ValueError for a zero step and is
      empty for a negative one. Each non-empty batch of rows is saved and
      committed before the next batch starts. */
  method AnalyzeReviews(db: Database, classify: Classifier, batchSize: int) returns (r: Outcome<nat>)
    requires db.Valid()
    modifies db`emotionScores
    ensures db.Valid()
    ensures batchSize == 0 ==> r == Raise(ValueError) && db.emotionScores == old(db.emotionScores)
    ensures batchSize < 0 ==> r == Ok(|Unprocessed(old(db.reviews), old(db.emotionScores))|) && db.emotionScores == old(db.emotionScores)
    ensures batchSize > 0 ==>
      && r == Ok(|Unprocessed(old(db.reviews), old(db.emotionScores))|)
      && db.emotionScores == old(db.emotionScores) +
           Renumbered(AnalysisRows(Unprocessed(old(db.reviews), old(db.emotionScores)), classify),
                      |old(db.emotionScores)| + 1, WithScoreId)
  {
    var unprocessed := Unprocessed(db.reviews, db.emotionScores);
    if batchSize == 0 {
      return Raise(ValueError);
    }
    if batchSize > 0 {
      ProcessBatches(db, classify, unprocessed, batchSize);
    }
    r := Ok(|unprocessed|);
  }

  /** After a run with a positive batch size, every review that was
      unprocessed and that the classifier answers with at least one label is
      processed, and the run returns how many reviews were unprocessed. */
  lemma AnalysisProcessesAll(reviews: seq<Review>, scores: seq<EmotionScore>, classify: Classifier, r: Review)
    requires r in Unprocessed(reviews, scores)
    requires classify(r.text).Some? && classify(r.text).value != []
    ensures Processed(r, scores + Renumbered(AnalysisRows(Unprocessed(reviews, scores), classify), |scores| + 1, WithScoreId))
  {
    var u := Unprocessed(reviews, scores);
    var rows := AnalysisRows(u, classify);
    AnalysisRowsCover(u, classify);
    var x := classify(r.text).value[0];
    assert Answered(r, x, classify);
    var s :| s in rows && s.reviewId == r.id && s.emotion == x.emotion;
    var k :| 0 <= k < |rows| && rows[k] == s;
    var after := scores + Renumbered(rows, |scores| + 1, WithScoreId);
    assert after[|scores| + k].reviewId == r.id;
  }
}
