/** ReviewSidebar: the reviews of the clicked location, most positive first
    for the selected emotion. */
module ReviewSidebar {
  import opened Common

  /** `{emotion, score}` as the reviews endpoint sends it. */
  datatype ScoreEntry = ScoreEntry(emotion: string, score: real)

  /** A review as the frontend receives it (types.ts `Review`). */
  datatype UiReview = UiReview(id: int, text: string, date: string, emotionScores: seq<ScoreEntry>, hotspotId: int)

  /** `emotion_scores.find(s => s.emotion === emotion)`: the first entry for the emotion. */
  function FindScore(scores: seq<ScoreEntry>, emotion: string): (r: Option<ScoreEntry>)
    ensures r.Some? <==> exists i :: 0 <= i < |scores| && scores[i].emotion == emotion
    ensures r.Some? ==> exists i :: 0 <= i < |scores| && scores[i] == r.value &&
                          scores[i].emotion == emotion && forall j :: 0 <= j < i ==> scores[j].emotion != emotion
  {
    if scores == [] then None
    else if scores[0].emotion == emotion then Some(scores[0])
    else
      var r := FindScore(scores[1..], emotion);
      assert forall i :: 1 <= i < |scores| ==> scores[i] == scores[1..][i - 1];
      r
  }

  /** What getEmotionScore shows: '0' without an entry, otherwise the first
      entry's score as a percentage (the one-decimal formatting is not modelled). */
  datatype ScoreLabel = NoScore | Percent(value: real)

  function GetEmotionScore(review: UiReview, emotion: string): (l: ScoreLabel)
    ensures l == NoScore <==> forall i :: 0 <= i < |review.emotionScores| ==> review.emotionScores[i].emotion != emotion
    ensures l.Percent? ==> l.value == FindScore(review.emotionScores, emotion).value.score * 100.0
  {
    match FindScore(review.emotionScores, emotion)
    case None => NoScore
    case Some(s) => Percent(s.score * 100.0)
  }

  /** `find(...)?.score || 0`: the first entry's score, 0 when there is none
      (a score of 0 is falsy and also gives 0). */
  function SortKey(review: UiReview, emotion: string): (k: real)
    ensures FindScore(review.emotionScores, emotion).None? ==> k == 0.0
    ensures FindScore(review.emotionScores, emotion).Some? ==> k == FindScore(review.emotionScores, emotion).value.score
  {
    match FindScore(review.emotionScores, emotion)
    case None => 0.0
    case Some(s) => if s.score != 0.0 then s.score else 0.0
  }

  /** Non-increasing by the key of the selected emotion. */
  ghost predicate SortedDesc(s: seq<UiReview>, emotion: string)
  {
    forall i, j :: 0 <= i < j < |s| ==> SortKey(s[i], emotion) >= SortKey(s[j], emotion)
  }

  /** Place x before the first review whose key is not greater than its own. */
  function Insert(x: UiReview, s: seq<UiReview>, emotion: string): seq<UiReview>
  {
    if s == [] then [x]
    else if SortKey(x, emotion) >= SortKey(s[0], emotion) then [x] + s
    else [s[0]] + Insert(x, s[1..], emotion)
  }

  /** `[...reviews].sort((a, b) => scoreB - scoreA)`. Array.prototype.sort is
      stable, so reviews with equal keys keep their order; inserting each
      review, from the last to the first, in front of the reviews with keys
      not greater than its own gives that order. */
  function SortReviews(reviews: seq<UiReview>, emotion: string): seq<UiReview>
  {
    if reviews == [] then []
    else Insert(reviews[0], SortReviews(reviews[1..], emotion), emotion)
  }

  lemma {:induction false} InsertPermutes(x: UiReview, s: seq<UiReview>, emotion: string)
    ensures multiset(Insert(x, s, emotion)) == multiset(s) + multiset{x}
    ensures |Insert(x, s, emotion)| == |s| + 1
  {
    if s != [] && SortKey(x, emotion) < SortKey(s[0], emotion) {
      assert s == [s[0]] + s[1..];
      InsertPermutes(x, s[1..], emotion);
    }
  }

  /** A review no greater than the head of a sorted list can go in front of it. */
  lemma SortedCons(h: UiReview, s: seq<UiReview>, emotion: string)
    requires SortedDesc(s, emotion)
    requires forall k :: 0 <= k < |s| ==> SortKey(s[k], emotion) <= SortKey(h, emotion)
    ensures SortedDesc([h] + s, emotion)
  {
    var u := [h] + s;
    forall i, j | 0 <= i < j < |u| ensures SortKey(u[i], emotion) >= SortKey(u[j], emotion) {
      assert u[j] == s[j - 1];
      if i > 0 {
        assert u[i] == s[i - 1];
      }
    }
  }

  /** Inserting keeps every key under a bound the inputs are under. */
  lemma {:induction false} InsertBounded(x: UiReview, s: seq<UiReview>, emotion: string, bound: real)
    requires SortKey(x, emotion) <= bound
    requires forall k :: 0 <= k < |s| ==> SortKey(s[k], emotion) <= bound
    ensures forall k :: 0 <= k < |Insert(x, s, emotion)| ==> SortKey(Insert(x, s, emotion)[k], emotion) <= bound
  {
    if s != [] && SortKey(x, emotion) < SortKey(s[0], emotion) {
      var t := s[1..];
      assert forall k :: 0 <= k < |t| ==> t[k] == s[k + 1];
      InsertBounded(x, t, emotion, bound);
      var u := [s[0]] + Insert(x, t, emotion);
      assert forall k :: 1 <= k < |u| ==> u[k] == Insert(x, t, emotion)[k - 1];
    } else if s != [] {
      var u := [x] + s;
      assert forall k :: 1 <= k < |u| ==> u[k] == s[k - 1];
    }
  }

  lemma {:induction false} InsertSorted(x: UiReview, s: seq<UiReview>, emotion: string)
    requires SortedDesc(s, emotion)
    ensures SortedDesc(Insert(x, s, emotion), emotion)
  {
    if s == [] {
    } else if SortKey(x, emotion) < SortKey(s[0], emotion) {
      var t := s[1..];
      assert forall k :: 0 <= k < |t| ==> t[k] == s[k + 1];
      InsertSorted(x, t, emotion);
      InsertBounded(x, t, emotion, SortKey(s[0], emotion));
      SortedCons(s[0], Insert(x, t, emotion), emotion);
    } else {
      SortedCons(x, s, emotion);
    }
  }

  /** sortedReviews is a permutation of the reviews, ordered non-increasingly
      by the selected emotion's score. */
  lemma {:induction false} SortReviewsCorrect(reviews: seq<UiReview>, emotion: string)
    ensures multiset(SortReviews(reviews, emotion)) == multiset(reviews)
    ensures |SortReviews(reviews, emotion)| == |reviews|
    ensures SortedDesc(SortReviews(reviews, emotion), emotion)
  {
    if reviews != [] {
      assert reviews == [reviews[0]] + reviews[1..];
      SortReviewsCorrect(reviews[1..], emotion);
      InsertPermutes(reviews[0], SortReviews(reviews[1..], emotion), emotion);
      InsertSorted(reviews[0], SortReviews(reviews[1..], emotion), emotion);
    }
  }

  /** The reviews whose key is c, in their order in s. */
  function WithKey(s: seq<UiReview>, emotion: string, c: real): seq<UiReview>
  {
    if s == [] then []
    else (if SortKey(s[0], emotion) == c then [s[0]] else []) + WithKey(s[1..], emotion, c)
  }

  lemma {:induction false} InsertWithKey(x: UiReview, s: seq<UiReview>, emotion: string, c: real)
    ensures WithKey(Insert(x, s, emotion), emotion, c) ==
            (if SortKey(x, emotion) == c then [x] else []) + WithKey(s, emotion, c)
  {
    if s == [] {
      assert [x][1..] == [];
    } else if SortKey(x, emotion) >= SortKey(s[0], emotion) {
      assert ([x] + s)[1..] == s;
    } else {
      var rest := Insert(x, s[1..], emotion);
      InsertWithKey(x, s[1..], emotion, c);
      assert ([s[0]] + rest)[1..] == rest;
      assert WithKey(Insert(x, s, emotion), emotion, c)
          == (if SortKey(s[0], emotion) == c then [s[0]] else []) + WithKey(rest, emotion, c);
      // x and s[0] have different keys here, so at most one of them has key c
      assert SortKey(x, emotion) != SortKey(s[0], emotion);
    }
  }

  /** The sort is stable: for every key, the reviews with that key come out
      in their input order. */
  lemma {:induction false} SortReviewsStable(reviews: seq<UiReview>, emotion: string, c: real)
    ensures WithKey(SortReviews(reviews, emotion), emotion, c) == WithKey(reviews, emotion, c)
  {
    if reviews != [] {
      SortReviewsStable(reviews[1..], emotion, c);
      InsertWithKey(reviews[0], SortReviews(reviews[1..], emotion), emotion, c);
    }
  }

  /** What the sidebar shows: loading wins over the empty placeholder, and
      only a non-empty list is sorted. */
  datatype SidebarView = Loading | Placeholder | ReviewList(reviews: seq<UiReview>)

  function View(reviews: seq<UiReview>, isLoading: bool, emotion: string): (v: SidebarView)
    ensures isLoading ==> v == Loading
    ensures !isLoading && reviews == [] ==> v == Placeholder
    ensures !isLoading && reviews != [] ==>
      && v.ReviewList?
      && multiset(v.reviews) == multiset(reviews)
      && SortedDesc(v.reviews, emotion)
  {
    if isLoading then Loading
    else if reviews == [] then Placeholder
    else
      SortReviewsCorrect(reviews, emotion);
      ReviewList(SortReviews(reviews, emotion))
  }
}
