/** The persisted entities (Venue, Review, EmotionScore, Neighborhood,
    EmotionalHotspot) and the in-memory store that holds one table of each. */
module Models {
  import opened Common

  /** A decoded JSON value, as Python's json.loads returns it: objects are
      dicts keyed by strings, numbers are taken as exact reals. */
  datatype Json =
    | JNull
    | JBool(b: bool)
    | JNum(n: real)
    | JStr(s: string)
    | JArr(items: seq<Json>)
    | JObj(members: map<string, Json>)

  /** The text column Neighborhood.boundary after json.loads: SQL NULL (the
      column is nullable), text that json.loads rejects, or a decoded value. */
  datatype Boundary = NullBoundary | Malformed | Decoded(json: Json)

  /** A GeoJSON Point, as json.loads returns it; its coordinates are longitude first. */
  function PointGeometry(lng: real, lat: real): Json
  {
    JObj(map["type" := JStr("Point"), "coordinates" := JArr([JNum(lng), JNum(lat)])])
  }

  /** Latitude and longitude are mandatory floats; address and category may be NULL. */
  datatype Venue = Venue(
    id: nat, name: string, address: Option<string>,
    latitude: real, longitude: real, category: Option<string>)

  /** A review belongs to exactly one venue and always has a source and a text.
      The review date is a timestamp in seconds, or NULL. */
  datatype Review = Review(
    id: nat, venueId: nat, source: string, text: string,
    reviewerLocation: Option<string>, reviewDate: Option<int>)

  /** One emotion label and its score for one review; all three are mandatory. */
  datatype EmotionScore = EmotionScore(id: nat, reviewId: nat, emotion: string, score: real)

  datatype Neighborhood = Neighborhood(id: nat, name: string, city: string, boundary: Boundary)

  /** An aggregated (neighbourhood, emotion) row. No uniqueness of
      (neighborhoodId, emotion) is declared, so a table may hold duplicates.
      lastUpdated is a timestamp set only by the insert default. */
  datatype EmotionalHotspot = EmotionalHotspot(
    id: nat, neighborhoodId: nat, emotion: string,
    averageScore: real, reviewCount: int, lastUpdated: int)

  /** The review_count column defaults to 0 when a row is created without one. */
  function NewHotspot(id: nat, neighborhoodId: nat, emotion: string, averageScore: real,
                      now: int, reviewCount: int := 0): EmotionalHotspot
  {
    EmotionalHotspot(id, neighborhoodId, emotion, averageScore, reviewCount, now)
  }

  /** The tables the aggregation reads, as one consistent snapshot. */
  datatype Snapshot = Snapshot(
    neighborhoods: seq<Neighborhood>, venues: seq<Venue>,
    reviews: seq<Review>, scores: seq<EmotionScore>)

  /** The score column of `EmotionScore JOIN Review ON Review.id == EmotionScore.review_id`
      restricted to one emotion label and to reviews that satisfy `reviewOk`,
      in the order of the score table. With primary keys unique, each score
      row joins with at most one review. */
  function JoinedScores(scores: seq<EmotionScore>, reviews: seq<Review>, emotion: string,
                        reviewOk: Review -> bool): (r: seq<real>)
    ensures |r| <= |scores|
    ensures forall x :: x in r <==> Joined(scores, reviews, emotion, reviewOk, x)
  {
    if scores == [] then []
    else
      var init := scores[..|scores| - 1];
      var s := scores[|scores| - 1];
      var rest := JoinedScores(init, reviews, emotion, reviewOk);
      assert forall t :: t in scores <==> t in init || t == s;
      if s.emotion == emotion && JoinsReview(reviews, s.reviewId, reviewOk)
      then rest + [s.score]
      else rest
  }

  /** Some review that passes the filter has this id. */
  predicate JoinsReview(reviews: seq<Review>, reviewId: nat, reviewOk: Review -> bool)
  {
    exists rv :: rv in reviews && rv.id == reviewId && reviewOk(rv)
  }

  /** Some score row of the emotion with value x joins a review that passes the filter. */
  ghost predicate Joined(scores: seq<EmotionScore>, reviews: seq<Review>, emotion: string,
                         reviewOk: Review -> bool, x: real)
  {
    exists s :: s in scores && s.emotion == emotion && s.score == x && JoinsReview(reviews, s.reviewId, reviewOk)
  }

  /** The positions of the score rows that take part in the join. */
  ghost function JoiningRows(scores: seq<EmotionScore>, reviews: seq<Review>, emotion: string,
                             reviewOk: Review -> bool): set<nat>
  {
    set i: nat | i < |scores| && scores[i].emotion == emotion && JoinsReview(reviews, scores[i].reviewId, reviewOk)
  }

  /** The join yields one score per joining score row: duplicates are kept,
      so len() of the result counts the matched rows. */
  lemma {:induction false} JoinedScoresCount(scores: seq<EmotionScore>, reviews: seq<Review>, emotion: string,
                                             reviewOk: Review -> bool)
    ensures |JoinedScores(scores, reviews, emotion, reviewOk)| == |JoiningRows(scores, reviews, emotion, reviewOk)|
  {
    if scores != [] {
      var init := scores[..|scores| - 1];
      var s := scores[|scores| - 1];
      JoinedScoresCount(init, reviews, emotion, reviewOk);
      var a := JoiningRows(init, reviews, emotion, reviewOk);
      var b := JoiningRows(scores, reviews, emotion, reviewOk);
      assert forall i :: 0 <= i < |init| ==> init[i] == scores[i];
      if s.emotion == emotion && JoinsReview(reviews, s.reviewId, reviewOk) {
        assert b == a + {|init|};
        assert |init| !in a;
      } else {
        assert b == a;
      }
    }
  }

  /** rows with ids first, first + 1, ... assigned in order, as the store does on insert. */
  function Renumbered<T>(rows: seq<T>, first: nat, withId: (T, nat) -> T): (r: seq<T>)
    ensures |r| == |rows|
    ensures forall i :: 0 <= i < |rows| ==> r[i] == withId(rows[i], first + i)
  {
    seq(|rows|, i requires 0 <= i < |rows| => withId(rows[i], first + i))
  }

  lemma RenumberedAppend<T>(a: seq<T>, b: seq<T>, first: nat, withId: (T, nat) -> T)
    ensures Renumbered(a + b, first, withId)
         == Renumbered(a, first, withId) + Renumbered(b, first + |a|, withId)
  {
    var l := Renumbered(a + b, first, withId);
    var r := Renumbered(a, first, withId) + Renumbered(b, first + |a|, withId);
    assert |l| == |r|;
    forall i | 0 <= i < |l| ensures l[i] == r[i] {
      if i >= |a| { assert (a + b)[i] == b[i - |a|]; }
    }
  }

  function WithVenueId(v: Venue, id: nat): Venue { v.(id := id) }
  function WithReviewId(r: Review, id: nat): Review { r.(id := id) }
  function WithScoreId(s: EmotionScore, id: nat): EmotionScore { s.(id := id) }
  function WithNeighborhoodId(n: Neighborhood, id: nat): Neighborhood { n.(id := id) }
  function WithHotspotId(h: EmotionalHotspot, id: nat): EmotionalHotspot { h.(id := id) }

  // Saving rows: the k-th saved row has id first + k and every other column
  // of the k-th row given.

  lemma RenumberedVenues(rows: seq<Venue>, first: nat)
    ensures var saved := Renumbered(rows, first, WithVenueId);
      forall k :: 0 <= k < |rows| ==> saved[k].id == first + k && saved[k].(id := rows[k].id) == rows[k]
  {}

  lemma RenumberedReviews(rows: seq<Review>, first: nat)
    ensures var saved := Renumbered(rows, first, WithReviewId);
      forall k :: 0 <= k < |rows| ==> saved[k].id == first + k && saved[k].(id := rows[k].id) == rows[k]
  {}

  lemma RenumberedScores(rows: seq<EmotionScore>, first: nat)
    ensures var saved := Renumbered(rows, first, WithScoreId);
      forall k :: 0 <= k < |rows| ==> saved[k].id == first + k && saved[k].(id := rows[k].id) == rows[k]
  {}

  lemma RenumberedNeighborhoods(rows: seq<Neighborhood>, first: nat)
    ensures var saved := Renumbered(rows, first, WithNeighborhoodId);
      forall k :: 0 <= k < |rows| ==> saved[k].id == first + k && saved[k].(id := rows[k].id) == rows[k]
  {}

  lemma RenumberedHotspots(rows: seq<EmotionalHotspot>, first: nat)
    ensures var saved := Renumbered(rows, first, WithHotspotId);
      forall k :: 0 <= k < |rows| ==> saved[k].id == first + k && saved[k].(id := rows[k].id) == rows[k]
  {}

  /** Ids are 1, 2, 3, ... in insertion order: the autoincrement primary key
      of a table from which nothing is ever deleted. */
  ghost predicate VenueIdsPositional(t: seq<Venue>) { forall i :: 0 <= i < |t| ==> t[i].id == i + 1 }
  ghost predicate ReviewIdsPositional(t: seq<Review>) { forall i :: 0 <= i < |t| ==> t[i].id == i + 1 }
  ghost predicate ScoreIdsPositional(t: seq<EmotionScore>) { forall i :: 0 <= i < |t| ==> t[i].id == i + 1 }
  ghost predicate NeighborhoodIdsPositional(t: seq<Neighborhood>) { forall i :: 0 <= i < |t| ==> t[i].id == i + 1 }
  ghost predicate HotspotIdsPositional(t: seq<EmotionalHotspot>) { forall i :: 0 <= i < |t| ==> t[i].id == i + 1 }

  /** The relational store: one table per entity. Each insert method is one
      `add_all` followed by `commit`; primary keys are assigned on commit. */
  class Database {
    var neighborhoods: seq<Neighborhood>
    var venues: seq<Venue>
    var reviews: seq<Review>
    var emotionScores: seq<EmotionScore>
    var hotspots: seq<EmotionalHotspot>

    /** Every table's primary keys are its autoincrement ids. */
    ghost predicate Valid()
      reads this
    {
      && NeighborhoodIdsPositional(neighborhoods)
      && VenueIdsPositional(venues)
      && ReviewIdsPositional(reviews)
      && ScoreIdsPositional(emotionScores)
      && HotspotIdsPositional(hotspots)
    }

    function Tables(): (s: Snapshot)
      reads this
      ensures s.neighborhoods == neighborhoods && s.venues == venues
      ensures s.reviews == reviews && s.scores == emotionScores
    {
      Snapshot(neighborhoods, venues, reviews, emotionScores)
    }

    constructor ()
      ensures Valid()
      ensures neighborhoods == [] && venues == [] && reviews == []
      ensures emotionScores == [] && hotspots == []
    {
      neighborhoods, venues, reviews, emotionScores, hotspots := [], [], [], [], [];
    }

    method AddNeighborhoods(rows: seq<Neighborhood>) returns (saved: seq<Neighborhood>)
      requires Valid()
      modifies this`neighborhoods
      ensures Valid()
      ensures saved == Renumbered(rows, |old(neighborhoods)| + 1, WithNeighborhoodId)
      ensures neighborhoods == old(neighborhoods) + saved
    {
      saved := Renumbered(rows, |neighborhoods| + 1, WithNeighborhoodId);
      neighborhoods := neighborhoods + saved;
    }

    method AddVenues(rows: seq<Venue>) returns (saved: seq<Venue>)
      requires Valid()
      modifies this`venues
      ensures Valid()
      ensures saved == Renumbered(rows, |old(venues)| + 1, WithVenueId)
      ensures venues == old(venues) + saved
    {
      saved := Renumbered(rows, |venues| + 1, WithVenueId);
      venues := venues + saved;
    }

    method AddReviews(rows: seq<Review>) returns (saved: seq<Review>)
      requires Valid()
      modifies this`reviews
      ensures Valid()
      ensures saved == Renumbered(rows, |old(reviews)| + 1, WithReviewId)
      ensures reviews == old(reviews) + saved
    {
      saved := Renumbered(rows, |reviews| + 1, WithReviewId);
      reviews := reviews + saved;
    }

    method AddScores(rows: seq<EmotionScore>) returns (saved: seq<EmotionScore>)
      requires Valid()
      modifies this`emotionScores
      ensures Valid()
      ensures saved == Renumbered(rows, |old(emotionScores)| + 1, WithScoreId)
      ensures emotionScores == old(emotionScores) + saved
    {
      saved := Renumbered(rows, |emotionScores| + 1, WithScoreId);
      emotionScores := emotionScores + saved;
    }

    method AddHotspots(rows: seq<EmotionalHotspot>) returns (saved: seq<EmotionalHotspot>)
      requires Valid()
      modifies this`hotspots
      ensures Valid()
      ensures saved == Renumbered(rows, |old(hotspots)| + 1, WithHotspotId)
      ensures hotspots == old(hotspots) + saved
    {
      saved := Renumbered(rows, |hotspots| + 1, WithHotspotId);
      hotspots := hotspots + saved;
    }
  }
}
