/** What load_sample_data creates: the shape of each list, the per-review
    and per-venue counts, the score range, and one hotspot per
    (neighbourhood, emotion) pair. */
module SeedProperties {
  import opened Common
  import opened Models
  import opened HeatmapScores
  import opened DataLoader

  // ---------------------------------------------------------------------------
  // Scores

  /** The final score of any review for any emotion lies in [0.1, 0.95], and
      inside that range it is the base score plus the noise. */
  lemma ScoreInRange(r: Review, emotion: string, noise: real)
    requires -0.1 <= noise <= 0.1
    ensures 0.1 <= ScoreOf(r, emotion, noise).score <= 0.95
    ensures 0.1 <= BaseScore(r.text) + noise <= 0.95 ==> ScoreOf(r, emotion, noise).score == BaseScore(r.text) + noise
    ensures ScoreOf(r, emotion, noise).reviewId == r.id && ScoreOf(r, emotion, noise).emotion == emotion
  {
    BaseScoreRange(r.text);
  }

  lemma {:induction false} SampleScoresLength(reviews: seq<Review>, noise: seq<seq<real>>)
    requires |noise| == |reviews| && forall k :: 0 <= k < |noise| ==> |noise[k]| == |Emotions|
    ensures |SampleScores(reviews, noise)| == 5 * |reviews|
  {
    if reviews != [] {
      SampleScoresLength(reviews[..|reviews| - 1], noise[..|noise| - 1]);
    }
  }

  /** Score 5 * i + e is the score of review i for emotion e. */
  lemma {:induction false} ScoreAt(reviews: seq<Review>, noise: seq<seq<real>>, i: nat, e: nat)
    requires |noise| == |reviews| && forall k :: 0 <= k < |noise| ==> |noise[k]| == |Emotions|
    requires i < |reviews| && e < 5
    ensures 5 * i + e < |SampleScores(reviews, noise)|
    ensures SampleScores(reviews, noise)[5 * i + e] == ScoreOf(reviews[i], Emotions[e], noise[i][e])
  {
    var init, ninit := reviews[..|reviews| - 1], noise[..|noise| - 1];
    SampleScoresLength(init, ninit);
    var last := ReviewScores(reviews[|reviews| - 1], noise[|noise| - 1]);
    assert SampleScores(reviews, noise) == SampleScores(init, ninit) + last;
    if i < |init| {
      ScoreAt(init, ninit, i, e);
    } else {
      assert last[e] == ScoreOf(reviews[i], Emotions[e], noise[i][e]);
    }
  }

  lemma SampleScoresShape(reviews: seq<Review>, noise: seq<seq<real>>)
    requires |noise| == |reviews| && forall k :: 0 <= k < |noise| ==> |noise[k]| == |Emotions|
    ensures |SampleScores(reviews, noise)| == 5 * |reviews|
    ensures forall i, e :: 0 <= i < |reviews| && 0 <= e < 5 ==>
      SampleScores(reviews, noise)[5 * i + e] == ScoreOf(reviews[i], Emotions[e], noise[i][e])
  {
    SampleScoresLength(reviews, noise);
    forall i, e | 0 <= i < |reviews| && 0 <= e < 5
      ensures SampleScores(reviews, noise)[5 * i + e] == ScoreOf(reviews[i], Emotions[e], noise[i][e])
    {
      ScoreAt(reviews, noise, i, e);
    }
  }

  /** Every review gets exactly five scores, one per emotion in the fixed
      order, all carrying its id, each in [0.1, 0.95]; with distinct review
      ids, the scores of review i are exactly positions 5 * i to 5 * i + 4. */
  lemma {:induction false} SampleScoresPerReview(reviews: seq<Review>, noise: seq<seq<real>>)
    requires |noise| == |reviews| && forall k :: 0 <= k < |noise| ==> |noise[k]| == |Emotions|
    requires forall k, e :: 0 <= k < |noise| && 0 <= e < |noise[k]| ==> -0.1 <= noise[k][e] <= 0.1
    ensures var ss := SampleScores(reviews, noise);
      && |ss| == 5 * |reviews|
      && forall k :: 0 <= k < |ss| ==>
           && ss[k].reviewId == reviews[k / 5].id
           && ss[k].emotion == Emotions[k % 5]
           && 0.1 <= ss[k].score <= 0.95
    ensures (forall i, j :: 0 <= i < j < |reviews| ==> reviews[i].id != reviews[j].id) ==>
      forall i, k :: 0 <= i < |reviews| && 0 <= k < |SampleScores(reviews, noise)| ==>
        (SampleScores(reviews, noise)[k].reviewId == reviews[i].id <==> 5 * i <= k < 5 * i + 5)
  {
    SampleScoresLength(reviews, noise);
    var ss := SampleScores(reviews, noise);
    forall k | 0 <= k < |ss|
      ensures ss[k].reviewId == reviews[k / 5].id && ss[k].emotion == Emotions[k % 5] && 0.1 <= ss[k].score <= 0.95
    {
      var i, e := k / 5, k % 5;
      assert k == 5 * i + e;
      ScoreAt(reviews, noise, i, e);
      ScoreInRange(reviews[i], Emotions[e], noise[i][e]);
    }
    if forall i, j :: 0 <= i < j < |reviews| ==> reviews[i].id != reviews[j].id {
      forall i, k | 0 <= i < |reviews| && 0 <= k < |ss|
        ensures ss[k].reviewId == reviews[i].id <==> 5 * i <= k < 5 * i + 5
      {
        var q := k / 5;
        assert 5 * q <= k < 5 * q + 5;
        if q < i {
          assert reviews[q].id != reviews[i].id;
          assert !(5 * i <= k);
        } else if q > i {
          assert reviews[i].id != reviews[q].id;
          assert !(k < 5 * i + 5);
        }
      }
    }
  }

  // ---------------------------------------------------------------------------
  // Reviews

  lemma {:induction false} ReviewTotalBounds(ds: seq<seq<ReviewDraw>>)
    requires forall i :: 0 <= i < |ds| ==> 3 <= |ds[i]| <= 5
    ensures 3 * |ds| <= ReviewTotal(ds) <= 5 * |ds|
  {
    if ds != [] {
      ReviewTotalBounds(ds[..|ds| - 1]);
    }
  }

  lemma {:induction false} ReviewTotalPrefix(ds: seq<seq<ReviewDraw>>, i: nat)
    requires i < |ds|
    ensures ReviewTotal(ds[..i]) + |ds[i]| <= ReviewTotal(ds)
  {
    var dinit := ds[..|ds| - 1];
    if i < |dinit| {
      assert dinit[..i] == ds[..i];
      ReviewTotalPrefix(dinit, i);
    } else {
      assert ds[..i] == dinit;
    }
  }

  /** Review ReviewTotal(ds[..i]) + j is venue i's j-th review. */
  lemma {:induction false} ReviewAt(venues: seq<Venue>, ds: seq<seq<ReviewDraw>>, now: int, i: nat, j: nat)
    requires |ds| == |venues| && TextIndicesOk(ds)
    requires i < |venues| && j < |ds[i]|
    ensures ReviewTotal(ds[..i]) + j < ReviewTotal(ds) == |SampleReviews(venues, ds, now)|
    ensures SampleReviews(venues, ds, now)[ReviewTotal(ds[..i]) + j] == ReviewOf(venues[i], ds[i][j], now)
  {
    SampleReviewsCount(venues, ds, now);
    var vinit, dinit := venues[..|venues| - 1], ds[..|ds| - 1];
    SampleReviewsCount(vinit, dinit, now);
    var last := VenueReviews(venues[|venues| - 1], ds[|ds| - 1], now);
    assert SampleReviews(venues, ds, now) == SampleReviews(vinit, dinit, now) + last;
    assert ReviewTotal(ds) == ReviewTotal(dinit) + |ds[|ds| - 1]|;
    if i < |vinit| {
      assert dinit[..i] == ds[..i];
      ReviewAt(vinit, dinit, now, i, j);
    } else {
      assert ds[..i] == dinit;
      assert last[j] == ReviewOf(venues[i], ds[i][j], now);
    }
  }

  /** Venue i's reviews are the block of |ds[i]| reviews that starts after
      those of the venues before it. */
  lemma SampleReviewsShape(venues: seq<Venue>, ds: seq<seq<ReviewDraw>>, now: int)
    requires |ds| == |venues| && TextIndicesOk(ds)
    ensures |SampleReviews(venues, ds, now)| == ReviewTotal(ds)
    ensures forall i :: 0 <= i < |venues| ==> ReviewTotal(ds[..i]) + |ds[i]| <= ReviewTotal(ds)
    ensures forall i, j :: 0 <= i < |venues| && 0 <= j < |ds[i]| ==>
      SampleReviews(venues, ds, now)[ReviewTotal(ds[..i]) + j] == ReviewOf(venues[i], ds[i][j], now)
  {
    SampleReviewsCount(venues, ds, now);
    forall i | 0 <= i < |venues|
      ensures ReviewTotal(ds[..i]) + |ds[i]| <= ReviewTotal(ds)
    {
      ReviewTotalPrefix(ds, i);
    }
    forall i, j | 0 <= i < |venues| && 0 <= j < |ds[i]|
      ensures SampleReviews(venues, ds, now)[ReviewTotal(ds[..i]) + j] == ReviewOf(venues[i], ds[i][j], now)
    {
      ReviewAt(venues, ds, now, i, j);
    }
  }

  /** Every created review is a "sample" review of one of the venues, with
      one of the sample texts, dated 1 to 90 days before now. */
  lemma {:induction false} SampleReviewsFacts(venues: seq<Venue>, ds: seq<seq<ReviewDraw>>, now: int)
    requires |ds| == |venues| && TextIndicesOk(ds)
    requires forall i, j :: 0 <= i < |ds| && 0 <= j < |ds[i]| ==> 1 <= ds[i][j].daysAgo <= 90
    ensures forall r :: r in SampleReviews(venues, ds, now) ==>
      && r.source == "sample" && r.text in SampleTexts && r.reviewerLocation == Some("Sample City")
      && (exists v :: v in venues && v.id == r.venueId)
      && r.reviewDate.Some? && now - 90 * SecondsPerDay <= r.reviewDate.value <= now - SecondsPerDay
  {
    if venues != [] {
      var vinit, dinit := venues[..|venues| - 1], ds[..|ds| - 1];
      var v := venues[|venues| - 1];
      SampleReviewsFacts(vinit, dinit, now);
      assert forall x :: x in vinit ==> x in venues;
      var rs := SampleReviews(venues, ds, now);
      var last := VenueReviews(v, ds[|ds| - 1], now);
      forall r | r in rs
        ensures && r.source == "sample" && r.text in SampleTexts && r.reviewerLocation == Some("Sample City")
                && (exists v :: v in venues && v.id == r.venueId)
                && r.reviewDate.Some? && now - 90 * SecondsPerDay <= r.reviewDate.value <= now - SecondsPerDay
      {
        if r in SampleReviews(vinit, dinit, now) {
        } else {
          assert r in last;
          var j :| 0 <= j < |last| && last[j] == r;
          var d := ds[|ds| - 1][j];
          assert 1 <= d.daysAgo <= 90;
          assert r.reviewDate == Some(now - d.daysAgo * SecondsPerDay);
          assert v in venues;
        }
      }
    }
  }

  /** The number of reviews of one venue. */
  function CountFor(rs: seq<Review>, venueId: int): nat
  {
    if rs == [] then 0
    else CountFor(rs[..|rs| - 1], venueId) + (if rs[|rs| - 1].venueId == venueId then 1 else 0)
  }

  lemma {:induction false} CountForAppend(a: seq<Review>, b: seq<Review>, venueId: int)
    ensures CountFor(a + b, venueId) == CountFor(a, venueId) + CountFor(b, venueId)
  {
    if b == [] {
      assert a + b == a;
    } else {
      assert (a + b)[..|a + b| - 1] == a + b[..|b| - 1];
      CountForAppend(a, b[..|b| - 1], venueId);
    }
  }

  lemma {:induction false} CountForVenue(v: Venue, ds: seq<ReviewDraw>, now: int, venueId: int)
    requires forall j :: 0 <= j < |ds| ==> ds[j].textIndex < SampleTextCount
    ensures CountFor(VenueReviews(v, ds, now), venueId) == if venueId == v.id then |ds| else 0
  {
    if ds != [] {
      var init := ds[..|ds| - 1];
      assert VenueReviews(v, ds, now)[..|ds| - 1] == VenueReviews(v, init, now);
      CountForVenue(v, init, now, venueId);
    }
  }

  /** With distinct venue ids, venue i has exactly |ds[i]| reviews. */
  lemma {:induction false} ReviewsPerVenue(venues: seq<Venue>, ds: seq<seq<ReviewDraw>>, now: int, i: nat)
    requires |ds| == |venues| && TextIndicesOk(ds) && i < |venues|
    requires forall a, b :: 0 <= a < b < |venues| ==> venues[a].id != venues[b].id
    ensures CountFor(SampleReviews(venues, ds, now), venues[i].id) == |ds[i]|
  {
    ghost var k := |venues| - 1;
    var vinit, dinit := venues[..k], ds[..k];
    CountForAppend(SampleReviews(vinit, dinit, now), VenueReviews(venues[k], ds[k], now), venues[i].id);
    CountForVenue(venues[k], ds[k], now, venues[i].id);
    if i < k {
      ReviewsPerVenue(vinit, dinit, now, i);
    } else {
      NoReviewsFor(vinit, dinit, now, venues[i].id);
    }
  }

  /** A venue id no venue has gets no review. */
  lemma {:induction false} NoReviewsFor(venues: seq<Venue>, ds: seq<seq<ReviewDraw>>, now: int, venueId: int)
    requires |ds| == |venues| && TextIndicesOk(ds)
    requires forall a :: 0 <= a < |venues| ==> venues[a].id != venueId
    ensures CountFor(SampleReviews(venues, ds, now), venueId) == 0
  {
    if venues != [] {
      ghost var k := |venues| - 1;
      CountForAppend(SampleReviews(venues[..k], ds[..k], now), VenueReviews(venues[k], ds[k], now), venueId);
      CountForVenue(venues[k], ds[k], now, venueId);
      NoReviewsFor(venues[..k], ds[..k], now, venueId);
    }
  }

  // ---------------------------------------------------------------------------
  // Hotspots

  lemma {:induction false} SeedHotspotsLength(ns: seq<Neighborhood>, snap: Snapshot, ds: seq<seq<HotspotDraw>>, now: int)
    requires |ns| <= NeighborhoodCount && |ds| == |ns|
    requires forall i :: 0 <= i < |ds| ==> |ds[i]| == |Emotions|
    ensures |SeedHotspots(ns, snap, ds, now)| == 5 * |ns|
  {
    if ns != [] {
      SeedHotspotsLength(ns[..|ns| - 1], snap, ds[..|ds| - 1], now);
    }
  }

  /** Hotspot 5 * i + e is neighbourhood i's hotspot for emotion e. */
  lemma {:induction false} HotspotAt(ns: seq<Neighborhood>, snap: Snapshot, ds: seq<seq<HotspotDraw>>, now: int, i: nat, e: nat)
    requires |ns| <= NeighborhoodCount && |ds| == |ns|
    requires forall i :: 0 <= i < |ds| ==> |ds[i]| == |Emotions|
    requires i < |ns| && e < 5
    ensures 5 * i + e < |SeedHotspots(ns, snap, ds, now)|
    ensures SeedHotspots(ns, snap, ds, now)[5 * i + e] == PairHotspot(ns[i], NeighborhoodSeeds[i], Emotions[e], snap, ds[i][e], now)
  {
    var ninit, dinit := ns[..|ns| - 1], ds[..|ds| - 1];
    SeedHotspotsLength(ninit, snap, dinit, now);
    var last := NeighborhoodHotspots(ns[|ns| - 1], NeighborhoodSeeds[|ns| - 1], snap, ds[|ds| - 1], now);
    assert SeedHotspots(ns, snap, ds, now) == SeedHotspots(ninit, snap, dinit, now) + last;
    if i < |ninit| {
      HotspotAt(ninit, snap, dinit, now, i, e);
    } else {
      assert last[e] == PairHotspot(ns[i], NeighborhoodSeeds[i], Emotions[e], snap, ds[i][e], now);
    }
  }

  /** One pair's hotspot: the pair's key, a zero id before commit, the
      current time, and either the mean and number of the scores from
      venues strictly closer than 0.01 squared degrees (a mean that lies
      between their least and greatest) or, when there are none, the drawn
      fallback. */
  lemma PairHotspotValues(n: Neighborhood, seed: NeighborhoodSeed, emotion: string, snap: Snapshot,
                          d: HotspotDraw, now: int)
    ensures var h := PairHotspot(n, seed, emotion, snap, d, now);
      var scores := ScoresWithin(snap, emotion, seed.lat, seed.lng);
      && h.neighborhoodId == n.id && h.emotion == emotion && h.lastUpdated == now
      && (scores != [] ==> h.averageScore == Mean(scores) && h.reviewCount == |scores| >= 1
                           && Min(scores) <= h.averageScore <= Max(scores))
      && (scores == [] ==> h.averageScore == d.average && h.reviewCount == d.count)
  {
    var scores := ScoresWithin(snap, emotion, seed.lat, seed.lng);
    if scores != [] {
      MeanWithinMinMax(scores);
    }
  }

  lemma HotspotKey(ns: seq<Neighborhood>, snap: Snapshot, ds: seq<seq<HotspotDraw>>, now: int, i: nat, e: nat)
    requires |ns| <= NeighborhoodCount && |ds| == |ns|
    requires forall i :: 0 <= i < |ds| ==> |ds[i]| == |Emotions|
    requires i < |ns| && e < 5
    ensures 5 * i + e < |SeedHotspots(ns, snap, ds, now)|
    ensures SeedHotspots(ns, snap, ds, now)[5 * i + e].neighborhoodId == ns[i].id
    ensures SeedHotspots(ns, snap, ds, now)[5 * i + e].emotion == Emotions[e]
  {
    HotspotAt(ns, snap, ds, now, i, e);
    PairHotspotValues(ns[i], NeighborhoodSeeds[i], Emotions[e], snap, ds[i][e], now);
  }

  /** With distinct neighbourhood ids, the seeded hotspots cover every
      (neighbourhood, emotion) pair once and no pair twice. */
  lemma {:induction false} HotspotPairsUnique(ns: seq<Neighborhood>, snap: Snapshot, ds: seq<seq<HotspotDraw>>, now: int)
    requires |ns| <= NeighborhoodCount && |ds| == |ns|
    requires forall i :: 0 <= i < |ds| ==> |ds[i]| == |Emotions|
    requires forall a, b :: 0 <= a < b < |ns| ==> ns[a].id != ns[b].id
    ensures var hs := SeedHotspots(ns, snap, ds, now);
      && |hs| == 5 * |ns|
      && (forall k :: 0 <= k < |hs| ==> hs[k].neighborhoodId == ns[k / 5].id && hs[k].emotion == Emotions[k % 5])
      && forall k1, k2 :: 0 <= k1 < k2 < |hs| ==>
            !(hs[k1].neighborhoodId == hs[k2].neighborhoodId && hs[k1].emotion == hs[k2].emotion)
  {
    SeedHotspotsLength(ns, snap, ds, now);
    var hs := SeedHotspots(ns, snap, ds, now);
    forall k | 0 <= k < |hs|
      ensures hs[k].neighborhoodId == ns[k / 5].id && hs[k].emotion == Emotions[k % 5]
    {
      assert k == 5 * (k / 5) + k % 5;
      HotspotKey(ns, snap, ds, now, k / 5, k % 5);
    }
    forall k1, k2 | 0 <= k1 < k2 < |hs|
      ensures !(hs[k1].neighborhoodId == hs[k2].neighborhoodId && hs[k1].emotion == hs[k2].emotion)
    {
      HotspotsDiffer(ns, snap, ds, now, k1, k2);
    }
  }

  lemma HotspotsDiffer(ns: seq<Neighborhood>, snap: Snapshot, ds: seq<seq<HotspotDraw>>, now: int, k1: nat, k2: nat)
    requires |ns| <= NeighborhoodCount && |ds| == |ns|
    requires forall i :: 0 <= i < |ds| ==> |ds[i]| == |Emotions|
    requires forall a, b :: 0 <= a < b < |ns| ==> ns[a].id != ns[b].id
    requires k1 < k2 < |SeedHotspots(ns, snap, ds, now)|
    ensures var hs := SeedHotspots(ns, snap, ds, now);
      !(hs[k1].neighborhoodId == hs[k2].neighborhoodId && hs[k1].emotion == hs[k2].emotion)
  {
    SeedHotspotsLength(ns, snap, ds, now);
    var i1, e1 := k1 / 5, k1 % 5;
    var i2, e2 := k2 / 5, k2 % 5;
    assert k1 == 5 * i1 + e1 && k2 == 5 * i2 + e2;
    HotspotKey(ns, snap, ds, now, i1, e1);
    HotspotKey(ns, snap, ds, now, i2, e2);
    if i1 == i2 {
      assert e1 != e2;
      assert Emotions[e1] != Emotions[e2];
    } else {
      assert i1 < i2;
      assert ns[i1].id != ns[i2].id;
    }
  }

  // ---------------------------------------------------------------------------
  // The whole seed

  /** Each seeded neighbourhood's boundary decodes to its seed's centre, so
      the heatmap's scoring step centres it where the seed says. */
  lemma SeedCentres()
    ensures |NeighborhoodRows()| == 5
    ensures forall i :: 0 <= i < 5 ==>
      NumericCentre(NeighborhoodRows()[i].boundary) == Some((NeighborhoodSeeds[i].lat, NeighborhoodSeeds[i].lng))
  {
    forall i | 0 <= i < 5
      ensures NumericCentre(NeighborhoodRows()[i].boundary) == Some((NeighborhoodSeeds[i].lat, NeighborhoodSeeds[i].lng))
    {
      var s := NeighborhoodSeeds[i];
      var members := map["type" := JStr("Point"), "coordinates" := JArr([JNum(s.lng), JNum(s.lat)])];
      PointCentre(NeighborhoodRows()[i], s.lng, s.lat, [], members);
    }
  }

  /** The seeded hotspot table: 25 rows, row k for the k-th saved
      neighbourhood and the (k mod 5)-th emotion, and no (neighbourhood,
      emotion) pair twice. */
  lemma SeedHotspotPairs(before: Store, draws: Draws, now: int)
    requires ValidDraws(draws)
    ensures var seed := PlanSeed(before, draws, now);
      var hs := seed.hotspots;
      && |seed.neighborhoods| == 5 && |hs| == 25
      && (forall k :: 0 <= k < |hs| ==> hs[k].neighborhoodId == seed.neighborhoods[k / 5].id && hs[k].emotion == Emotions[k % 5])
      && forall k1, k2 :: 0 <= k1 < k2 < |hs| ==>
            !(hs[k1].neighborhoodId == hs[k2].neighborhoodId && hs[k1].emotion == hs[k2].emotion)
  {
    var seed := PlanSeed(before, draws, now);
    PlanSeedPlanned(before, draws, now);
    var ns := seed.neighborhoods;
    var snap := QuerySnapshot(before, ns, seed.venues, seed.reviews, seed.scores);
    assert forall a, b :: 0 <= a < b < |ns| ==> ns[a].id != ns[b].id;
    HotspotPairsUnique(ns, snap, draws.hotspots, now);
  }

  /** The sizes of the five lists and, so, of the returned counts: 5
      neighbourhoods, 5 venues, 15 to 25 reviews, five scores per review
      and 25 hotspots. */
  lemma SeedSizes(before: Store, draws: Draws, now: int)
    requires ValidDraws(draws)
    ensures var seed := PlanSeed(before, draws, now);
      && |seed.neighborhoods| == 5 && |seed.venues| == 5
      && 15 <= |seed.reviews| <= 25
      && |seed.scores| == 5 * |seed.reviews|
      && |seed.hotspots| == 25
  {
    var seed := PlanSeed(before, draws, now);
    ReviewTotalBounds(draws.reviews);
    SampleReviewsCount(seed.venues, draws.reviews, now);
    SampleScoresLength(seed.reviews, draws.noise);
    SeedHotspotsLength(seed.neighborhoods, QuerySnapshot(before, seed.neighborhoods, seed.venues, seed.reviews, seed.scores), draws.hotspots, now);
  }

  /** Each seeded venue has between 3 and 5 reviews. */
  lemma SeedReviewsPerVenue(before: Store, draws: Draws, now: int, i: nat)
    requires ValidDraws(draws) && i < 5
    ensures var seed := PlanSeed(before, draws, now);
      3 <= CountFor(seed.reviews, seed.venues[i].id) <= 5
  {
    var vs := PlanVenues(before);
    SampleReviewsCount(vs, draws.reviews, now);
    var rows := SampleReviews(vs, draws.reviews, now);
    ReviewsPerVenue(vs, draws.reviews, now, i);
    var rs := Renumbered(rows, |before.reviews| + 1, WithReviewId);
    RenumberedKeepsVenues(rows, |before.reviews| + 1, vs[i].id);
  }

  /** Numbering the reviews does not change which venue they belong to. */
  lemma {:induction false} RenumberedKeepsVenues(rows: seq<Review>, first: nat, venueId: int)
    ensures CountFor(Renumbered(rows, first, WithReviewId), venueId) == CountFor(rows, venueId)
  {
    if rows != [] {
      var init := rows[..|rows| - 1];
      assert Renumbered(rows, first, WithReviewId)[..|rows| - 1] == Renumbered(init, first, WithReviewId);
      RenumberedKeepsVenues(init, first, venueId);
    }
  }
}
