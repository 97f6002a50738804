/** load_sample_data: seed an empty store with five London neighbourhoods,
    five venues, 3-5 reviews per venue, five keyword-derived emotion scores
    per review, and one hotspot per (neighbourhood, emotion) pair. Every
    random draw is a parameter. */
module DataLoader {
  import opened Common
  import opened Models
  import opened HeatmapScores

  const Emotions: seq<string> := ["joy", "excitement", "calm", "trust", "anticipation"]
  const PositiveKeywords: seq<string> := ["loved", "great", "peaceful", "amazing", "fantastic", "charming"]
  const NegativeKeywords: seq<string> := ["overrated", "crowded", "pricey"]

  const SampleTexts: seq<string> := [
    "I absolutely loved this place! The atmosphere was electric and everyone was so friendly.",
    "Great spot, but it does get crowded on weekends. Still worth it for the amazing sights!",
    "A peaceful oasis in the city. Highly recommend visiting in the morning.",
    "The experience exceeded my expectations, truly a must-visit!",
    "Fantastic place to spend an afternoon. The staff were incredibly helpful.",
    "A bit overrated in my opinion, but still enjoyed my time there.",
    "Such a charming location with lots of character.",
    "I felt so relaxed here, perfect escape from the busy city.",
    "The energy of this place is incredible! So much to see and do.",
    "A bit pricey but the experience is worth every penny."
  ]

  /** random.choice over sample_texts: the number of texts to choose from. */
  const SampleTextCount: nat := 10

  datatype NeighborhoodSeed = NeighborhoodSeed(name: string, lat: real, lng: real)

  const NeighborhoodSeeds: seq<NeighborhoodSeed> := [
    NeighborhoodSeed("Central London", 51.5074, -0.1278),
    NeighborhoodSeed("Westminster", 51.5012, -0.1426),
    NeighborhoodSeed("Shoreditch", 51.5177, -0.0753),
    NeighborhoodSeed("Camden", 51.5390, -0.1427),
    NeighborhoodSeed("South Bank", 51.5050, -0.1167)
  ]

  /** One entry of the venue_data list. */
  datatype VenueSeed = VenueSeed(name: string, address: string, lat: real, lng: real, category: string)

  const VenueSeeds: seq<VenueSeed> := [
    VenueSeed("The British Museum", "Great Russell St, London WC1B 3DG", 51.5194, -0.1270, "attractions"),
    VenueSeed("Tower of London", "Tower Hill, London EC3N 4AB", 51.5081, -0.0759, "attractions"),
    VenueSeed("The Shard", "32 London Bridge St, London SE1 9SG", 51.5045, -0.0865, "attractions"),
    VenueSeed("Camden Market", "Camden Lock Place, London NW1 8AF", 51.5415, -0.1466, "attractions"),
    VenueSeed("Dishoom Shoreditch", "7 Boundary St, London E2 7JE", 51.5266, -0.0784, "restaurants")
  ]

  /** The lengths of the two seed lists. */
  const NeighborhoodCount: nat := 5
  const VenueCount: nat := 5

  const SecondsPerDay: int := 86400

  /** The hotspot proximity test compares squared degree differences with 0.01. */
  const ProximitySquaredDegrees: real := 0.01

  // ---------------------------------------------------------------------------
  // Keyword scoring

  /** str.lower() on ASCII letters. */
  function LowerChar(c: char): char
  {
    if 'A' <= c <= 'Z' then (c as int - 'A' as int + 'a' as int) as char else c
  }

  function Lower(s: string): string
  {
    seq(|s|, i requires 0 <= i < |s| => LowerChar(s[i]))
  }

  /** sub occurs in s at position i. */
  predicate OccursAt(s: string, sub: string, i: int)
  {
    0 <= i && i + |sub| <= |s| && s[i..i + |sub|] == sub
  }

  /** Python's `sub in s` on strings. */
  function Contains(s: string, sub: string): (b: bool)
    ensures b <==> exists i :: OccursAt(s, sub, i)
    decreases |s|
  {
    if |sub| > |s| then false
    else if s[..|sub|] == sub then assert OccursAt(s, sub, 0); true
    else
      var r := Contains(s[1..], sub);
      assert forall i :: OccursAt(s, sub, i) && i >= 1 ==> OccursAt(s[1..], sub, i - 1);
      assert forall i :: OccursAt(s[1..], sub, i) ==> OccursAt(s, sub, i + 1);
      r
  }

  /** How many of the keywords occur in the text; each counts once however often it occurs. */
  function CountPresent(keywords: seq<string>, text: string): (n: nat)
    ensures n <= |keywords|
  {
    if keywords == [] then 0
    else CountPresent(keywords[..|keywords| - 1], text) + (if Contains(text, keywords[|keywords| - 1]) then 1 else 0)
  }

  /** The positions of the keywords that occur in the text. */
  ghost function PresentAt(keywords: seq<string>, text: string): set<nat>
  {
    set i: nat | i < |keywords| && Contains(text, keywords[i])
  }

  /** CountPresent is the number of keywords that occur, a keyword listed
      twice counting twice, as the loop over the list does. */
  lemma {:induction false} CountPresentCounts(keywords: seq<string>, text: string)
    ensures CountPresent(keywords, text) == |PresentAt(keywords, text)|
  {
    if keywords != [] {
      var init := keywords[..|keywords| - 1];
      CountPresentCounts(init, text);
      var a := PresentAt(init, text);
      var b := PresentAt(keywords, text);
      assert forall i :: 0 <= i < |init| ==> init[i] == keywords[i];
      if Contains(text, keywords[|keywords| - 1]) {
        assert b == a + {|init|};
        assert |init| !in a;
      } else {
        assert b == a;
      }
    }
  }

  /** 0.5, plus 0.1 per positive keyword and minus 0.05 per negative keyword
      that occurs in the lower-cased text. */
  function BaseScore(text: string): real
  {
    0.5 + 0.1 * (CountPresent(PositiveKeywords, Lower(text)) as real)
        - 0.05 * (CountPresent(NegativeKeywords, Lower(text)) as real)
  }

  /** min(max(x, 0.1), 0.95) */
  function Clamp(x: real): (c: real)
    ensures 0.1 <= c <= 0.95
    ensures 0.1 <= x <= 0.95 ==> c == x
    ensures x < 0.1 ==> c == 0.1
    ensures x > 0.95 ==> c == 0.95
  {
    var lo := if x > 0.1 then x else 0.1;
    if lo < 0.95 then lo else 0.95
  }

  /** The two keyword loops, accumulating into base_score. */
  method KeywordScore(text: string) returns (base: real)
    ensures base == BaseScore(text)
  {
    base := 0.5;
    for k := 0 to |PositiveKeywords|
      invariant base == 0.5 + 0.1 * (CountPresent(PositiveKeywords[..k], Lower(text)) as real)
    {
      assert PositiveKeywords[..k + 1][..k] == PositiveKeywords[..k];
      if Contains(Lower(text), PositiveKeywords[k]) {
        base := base + 0.1;
      }
    }
    assert PositiveKeywords[..|PositiveKeywords|] == PositiveKeywords;
    ghost var pos := base;
    for k := 0 to |NegativeKeywords|
      invariant base == pos - 0.05 * (CountPresent(NegativeKeywords[..k], Lower(text)) as real)
    {
      assert NegativeKeywords[..k + 1][..k] == NegativeKeywords[..k];
      if Contains(Lower(text), NegativeKeywords[k]) {
        base := base - 0.05;
      }
    }
    assert NegativeKeywords[..|NegativeKeywords|] == NegativeKeywords;
  }

  /** The base score lies in [0.5 - 3 * 0.05, 0.5 + 6 * 0.1]. */
  lemma BaseScoreRange(text: string)
    ensures 0.35 <= BaseScore(text) <= 1.1
  {
    var p := CountPresent(PositiveKeywords, Lower(text));
    var n := CountPresent(NegativeKeywords, Lower(text));
    assert p <= 6 && n <= 3;
  }

  lemma {:induction false} CountPresentSame(keywords: seq<string>, a: string, b: string)
    requires forall k :: k in keywords ==> (Contains(a, k) <==> Contains(b, k))
    ensures CountPresent(keywords, a) == CountPresent(keywords, b)
  {
    if keywords != [] {
      var init := keywords[..|keywords| - 1];
      assert forall k :: k in init ==> k in keywords;
      assert keywords[|keywords| - 1] in keywords;
      CountPresentSame(init, a, b);
    }
  }

  /** The base score depends only on which keywords occur, not on how often. */
  lemma BaseScoreByPresence(a: string, b: string)
    requires forall k :: k in PositiveKeywords + NegativeKeywords ==> (Contains(Lower(a), k) <==> Contains(Lower(b), k))
    ensures BaseScore(a) == BaseScore(b)
  {
    CountPresentSame(PositiveKeywords, Lower(a), Lower(b));
    CountPresentSame(NegativeKeywords, Lower(a), Lower(b));
  }

  // ---------------------------------------------------------------------------
  // Random draws

  /** One review: the index of random.choice(sample_texts) and randint(1, 90). */
  datatype ReviewDraw = ReviewDraw(textIndex: nat, daysAgo: int)

  /** The fallback of one hotspot: uniform(0.5, 0.9) and randint(5, 20). */
  datatype HotspotDraw = HotspotDraw(average: real, count: int)

  /** reviews[i] has one draw per review of venue i (its length is randint(3, 5));
      noise[k][e] is uniform(-0.1, 0.1) for review k and emotion e;
      hotspots[i][e] is the fallback for neighbourhood i and emotion e. */
  datatype Draws = Draws(reviews: seq<seq<ReviewDraw>>, noise: seq<seq<real>>, hotspots: seq<seq<HotspotDraw>>)

  predicate TextIndicesOk(ds: seq<seq<ReviewDraw>>)
  {
    forall i, j :: 0 <= i < |ds| && 0 <= j < |ds[i]| ==> ds[i][j].textIndex < SampleTextCount
  }

  function ReviewTotal(ds: seq<seq<ReviewDraw>>): nat
  {
    if ds == [] then 0 else ReviewTotal(ds[..|ds| - 1]) + |ds[|ds| - 1]|
  }

  /** The ranges Python's random module guarantees. */
  predicate ValidDraws(d: Draws)
  {
    && |d.reviews| == VenueCount
    && TextIndicesOk(d.reviews)
    && (forall i :: 0 <= i < |d.reviews| ==> 3 <= |d.reviews[i]| <= 5)
    && (forall i, j :: 0 <= i < |d.reviews| && 0 <= j < |d.reviews[i]| ==> 1 <= d.reviews[i][j].daysAgo <= 90)
    && |d.noise| == ReviewTotal(d.reviews)
    && (forall k :: 0 <= k < |d.noise| ==> |d.noise[k]| == |Emotions|)
    && (forall k, e :: 0 <= k < |d.noise| && 0 <= e < |d.noise[k]| ==> -0.1 <= d.noise[k][e] <= 0.1)
    && |d.hotspots| == NeighborhoodCount
    && (forall i :: 0 <= i < |d.hotspots| ==> |d.hotspots[i]| == |Emotions|)
    && (forall i, e :: 0 <= i < |d.hotspots| && 0 <= e < |d.hotspots[i]| ==>
          0.5 <= d.hotspots[i][e].average <= 0.9 && 5 <= d.hotspots[i][e].count <= 20)
  }

  // ---------------------------------------------------------------------------
  // The rows each phase creates (ids are assigned by the store on commit)

  function NeighborhoodRows(): seq<Neighborhood>
  {
    seq(|NeighborhoodSeeds|, i requires 0 <= i < |NeighborhoodSeeds| =>
      Neighborhood(0, NeighborhoodSeeds[i].name, "London",
                   Decoded(PointGeometry(NeighborhoodSeeds[i].lng, NeighborhoodSeeds[i].lat))))
  }

  function VenueOf(s: VenueSeed): Venue
  {
    Venue(0, s.name, Some(s.address), s.lat, s.lng, Some(s.category))
  }

  function ReviewOf(v: Venue, d: ReviewDraw, now: int): Review
    requires d.textIndex < SampleTextCount
  {
    Review(0, v.id, "sample", SampleTexts[d.textIndex], Some("Sample City"), Some(now - d.daysAgo * SecondsPerDay))
  }

  function VenueReviews(v: Venue, ds: seq<ReviewDraw>, now: int): seq<Review>
    requires forall j :: 0 <= j < |ds| ==> ds[j].textIndex < SampleTextCount
  {
    seq(|ds|, j requires 0 <= j < |ds| => ReviewOf(v, ds[j], now))
  }

  /** The reviews of every venue, venue by venue. */
  function SampleReviews(venues: seq<Venue>, ds: seq<seq<ReviewDraw>>, now: int): seq<Review>
    requires |ds| == |venues| && TextIndicesOk(ds)
  {
    if venues == [] then []
    else
      SampleReviews(venues[..|venues| - 1], ds[..|ds| - 1], now)
        + VenueReviews(venues[|venues| - 1], ds[|ds| - 1], now)
  }

  function ScoreOf(r: Review, emotion: string, noise: real): EmotionScore
  {
    EmotionScore(0, r.id, emotion, Clamp(BaseScore(r.text) + noise))
  }

  function ReviewScores(r: Review, noise: seq<real>): seq<EmotionScore>
    requires |noise| == |Emotions|
  {
    seq(|Emotions|, e requires 0 <= e < |Emotions| => ScoreOf(r, Emotions[e], noise[e]))
  }

  /** Five scores per review, review by review. */
  function SampleScores(reviews: seq<Review>, noise: seq<seq<real>>): seq<EmotionScore>
    requires |noise| == |reviews| && forall k :: 0 <= k < |noise| ==> |noise[k]| == |Emotions|
  {
    if reviews == [] then []
    else
      SampleScores(reviews[..|reviews| - 1], noise[..|noise| - 1])
        + ReviewScores(reviews[|reviews| - 1], noise[|noise| - 1])
  }

  function SquaredDegrees(v: Venue, lat: real, lng: real): real
  {
    (v.latitude - lat) * (v.latitude - lat) + (v.longitude - lng) * (v.longitude - lng)
  }

  /** The hotspot query: the scores of one emotion joined with their review and
      that review's venue, for venues closer than the squared-degree bound. */
  function ScoresWithin(snap: Snapshot, emotion: string, lat: real, lng: real): seq<real>
  {
    JoinedScores(snap.scores, snap.reviews, emotion, (r: Review) => VenueWithin(snap.venues, r.venueId, lat, lng))
  }

  /** Some venue with this id is closer than the squared-degree bound. */
  predicate VenueWithin(venues: seq<Venue>, venueId: nat, lat: real, lng: real)
  {
    exists v :: v in venues && v.id == venueId && SquaredDegrees(v, lat, lng) < ProximitySquaredDegrees
  }

  /** The hotspot for one pair: the query's mean and count, or the fallback draws. */
  function PairHotspot(n: Neighborhood, seed: NeighborhoodSeed, emotion: string, snap: Snapshot,
                       d: HotspotDraw, now: int): EmotionalHotspot
  {
    var scores := ScoresWithin(snap, emotion, seed.lat, seed.lng);
    if scores != [] then NewHotspot(0, n.id, emotion, Mean(scores), now, |scores|)
    else NewHotspot(0, n.id, emotion, d.average, now, d.count)
  }

  function NeighborhoodHotspots(n: Neighborhood, seed: NeighborhoodSeed, snap: Snapshot,
                                ds: seq<HotspotDraw>, now: int): seq<EmotionalHotspot>
    requires |ds| == |Emotions|
  {
    seq(|Emotions|, e requires 0 <= e < |Emotions| => PairHotspot(n, seed, Emotions[e], snap, ds[e], now))
  }

  /** Five hotspots per neighbourhood, neighbourhood by neighbourhood; the
      i-th neighbourhood is centred on the i-th seed. */
  function SeedHotspots(ns: seq<Neighborhood>, snap: Snapshot, ds: seq<seq<HotspotDraw>>, now: int): seq<EmotionalHotspot>
    requires |ns| <= NeighborhoodCount && |ds| == |ns|
    requires forall i :: 0 <= i < |ds| ==> |ds[i]| == |Emotions|
  {
    if ns == [] then []
    else
      SeedHotspots(ns[..|ns| - 1], snap, ds[..|ds| - 1], now)
        + NeighborhoodHotspots(ns[|ns| - 1], NeighborhoodSeeds[|ns| - 1], snap, ds[|ds| - 1], now)
  }

  // ---------------------------------------------------------------------------
  // The whole seeding, as a plan of the rows saved by each commit

  /** All five tables. */
  datatype Store = Store(
    neighborhoods: seq<Neighborhood>, venues: seq<Venue>, reviews: seq<Review>,
    scores: seq<EmotionScore>, hotspots: seq<EmotionalHotspot>)

  function StoreOf(db: Database): Store
    reads db
  {
    Store(db.neighborhoods, db.venues, db.reviews, db.emotionScores, db.hotspots)
  }

  /** The rows saved by the five commits, with their ids. */
  datatype Seed = Seed(
    neighborhoods: seq<Neighborhood>, venues: seq<Venue>, reviews: seq<Review>,
    scores: seq<EmotionScore>, hotspots: seq<EmotionalHotspot>)

  /** What the hotspot query sees: the tables after the first four commits. */
  function QuerySnapshot(before: Store, ns: seq<Neighborhood>, vs: seq<Venue>, rs: seq<Review>, ss: seq<EmotionScore>): Snapshot
  {
    Snapshot(before.neighborhoods + ns, before.venues + vs, before.reviews + rs, before.scores + ss)
  }

  function PlanNeighborhoods(before: Store): seq<Neighborhood>
  {
    Renumbered(NeighborhoodRows(), |before.neighborhoods| + 1, WithNeighborhoodId)
  }

  function VenueRows(): seq<Venue>
  {
    seq(|VenueSeeds|, i requires 0 <= i < |VenueSeeds| => VenueOf(VenueSeeds[i]))
  }

  function PlanVenues(before: Store): seq<Venue>
  {
    Renumbered(VenueRows(), |before.venues| + 1, WithVenueId)
  }

  function PlanReviews(before: Store, vs: seq<Venue>, draws: Draws, now: int): seq<Review>
    requires ValidDraws(draws) && |vs| == VenueCount
  {
    Renumbered(SampleReviews(vs, draws.reviews, now), |before.reviews| + 1, WithReviewId)
  }

  function PlanScores(before: Store, rs: seq<Review>, draws: Draws): seq<EmotionScore>
    requires ValidDraws(draws) && |rs| == ReviewTotal(draws.reviews)
  {
    Renumbered(SampleScores(rs, draws.noise), |before.scores| + 1, WithScoreId)
  }

  function PlanHotspots(before: Store, ns: seq<Neighborhood>, snap: Snapshot, draws: Draws, now: int): seq<EmotionalHotspot>
    requires ValidDraws(draws) && |ns| == NeighborhoodCount
  {
    Renumbered(SeedHotspots(ns, snap, draws.hotspots, now), |before.hotspots| + 1, WithHotspotId)
  }

  function PlanSeed(before: Store, draws: Draws, now: int): Seed
    requires ValidDraws(draws)
  {
    var ns := PlanNeighborhoods(before);
    var vs := PlanVenues(before);
    SampleReviewsCount(vs, draws.reviews, now);
    var rs := PlanReviews(before, vs, draws, now);
    var ss := PlanScores(before, rs, draws);
    var hs := PlanHotspots(before, ns, QuerySnapshot(before, ns, vs, rs, ss), draws, now);
    Seed(ns, vs, rs, ss, hs)
  }

  /** The store once the first k commits have gone through. */
  function Committed(before: Store, seed: Seed, k: nat): Store
  {
    Store(
      before.neighborhoods + (if k >= 1 then seed.neighborhoods else []),
      before.venues + (if k >= 2 then seed.venues else []),
      before.reviews + (if k >= 3 then seed.reviews else []),
      before.scores + (if k >= 4 then seed.scores else []),
      before.hotspots + (if k >= 5 then seed.hotspots else []))
  }

  /** The returned dict: the created counts, or the "already contains data" message. */
  datatype LoadResult = Loaded(neighborhoods: nat, venues: nat, reviews: nat, emotionScores: nat) | AlreadyLoaded

  // ---------------------------------------------------------------------------
  // The imperative code

  method BuildVenues() returns (venues: seq<Venue>)
    ensures venues == VenueRows()
  {
    venues := [];
    for i := 0 to |VenueSeeds|
      invariant venues == seq(i, j requires 0 <= j < i => VenueOf(VenueSeeds[j]))
    {
      venues := venues + [VenueOf(VenueSeeds[i])];
    }
    assert venues == VenueRows();
  }

  method BuildReviews(venues: seq<Venue>, ds: seq<seq<ReviewDraw>>, now: int) returns (reviews: seq<Review>)
    requires |ds| == |venues| && TextIndicesOk(ds)
    ensures reviews == SampleReviews(venues, ds, now)
  {
    reviews := [];
    for i := 0 to |venues|
      invariant reviews == SampleReviews(venues[..i], ds[..i], now)
    {
      var done := reviews;
      for j := 0 to |ds[i]|
        invariant reviews == done + VenueReviews(venues[i], ds[i][..j], now)
      {
        reviews := reviews + [ReviewOf(venues[i], ds[i][j], now)];
      }
      assert ds[i][..|ds[i]|] == ds[i];
      assert venues[..i + 1][..i] == venues[..i] && ds[..i + 1][..i] == ds[..i];
    }
    assert venues[..|venues|] == venues && ds[..|ds|] == ds;
  }

  method BuildScores(reviews: seq<Review>, noise: seq<seq<real>>) returns (scores: seq<EmotionScore>)
    requires |noise| == |reviews| && forall k :: 0 <= k < |noise| ==> |noise[k]| == |Emotions|
    ensures scores == SampleScores(reviews, noise)
  {
    scores := [];
    for k := 0 to |reviews|
      invariant scores == SampleScores(reviews[..k], noise[..k])
    {
      var done := scores;
      for e := 0 to |Emotions|
        invariant scores == done + ReviewScores(reviews[k], noise[k])[..e]
      {
        var base := KeywordScore(reviews[k].text);
        var score := Clamp(base + noise[k][e]);
        scores := scores + [EmotionScore(0, reviews[k].id, Emotions[e], score)];
        assert ReviewScores(reviews[k], noise[k])[..e + 1] == ReviewScores(reviews[k], noise[k])[..e] + [ScoreOf(reviews[k], Emotions[e], noise[k][e])];
      }
      assert reviews[..k + 1][..k] == reviews[..k] && noise[..k + 1][..k] == noise[..k];
    }
    assert reviews[..|reviews|] == reviews && noise[..|noise|] == noise;
  }

  /** One (neighbourhood, emotion) iteration: the query, then the mean and
      count of its scores or the random fallback. */
  method BuildPair(n: Neighborhood, seed: NeighborhoodSeed, emotion: string, snap: Snapshot, d: HotspotDraw, now: int)
    returns (h: EmotionalHotspot)
    ensures h == PairHotspot(n, seed, emotion, snap, d, now)
  {
    var scores := ScoresWithin(snap, emotion, seed.lat, seed.lng);
    var avg, count;
    if scores != [] {
      avg, count := Mean(scores), |scores|;
    } else {
      avg, count := d.average, d.count;
    }
    h := NewHotspot(0, n.id, emotion, avg, now, count);
  }

  /** The emotion loop for one neighbourhood. */
  method BuildNeighborhoodHotspots(n: Neighborhood, seed: NeighborhoodSeed, snap: Snapshot, ds: seq<HotspotDraw>, now: int)
    returns (hotspots: seq<EmotionalHotspot>)
    requires |ds| == |Emotions|
    ensures hotspots == NeighborhoodHotspots(n, seed, snap, ds, now)
  {
    hotspots := [];
    for e := 0 to |Emotions|
      invariant |hotspots| == e
      invariant forall k :: 0 <= k < e ==> hotspots[k] == PairHotspot(n, seed, Emotions[k], snap, ds[k], now)
    {
      var h := BuildPair(n, seed, Emotions[e], snap, ds[e], now);
      hotspots := hotspots + [h];
    }
  }

  /** The nested loop over neighbourhoods and emotions. */
  method BuildHotspots(snap: Snapshot, ns: seq<Neighborhood>, ds: seq<seq<HotspotDraw>>, now: int)
    returns (hotspots: seq<EmotionalHotspot>)
    requires |ns| <= NeighborhoodCount && |ds| == |ns|
    requires forall i :: 0 <= i < |ds| ==> |ds[i]| == |Emotions|
    ensures hotspots == SeedHotspots(ns, snap, ds, now)
  {
    hotspots := [];
    for i := 0 to |ns|
      invariant hotspots == SeedHotspots(ns[..i], snap, ds[..i], now)
    {
      var block := BuildNeighborhoodHotspots(ns[i], NeighborhoodSeeds[i], snap, ds[i], now);
      hotspots := hotspots + block;
      assert ns[..i + 1][..i] == ns[..i] && ds[..i + 1][..i] == ds[..i];
    }
    assert ns[..|ns|] == ns && ds[..|ds|] == ds;
  }

  /** The plan, phase by phase: what `PlanSeed` computes, stated one phase at
      a time so that each commit step relies only on the rows of its own phase. */
  ghost predicate NeighborhoodsPlanned(before: Store, seed: Seed)
  {
    seed.neighborhoods == Renumbered(NeighborhoodRows(), |before.neighborhoods| + 1, WithNeighborhoodId)
  }

  ghost predicate VenuesPlanned(before: Store, seed: Seed)
  {
    seed.venues == Renumbered(VenueRows(), |before.venues| + 1, WithVenueId)
  }

  ghost predicate ReviewsPlanned(before: Store, seed: Seed, draws: Draws, now: int)
  {
    && |seed.venues| == |draws.reviews| && TextIndicesOk(draws.reviews)
    && seed.reviews == Renumbered(SampleReviews(seed.venues, draws.reviews, now), |before.reviews| + 1, WithReviewId)
  }

  ghost predicate ScoresPlanned(before: Store, seed: Seed, draws: Draws)
  {
    && |seed.reviews| == |draws.noise| && (forall k :: 0 <= k < |draws.noise| ==> |draws.noise[k]| == |Emotions|)
    && seed.scores == Renumbered(SampleScores(seed.reviews, draws.noise), |before.scores| + 1, WithScoreId)
  }

  /** The hotspot rows of the plan are those the hotspot loop builds over the
      tables of the first four commits, numbered after the existing ones. */
  ghost predicate HotspotsPlanned(before: Store, seed: Seed, draws: Draws, now: int)
    requires ValidDraws(draws)
  {
    && |seed.neighborhoods| == NeighborhoodCount
    && seed.hotspots == Renumbered(
         SeedHotspots(seed.neighborhoods, QuerySnapshot(before, seed.neighborhoods, seed.venues, seed.reviews, seed.scores),
                      draws.hotspots, now),
         |before.hotspots| + 1, WithHotspotId)
  }

  lemma PlanSeedPlanned(before: Store, draws: Draws, now: int)
    requires ValidDraws(draws)
    ensures var seed := PlanSeed(before, draws, now);
      && NeighborhoodsPlanned(before, seed) && VenuesPlanned(before, seed)
      && ReviewsPlanned(before, seed, draws, now) && ScoresPlanned(before, seed, draws)
      && HotspotsPlanned(before, seed, draws, now)
  {
    SampleReviewsCount(PlanVenues(before), draws.reviews, now);
  }

  /** One `add_all` + `commit` step: create the rows of phase k and save them,
      taking the store from k - 1 commits of the plan to k. */
  method CommitNeighborhoods(db: Database, draws: Draws, now: int, ghost before: Store, ghost seed: Seed)
    returns (saved: seq<Neighborhood>)
    requires db.Valid() && ValidDraws(draws) && NeighborhoodsPlanned(before, seed)
    requires StoreOf(db) == Committed(before, seed, 0)
    modifies db`neighborhoods
    ensures db.Valid()
    ensures StoreOf(db) == Committed(before, seed, 1)
    ensures saved == seed.neighborhoods
  {
    saved := db.AddNeighborhoods(NeighborhoodRows());
  }

  method CommitVenues(db: Database, draws: Draws, now: int, ghost before: Store, ghost seed: Seed)
    returns (saved: seq<Venue>)
    requires db.Valid() && ValidDraws(draws) && VenuesPlanned(before, seed)
    requires StoreOf(db) == Committed(before, seed, 1)
    modifies db`venues
    ensures db.Valid()
    ensures StoreOf(db) == Committed(before, seed, 2)
    ensures saved == seed.venues
  {
    var rows := BuildVenues();
    saved := db.AddVenues(rows);
  }

  method CommitReviews(db: Database, draws: Draws, now: int, ghost before: Store, ghost seed: Seed, vs: seq<Venue>)
    returns (saved: seq<Review>)
    requires db.Valid() && ValidDraws(draws) && ReviewsPlanned(before, seed, draws, now)
    requires StoreOf(db) == Committed(before, seed, 2)
    requires vs == seed.venues
    modifies db`reviews
    ensures db.Valid()
    ensures StoreOf(db) == Committed(before, seed, 3)
    ensures saved == seed.reviews
  {
    var rows := BuildReviews(vs, draws.reviews, now);
    saved := db.AddReviews(rows);
  }

  method CommitScores(db: Database, draws: Draws, now: int, ghost before: Store, ghost seed: Seed, rs: seq<Review>)
    returns (saved: seq<EmotionScore>)
    requires db.Valid() && ValidDraws(draws) && ScoresPlanned(before, seed, draws)
    requires StoreOf(db) == Committed(before, seed, 3)
    requires rs == seed.reviews
    modifies db`emotionScores
    ensures db.Valid()
    ensures StoreOf(db) == Committed(before, seed, 4)
    ensures saved == seed.scores
  {
    var rows := BuildScores(rs, draws.noise);
    saved := db.AddScores(rows);
  }

  /** The hotspot loop queries the store as the first four commits left it;
      its rows are committed only when `commitSucceeds`. */
  method CommitHotspots(db: Database, draws: Draws, now: int, ghost before: Store, ghost seed: Seed,
                        ns: seq<Neighborhood>, commitSucceeds: bool)
    requires db.Valid() && ValidDraws(draws) && HotspotsPlanned(before, seed, draws, now)
    requires StoreOf(db) == Committed(before, seed, 4)
    requires ns == seed.neighborhoods
    modifies db`hotspots
    ensures db.Valid()
    ensures StoreOf(db) == Committed(before, seed, if commitSucceeds then 5 else 4)
  {
    assert db.Tables() == QuerySnapshot(before, seed.neighborhoods, seed.venues, seed.reviews, seed.scores);
    var rows := BuildHotspots(db.Tables(), ns, draws.hotspots, now);
    if commitSucceeds {
      var saved := db.AddHotspots(rows);
    }
  }

  /** The five `add_all` + `commit` steps of the plan, stopping at the first
      commit that fails. */
  method RunCommits(db: Database, draws: Draws, now: int, ghost before: Store, ghost seed: Seed, commits: nat)
    returns (r: Outcome<LoadResult>)
    requires db.Valid() && ValidDraws(draws)
    requires NeighborhoodsPlanned(before, seed) && VenuesPlanned(before, seed)
    requires ReviewsPlanned(before, seed, draws, now) && ScoresPlanned(before, seed, draws)
    requires HotspotsPlanned(before, seed, draws, now)
    requires StoreOf(db) == before
    modifies db`neighborhoods, db`venues, db`reviews, db`emotionScores, db`hotspots
    ensures db.Valid()
    ensures StoreOf(db) == Committed(before, seed, if commits < 5 then commits else 5)
    ensures r == if commits >= 5
                 then Ok(Loaded(|seed.neighborhoods|, |seed.venues|, |seed.reviews|, |seed.scores|))
                 else Raise(Exception)
  {
    if commits < 1 {
      return Raise(Exception);
    }
    var ns := CommitNeighborhoods(db, draws, now, before, seed);
    if commits < 2 {
      return Raise(Exception);
    }
    var vs := CommitVenues(db, draws, now, before, seed);
    if commits < 3 {
      return Raise(Exception);
    }
    var rs := CommitReviews(db, draws, now, before, seed, vs);
    if commits < 4 {
      return Raise(Exception);
    }
    var ss := CommitScores(db, draws, now, before, seed, rs);
    CommitHotspots(db, draws, now, before, seed, ns, commits >= 5);
    if commits < 5 {
      return Raise(Exception);
    }
    r := Ok(Loaded(|ns|, |vs|, |rs|, |ss|));
  }

  /** load_sample_data. `commits` is how many of the five commits succeed;
      when one fails, the session rolls back what it had not committed yet
      and a wrapped Exception is raised, so earlier commits stay. */
  method LoadSampleData(db: Database, draws: Draws, now: int, commits: nat) returns (r: Outcome<LoadResult>)
    requires db.Valid() && ValidDraws(draws)
    modifies db`neighborhoods, db`venues, db`reviews, db`emotionScores, db`hotspots
    ensures db.Valid()
    ensures old(|db.venues|) != 0 ==> r == Ok(AlreadyLoaded) && StoreOf(db) == old(StoreOf(db))
    ensures old(|db.venues|) == 0 ==>
      var seed := PlanSeed(old(StoreOf(db)), draws, now);
      && StoreOf(db) == Committed(old(StoreOf(db)), seed, if commits < 5 then commits else 5)
      && r == if commits >= 5
              then Ok(Loaded(|seed.neighborhoods|, |seed.venues|, |seed.reviews|, |seed.scores|))
              else Raise(Exception)
  {
    if |db.venues| != 0 {
      return Ok(AlreadyLoaded);
    }
    PlanSeedPlanned(StoreOf(db), draws, now);
    r := RunCommits(db, draws, now, StoreOf(db), PlanSeed(StoreOf(db), draws, now), commits);
  }

  // ---------------------------------------------------------------------------
  // Properties of the plan

  lemma {:induction false} SampleReviewsCount(venues: seq<Venue>, ds: seq<seq<ReviewDraw>>, now: int)
    requires |ds| == |venues| && TextIndicesOk(ds)
    ensures |SampleReviews(venues, ds, now)| == ReviewTotal(ds)
  {
    if venues != [] {
      SampleReviewsCount(venues[..|venues| - 1], ds[..|ds| - 1], now);
    }
  }
}
