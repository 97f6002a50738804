/** HeatmapGenerator.generate: score the neighbourhoods, store the hotspots,
    and return the GeoJSON, or the demo data when there is nothing to show or
    a step fails. */
module Heatmap {
  import opened Common
  import opened Models
  import opened HeatmapScores
  import opened HotspotStore
  import opened HeatmapGeoJson

  /** What one call returns and what it leaves in the hotspot table. */
  datatype Generated = Generated(heatmap: FeatureCollection, hotspots: seq<EmotionalHotspot>)

  /** generate(emotion) on the tables `snap` and `hotspots`. An exception from
      the hotspot update (a failed commit, which then changes nothing) or
      from rendering is caught and answered with the fallback data. */
  function GenerateSpec(snap: Snapshot, hotspots: seq<EmotionalHotspot>, emotion: string,
                        dist: Distance, now: int, commitSucceeds: bool): Generated
  {
    var rows := NeighborhoodScores(snap, emotion, dist);
    if rows == [] || !commitSucceeds then Generated(FallbackData(emotion), hotspots)
    else
      var updated := UpsertAll(hotspots, emotion, rows, now);
      match Render(emotion, rows)
      case Ok(fc) => Generated(fc, updated)
      case Raise(_) => Generated(FallbackData(emotion), updated)
  }

  method Generate(db: Database, emotion: string, dist: Distance, now: int, commitSucceeds: bool)
    returns (fc: FeatureCollection)
    requires db.Valid()
    modifies db`hotspots
    ensures Generated(fc, db.hotspots) == GenerateSpec(old(db.Tables()), old(db.hotspots), emotion, dist, now, commitSucceeds)
    ensures db.Valid()
  {
    var rows := CalculateNeighborhoodScores(db, emotion, dist);
    if rows == [] {
      fc := GenerateFallbackData(emotion);
      return;
    }
    UpdateHotspots(db, emotion, rows, now, commitSucceeds);
    if !commitSucceeds {
      fc := GenerateFallbackData(emotion);
      return;
    }
    var r := CreateGeoJson(emotion, rows);
    match r {
      case Ok(v) => fc := v;
      case Raise(_) => fc := GenerateFallbackData(emotion);
    }
  }

  /** The two outcomes of a call. With no scored neighbourhood, or when the
      commit fails, the answer is the fallback and the table is unchanged.
      Otherwise the table is the upsert of every row and the answer holds
      one feature per row, in order, never the fallback's. */
  lemma GenerateOutcomes(snap: Snapshot, hotspots: seq<EmotionalHotspot>, emotion: string,
                         dist: Distance, now: int, commitSucceeds: bool)
    ensures var rows := NeighborhoodScores(snap, emotion, dist);
      var g := GenerateSpec(snap, hotspots, emotion, dist, now, commitSucceeds);
      && ((rows == [] || !commitSucceeds) ==> g == Generated(FallbackData(emotion), hotspots))
      && (rows != [] && commitSucceeds ==>
            && g.hotspots == UpsertAll(hotspots, emotion, rows, now)
            && |g.heatmap.features| == |rows|
            && forall i :: 0 <= i < |rows| ==>
                 && g.heatmap.features[i].properties.neighborhood == rows[i].neighborhood.name
                 && g.heatmap.features[i].properties.score == rows[i].average
                 && g.heatmap.features[i].properties.weight == 10.0 * rows[i].average
                 && g.heatmap.features[i].properties.reviewCount == rows[i].count)
  {
    RenderScoreRows(snap, emotion, dist);
  }

  /** With no venue, no neighbourhood has a nearby venue, so the answer is
      always the fallback and the hotspot table is left as it was. */
  lemma NoVenuesFallback(snap: Snapshot, hotspots: seq<EmotionalHotspot>, emotion: string,
                         dist: Distance, now: int, commitSucceeds: bool)
    requires snap.venues == []
    ensures GenerateSpec(snap, hotspots, emotion, dist, now, commitSucceeds) == Generated(FallbackData(emotion), hotspots)
  {
    var rows := NeighborhoodScores(snap, emotion, dist);
    CollectCharacterised(snap.neighborhoods, snap, emotion, dist);
    if rows != [] {
      var row := rows[0];
      assert row in rows;
      var i :| 0 <= i < |snap.neighborhoods| && Assess(snap.neighborhoods[i], snap, emotion, dist) == Ok(Some(row));
      AssessRow(snap.neighborhoods[i], snap, emotion, dist);
      assert false;
    }
  }

  /** Calling generate twice on the same data: the answer is the same each
      time the commit behaves the same, and after a successful first call
      the second leaves the hotspot table exactly as the first did. */
  lemma GenerateIdempotent(snap: Snapshot, hotspots: seq<EmotionalHotspot>, emotion: string,
                           dist: Distance, now1: int, now2: int, commit1: bool, commit2: bool)
    ensures var g1 := GenerateSpec(snap, hotspots, emotion, dist, now1, commit1);
      var g2 := GenerateSpec(snap, g1.hotspots, emotion, dist, now2, commit2);
      && (commit1 == commit2 ==> g2.heatmap == g1.heatmap)
      && (commit1 ==> g2.hotspots == g1.hotspots)
  {
    UpsertAllIdempotent(hotspots, emotion, NeighborhoodScores(snap, emotion, dist), now1, now2);
  }

  // ---------------------------------------------------------------------------
  // The end-to-end scenario: one neighbourhood centred on a venue whose two
  // reviews score 0.8 and 0.6 for "joy".

  const ExampleNeighborhood := Neighborhood(1, "Central London", "London", Decoded(PointGeometry(-0.1278, 51.5074)))
  const ExampleVenues := [Venue(1, "Venue", None, 51.5074, -0.1278, None)]
  const ExampleReviews := [Review(1, 1, "test", "great", None, None), Review(2, 1, "test", "good", None, None)]
  const ExampleScores := [EmotionScore(1, 1, "joy", 0.8), EmotionScore(2, 2, "joy", 0.6)]
  const ExampleSnapshot := Snapshot([ExampleNeighborhood], ExampleVenues, ExampleReviews, ExampleScores)
  const ExampleRow := ScoreRow(ExampleNeighborhood, 0.7, 2)

  /** Both joy scores belong to reviews of venue 1. */
  lemma ExampleScoresNear()
    ensures ScoresNear(ExampleSnapshot, "joy", [1]) == [0.8, 0.6]
  {
    var ok := OfVenues([1]);
    var scores := ExampleScores;
    var reviews := ExampleReviews;
    assert scores[..1] == [scores[0]] && scores[..1][..0] == [];
    assert reviews[0] in reviews && reviews[1] in reviews;
    assert JoinedScores(scores[..1], reviews, "joy", ok) == [0.8];
  }

  /** The neighbourhood's centre is its venue, which is within the radius. */
  lemma ExampleNearby(dist: Distance)
    requires dist(51.5074, -0.1278, 51.5074, -0.1278) <= 2.0
    ensures NumericCentre(ExampleNeighborhood.boundary) == Some((51.5074, -0.1278))
    ensures Nearby(ExampleVenues, 51.5074, -0.1278, dist) == [1]
  {
    var n := ExampleNeighborhood;
    PointCentre(n, -0.1278, 51.5074, [], n.boundary.json.members);
    assert ExampleVenues[..0] == [];
  }

  /** The neighbourhood's row averages 0.8 and 0.6. */
  lemma ExampleNeighborhoodScores(dist: Distance)
    requires dist(51.5074, -0.1278, 51.5074, -0.1278) <= 2.0
    ensures NeighborhoodScores(ExampleSnapshot, "joy", dist) == [ExampleRow]
  {
    var n := ExampleNeighborhood;
    ExampleNearby(dist);
    ExampleScoresNear();
    PointCentre(n, -0.1278, 51.5074, [], n.boundary.json.members);
    assert ReadCentre(n.boundary) == Ok((JNum(51.5074), JNum(-0.1278)));
    var matched := [0.8, 0.6];
    assert matched[..1] == [0.8] && matched[..1][..0] == [];
    assert Sum(matched[..1]) == 0.8;
    assert Sum(matched) == 1.4;
    assert Mean(matched) == 0.7;
    assert Assess(n, ExampleSnapshot, "joy", dist) == Ok(Some(ExampleRow));
    var ns := ExampleSnapshot.neighborhoods;
    assert ns[..|ns| - 1] == [] && ns[|ns| - 1] == n;
    assert Collect(ns[..|ns| - 1], ExampleSnapshot, "joy", dist) == Ok([]);
    assert Collect(ns, ExampleSnapshot, "joy", dist) == Ok([] + [ExampleRow]);
  }

  /** generate("joy") yields one feature with score 0.7, weight 7.0 and review
      count 2, and, in an empty table, one new hotspot row holding the same. */
  lemma EndToEndExample(dist: Distance, now: int)
    requires dist(51.5074, -0.1278, 51.5074, -0.1278) <= 2.0
    ensures var g := GenerateSpec(ExampleSnapshot, [], "joy", dist, now, true);
      && g.heatmap.features == [Feature(ExampleNeighborhood.boundary.json, Properties("Central London", "joy", 0.7, 7.0, 2))]
      && g.hotspots == [NewHotspot(1, 1, "joy", 0.7, now, 2)]
  {
    ExampleNeighborhoodScores(dist);
    RenderScoreRows(ExampleSnapshot, "joy", dist);
    var rows := [ExampleRow];
    assert rows[..0] == [];
    assert UpsertAll([], "joy", rows, now) == Upsert([], "joy", ExampleRow, now);
    assert FirstMatch([], 1, "joy") == None;
  }
}
