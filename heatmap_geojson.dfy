/** HeatmapGenerator._create_geojson and _generate_fallback_data: the
    FeatureCollection returned to the map. */
module HeatmapGeoJson {
  import opened Common
  import opened Models
  import opened HeatmapScores

  /** `weight` is the average score scaled by 10 for the heat layer. */
  const WeightScale: real := 10.0

  /** The fake review count of a demo location is int(score * 50). */
  const FakeReviewsPerPoint: real := 50.0

  /** The `properties` dict of one feature. */
  datatype Properties = Properties(
    neighborhood: string, emotion: string, score: real, weight: real, reviewCount: int)

  /** `{'type': 'Feature', 'geometry': …, 'properties': …}` */
  datatype Feature = Feature(geometry: Json, properties: Properties)

  /** `{'type': 'FeatureCollection', 'features': […]}` */
  datatype FeatureCollection = FeatureCollection(features: seq<Feature>)

  /** The feature of one score row: the decoded boundary verbatim as geometry. */
  function RowFeature(emotion: string, row: ScoreRow, geometry: Json): Feature
  {
    Feature(geometry, Properties(row.neighborhood.name, emotion, row.average, row.average * WeightScale, row.count))
  }

  /** _create_geojson. json.loads(None) raises TypeError, which this method does
      not catch; a boundary json.loads rejects is skipped. */
  function Render(emotion: string, rows: seq<ScoreRow>): Outcome<FeatureCollection>
  {
    if rows == [] then Ok(FeatureCollection([]))
    else
      match Render(emotion, rows[..|rows| - 1])
      case Raise(e) => Raise(e)
      case Ok(fc) =>
        var row := rows[|rows| - 1];
        match row.neighborhood.boundary
        case NullBoundary => Raise(TypeError)
        case Malformed => Ok(fc)
        case Decoded(g) => Ok(FeatureCollection(fc.features + [RowFeature(emotion, row, g)]))
  }

  method CreateGeoJson(emotion: string, rows: seq<ScoreRow>) returns (r: Outcome<FeatureCollection>)
    ensures r == Render(emotion, rows)
  {
    var features := [];
    var i := 0;
    while i < |rows|
      invariant 0 <= i <= |rows|
      invariant Render(emotion, rows[..i]) == Ok(FeatureCollection(features))
    {
      var row := rows[i];
      assert rows[..i + 1][..i] == rows[..i];
      match row.neighborhood.boundary {
        case NullBoundary =>
          RenderRaiseExtends(emotion, rows, i + 1);
          return Raise(TypeError);
        case Malformed =>
        case Decoded(g) =>
          features := features + [RowFeature(emotion, row, g)];
      }
      i := i + 1;
    }
    assert rows[..|rows|] == rows;
    r := Ok(FeatureCollection(features));
  }

  lemma {:induction false} RenderRaiseExtends(emotion: string, rows: seq<ScoreRow>, k: nat)
    requires k <= |rows|
    requires Render(emotion, rows[..k]).Raise?
    ensures Render(emotion, rows) == Render(emotion, rows[..k])
  {
    if k < |rows| {
      assert rows[..|rows| - 1][..k] == rows[..k];
      RenderRaiseExtends(emotion, rows[..|rows| - 1], k);
    } else {
      assert rows[..k] == rows;
    }
  }

  /** Rendering fails exactly when some row's boundary is NULL, and then with
      TypeError. Otherwise every feature is the feature of a row with a
      decoded boundary, every such row gives its feature, and when no row is
      skipped the features are the rows' features one for one, in order. */
  lemma {:induction false} RenderCharacterised(emotion: string, rows: seq<ScoreRow>)
    ensures Render(emotion, rows).Raise? <==> exists row :: row in rows && row.neighborhood.boundary == NullBoundary
    ensures Render(emotion, rows).Raise? ==> Render(emotion, rows).error == TypeError
    ensures Render(emotion, rows).Ok? ==>
      var fs := Render(emotion, rows).value.features;
      && |fs| <= |rows|
      && forall f :: f in fs <==>
           exists row :: row in rows && row.neighborhood.boundary.Decoded? &&
             f == RowFeature(emotion, row, row.neighborhood.boundary.json)
    ensures (forall row :: row in rows ==> row.neighborhood.boundary.Decoded?) ==>
      && Render(emotion, rows).Ok?
      && |Render(emotion, rows).value.features| == |rows|
      && forall i :: 0 <= i < |rows| ==>
           Render(emotion, rows).value.features[i] == RowFeature(emotion, rows[i], rows[i].neighborhood.boundary.json)
  {
    if rows != [] {
      var init := rows[..|rows| - 1];
      var row := rows[|rows| - 1];
      RenderCharacterised(emotion, init);
      assert forall x :: x in rows <==> x in init || x == row;
    }
  }

  /** The rows the scoring step produces all have decoded boundaries, so
      they render to one feature per row, carrying its average, ten times
      its average and its count. */
  lemma RenderScoreRows(snap: Snapshot, emotion: string, dist: Distance)
    ensures var rows := NeighborhoodScores(snap, emotion, dist);
      && Render(emotion, rows).Ok?
      && |Render(emotion, rows).value.features| == |rows|
      && forall i :: 0 <= i < |rows| ==>
           var p := Render(emotion, rows).value.features[i].properties;
           && rows[i].neighborhood.boundary.Decoded?
           && Render(emotion, rows).value.features[i].geometry == rows[i].neighborhood.boundary.json
           && p.neighborhood == rows[i].neighborhood.name && p.emotion == emotion
           && p.score == rows[i].average && p.weight == 10.0 * rows[i].average
           && p.reviewCount == rows[i].count && p.reviewCount >= 1
  {
    var rows := NeighborhoodScores(snap, emotion, dist);
    ScoresAreRows(snap, emotion, dist);
    RenderCharacterised(emotion, rows);
  }

  // ---------------------------------------------------------------------------
  // Fallback data

  datatype DemoLocation = DemoLocation(name: string, lat: real, lng: real, score: real)

  /** The London landmarks served when there is no real data. */
  const DemoLocations: seq<DemoLocation> := [
    DemoLocation("Central London", 51.5074, -0.1278, 0.85),
    DemoLocation("Westminster", 51.5012, -0.1426, 0.75),
    DemoLocation("Shoreditch", 51.5177, -0.0753, 0.92),
    DemoLocation("Camden", 51.5390, -0.1427, 0.88),
    DemoLocation("South Bank", 51.5050, -0.1167, 0.79)
  ]

  function DemoFeature(emotion: string, loc: DemoLocation): Feature
  {
    Feature(PointGeometry(loc.lng, loc.lat),
            Properties(loc.name, emotion, loc.score, loc.score * WeightScale,
                       (loc.score * FakeReviewsPerPoint).Floor))
  }

  /** The loop of _generate_fallback_data. */
  method GenerateFallbackData(emotion: string) returns (fc: FeatureCollection)
    ensures fc == FallbackData(emotion)
  {
    var features := [];
    for i := 0 to |DemoLocations|
      invariant |features| == i
      invariant forall j :: 0 <= j < i ==> features[j] == DemoFeature(emotion, DemoLocations[j])
    {
      features := features + [DemoFeature(emotion, DemoLocations[i])];
    }
    fc := FeatureCollection(features);
    assert fc.features == FallbackData(emotion).features;
  }

  /** The fallback collection as a value. */
  function FallbackData(emotion: string): FeatureCollection
  {
    FeatureCollection(seq(|DemoLocations|, i requires 0 <= i < |DemoLocations| => DemoFeature(emotion, DemoLocations[i])))
  }

  /** The fallback is five points named after the landmarks, each tagged with
      the requested emotion, with weight = 10 * score and review counts
      42, 37, 46, 44 and 39; read back as a boundary, each point's centre is
      the landmark's (latitude, longitude). */
  lemma FallbackContents(emotion: string)
    ensures var fs := FallbackData(emotion).features;
      && |fs| == 5
      && [fs[0].properties.neighborhood, fs[1].properties.neighborhood, fs[2].properties.neighborhood,
          fs[3].properties.neighborhood, fs[4].properties.neighborhood]
         == ["Central London", "Westminster", "Shoreditch", "Camden", "South Bank"]
      && [fs[0].properties.score, fs[1].properties.score, fs[2].properties.score,
          fs[3].properties.score, fs[4].properties.score] == [0.85, 0.75, 0.92, 0.88, 0.79]
      && [fs[0].properties.reviewCount, fs[1].properties.reviewCount, fs[2].properties.reviewCount,
          fs[3].properties.reviewCount, fs[4].properties.reviewCount] == [42, 37, 46, 44, 39]
      && forall i :: 0 <= i < 5 ==>
           && fs[i].properties.emotion == emotion
           && fs[i].properties.weight == 10.0 * fs[i].properties.score
           && NumericCentre(Decoded(fs[i].geometry)) == Some((DemoLocations[i].lat, DemoLocations[i].lng))
  {
    var fs := FallbackData(emotion).features;
    assert (0.85 * 50.0).Floor == 42 && (0.75 * 50.0).Floor == 37 && (0.92 * 50.0).Floor == 46;
    assert (0.88 * 50.0).Floor == 44 && (0.79 * 50.0).Floor == 39;
    forall i | 0 <= i < 5
      ensures NumericCentre(Decoded(fs[i].geometry)) == Some((DemoLocations[i].lat, DemoLocations[i].lng))
    {
      var loc := DemoLocations[i];
      var members := map["type" := JStr("Point"), "coordinates" := JArr([JNum(loc.lng), JNum(loc.lat)])];
      PointCentre(Neighborhood(0, loc.name, "", Decoded(JObj(members))), loc.lng, loc.lat, [], members);
    }
  }
}
