/** HeatmapGenerator._calculate_neighborhood_scores: decode each
    neighbourhood's centre, match the venues within 2 km, and average the
    requested emotion's scores over those venues' reviews. */
module HeatmapScores {
  import opened Common
  import opened Models

  /** A venue at most this many kilometres from the centre is nearby (inclusive). */
  const NearbyRadiusKm: real := 2.0

  /** The great-circle distance in km from (lat1, lon1) to (lat2, lon2). The
      haversine formula itself is not modelled: any total function will do. */
  type Distance = (real, real, real, real) -> real

  /** Python's `value[key]` for a string key on a decoded JSON value. */
  function GetKey(value: Json, key: string): Outcome<Json>
  {
    match value
    case JObj(m) => if key in m then Ok(m[key]) else Raise(KeyError)
    case _ => Raise(TypeError)
  }

  /** Python's `value[i]` for a non-negative int index on a decoded JSON value.
      Indexing a str yields a one-character str; a decoded dict has only
      string keys, so an int key is missing. */
  function GetIndex(value: Json, i: nat): Outcome<Json>
  {
    match value
    case JArr(items) => if i < |items| then Ok(items[i]) else Raise(IndexError)
    case JStr(s) => if i < |s| then Ok(JStr([s[i]])) else Raise(IndexError)
    case JObj(_) => Raise(KeyError)
    case _ => Raise(TypeError)
  }

  /** `json.loads(boundary)`, then `boundary["coordinates"][1]` (latitude) and
      `boundary["coordinates"][0]` (longitude), in that order. json.loads(None)
      raises TypeError. */
  function ReadCentre(b: Boundary): Outcome<(Json, Json)>
  {
    match b
    case NullBoundary => Raise(TypeError)
    case Malformed => Raise(JsonDecodeError)
    case Decoded(j) =>
      match GetKey(j, "coordinates")
      case Raise(e) => Raise(e)
      case Ok(c) =>
        match GetIndex(c, 1)
        case Raise(e) => Raise(e)
        case Ok(lat) =>
          match GetIndex(c, 0)
          case Raise(e) => Raise(e)
          case Ok(lng) => Ok((lat, lng))
  }

  /** The exceptions the per-neighbourhood handler catches; any other one
      escapes to the outer handler. */
  predicate Skippable(e: PyError)
  {
    e == JsonDecodeError || e == KeyError || e == IndexError
  }

  /** math.radians accepts an int or a float, and a bool, which Python counts as an int. */
  function AsFloat(j: Json): Option<real>
  {
    match j
    case JNum(n) => Some(n)
    case JBool(b) => Some(if b then 1.0 else 0.0)
    case _ => None
  }

  /** The decoded centre when both coordinates are numbers. */
  function NumericCentre(b: Boundary): Option<(real, real)>
  {
    match ReadCentre(b)
    case Raise(_) => None
    case Ok((lat, lng)) =>
      if AsFloat(lat).Some? && AsFloat(lng).Some? then Some((AsFloat(lat).value, AsFloat(lng).value))
      else None
  }

  /** The ids of the venues within the radius of (lat, lng), in table order. */
  function Nearby(venues: seq<Venue>, lat: real, lng: real, dist: Distance): (ids: seq<nat>)
    ensures |ids| <= |venues|
    ensures forall id :: id in ids <==>
      exists v :: v in venues && v.id == id && dist(lat, lng, v.latitude, v.longitude) <= NearbyRadiusKm
  {
    if venues == [] then []
    else
      var init := venues[..|venues| - 1];
      var v := venues[|venues| - 1];
      assert forall w :: w in venues <==> w in init || w == v;
      var rest := Nearby(init, lat, lng, dist);
      if dist(lat, lng, v.latitude, v.longitude) <= NearbyRadiusKm then rest + [v.id] else rest
  }

  /** The venue loop: the distance is computed once per venue, so a
      non-numeric centre raises TypeError as soon as there is one venue. */
  function NearbyOutcome(lat: Json, lng: Json, venues: seq<Venue>, dist: Distance): Outcome<seq<nat>>
  {
    if venues == [] then Ok([])
    else if AsFloat(lat).None? || AsFloat(lng).None? then Raise(TypeError)
    else Ok(Nearby(venues, AsFloat(lat).value, AsFloat(lng).value, dist))
  }

  /** The scores of one emotion on reviews of the given venues. */
  function ScoresNear(snap: Snapshot, emotion: string, nearby: seq<nat>): seq<real>
  {
    JoinedScores(snap.scores, snap.reviews, emotion, OfVenues(nearby))
  }

  /** `Review.venue_id.in_(nearby_venues)` */
  function OfVenues(nearby: seq<nat>): Review -> bool
  {
    (r: Review) => r.venueId in nearby
  }

  /** The scores matched to a neighbourhood: empty when its centre does not decode. */
  function MatchedScores(n: Neighborhood, snap: Snapshot, emotion: string, dist: Distance): seq<real>
  {
    match NumericCentre(n.boundary)
    case None => []
    case Some((lat, lng)) => ScoresNear(snap, emotion, Nearby(snap.venues, lat, lng, dist))
  }

  /** One element of the result list: (neighborhood, avg_score, len(scores)). */
  datatype ScoreRow = ScoreRow(neighborhood: Neighborhood, average: real, count: nat)

  /** One iteration of the neighbourhood loop: a row, nothing (a skipped or
      empty neighbourhood), or an exception that ends the whole loop. */
  function Assess(n: Neighborhood, snap: Snapshot, emotion: string, dist: Distance): Outcome<Option<ScoreRow>>
  {
    match ReadCentre(n.boundary)
    case Raise(e) => if Skippable(e) then Ok(None) else Raise(e)
    case Ok((lat, lng)) =>
      match NearbyOutcome(lat, lng, snap.venues, dist)
      case Raise(e) => Raise(e)
      case Ok(nearby) =>
        if nearby == [] then Ok(None)
        else
          var scores := ScoresNear(snap, emotion, nearby);
          if scores == [] then Ok(None)
          else Ok(Some(ScoreRow(n, Mean(scores), |scores|)))
  }

  /** The neighbourhood loop over a prefix of the table: the rows so far, or
      the first exception that escaped an iteration. */
  function Collect(ns: seq<Neighborhood>, snap: Snapshot, emotion: string, dist: Distance): Outcome<seq<ScoreRow>>
  {
    if ns == [] then Ok([])
    else
      match Collect(ns[..|ns| - 1], snap, emotion, dist)
      case Raise(e) => Raise(e)
      case Ok(rows) =>
        match Assess(ns[|ns| - 1], snap, emotion, dist)
        case Raise(e) => Raise(e)
        case Ok(None) => Ok(rows)
        case Ok(Some(row)) => Ok(rows + [row])
  }

  /** _calculate_neighborhood_scores: `except Exception` turns any escaped exception into []. */
  function NeighborhoodScores(snap: Snapshot, emotion: string, dist: Distance): seq<ScoreRow>
  {
    match Collect(snap.neighborhoods, snap, emotion, dist)
    case Ok(rows) => rows
    case Raise(_) => []
  }

  // ---------------------------------------------------------------------------
  // The imperative loops

  /** The inner loop `for venue in Venue.query.all()`. */
  method NearbyVenues(lat: Json, lng: Json, venues: seq<Venue>, dist: Distance) returns (r: Outcome<seq<nat>>)
    ensures r == NearbyOutcome(lat, lng, venues, dist)
  {
    var nearby: seq<nat> := [];
    var i := 0;
    while i < |venues|
      invariant 0 <= i <= |venues|
      invariant i == 0 ==> nearby == []
      invariant i > 0 ==>
        (AsFloat(lat).Some? && AsFloat(lng).Some? &&
         nearby == Nearby(venues[..i], AsFloat(lat).value, AsFloat(lng).value, dist))
    {
      var la, lo := AsFloat(lat), AsFloat(lng);
      if la.None? || lo.None? {
        return Raise(TypeError);
      }
      var venue := venues[i];
      if dist(la.value, lo.value, venue.latitude, venue.longitude) <= NearbyRadiusKm {
        nearby := nearby + [venue.id];
      }
      assert venues[..i + 1][..i] == venues[..i];
      i := i + 1;
    }
    assert venues[..|venues|] == venues;
    r := Ok(nearby);
  }

  /** _calculate_neighborhood_scores over the current tables. The primary
      keys being unique (Valid) is what makes the join on review ids, stated
      as "some review has this id", the SQL inner join. */
  method CalculateNeighborhoodScores(db: Database, emotion: string, dist: Distance) returns (results: seq<ScoreRow>)
    requires db.Valid()
    ensures results == NeighborhoodScores(db.Tables(), emotion, dist)
  {
    var snap := db.Tables();
    var neighborhoods := db.neighborhoods;
    results := [];
    var i := 0;
    while i < |neighborhoods|
      invariant 0 <= i <= |neighborhoods|
      invariant Collect(neighborhoods[..i], snap, emotion, dist) == Ok(results)
    {
      var n := neighborhoods[i];
      assert neighborhoods[..i + 1][..i] == neighborhoods[..i];
      var centre := ReadCentre(n.boundary);
      if centre.Raise? {
        if Skippable(centre.error) {
          i := i + 1;
          continue;
        }
        CollectRaiseExtends(neighborhoods, i + 1, snap, emotion, dist);
        return [];
      }
      var (lat, lng) := centre.value;
      var nearby := NearbyVenues(lat, lng, db.venues, dist);
      if nearby.Raise? {
        CollectRaiseExtends(neighborhoods, i + 1, snap, emotion, dist);
        return [];
      }
      if nearby.value != [] {
        var scores := ScoresNear(snap, emotion, nearby.value);
        if scores != [] {
          results := results + [ScoreRow(n, Mean(scores), |scores|)];
        }
      }
      i := i + 1;
    }
    assert neighborhoods[..|neighborhoods|] == neighborhoods;
  }

  // ---------------------------------------------------------------------------
  // Properties

  /** Once an iteration has raised, the loop's outcome is that exception. */
  lemma {:induction false} CollectRaiseExtends(ns: seq<Neighborhood>, k: nat, snap: Snapshot, emotion: string, dist: Distance)
    requires k <= |ns|
    requires Collect(ns[..k], snap, emotion, dist).Raise?
    ensures Collect(ns, snap, emotion, dist).Raise?
    decreases |ns| - k
  {
    if k < |ns| {
      assert ns[..k + 1][..k] == ns[..k];
      CollectRaiseExtends(ns, k + 1, snap, emotion, dist);
    } else {
      assert ns[..k] == ns;
    }
  }

  lemma {:induction false} CollectRaiseIff(ns: seq<Neighborhood>, snap: Snapshot, emotion: string, dist: Distance)
    ensures Collect(ns, snap, emotion, dist).Raise? <==>
      exists i :: 0 <= i < |ns| && Assess(ns[i], snap, emotion, dist).Raise?
  {
    if ns != [] {
      var init := ns[..|ns| - 1];
      CollectRaiseIff(init, snap, emotion, dist);
      assert forall i :: 0 <= i < |init| ==> init[i] == ns[i];
    }
  }

  /** The loop adds at most one row per neighbourhood. */
  lemma {:induction false} CollectLength(ns: seq<Neighborhood>, snap: Snapshot, emotion: string, dist: Distance)
    ensures Collect(ns, snap, emotion, dist).Ok? ==> |Collect(ns, snap, emotion, dist).value| <= |ns|
  {
    if ns != [] {
      CollectLength(ns[..|ns| - 1], snap, emotion, dist);
    }
  }

  /** Every row of the loop comes from some neighbourhood's iteration. */
  lemma {:induction false} CollectRowFrom(ns: seq<Neighborhood>, snap: Snapshot, emotion: string, dist: Distance, row: ScoreRow)
    requires Collect(ns, snap, emotion, dist).Ok? && row in Collect(ns, snap, emotion, dist).value
    ensures exists i :: 0 <= i < |ns| && Assess(ns[i], snap, emotion, dist) == Ok(Some(row))
  {
    var init := ns[..|ns| - 1];
    var ci := Collect(init, snap, emotion, dist);
    var last := Assess(ns[|ns| - 1], snap, emotion, dist);
    if ci.Ok? && row in ci.value {
      CollectRowFrom(init, snap, emotion, dist, row);
      var i :| 0 <= i < |init| && Assess(init[i], snap, emotion, dist) == Ok(Some(row));
      assert ns[i] == init[i];
    } else {
      assert last == Ok(Some(row));
    }
  }

  /** Every row an iteration yields is a row of the loop, unless the loop raised. */
  lemma {:induction false} CollectRowTo(ns: seq<Neighborhood>, snap: Snapshot, emotion: string, dist: Distance,
                                        row: ScoreRow, i: nat)
    requires Collect(ns, snap, emotion, dist).Ok?
    requires i < |ns| && Assess(ns[i], snap, emotion, dist) == Ok(Some(row))
    ensures row in Collect(ns, snap, emotion, dist).value
  {
    var init := ns[..|ns| - 1];
    if i < |init| {
      assert init[i] == ns[i];
      CollectRowTo(init, snap, emotion, dist, row, i);
    }
  }

  lemma {:induction false} CollectRowsIff(ns: seq<Neighborhood>, snap: Snapshot, emotion: string, dist: Distance)
    ensures Collect(ns, snap, emotion, dist).Ok? ==>
      |Collect(ns, snap, emotion, dist).value| <= |ns| &&
      forall row :: row in Collect(ns, snap, emotion, dist).value <==>
        exists i :: 0 <= i < |ns| && Assess(ns[i], snap, emotion, dist) == Ok(Some(row))
  {
    var c := Collect(ns, snap, emotion, dist);
    if c.Ok? {
      CollectLength(ns, snap, emotion, dist);
      forall row
        ensures row in c.value <==> exists i :: 0 <= i < |ns| && Assess(ns[i], snap, emotion, dist) == Ok(Some(row))
      {
        if row in c.value {
          CollectRowFrom(ns, snap, emotion, dist, row);
        }
        if exists i :: 0 <= i < |ns| && Assess(ns[i], snap, emotion, dist) == Ok(Some(row)) {
          var i :| 0 <= i < |ns| && Assess(ns[i], snap, emotion, dist) == Ok(Some(row));
          CollectRowTo(ns, snap, emotion, dist, row, i);
        }
      }
    }
  }

  /** The loop raises exactly when some neighbourhood's iteration raises; otherwise
      its rows are exactly the rows the iterations produce. */
  lemma {:induction false} CollectCharacterised(ns: seq<Neighborhood>, snap: Snapshot, emotion: string, dist: Distance)
    ensures Collect(ns, snap, emotion, dist).Raise? <==>
      exists i :: 0 <= i < |ns| && Assess(ns[i], snap, emotion, dist).Raise?
    ensures Collect(ns, snap, emotion, dist).Ok? ==>
      |Collect(ns, snap, emotion, dist).value| <= |ns| &&
      forall row :: row in Collect(ns, snap, emotion, dist).value <==>
        exists i :: 0 <= i < |ns| && Assess(ns[i], snap, emotion, dist) == Ok(Some(row))
  {
    CollectRaiseIff(ns, snap, emotion, dist);
    CollectRowsIff(ns, snap, emotion, dist);
  }

  /** A boundary that raises a JSON, key or index error skips only its own neighbourhood. */
  lemma SkippedBoundary(n: Neighborhood, snap: Snapshot, emotion: string, dist: Distance)
    requires ReadCentre(n.boundary).Raise? && Skippable(ReadCentre(n.boundary).error)
    ensures Assess(n, snap, emotion, dist) == Ok(None)
  {
  }

  /** An iteration raises exactly for a NULL boundary, a boundary whose
      coordinates cannot be subscripted (TypeError), or non-numeric
      coordinates when there is a venue to measure against. */
  lemma AssessRaises(n: Neighborhood, snap: Snapshot, emotion: string, dist: Distance)
    ensures Assess(n, snap, emotion, dist).Raise? <==>
      ReadCentre(n.boundary) == Raise(TypeError) ||
      (ReadCentre(n.boundary).Ok? && snap.venues != [] && NumericCentre(n.boundary).None?)
    ensures Assess(n, snap, emotion, dist).Raise? ==> Assess(n, snap, emotion, dist).error == TypeError
  {
  }

  /** A neighbourhood yields a row exactly when its centre decodes, some venue
      is within the radius and some review of those venues has a score for the
      emotion; the row is then the mean and the number of those scores, and
      the mean lies between their minimum and maximum. */
  lemma AssessRow(n: Neighborhood, snap: Snapshot, emotion: string, dist: Distance)
    ensures (Assess(n, snap, emotion, dist).Ok? && Assess(n, snap, emotion, dist).value.Some?) <==>
      (NumericCentre(n.boundary).Some? &&
       Nearby(snap.venues, NumericCentre(n.boundary).value.0, NumericCentre(n.boundary).value.1, dist) != [] &&
       MatchedScores(n, snap, emotion, dist) != [])
    ensures Assess(n, snap, emotion, dist).Ok? && Assess(n, snap, emotion, dist).value.Some? ==>
      var row := Assess(n, snap, emotion, dist).value.value;
      var scores := MatchedScores(n, snap, emotion, dist);
      && row.neighborhood == n
      && row.count == |scores| >= 1
      && row.average == Mean(scores)
      && Min(scores) <= row.average <= Max(scores)
  {
    var scores := MatchedScores(n, snap, emotion, dist);
    if scores != [] {
      MeanWithinMinMax(scores);
    }
  }

  /** A row's count is the number of score rows of the emotion that join a
      review of a nearby venue, duplicates included. */
  lemma AssessRowCount(n: Neighborhood, snap: Snapshot, emotion: string, dist: Distance)
    ensures Assess(n, snap, emotion, dist).Ok? && Assess(n, snap, emotion, dist).value.Some? ==>
      var c := NumericCentre(n.boundary).value;
      Assess(n, snap, emotion, dist).value.value.count ==
        |JoiningRows(snap.scores, snap.reviews, emotion, OfVenues(Nearby(snap.venues, c.0, c.1, dist)))|
  {
    if NumericCentre(n.boundary).Some? {
      var c := NumericCentre(n.boundary).value;
      JoinedScoresCount(snap.scores, snap.reviews, emotion, OfVenues(Nearby(snap.venues, c.0, c.1, dist)));
    }
  }

  /** Any escaped exception discards every row computed so far, and later ones. */
  lemma AbortDiscardsAll(snap: Snapshot, emotion: string, dist: Distance, k: nat)
    requires k < |snap.neighborhoods|
    requires Assess(snap.neighborhoods[k], snap, emotion, dist).Raise?
    ensures NeighborhoodScores(snap, emotion, dist) == []
  {
    CollectCharacterised(snap.neighborhoods, snap, emotion, dist);
  }

  /** A NULL boundary anywhere in the table empties the result. */
  lemma NullBoundaryDiscardsAll(snap: Snapshot, emotion: string, dist: Distance, k: nat)
    requires k < |snap.neighborhoods|
    requires snap.neighborhoods[k].boundary == NullBoundary
    ensures NeighborhoodScores(snap, emotion, dist) == []
  {
    AbortDiscardsAll(snap, emotion, dist, k);
  }

  /** When no iteration raises, the result holds exactly the rows that the
      neighbourhoods yield; every row has count >= 1, belongs to a
      neighbourhood of the table with a decoded boundary, and averages that
      neighbourhood's matched scores. */
  lemma ScoresAreRows(snap: Snapshot, emotion: string, dist: Distance)
    ensures |NeighborhoodScores(snap, emotion, dist)| <= |snap.neighborhoods|
    ensures (forall i :: 0 <= i < |snap.neighborhoods| ==> !Assess(snap.neighborhoods[i], snap, emotion, dist).Raise?) ==>
      forall row :: row in NeighborhoodScores(snap, emotion, dist) <==>
        exists i :: 0 <= i < |snap.neighborhoods| && Assess(snap.neighborhoods[i], snap, emotion, dist) == Ok(Some(row))
    ensures forall row :: row in NeighborhoodScores(snap, emotion, dist) ==>
      && row.neighborhood in snap.neighborhoods
      && row.neighborhood.boundary.Decoded?
      && row.count >= 1
      && row.count == |MatchedScores(row.neighborhood, snap, emotion, dist)|
      && row.average == Mean(MatchedScores(row.neighborhood, snap, emotion, dist))
  {
    var ns := snap.neighborhoods;
    CollectCharacterised(ns, snap, emotion, dist);
    forall row | row in NeighborhoodScores(snap, emotion, dist)
      ensures && row.neighborhood in ns
              && row.neighborhood.boundary.Decoded?
              && row.count >= 1
              && row.count == |MatchedScores(row.neighborhood, snap, emotion, dist)|
              && row.average == Mean(MatchedScores(row.neighborhood, snap, emotion, dist))
    {
      var i :| 0 <= i < |ns| && Assess(ns[i], snap, emotion, dist) == Ok(Some(row));
      AssessRow(ns[i], snap, emotion, dist);
    }
  }

  /** The centre of a GeoJSON Point is read as latitude = coordinates[1],
      longitude = coordinates[0]; a venue exactly 2 km away is nearby. */
  lemma PointCentre(n: Neighborhood, lng: real, lat: real, rest: seq<Json>, members: map<string, Json>)
    requires n.boundary == Decoded(JObj(members))
    requires "coordinates" in members && members["coordinates"] == JArr([JNum(lng), JNum(lat)] + rest)
    ensures NumericCentre(n.boundary) == Some((lat, lng))
  {
    assert ([JNum(lng), JNum(lat)] + rest)[1] == JNum(lat);
  }

  /** The radius test is inclusive: a venue exactly at the radius is matched,
      and one just beyond it is not. */
  lemma RadiusInclusive(venues: seq<Venue>, lat: real, lng: real, dist: Distance, v: Venue)
    requires v in venues
    ensures dist(lat, lng, v.latitude, v.longitude) == NearbyRadiusKm ==> v.id in Nearby(venues, lat, lng, dist)
    ensures (forall w :: w in venues && w.id == v.id ==> dist(lat, lng, w.latitude, w.longitude) > NearbyRadiusKm)
      ==> v.id !in Nearby(venues, lat, lng, dist)
  {
  }
}
