/** Map: turning the heatmap response into heat points and markers. */
module HeatMapView {
  import opened Common
  import opened Models
  import HeatmapGeoJson

  /** types.ts `HeatmapFeature`; `weight` is optional, `score` is not. */
  datatype Geometry = Geometry(kind: string, coordinates: seq<real>)
  datatype FeatureProps = FeatureProps(neighborhood: string, emotion: string, score: real,
                                       weight: Option<real>, reviewCount: int)
  datatype HeatmapFeature = HeatmapFeature(geometry: Geometry, properties: FeatureProps)

  /** types.ts `HeatmapPoint`: the legacy `data` format. */
  datatype HeatmapPoint = HeatmapPoint(lat: real, lng: real, weight: real)

  /** types.ts `HeatmapResponse`: either field may be missing. */
  datatype HeatmapResponse = HeatmapResponse(data: Option<seq<HeatmapPoint>>, features: Option<seq<HeatmapFeature>>)

  /** One `[lat, lng, weight]` entry handed to the heat layer. */
  datatype HeatPoint = HeatPoint(lat: real, lng: real, weight: real)

  /** A marker: its position, and the popup and click data of its feature. */
  datatype Marker = Marker(lat: real, lng: real, neighborhood: string, score: real, reviewCount: int)

  predicate IsPoint(f: HeatmapFeature)
  {
    f.geometry.kind == "Point"
  }

  /** A GeoJSON position has at least two numbers (RFC 7946, section 3.1.1). */
  predicate PointsHavePositions(fs: seq<HeatmapFeature>)
  {
    forall i :: 0 <= i < |fs| && IsPoint(fs[i]) ==> |fs[i].geometry.coordinates| >= 2
  }

  /** `weight || score || 1`: a missing or zero weight falls through to the
      score, a zero score to 1. */
  function HeatWeight(p: FeatureProps): (w: real)
    ensures w != 0.0
    ensures p.weight.Some? && p.weight.value != 0.0 ==> w == p.weight.value
    ensures (p.weight.None? || p.weight.value == 0.0) && p.score != 0.0 ==> w == p.score
    ensures (p.weight.None? || p.weight.value == 0.0) && p.score == 0.0 ==> w == 1.0
  {
    if p.weight.Some? && p.weight.value != 0.0 then p.weight.value
    else if p.score != 0.0 then p.score
    else 1.0
  }

  /** GeoJSON positions are [longitude, latitude]; the heat layer takes lat first. */
  function FeaturePoint(f: HeatmapFeature): HeatPoint
    requires |f.geometry.coordinates| >= 2
  {
    HeatPoint(f.geometry.coordinates[1], f.geometry.coordinates[0], HeatWeight(f.properties))
  }

  function FeatureMarker(f: HeatmapFeature): Marker
    requires |f.geometry.coordinates| >= 2
  {
    Marker(f.geometry.coordinates[1], f.geometry.coordinates[0], f.properties.neighborhood,
           f.properties.score, f.properties.reviewCount)
  }

  /** The points the forEach pushes: one per Point feature, in order. */
  function PointsOf(fs: seq<HeatmapFeature>): seq<HeatPoint>
    requires PointsHavePositions(fs)
  {
    if fs == [] then []
    else
      var f := fs[|fs| - 1];
      PointsOf(fs[..|fs| - 1]) + (if IsPoint(f) then [FeaturePoint(f)] else [])
  }

  function MarkersOf(fs: seq<HeatmapFeature>): seq<Marker>
    requires PointsHavePositions(fs)
  {
    if fs == [] then []
    else
      var f := fs[|fs| - 1];
      MarkersOf(fs[..|fs| - 1]) + (if IsPoint(f) then [FeatureMarker(f)] else [])
  }

  function LatLngs(points: seq<HeatPoint>): (r: seq<(real, real)>)
    ensures |r| == |points|
    ensures forall k :: 0 <= k < |points| ==> r[k] == (points[k].lat, points[k].lng)
  {
    seq(|points|, k requires 0 <= k < |points| => (points[k].lat, points[k].lng))
  }

  /** The legacy branch: every point as [lat, lng, weight]. */
  function LegacyPoints(data: seq<HeatmapPoint>): seq<HeatPoint>
  {
    seq(|data|, k requires 0 <= k < |data| => HeatPoint(data[k].lat, data[k].lng, data[k].weight))
  }

  predicate HasPointFeature(fs: seq<HeatmapFeature>, p: HeatPoint)
    requires PointsHavePositions(fs)
  {
    exists i :: 0 <= i < |fs| && IsPoint(fs[i]) && FeaturePoint(fs[i]) == p
  }

  /** Exactly the Point features give points, and the k-th marker stands
      where the k-th point is. */
  lemma {:induction false} PointsOfCorrect(fs: seq<HeatmapFeature>)
    requires PointsHavePositions(fs)
    ensures |PointsOf(fs)| == |MarkersOf(fs)|
    ensures forall k :: 0 <= k < |PointsOf(fs)| ==>
              PointsOf(fs)[k].lat == MarkersOf(fs)[k].lat && PointsOf(fs)[k].lng == MarkersOf(fs)[k].lng
    ensures forall p :: p in PointsOf(fs) <==> HasPointFeature(fs, p)
  {
    if fs != [] {
      var init := fs[..|fs| - 1];
      var f := fs[|fs| - 1];
      assert PointsHavePositions(init) by {
        forall i | 0 <= i < |init| && IsPoint(init[i]) ensures |init[i].geometry.coordinates| >= 2 {
          assert init[i] == fs[i];
        }
      }
      PointsOfCorrect(init);
      forall p ensures p in PointsOf(fs) <==> HasPointFeature(fs, p) {
        if p in PointsOf(init) {
          assert HasPointFeature(init, p);
          var i :| 0 <= i < |init| && IsPoint(init[i]) && FeaturePoint(init[i]) == p;
          assert fs[i] == init[i];
        }
        if HasPointFeature(fs, p) {
          var i :| 0 <= i < |fs| && IsPoint(fs[i]) && FeaturePoint(fs[i]) == p;
          if i < |init| {
            assert fs[i] == init[i];
            assert HasPointFeature(init, p);
          }
        }
      }
    }
  }

  /** The map component's layers: the markers drawn, the heat layer on the
      map (None once removed) and the bounds last fitted. */
  class MapView {
    var markers: seq<Marker>
    var heatLayer: Option<seq<HeatPoint>>
    var fitted: Option<seq<(real, real)>>

    constructor()
      ensures markers == [] && heatLayer == None && fitted == None
    {
      markers := [];
      heatLayer := None;
      fitted := None;
    }

    /** The effect run for new heatmap data: clear the markers and the heat
        layer, then draw the features if there are any (even an empty list),
        otherwise the legacy points. */
    method Redraw(response: HeatmapResponse)
      requires response.features.Some? ==> PointsHavePositions(response.features.value)
      modifies this
      ensures response.features.Some? ==>
        var points := PointsOf(response.features.value);
        && markers == MarkersOf(response.features.value)
        && heatLayer == (if points != [] then Some(points) else None)
        && fitted == (if points != [] then Some(LatLngs(points)) else old(fitted))
      ensures response.features.None? && response.data.Some? ==>
        var points := LegacyPoints(response.data.value);
        && markers == []
        && heatLayer == (if points != [] then Some(points) else None)
        && fitted == (if points != [] then Some(LatLngs(points)) else old(fitted))
      ensures response.features.None? && response.data.None? ==>
        markers == [] && heatLayer == None && fitted == old(fitted)
    {
      markers := [];
      heatLayer := None;
      if response.features.Some? {
        var fs := response.features.value;
        var points: seq<HeatPoint> := [];
        var latLngs: seq<(real, real)> := [];
        for i := 0 to |fs|
          invariant PointsHavePositions(fs[..i])
          invariant points == PointsOf(fs[..i])
          invariant markers == MarkersOf(fs[..i])
          invariant latLngs == LatLngs(points)
          invariant heatLayer == None && fitted == old(fitted)
        {
          assert fs[..i + 1][..i] == fs[..i];
          var f := fs[i];
          if IsPoint(f) {
            var lng := f.geometry.coordinates[0];
            var lat := f.geometry.coordinates[1];
            var weight := HeatWeight(f.properties);
            points := points + [HeatPoint(lat, lng, weight)];
            latLngs := latLngs + [(lat, lng)];
            markers := markers + [Marker(lat, lng, f.properties.neighborhood, f.properties.score, f.properties.reviewCount)];
          }
        }
        assert fs[..|fs|] == fs;
        if |points| > 0 {
          heatLayer := Some(points);
          fitted := Some(latLngs);
        }
      } else if response.data.Some? {
        var points := LegacyPoints(response.data.value);
        if |points| > 0 {
          heatLayer := Some(points);
          fitted := Some(LatLngs(points));
        }
      }
    }
  }

  // ---------------------------------------------------------------------------
  // The backend's collection as the map receives it

  /** The geometry of a serialised feature as types.ts reads it: its `type`
      string and its list of numbers. */
  function WireGeometry(g: Json): Geometry
  {
    match g
    case JObj(m) =>
      var kind := if "type" in m && m["type"].JStr? then m["type"].s else "";
      var coords := if "coordinates" in m && m["coordinates"].JArr? &&
                       forall k :: 0 <= k < |m["coordinates"].items| ==> m["coordinates"].items[k].JNum?
                    then seq(|m["coordinates"].items|, k requires 0 <= k < |m["coordinates"].items| &&
                                                              m["coordinates"].items[k].JNum? =>
                                                           m["coordinates"].items[k].n)
                    else [];
      Geometry(kind, coords)
    case _ => Geometry("", [])
  }

  function WireFeature(f: HeatmapGeoJson.Feature): HeatmapFeature
  {
    var p := f.properties;
    HeatmapFeature(WireGeometry(f.geometry),
                   FeatureProps(p.neighborhood, p.emotion, p.score, Some(p.weight), p.reviewCount))
  }

  function WireFeatures(fc: HeatmapGeoJson.FeatureCollection): (r: seq<HeatmapFeature>)
    ensures |r| == |fc.features|
    ensures forall k :: 0 <= k < |r| ==> r[k] == WireFeature(fc.features[k])
  {
    seq(|fc.features|, k requires 0 <= k < |fc.features| => WireFeature(fc.features[k]))
  }

  /** When every feature is a Point, there is one heat point per feature, in order. */
  lemma {:induction false} PointsOfAllPoints(fs: seq<HeatmapFeature>)
    requires forall i :: 0 <= i < |fs| ==> IsPoint(fs[i]) && |fs[i].geometry.coordinates| >= 2
    ensures PointsHavePositions(fs)
    ensures |PointsOf(fs)| == |fs|
    ensures forall i :: 0 <= i < |fs| ==> PointsOf(fs)[i] == FeaturePoint(fs[i])
  {
    if fs != [] {
      var init := fs[..|fs| - 1];
      assert forall i :: 0 <= i < |init| ==> init[i] == fs[i];
      PointsOfAllPoints(init);
    }
  }

  /** Fallback feature i, as the frontend reads it, is a Point at its landmark. */
  lemma FallbackFeatureOnMap(emotion: string, i: nat)
    requires i < |HeatmapGeoJson.DemoLocations|
    ensures var f := WireFeature(HeatmapGeoJson.DemoFeature(emotion, HeatmapGeoJson.DemoLocations[i]));
      && IsPoint(f) && |f.geometry.coordinates| == 2
      && FeaturePoint(f) == HeatPoint(HeatmapGeoJson.DemoLocations[i].lat, HeatmapGeoJson.DemoLocations[i].lng,
                                      10.0 * HeatmapGeoJson.DemoLocations[i].score)
  {
    var loc := HeatmapGeoJson.DemoLocations[i];
    assert WireGeometry(HeatmapGeoJson.DemoFeature(emotion, loc).geometry) == Geometry("Point", [loc.lng, loc.lat]);
  }

  /** The fallback collection lands on the landmarks: the backend writes
      [longitude, latitude] and the map reads them back in the right order,
      with heat weight 10 * score. */
  lemma FallbackOnMap(emotion: string)
    ensures PointsHavePositions(WireFeatures(HeatmapGeoJson.FallbackData(emotion)))
    ensures PointsOf(WireFeatures(HeatmapGeoJson.FallbackData(emotion))) ==
      seq(5, i requires 0 <= i < 5 =>
        HeatPoint(HeatmapGeoJson.DemoLocations[i].lat, HeatmapGeoJson.DemoLocations[i].lng,
                  10.0 * HeatmapGeoJson.DemoLocations[i].score))
  {
    var fs := WireFeatures(HeatmapGeoJson.FallbackData(emotion));
    assert |fs| == 5;
    forall i | 0 <= i < 5
      ensures IsPoint(fs[i]) && |fs[i].geometry.coordinates| == 2
      ensures FeaturePoint(fs[i]) == HeatPoint(HeatmapGeoJson.DemoLocations[i].lat, HeatmapGeoJson.DemoLocations[i].lng,
                                               10.0 * HeatmapGeoJson.DemoLocations[i].score)
    {
      FallbackFeatureOnMap(emotion, i);
    }
    PointsOfAllPoints(fs);
  }
}
