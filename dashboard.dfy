/** Dashboard: the itinerary being assembled, with its add, remove, reorder
    and save handlers, and the search guard. */
module Dashboard {
  import opened Common
  import opened ReviewSidebar
  import ItineraryBuilder
  import HeatMapView

  /** The itinerary's default score for a location with no reviews. */
  const NoReviewsScore: real := 0.8

  datatype Location = Location(lat: real, lng: real)

  /** types.ts `Hotspot`: an itinerary entry. */
  datatype Hotspot = Hotspot(id: string, name: string, location: Location, emotionScores: map<string, real>)

  /** The neighbourhood last clicked on the map. */
  datatype CurrentLocation = CurrentLocation(lat: real, lng: real, name: string)

  /** The score a review adds to the reduce: its first entry for the emotion, or nothing. */
  function Contribution(review: UiReview, emotion: string): real
  {
    match FindScore(review.emotionScores, emotion)
    case None => 0.0
    case Some(s) => s.score
  }

  /** The reduce over the reviews, from the left. */
  function ReviewScoreSum(reviews: seq<UiReview>, emotion: string): real
  {
    if reviews == [] then 0.0
    else ReviewScoreSum(reviews[..|reviews| - 1], emotion) + Contribution(reviews[|reviews| - 1], emotion)
  }

  /** The value the new entry records for the selected emotion. */
  function ItineraryScore(reviews: seq<UiReview>, emotion: string): real
  {
    if |reviews| > 0 then ReviewScoreSum(reviews, emotion) / (|reviews| as real) else NoReviewsScore
  }

  /** Each review's contribution, 0 for a review without the emotion. */
  function Contributions(reviews: seq<UiReview>, emotion: string): (c: seq<real>)
    ensures |c| == |reviews|
    ensures forall k :: 0 <= k < |reviews| ==> c[k] == Contribution(reviews[k], emotion)
  {
    seq(|reviews|, k requires 0 <= k < |reviews| => Contribution(reviews[k], emotion))
  }

  lemma {:induction false} ReviewScoreSumIsSum(reviews: seq<UiReview>, emotion: string)
    ensures ReviewScoreSum(reviews, emotion) == Sum(Contributions(reviews, emotion))
  {
    if reviews != [] {
      var init := reviews[..|reviews| - 1];
      ReviewScoreSumIsSum(init, emotion);
      assert Contributions(reviews, emotion)[..|reviews| - 1] == Contributions(init, emotion);
    }
  }

  /** The recorded score is the mean over all reviews, a missing emotion
      counting 0 (the divisor is the number of reviews, not the number that
      carry the emotion); with no reviews it is 0.8. */
  lemma ItineraryScoreIsMean(reviews: seq<UiReview>, emotion: string)
    ensures reviews == [] ==> ItineraryScore(reviews, emotion) == NoReviewsScore
    ensures reviews != [] ==> ItineraryScore(reviews, emotion) == Mean(Contributions(reviews, emotion))
    ensures reviews != [] ==>
      Min(Contributions(reviews, emotion)) <= ItineraryScore(reviews, emotion) <= Max(Contributions(reviews, emotion))
  {
    if reviews != [] {
      ReviewScoreSumIsSum(reviews, emotion);
      MeanWithinMinMax(Contributions(reviews, emotion));
    }
  }

  /** Scores in [0, 1] give a recorded score in [0, 1]. */
  lemma ItineraryScoreBounded(reviews: seq<UiReview>, emotion: string)
    requires forall k, j :: 0 <= k < |reviews| && 0 <= j < |reviews[k].emotionScores| ==>
               0.0 <= reviews[k].emotionScores[j].score <= 1.0
    ensures 0.0 <= ItineraryScore(reviews, emotion) <= 1.0
  {
    if reviews != [] {
      var c := Contributions(reviews, emotion);
      forall k | 0 <= k < |c| ensures 0.0 <= c[k] <= 1.0 {
        var f := FindScore(reviews[k].emotionScores, emotion);
        if f.Some? {
          var j :| 0 <= j < |reviews[k].emotionScores| && reviews[k].emotionScores[j] == f.value;
        }
      }
      ReviewScoreSumIsSum(reviews, emotion);
      MeanBetween(c, 0.0, 1.0);
    }
  }

  /** `selectedHotspots.find(h => same lat && same lng)`. */
  function FindAt(hs: seq<Hotspot>, lat: real, lng: real): (r: Option<Hotspot>)
    ensures r.Some? <==> exists i :: 0 <= i < |hs| && hs[i].location == Location(lat, lng)
  {
    if hs == [] then None
    else if hs[0].location == Location(lat, lng) then Some(hs[0])
    else
      var r := FindAt(hs[1..], lat, lng);
      assert forall i :: 1 <= i < |hs| ==> hs[i] == hs[1..][i - 1];
      r
  }

  /** No two entries share a (lat, lng). */
  ghost predicate DistinctLocations(hs: seq<Hotspot>)
  {
    forall i, j :: 0 <= i < j < |hs| ==> hs[i].location != hs[j].location
  }

  /** `spots.filter(s => s.id !== id)`. */
  function WithoutId(hs: seq<Hotspot>, id: string): (r: seq<Hotspot>)
    ensures |r| <= |hs|
  {
    if hs == [] then []
    else
      var last := hs[|hs| - 1];
      WithoutId(hs[..|hs| - 1], id) + (if last.id != id then [last] else [])
  }

  /** An entry is kept exactly when it was there and has another id. */
  lemma {:induction false} WithoutIdMembers(hs: seq<Hotspot>, id: string)
    ensures forall h :: h in WithoutId(hs, id) <==> h in hs && h.id != id
  {
    if hs != [] {
      var init := hs[..|hs| - 1];
      WithoutIdMembers(init, id);
      assert hs == init + [hs[|hs| - 1]];
    }
  }

  /** The filter keeps the order: filtering a concatenation filters each part. */
  lemma {:induction false} WithoutIdAppend(a: seq<Hotspot>, b: seq<Hotspot>, id: string)
    ensures WithoutId(a + b, id) == WithoutId(a, id) + WithoutId(b, id)
  {
    if b == [] {
      assert a + b == a;
    } else {
      var b' := b[..|b| - 1];
      assert (a + b)[..|a + b| - 1] == a + b';
      assert (a + b)[|a + b| - 1] == b[|b| - 1];
      WithoutIdAppend(a, b', id);
    }
  }

  /** Removing an id that is not there changes nothing. */
  lemma {:induction false} WithoutAbsentId(hs: seq<Hotspot>, id: string)
    requires forall i :: 0 <= i < |hs| ==> hs[i].id != id
    ensures WithoutId(hs, id) == hs
  {
    if hs != [] {
      var init := hs[..|hs| - 1];
      assert forall i :: 0 <= i < |init| ==> init[i] == hs[i];
      WithoutAbsentId(init, id);
      assert hs == init + [hs[|hs| - 1]];
    }
  }

  /** A filtered list keeps distinct locations. */
  lemma {:induction false} WithoutIdDistinct(hs: seq<Hotspot>, id: string)
    requires DistinctLocations(hs)
    ensures DistinctLocations(WithoutId(hs, id))
  {
    if hs != [] {
      var init := hs[..|hs| - 1];
      var last := hs[|hs| - 1];
      assert DistinctLocations(init) by {
        forall i, j | 0 <= i < j < |init| ensures init[i].location != init[j].location {
          assert init[i] == hs[i] && init[j] == hs[j];
        }
      }
      WithoutIdDistinct(init, id);
      var w := WithoutId(init, id);
      WithoutIdMembers(init, id);
      if last.id != id {
        forall i | 0 <= i < |w| ensures w[i].location != last.location {
          assert w[i] in init;
          var m :| 0 <= m < |init| && init[m] == w[i];
          assert hs[m] == w[i];
        }
      }
    }
  }

  /** A drag-and-drop move keeps locations distinct. */
  lemma MoveDistinct(hs: seq<Hotspot>, dragIndex: nat, dropIndex: nat, moved: seq<Hotspot>)
    requires DistinctLocations(hs)
    requires dragIndex < |hs| && dropIndex < |hs| && |moved| == |hs|
    requires moved[dropIndex] == hs[dragIndex]
    requires ItineraryBuilder.RemoveAt(moved, dropIndex) == ItineraryBuilder.RemoveAt(hs, dragIndex)
    ensures DistinctLocations(moved)
  {
    var a := ItineraryBuilder.RemoveAt(moved, dropIndex);
    forall i, j | 0 <= i < j < |moved| ensures moved[i].location != moved[j].location {
      var pi := if i == dropIndex then dragIndex else (var q := if i < dropIndex then i else i - 1; if q < dragIndex then q else q + 1);
      var pj := if j == dropIndex then dragIndex else (var q := if j < dropIndex then j else j - 1; if q < dragIndex then q else q + 1);
      if i != dropIndex {
        var q := if i < dropIndex then i else i - 1;
        assert moved[i] == a[q];
      }
      if j != dropIndex {
        var q := if j < dropIndex then j else j - 1;
        assert moved[j] == a[q];
      }
      assert moved[i] == hs[pi] && moved[j] == hs[pj] && pi != pj;
    }
  }

  datatype AddOutcome = NoLocation | AlreadyListed | Added
  datatype SaveOutcome = NothingToSave | SaveRequested(hotspotIds: seq<string>, saved: bool)
  datatype SearchOutcome = NoCity | SearchRequested(city: string, category: string, emotion: string)

  /** The Dashboard component's state. */
  class DashboardState {
    var city: string
    var category: string
    var selectedEmotion: string
    var isLoading: bool
    var heatmapData: Option<HeatMapView.HeatmapResponse>
    var reviews: seq<UiReview>
    var selectedHotspots: seq<Hotspot>
    var currentLocation: Option<CurrentLocation>

    /** The itinerary never lists a location twice. */
    ghost predicate Valid()
      reads this
    {
      DistinctLocations(selectedHotspots)
    }

    constructor()
      ensures Valid()
      ensures city == "" && category == "restaurants" && selectedEmotion == "joy" && !isLoading
      ensures heatmapData == None && reviews == [] && selectedHotspots == [] && currentLocation == None
    {
      city := "";
      category := "restaurants";
      selectedEmotion := "joy";
      isLoading := false;
      heatmapData := None;
      reviews := [];
      selectedHotspots := [];
      currentLocation := None;
    }

    /** handleAddToItinerary; `newId` stands for `hotspot-${Date.now()}`. */
    method AddToItinerary(newId: string) returns (o: AddOutcome)
      requires Valid()
      modifies this`selectedHotspots
      ensures Valid()
      ensures currentLocation.None? ==> o == NoLocation && selectedHotspots == old(selectedHotspots)
      ensures currentLocation.Some? ==>
        var loc := Location(currentLocation.value.lat, currentLocation.value.lng);
        && ((exists i :: 0 <= i < |old(selectedHotspots)| && old(selectedHotspots)[i].location == loc) ==>
              o == AlreadyListed && selectedHotspots == old(selectedHotspots))
        && ((forall i :: 0 <= i < |old(selectedHotspots)| ==> old(selectedHotspots)[i].location != loc) ==>
              && o == Added
              && selectedHotspots == old(selectedHotspots) +
                   [Hotspot(newId, currentLocation.value.name, loc,
                            map[selectedEmotion := ItineraryScore(reviews, selectedEmotion)])])
    {
      if currentLocation.None? {
        return NoLocation;
      }
      var cur := currentLocation.value;
      var existing := FindAt(selectedHotspots, cur.lat, cur.lng);
      if existing.Some? {
        return AlreadyListed;
      }
      var score := ItineraryScore(reviews, selectedEmotion);
      var newHotspot := Hotspot(newId, cur.name, Location(cur.lat, cur.lng), map[selectedEmotion := score]);
      selectedHotspots := selectedHotspots + [newHotspot];
      o := Added;
    }

    /** The onRemoveHotspot callback. */
    method RemoveHotspot(id: string)
      requires Valid()
      modifies this`selectedHotspots
      ensures Valid()
      ensures selectedHotspots == WithoutId(old(selectedHotspots), id)
    {
      WithoutIdDistinct(selectedHotspots, id);
      selectedHotspots := WithoutId(selectedHotspots, id);
    }

    /** A drop in the itinerary list: handleDrop, then onReorderHotspots. */
    method ReorderHotspots(dragIndex: nat, dropIndex: nat)
      requires Valid()
      requires dragIndex < |selectedHotspots| && dropIndex < |selectedHotspots|
      modifies this`selectedHotspots
      ensures Valid()
      ensures dragIndex == dropIndex ==> selectedHotspots == old(selectedHotspots)
      ensures multiset(selectedHotspots) == multiset(old(selectedHotspots))
      ensures |selectedHotspots| == |old(selectedHotspots)|
      ensures selectedHotspots[dropIndex] == old(selectedHotspots)[dragIndex]
      ensures ItineraryBuilder.RemoveAt(selectedHotspots, dropIndex) ==
              ItineraryBuilder.RemoveAt(old(selectedHotspots), dragIndex)
    {
      var moved := ItineraryBuilder.HandleDrop(selectedHotspots, dragIndex, dropIndex);
      if moved.Some? {
        MoveDistinct(selectedHotspots, dragIndex, dropIndex, moved.value);
        selectedHotspots := moved.value;
      }
    }

    /** handleSaveItinerary; `saveSucceeds` is whether the create call resolves. */
    method SaveItinerary(saveSucceeds: bool) returns (o: SaveOutcome)
      modifies this`isLoading
      ensures selectedHotspots == [] ==> o == NothingToSave && isLoading == old(isLoading)
      ensures selectedHotspots != [] ==>
        && o.SaveRequested? && o.saved == saveSucceeds && !isLoading
        && |o.hotspotIds| == |selectedHotspots|
        && forall k :: 0 <= k < |selectedHotspots| ==> o.hotspotIds[k] == selectedHotspots[k].id
    {
      if |selectedHotspots| == 0 {
        return NothingToSave;
      }
      isLoading := true;
      var hs := selectedHotspots;
      var ids := seq(|hs|, k requires 0 <= k < |hs| => hs[k].id);
      isLoading := false;
      o := SaveRequested(ids, saveSucceeds);
    }

    /** handleSearch; `fetched` is the heatmap the three calls end with, None
        when one of them throws. */
    method Search(fetched: Option<HeatMapView.HeatmapResponse>) returns (o: SearchOutcome)
      modifies this`isLoading, this`heatmapData
      ensures city == "" ==> o == NoCity && isLoading == old(isLoading) && heatmapData == old(heatmapData)
      ensures city != "" ==>
        && o == SearchRequested(city, category, selectedEmotion)
        && !isLoading
        && heatmapData == (if fetched.Some? then fetched else old(heatmapData))
    {
      if city == "" {
        return NoCity;
      }
      isLoading := true;
      if fetched.Some? {
        heatmapData := fetched;
      }
      isLoading := false;
      o := SearchRequested(city, category, selectedEmotion);
    }
  }
}
