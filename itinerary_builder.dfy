/** ItineraryBuilder: reordering the itinerary by drag and drop. */
module ItineraryBuilder {
  import opened Common

  /** `copy.splice(i, 1)` on an in-range index: the sequence without position i. */
  function RemoveAt<T>(s: seq<T>, i: nat): (r: seq<T>)
    requires i < |s|
    ensures |r| == |s| - 1
    ensures forall k :: 0 <= k < i ==> r[k] == s[k]
    ensures forall k :: i <= k < |r| ==> r[k] == s[k + 1]
    ensures multiset(r) + multiset{s[i]} == multiset(s)
  {
    assert s == s[..i] + [s[i]] + s[i + 1..];
    s[..i] + s[i + 1..]
  }

  /** `copy.splice(j, 0, x)` on an index at most the length: x inserted before position j. */
  function InsertAt<T>(s: seq<T>, j: nat, x: T): (r: seq<T>)
    requires j <= |s|
    ensures |r| == |s| + 1
    ensures r[j] == x
    ensures forall k :: 0 <= k < j ==> r[k] == s[k]
    ensures forall k :: j < k < |r| ==> r[k] == s[k - 1]
    ensures multiset(r) == multiset(s) + multiset{x}
  {
    assert s == s[..j] + s[j..];
    s[..j] + [x] + s[j..]
  }

  /** handleDrop: None when the item is dropped on its own place (the list is
      not touched); otherwise the new order handed to onReorderHotspots.
      Both indices come from positions of the rendered list. */
  method HandleDrop<T>(hotspots: seq<T>, dragIndex: nat, dropIndex: nat) returns (r: Option<seq<T>>)
    requires dragIndex < |hotspots| && dropIndex < |hotspots|
    ensures r.None? <==> dragIndex == dropIndex
    ensures r.Some? ==>
      && |r.value| == |hotspots|
      && multiset(r.value) == multiset(hotspots)
      && r.value[dropIndex] == hotspots[dragIndex]
      && RemoveAt(r.value, dropIndex) == RemoveAt(hotspots, dragIndex)
  {
    if dragIndex == dropIndex {
      return None;
    }
    var copy := hotspots;
    var removed := copy[dragIndex];
    copy := RemoveAt(copy, dragIndex);
    copy := InsertAt(copy, dropIndex, removed);
    return Some(copy);
  }

  /** The moved item ends where it was dropped and everything else keeps its
      relative order; between the two indices items shift by one place. */
  lemma MoveShifts<T>(hotspots: seq<T>, dragIndex: nat, dropIndex: nat, moved: seq<T>)
    requires dragIndex < |hotspots| && dropIndex < |hotspots| && |moved| == |hotspots|
    requires moved[dropIndex] == hotspots[dragIndex]
    requires RemoveAt(moved, dropIndex) == RemoveAt(hotspots, dragIndex)
    ensures forall k :: 0 <= k < |moved| && k < dragIndex && k < dropIndex ==> moved[k] == hotspots[k]
    ensures forall k :: 0 <= k < |moved| && k > dragIndex && k > dropIndex ==> moved[k] == hotspots[k]
    ensures forall k :: dragIndex < k <= dropIndex ==> moved[k - 1] == hotspots[k]
    ensures forall k :: dropIndex < k <= dragIndex ==> moved[k] == hotspots[k - 1]
  {
    var a := RemoveAt(moved, dropIndex);
    var b := RemoveAt(hotspots, dragIndex);
    forall k | 0 <= k < |moved| && k < dragIndex && k < dropIndex ensures moved[k] == hotspots[k] {
      assert a[k] == b[k];
    }
    forall k | 0 <= k < |moved| && k > dragIndex && k > dropIndex ensures moved[k] == hotspots[k] {
      assert a[k - 1] == b[k - 1];
    }
    forall k | dragIndex < k <= dropIndex ensures moved[k - 1] == hotspots[k] {
      assert a[k - 1] == b[k - 1];
    }
    forall k | dropIndex < k <= dragIndex ensures moved[k] == hotspots[k - 1] {
      assert a[k - 1] == b[k - 1];
    }
  }
}
