/** HeatmapGenerator._update_hotspots: for each (neighbourhood, average,
    count) tuple, overwrite the first hotspot row with that neighbourhood and
    emotion, or add a new row; then commit all changes at once. */
module HotspotStore {
  import opened Common
  import opened Models
  import opened HeatmapScores

  predicate Matches(h: EmotionalHotspot, neighborhoodId: nat, emotion: string)
  {
    h.neighborhoodId == neighborhoodId && h.emotion == emotion
  }

  /** Row j is the first row of the table carrying the key (neighborhoodId, emotion). */
  ghost predicate IsFirstMatch(rows: seq<EmotionalHotspot>, j: int, neighborhoodId: nat, emotion: string)
  {
    0 <= j < |rows| && Matches(rows[j], neighborhoodId, emotion) &&
    forall i :: 0 <= i < j ==> !Matches(rows[i], neighborhoodId, emotion)
  }

  /** `EmotionalHotspot.query.filter_by(neighborhood_id=…, emotion=…).first()`, in table order. */
  function FirstMatch(rows: seq<EmotionalHotspot>, neighborhoodId: nat, emotion: string): (k: Option<nat>)
    ensures k.Some? ==> IsFirstMatch(rows, k.value, neighborhoodId, emotion)
    ensures k.None? ==> forall j :: 0 <= j < |rows| ==> !Matches(rows[j], neighborhoodId, emotion)
  {
    if rows == [] then None
    else if Matches(rows[0], neighborhoodId, emotion) then Some(0)
    else
      match FirstMatch(rows[1..], neighborhoodId, emotion)
      case None => None
      case Some(k) => Some(k + 1)
  }

  /** The hotspot row holds the tuple's average and count. */
  predicate Carries(h: EmotionalHotspot, row: ScoreRow)
  {
    h.averageScore == row.average && h.reviewCount == row.count
  }

  /** Two rows are the same record: same id, same key, same insert timestamp. */
  predicate SameRecord(a: EmotionalHotspot, b: EmotionalHotspot)
  {
    a.id == b.id && a.neighborhoodId == b.neighborhoodId && a.emotion == b.emotion &&
    a.lastUpdated == b.lastUpdated
  }

  /** One iteration of the loop in _update_hotspots. An existing row keeps its
      id and its last_updated (the column has an insert default only); a new
      row gets the next id and the current time. */
  function Upsert(rows: seq<EmotionalHotspot>, emotion: string, row: ScoreRow, now: int): (r: seq<EmotionalHotspot>)
    ensures FirstMatch(rows, row.neighborhood.id, emotion).Some? ==> |r| == |rows|
    ensures FirstMatch(rows, row.neighborhood.id, emotion).None? ==>
      r == rows + [NewHotspot(|rows| + 1, row.neighborhood.id, emotion, row.average, now, row.count)]
    ensures forall j :: 0 <= j < |rows| ==> SameRecord(r[j], rows[j])
    ensures forall j :: 0 <= j < |rows| && !IsFirstMatch(rows, j, row.neighborhood.id, emotion) ==> r[j] == rows[j]
    ensures FirstMatch(r, row.neighborhood.id, emotion).Some?
    ensures Carries(r[FirstMatch(r, row.neighborhood.id, emotion).value], row)
  {
    match FirstMatch(rows, row.neighborhood.id, emotion)
    case Some(k) =>
      var r := rows[k := rows[k].(averageScore := row.average, reviewCount := row.count)];
      FirstMatchUnique(r, k, row.neighborhood.id, emotion);
      r
    case None =>
      var r := rows + [NewHotspot(|rows| + 1, row.neighborhood.id, emotion, row.average, now, row.count)];
      FirstMatchUnique(r, |rows|, row.neighborhood.id, emotion);
      r
  }

  /** The effect of the whole loop on the session's view of the table; each
      query sees the earlier iterations' changes (autoflush). */
  function UpsertAll(rows: seq<EmotionalHotspot>, emotion: string, tuples: seq<ScoreRow>, now: int): seq<EmotionalHotspot>
  {
    if tuples == [] then rows
    else Upsert(UpsertAll(rows, emotion, tuples[..|tuples| - 1], now), emotion, tuples[|tuples| - 1], now)
  }

  // ---------------------------------------------------------------------------
  // The imperative code

  /** The `.first()` query as a scan of the table. */
  method FindHotspot(rows: seq<EmotionalHotspot>, neighborhoodId: nat, emotion: string) returns (k: Option<nat>)
    ensures k == FirstMatch(rows, neighborhoodId, emotion)
  {
    var i := 0;
    while i < |rows|
      invariant 0 <= i <= |rows|
      invariant forall j :: 0 <= j < i ==> !Matches(rows[j], neighborhoodId, emotion)
    {
      if Matches(rows[i], neighborhoodId, emotion) {
        FirstMatchUnique(rows, i, neighborhoodId, emotion);
        return Some(i);
      }
      i := i + 1;
    }
    k := None;
  }

  /** The loop of _update_hotspots on the session's pending view of the table. */
  method UpsertLoop(rows: seq<EmotionalHotspot>, emotion: string, tuples: seq<ScoreRow>, now: int)
    returns (pending: seq<EmotionalHotspot>)
    ensures pending == UpsertAll(rows, emotion, tuples, now)
  {
    pending := rows;
    var i := 0;
    while i < |tuples|
      invariant 0 <= i <= |tuples|
      invariant pending == UpsertAll(rows, emotion, tuples[..i], now)
    {
      var t := tuples[i];
      ghost var prev := pending;
      var k := FindHotspot(pending, t.neighborhood.id, emotion);
      if k.Some? {
        pending := pending[k.value := pending[k.value].(averageScore := t.average, reviewCount := t.count)];
      } else {
        pending := pending + [NewHotspot(|pending| + 1, t.neighborhood.id, emotion, t.average, now, t.count)];
      }
      assert pending == Upsert(prev, emotion, t, now);
      assert tuples[..i + 1][..i] == tuples[..i];
      i := i + 1;
    }
    assert tuples[..|tuples|] == tuples;
  }

  /** _update_hotspots followed by its single commit: every change is applied
      together, or, when the commit fails, none is. */
  method UpdateHotspots(db: Database, emotion: string, tuples: seq<ScoreRow>, now: int, commitSucceeds: bool)
    modifies db`hotspots
    ensures db.hotspots == if commitSucceeds then UpsertAll(old(db.hotspots), emotion, tuples, now) else old(db.hotspots)
    ensures old(db.Valid()) ==> db.Valid()
  {
    var pending := UpsertLoop(db.hotspots, emotion, tuples, now);
    UpsertAllKeepsIds(db.hotspots, emotion, tuples, now);
    if commitSucceeds {
      db.hotspots := pending;
    }
  }

  // ---------------------------------------------------------------------------
  // Properties

  lemma FirstMatchUnique(rows: seq<EmotionalHotspot>, k: int, neighborhoodId: nat, emotion: string)
    requires IsFirstMatch(rows, k, neighborhoodId, emotion)
    ensures FirstMatch(rows, neighborhoodId, emotion) == Some(k)
  {
  }

  /** The key of each old position is kept and later positions do not carry
      the key, so its first match is unchanged. */
  lemma FirstMatchStable(a: seq<EmotionalHotspot>, b: seq<EmotionalHotspot>, neighborhoodId: nat, emotion: string)
    requires |a| <= |b|
    requires forall j :: 0 <= j < |a| ==> SameRecord(a[j], b[j])
    requires forall j :: |a| <= j < |b| ==> !Matches(b[j], neighborhoodId, emotion)
    ensures FirstMatch(b, neighborhoodId, emotion) == FirstMatch(a, neighborhoodId, emotion)
  {
    match FirstMatch(a, neighborhoodId, emotion)
    case Some(k) => FirstMatchUnique(b, k, neighborhoodId, emotion);
    case None =>
  }

  /** The last tuple for a neighbourhood, if any. */
  function LastFor(tuples: seq<ScoreRow>, neighborhoodId: nat): (r: Option<ScoreRow>)
    ensures r.Some? ==> r.value in tuples && r.value.neighborhood.id == neighborhoodId
    ensures r.None? ==> forall t :: t in tuples ==> t.neighborhood.id != neighborhoodId
  {
    if tuples == [] then None
    else
      var last := tuples[|tuples| - 1];
      if last.neighborhood.id == neighborhoodId then Some(last)
      else
        var r := LastFor(tuples[..|tuples| - 1], neighborhoodId);
        assert forall t :: t in tuples ==> t in tuples[..|tuples| - 1] || t == last;
        r
  }

  /** For every neighbourhood of the tuples, the first row with its key holds
      the values of the last tuple for that neighbourhood. */
  ghost predicate Reflects(u: seq<EmotionalHotspot>, emotion: string, tuples: seq<ScoreRow>)
  {
    forall t :: t in tuples ==>
      FirstMatch(u, t.neighborhood.id, emotion).Some? &&
      LastFor(tuples, t.neighborhood.id).Some? &&
      Carries(u[FirstMatch(u, t.neighborhood.id, emotion).value], LastFor(tuples, t.neighborhood.id).value)
  }

  /** Every row that is the first with its own key and whose neighbourhood has
      a tuple takes the last such tuple's values; every other row is kept. */
  ghost function Overwritten(u: seq<EmotionalHotspot>, emotion: string, tuples: seq<ScoreRow>): (r: seq<EmotionalHotspot>)
    ensures |r| == |u|
  {
    seq(|u|, j requires 0 <= j < |u| =>
      if IsFirstMatch(u, j, u[j].neighborhoodId, emotion) && LastFor(tuples, u[j].neighborhoodId).Some?
      then u[j].(averageScore := LastFor(tuples, u[j].neighborhoodId).value.average,
                 reviewCount := LastFor(tuples, u[j].neighborhoodId).value.count)
      else u[j])
  }

  /** The loop keeps every old row as the same record and adds at most one row per tuple. */
  lemma {:induction false} UpsertAllKeeps(rows: seq<EmotionalHotspot>, emotion: string, tuples: seq<ScoreRow>, now: int)
    ensures var r := UpsertAll(rows, emotion, tuples, now);
      && |rows| <= |r| <= |rows| + |tuples|
      && (forall j :: 0 <= j < |rows| ==> SameRecord(r[j], rows[j]))
  {
    if tuples != [] {
      UpsertAllKeeps(rows, emotion, tuples[..|tuples| - 1], now);
    }
  }

  /** An old row that is not the first for any tuple's key is untouched. */
  lemma {:induction false} UpsertAllUntouched(rows: seq<EmotionalHotspot>, emotion: string, tuples: seq<ScoreRow>, now: int)
    ensures var r := UpsertAll(rows, emotion, tuples, now);
      && |rows| <= |r|
      && (forall j :: (0 <= j < |rows| &&
            forall t :: t in tuples ==> !IsFirstMatch(rows, j, t.neighborhood.id, emotion)) ==> r[j] == rows[j])
  {
    if tuples != [] {
      var init := tuples[..|tuples| - 1];
      var last := tuples[|tuples| - 1];
      UpsertAllUntouched(rows, emotion, init, now);
      UpsertAllKeeps(rows, emotion, init, now);
      var u := UpsertAll(rows, emotion, init, now);
      assert forall t :: t in init ==> t in tuples;
      forall j | 0 <= j < |rows| && IsFirstMatch(u, j, last.neighborhood.id, emotion)
        ensures IsFirstMatch(rows, j, last.neighborhood.id, emotion)
      {
      }
    }
  }

  /** Every added row has this emotion, a tuple's neighbourhood and the current time. */
  lemma {:induction false} UpsertAllAdds(rows: seq<EmotionalHotspot>, emotion: string, tuples: seq<ScoreRow>, now: int)
    ensures var r := UpsertAll(rows, emotion, tuples, now);
      forall j :: |rows| <= j < |r| ==>
        r[j].emotion == emotion && r[j].lastUpdated == now &&
        exists t :: t in tuples && t.neighborhood.id == r[j].neighborhoodId
  {
    if tuples != [] {
      var init := tuples[..|tuples| - 1];
      var last := tuples[|tuples| - 1];
      UpsertAllAdds(rows, emotion, init, now);
      UpsertAllKeeps(rows, emotion, init, now);
      assert forall t :: t in init ==> t in tuples;
    }
  }

  /** The loop keeps every old row as the same record, leaves every row that is
      not the first for a tuple's key untouched, and only adds rows of this
      emotion for the tuples' neighbourhoods, stamped with the current time. */
  lemma {:induction false} UpsertAllFrame(rows: seq<EmotionalHotspot>, emotion: string, tuples: seq<ScoreRow>, now: int)
    ensures var r := UpsertAll(rows, emotion, tuples, now);
      && |rows| <= |r| <= |rows| + |tuples|
      && (forall j :: 0 <= j < |rows| ==> SameRecord(r[j], rows[j]))
      && (forall j :: (0 <= j < |rows| &&
            forall t :: t in tuples ==> !IsFirstMatch(rows, j, t.neighborhood.id, emotion)) ==> r[j] == rows[j])
      && (forall j :: |rows| <= j < |r| ==>
            r[j].emotion == emotion && r[j].lastUpdated == now &&
            exists t :: t in tuples && t.neighborhood.id == r[j].neighborhoodId)
  {
    UpsertAllKeeps(rows, emotion, tuples, now);
    UpsertAllUntouched(rows, emotion, tuples, now);
    UpsertAllAdds(rows, emotion, tuples, now);
  }

  /** Rows keyed by another emotion, or by a neighbourhood with no tuple, are untouched. */
  lemma {:induction false} OtherKeysUntouched(rows: seq<EmotionalHotspot>, emotion: string, tuples: seq<ScoreRow>, now: int, j: nat)
    requires j < |rows|
    requires rows[j].emotion != emotion || forall t :: t in tuples ==> t.neighborhood.id != rows[j].neighborhoodId
    ensures j < |UpsertAll(rows, emotion, tuples, now)| && UpsertAll(rows, emotion, tuples, now)[j] == rows[j]
  {
    UpsertAllFrame(rows, emotion, tuples, now);
  }

  /** New rows take the next free ids, so autoincrement ids stay positional. */
  lemma {:induction false} UpsertAllKeepsIds(rows: seq<EmotionalHotspot>, emotion: string, tuples: seq<ScoreRow>, now: int)
    ensures HotspotIdsPositional(rows) ==> HotspotIdsPositional(UpsertAll(rows, emotion, tuples, now))
  {
    if tuples != [] {
      UpsertAllKeepsIds(rows, emotion, tuples[..|tuples| - 1], now);
    }
  }

  /** After the loop, the first row for each tuple's key holds the last tuple's values. */
  lemma {:induction false} UpsertAllReflects(rows: seq<EmotionalHotspot>, emotion: string, tuples: seq<ScoreRow>, now: int)
    ensures Reflects(UpsertAll(rows, emotion, tuples, now), emotion, tuples)
  {
    if tuples != [] {
      var init := tuples[..|tuples| - 1];
      var last := tuples[|tuples| - 1];
      UpsertAllReflects(rows, emotion, init, now);
      var u := UpsertAll(rows, emotion, init, now);
      var r := Upsert(u, emotion, last, now);
      forall t | t in tuples
        ensures FirstMatch(r, t.neighborhood.id, emotion).Some?
        ensures LastFor(tuples, t.neighborhood.id).Some?
        ensures Carries(r[FirstMatch(r, t.neighborhood.id, emotion).value], LastFor(tuples, t.neighborhood.id).value)
      {
        if t.neighborhood.id != last.neighborhood.id {
          assert t in init;
          assert LastFor(tuples, t.neighborhood.id) == LastFor(init, t.neighborhood.id);
          FirstMatchStable(u, r, t.neighborhood.id, emotion);
        }
      }
    }
  }

  /** One more overwriting iteration on top of an overwritten table. */
  lemma OverwriteStep(u: seq<EmotionalHotspot>, emotion: string, tuples: seq<ScoreRow>, now: int)
    requires tuples != []
    requires FirstMatch(u, tuples[|tuples| - 1].neighborhood.id, emotion).Some?
    ensures Upsert(Overwritten(u, emotion, tuples[..|tuples| - 1]), emotion, tuples[|tuples| - 1], now)
         == Overwritten(u, emotion, tuples)
  {
    var init := tuples[..|tuples| - 1];
    var last := tuples[|tuples| - 1];
    var ov := Overwritten(u, emotion, init);
    var k := FirstMatch(u, last.neighborhood.id, emotion).value;
    assert forall j :: 0 <= j < |u| ==> SameRecord(ov[j], u[j]);
    FirstMatchStable(u, ov, last.neighborhood.id, emotion);
    var r := Upsert(ov, emotion, last, now);
    var want := Overwritten(u, emotion, tuples);
    forall j | 0 <= j < |u| ensures r[j] == want[j] {
      if j != k && IsFirstMatch(u, j, u[j].neighborhoodId, emotion) && u[j].neighborhoodId == last.neighborhood.id {
        FirstMatchUnique(u, j, last.neighborhood.id, emotion);
      }
    }
  }

  /** When every tuple's key is already in the table, the loop only overwrites. */
  lemma {:induction false} UpsertAllOverwrites(u: seq<EmotionalHotspot>, emotion: string, tuples: seq<ScoreRow>, now: int)
    requires forall t :: t in tuples ==> FirstMatch(u, t.neighborhood.id, emotion).Some?
    ensures UpsertAll(u, emotion, tuples, now) == Overwritten(u, emotion, tuples)
  {
    if tuples == [] {
      assert Overwritten(u, emotion, tuples) == u;
    } else {
      var init := tuples[..|tuples| - 1];
      assert forall t :: t in init ==> t in tuples;
      assert tuples[|tuples| - 1] in tuples;
      UpsertAllOverwrites(u, emotion, init, now);
      OverwriteStep(u, emotion, tuples, now);
    }
  }

  /** Running the loop a second time with the same tuples leaves the table as
      the first run left it: values are overwritten, never accumulated, and no
      row is added. */
  lemma UpsertAllIdempotent(rows: seq<EmotionalHotspot>, emotion: string, tuples: seq<ScoreRow>, now1: int, now2: int)
    ensures UpsertAll(UpsertAll(rows, emotion, tuples, now1), emotion, tuples, now2)
         == UpsertAll(rows, emotion, tuples, now1)
  {
    var u := UpsertAll(rows, emotion, tuples, now1);
    UpsertAllReflects(rows, emotion, tuples, now1);
    UpsertAllOverwrites(u, emotion, tuples, now2);
    var ov := Overwritten(u, emotion, tuples);
    forall j | 0 <= j < |u| ensures ov[j] == u[j] {
      if IsFirstMatch(u, j, u[j].neighborhoodId, emotion) && LastFor(tuples, u[j].neighborhoodId).Some? {
        var t := LastFor(tuples, u[j].neighborhoodId).value;
        FirstMatchUnique(u, j, t.neighborhood.id, emotion);
      }
    }
  }
}
