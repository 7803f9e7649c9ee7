/** Where a detection counts as standing, in the corners of its box, and what follows for the zone engine. */
module Standing {
  import opened Schemas
  import opened Zones
  import opened ZoneRuns
  import Polygon

  // ---------------------------------------------------------------------------
  // One zone
  // ---------------------------------------------------------------------------

  /** The middle of the lower edge of the box lies in the rectangle, whose right and lower sides do not count. */
  predicate FeetIn(b: BBox, left: real, top: real, right: real, bottom: real) {
    2.0 * left <= b.x1 + b.x2 < 2.0 * right && top <= b.y2 < bottom
  }

  lemma RectangleContains(kind: ZoneKind, left: real, top: real, right: real, bottom: real, det: Detection)
    requires left <= right && top <= bottom
    ensures Zone(kind, Polygon.Rectangle(left, top, right, bottom)).Contains(det) <==>
            FeetIn(det.bbox, left, top, right, bottom)
  {
    Polygon.InsideRectangle(det.bbox.Anchor(), left, top, right, bottom);
  }

  /** For any polygon: nothing counts but the middle of the box across and its lower edge. */
  lemma OnlyFeetCount(zone: Zone, d: Detection, e: Detection)
    requires d.bbox.x1 + d.bbox.x2 == e.bbox.x1 + e.bbox.x2 && d.bbox.y2 == e.bbox.y2
    ensures zone.Contains(d) <==> zone.Contains(e)
  {
  }

  /** Moving the box and the zone together changes nothing. */
  lemma ContainsMoved(zone: Zone, det: Detection, dx: real, dy: real)
    ensures var b := det.bbox;
            var there := det.(bbox := BBox(b.x1 + dx, b.y1 + dy, b.x2 + dx, b.y2 + dy));
            Zone(zone.kind, Polygon.AllMoved(zone.polygon, dx, dy)).Contains(there) <==> zone.Contains(det)
  {
    var b := det.bbox;
    var there := BBox(b.x1 + dx, b.y1 + dy, b.x2 + dx, b.y2 + dy);
    assert there.Anchor() == Polygon.Moved(b.Anchor(), dx, dy);
    Polygon.InsideMoved(b.Anchor(), zone.polygon, dx, dy);
  }

  // ---------------------------------------------------------------------------
  // Cameras with rectangular zones
  // ---------------------------------------------------------------------------

  datatype Area = Area(kind: ZoneKind, left: real, top: real, right: real, bottom: real)

  /** The zones are these rectangles. */
  ghost predicate Rectangular(zones: seq<Zone>, areas: seq<Area>) {
    && |zones| == |areas|
    && forall z :: 0 <= z < |areas| ==>
      && areas[z].left <= areas[z].right && areas[z].top <= areas[z].bottom && zones[z].kind == areas[z].kind
      && zones[z].polygon == Polygon.Rectangle(areas[z].left, areas[z].top, areas[z].right, areas[z].bottom)
  }

  ghost predicate StandsIn(area: Area, det: Detection, key: Key) {
    && det.trackerId == Some(key.tid) && area.kind == key.kind
    && FeetIn(det.bbox, area.left, area.top, area.right, area.bottom)
  }

  /** The frame shows the track with its feet in some rectangle of the kind. */
  ghost predicate Stands(areas: seq<Area>, dets: seq<Detection>, key: Key) {
    exists i, z :: 0 <= i < |dets| && 0 <= z < |areas| && StandsIn(areas[z], dets[i], key)
  }

  lemma InZoneIffStands(zones: seq<Zone>, areas: seq<Area>, dets: seq<Detection>, key: Key)
    requires Rectangular(zones, areas)
    ensures InZone(zones, dets, key) <==> Stands(areas, dets, key)
  {
    forall i, z | 0 <= i < |dets| && 0 <= z < |areas|
      ensures InZoneBy(zones, dets[i], z, key) <==> StandsIn(areas[z], dets[i], key)
    {
      var a := areas[z];
      RectangleContains(a.kind, a.left, a.top, a.right, a.bottom, dets[i]);
      assert zones[z] == Zone(a.kind, Polygon.Rectangle(a.left, a.top, a.right, a.bottom));
    }
    if InZone(zones, dets, key) {
      var i, z :| 0 <= i < |dets| && InZoneBy(zones, dets[i], z, key);
      assert StandsIn(areas[z], dets[i], key);
    }
    if Stands(areas, dets, key) {
      var i, z :| 0 <= i < |dets| && 0 <= z < |areas| && StandsIn(areas[z], dets[i], key);
      assert InZoneBy(zones, dets[i], z, key);
    }
  }

  /** The frame shows the track somewhere. */
  ghost predicate Shown(dets: seq<Detection>, tid: int) {
    exists i :: 0 <= i < |dets| && dets[i].trackerId == Some(tid)
  }

  /**
   For any timestamps, one frame: a stay is open after it exactly if the track stands in a zone of the kind now, or
   the stay was open and the track is not shown now but was seen at another time; and in both cases was seen recently.
   */
  lemma OpenAfterFrame(c: Config, areas: seq<Area>, st: State, dets: seq<Detection>, ts: Time, next: State, key: Key)
    requires Valid(st) && Rectangular(c.zones, areas) && next == Next(c, st, dets, ts) && Tracked(st, key)
    ensures key in next.enter.vals <==>
            if Stands(areas, dets, key) then c.maxSilence >= 0
            else && key in st.enter.vals && !Shown(dets, key.tid)
                 && ts != st.last.vals[key.tid] && ts - st.last.vals[key.tid] <= c.maxSilence
  {
    hide Next;
    NextIs(c, st, dets, ts, next, key);
    InZoneIffStands(c.zones, areas, dets, key);
    HereIfInZone(c.zones, dets, key);
    assert Here(dets, key.tid) <==> Shown(dets, key.tid);
  }

  /** Frame `i` is the last of the first `n` that shows the track. */
  ghost predicate LastShown(frames: seq<Frame>, n: nat, tid: int, i: nat)
    requires n <= |frames|
  {
    i < n && Shown(frames[i].dets, tid) && forall j :: i < j < n ==> !Shown(frames[j].dets, tid)
  }

  lemma {:induction false} LastSightingIs(frames: seq<Frame>, n: nat, tid: int, i: nat)
    requires n <= |frames|
    ensures LastSighting(frames, n, tid) == Some(i) <==> LastShown(frames, n, tid, i)
  {
    if n > 0 {
      LastSightingIs(frames, n - 1, tid, i);
      assert Here(frames[n - 1].dets, tid) <==> Shown(frames[n - 1].dets, tid);
      if i < n - 1 && LastShown(frames, n, tid, i) {
        assert !Shown(frames[n - 1].dets, tid);
      }
    }
  }

  /**
   With strictly increasing times: a person is inside exactly if the last frame that shows them is recent enough and
   has their feet in a rectangle of the kind.
   */
  lemma OpenStaysAreRecentFeet(c: Config, areas: seq<Area>, frames: seq<Frame>, states: seq<State>,
                               outs: seq<seq<ZoneEvent>>, n: nat, key: Key)
    requires IsRun(c, frames, states, outs) && 0 < n <= |frames| && StrictlyOrdered(frames)
    requires Rectangular(c.zones, areas)
    ensures key in states[n].enter.vals <==>
            exists i: nat :: LastShown(frames, n, key.tid, i) && Stands(areas, frames[i].dets, key) &&
                        frames[n - 1].ts - frames[i].ts <= c.maxSilence
  {
    OpenStaysAreRecentSightings(c, frames, states, outs, n);
    assert AgreesOn(c, frames, n, states[n], key);
    ShouldStand(c, areas, frames, n, key);
  }

  lemma ShouldStand(c: Config, areas: seq<Area>, frames: seq<Frame>, n: nat, key: Key)
    requires 0 < n <= |frames| && Rectangular(c.zones, areas)
    ensures ShouldBeOpen(c, frames, n, key) <==>
            exists i: nat :: LastShown(frames, n, key.tid, i) && Stands(areas, frames[i].dets, key) &&
                             frames[n - 1].ts - frames[i].ts <= c.maxSilence
  {
    hide Rectangular, Stands, InZone, LastSighting;
    forall i: nat ensures LastSighting(frames, n, key.tid) == Some(i) <==> LastShown(frames, n, key.tid, i) {
      LastSightingIs(frames, n, key.tid, i);
    }
    var last := LastSighting(frames, n, key.tid);
    if last.Some? {
      assert LastShown(frames, n, key.tid, last.value);
      InZoneIffStands(c.zones, areas, frames[last.value].dets, key);
    }
  }
}
