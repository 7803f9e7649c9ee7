/** The per-camera zone engine of vision/zones.py: ENTER/EXIT events with dwell, and lazy expiry. */
module Zones {
  import opened Schemas
  import opened Dicts
  import Polygon

  datatype Zone = Zone(kind: ZoneKind, polygon: seq<Point>) {
    predicate Contains(det: Detection) {
      Polygon.Inside(det.bbox.Anchor(), polygon)
    }
  }

  datatype Key = Key(tid: int, kind: ZoneKind)

  datatype Config = Config(tenantId: int, locationId: Name, cameraId: Name, zones: seq<Zone>, maxSilence: int)

  datatype State = State(enter: Dict<Key, Time>, last: Dict<int, Time>)

  datatype Frame = Frame(ts: Time, dets: seq<Detection>)

  /** A stay about to be closed, and the time it is closed at. */
  datatype Closing = Closing(key: Key, at: Time)

  function EnterEvent(c: Config, key: Key, ts: Time): ZoneEvent {
    ZoneEvent(c.tenantId, c.locationId, c.cameraId, key.kind, Enter, key.tid, ts, None)
  }

  function ExitEvent(c: Config, key: Key, ts: Time, enter: Time): ZoneEvent {
    ZoneEvent(c.tenantId, c.locationId, c.cameraId, key.kind, Exit, key.tid, ts,
      Some(if ts >= enter then ts - enter else 0))
  }

  // ---------------------------------------------------------------------------
  // One update, phase by phase
  // ---------------------------------------------------------------------------

  /** Keys hit by one detection in the first `n` zones. */
  function Hits(zones: seq<Zone>, det: Detection, n: nat): seq<Key>
    requires n <= |zones|
  {
    if n == 0 || det.trackerId.None? then [] else
      var prev := Hits(zones, det, n - 1);
      if zones[n - 1].Contains(det) then prev + [Key(det.trackerId.value, zones[n - 1].kind)] else prev
  }

  /** Keys hit by the first `n` detections, in the order the engine meets them. */
  function Sightings(zones: seq<Zone>, dets: seq<Detection>, n: nat): seq<Key>
    requires n <= |dets|
  {
    if n == 0 then [] else Sightings(zones, dets, n - 1) + Hits(zones, dets[n - 1], |zones|)
  }

  function Touch(last: Dict<int, Time>, dets: seq<Detection>, n: nat, ts: Time): Dict<int, Time>
    requires n <= |dets|
  {
    if n == 0 then last else
      var prev := Touch(last, dets, n - 1, ts);
      match dets[n - 1].trackerId
      case None => prev
      case Some(tid) => prev.Put(tid, ts)
  }

  function EnterAll(enter: Dict<Key, Time>, hits: seq<Key>, ts: Time): Dict<Key, Time> {
    if |hits| == 0 then enter else
      var prev := EnterAll(enter, hits[..|hits| - 1], ts);
      var key := hits[|hits| - 1];
      if key in prev.vals then prev else prev.Put(key, ts)
  }

  function EnterEvents(c: Config, enter: Dict<Key, Time>, hits: seq<Key>, ts: Time): seq<ZoneEvent> {
    if |hits| == 0 then [] else
      var front, key := hits[..|hits| - 1], hits[|hits| - 1];
      EnterEvents(c, enter, front, ts) +
      if key in EnterAll(enter, front, ts).vals then [] else [EnterEvent(c, key, ts)]
  }

  predicate Leaving(key: Key, present: set<Key>, last: map<int, Time>, ts: Time) {
    key !in present && key.tid in last && last[key.tid] == ts
  }

  predicate Silent(tid: int, last: map<int, Time>, ts: Time, maxSilence: int) {
    tid in last && ts - last[tid] > maxSilence
  }

  function Leavers(keys: seq<Key>, present: set<Key>, last: map<int, Time>, ts: Time): (r: seq<Closing>)
    ensures forall x :: x in r ==> x.key in keys
  {
    if |keys| == 0 then [] else
      var key := keys[|keys| - 1];
      Leavers(keys[..|keys| - 1], present, last, ts) +
      if Leaving(key, present, last, ts) then [Closing(key, ts)] else []
  }

  function Silents(keys: seq<Key>, last: map<int, Time>, ts: Time, maxSilence: int): (r: seq<Closing>)
    ensures forall x :: x in r ==> x.key in keys
  {
    if |keys| == 0 then [] else
      var key := keys[|keys| - 1];
      Silents(keys[..|keys| - 1], last, ts, maxSilence) +
      if Silent(key.tid, last, ts, maxSilence) then [Closing(key, last[key.tid])] else []
  }

  function CloseAll(enter: Dict<Key, Time>, closings: seq<Closing>): Dict<Key, Time> {
    if |closings| == 0 then enter else
      CloseAll(enter, closings[..|closings| - 1]).Pop(closings[|closings| - 1].key)
  }

  function ExitEvents(c: Config, enter: map<Key, Time>, closings: seq<Closing>): seq<ZoneEvent>
    requires forall x :: x in closings ==> x.key in enter
  {
    if |closings| == 0 then [] else
      var x := closings[|closings| - 1];
      ExitEvents(c, enter, closings[..|closings| - 1]) + [ExitEvent(c, x.key, x.at, enter[x.key])]
  }

  function Forget(last: Dict<int, Time>, tids: seq<int>, ts: Time, maxSilence: int): Dict<int, Time> {
    if |tids| == 0 then last else
      var prev := Forget(last, tids[..|tids| - 1], ts, maxSilence);
      var tid := tids[|tids| - 1];
      if Silent(tid, last.vals, ts, maxSilence) then prev.Pop(tid) else prev
  }

  ghost predicate Valid(st: State) {
    st.enter.Valid() && st.last.Valid()
  }

  lemma {:induction false} TouchValid(last: Dict<int, Time>, dets: seq<Detection>, n: nat, ts: Time)
    requires n <= |dets| && last.Valid()
    ensures Touch(last, dets, n, ts).Valid()
  {
    if n > 0 {
      TouchValid(last, dets, n - 1, ts);
    }
  }

  lemma {:induction false} EnterAllValid(enter: Dict<Key, Time>, hits: seq<Key>, ts: Time)
    requires enter.Valid()
    ensures EnterAll(enter, hits, ts).Valid()
  {
    if |hits| > 0 {
      EnterAllValid(enter, hits[..|hits| - 1], ts);
    }
  }

  lemma {:induction false} CloseAllIs(enter: Dict<Key, Time>, closings: seq<Closing>)
    requires enter.Valid()
    ensures CloseAll(enter, closings).Valid()
    ensures forall k :: k in CloseAll(enter, closings).vals <==>
              k in enter.vals && forall x :: x in closings ==> x.key != k
    ensures forall k :: k in CloseAll(enter, closings).vals ==> CloseAll(enter, closings).vals[k] == enter.vals[k]
  {
    if |closings| > 0 {
      var front, x := closings[..|closings| - 1], closings[|closings| - 1];
      assert closings == front + [x];
      CloseAllIs(enter, front);
      CloseAll(enter, front).PopValid(x.key);
    }
  }

  lemma {:induction false} LeaversAre(keys: seq<Key>, present: set<Key>, last: map<int, Time>, ts: Time, x: Closing)
    ensures x in Leavers(keys, present, last, ts) <==>
            x.key in keys && Leaving(x.key, present, last, ts) && x.at == ts
  {
    if |keys| > 0 {
      LeaversAre(keys[..|keys| - 1], present, last, ts, x);
      assert keys == keys[..|keys| - 1] + [keys[|keys| - 1]];
    }
  }

  lemma {:induction false} SilentsAre(keys: seq<Key>, last: map<int, Time>, ts: Time, maxSilence: int, x: Closing)
    ensures x in Silents(keys, last, ts, maxSilence) <==>
            x.key in keys && Silent(x.key.tid, last, ts, maxSilence) && x.at == last[x.key.tid]
  {
    if |keys| > 0 {
      SilentsAre(keys[..|keys| - 1], last, ts, maxSilence, x);
      assert keys == keys[..|keys| - 1] + [keys[|keys| - 1]];
    }
  }

  predicate Pending(closings: seq<Closing>, enter: map<Key, Time>) {
    forall x :: x in closings ==> x.key in enter
  }

  /** The exits of one update: everyone seen now but no longer inside. */
  function LeaversOf(st: State, hits: seq<Key>, ts: Time): (r: seq<Closing>)
    requires Valid(st)
    ensures Pending(r, st.enter.vals)
  {
    var present := set k | k in hits;
    var r := Leavers(st.enter.order, present, st.last.vals, ts);
    assert Pending(r, st.enter.vals) by {
      forall x | x in r ensures x.key in st.enter.vals {
        LeaversAre(st.enter.order, present, st.last.vals, ts, x);
      }
    }
    r
  }

  function SilentsOf(c: Config, st: State, ts: Time): (r: seq<Closing>)
    requires Valid(st)
    ensures Pending(r, st.enter.vals)
  {
    var r := Silents(st.enter.order, st.last.vals, ts, c.maxSilence);
    assert Pending(r, st.enter.vals) by {
      forall x | x in r ensures x.key in st.enter.vals {
        SilentsAre(st.enter.order, st.last.vals, ts, c.maxSilence, x);
      }
    }
    r
  }

  function AfterSightings(c: Config, st: State, dets: seq<Detection>, ts: Time): (r: State)
    requires Valid(st)
    ensures Valid(r)
  {
    EnterAllValid(st.enter, Sightings(c.zones, dets, |dets|), ts);
    TouchValid(st.last, dets, |dets|, ts);
    State(EnterAll(st.enter, Sightings(c.zones, dets, |dets|), ts), Touch(st.last, dets, |dets|, ts))
  }

  function AfterExits(st: State, hits: seq<Key>, ts: Time): (r: State)
    requires Valid(st)
    ensures Valid(r)
  {
    CloseAllIs(st.enter, LeaversOf(st, hits, ts));
    State(CloseAll(st.enter, LeaversOf(st, hits, ts)), st.last)
  }

  function AfterExpiry(c: Config, st: State, ts: Time): State
    requires Valid(st)
  {
    State(CloseAll(st.enter, SilentsOf(c, st, ts)), Forget(st.last, st.last.order, ts, c.maxSilence))
  }

  /** One frame: sightings and entries, then exits, then expiry. */
  function Next(c: Config, st: State, dets: seq<Detection>, ts: Time): State
    requires Valid(st)
  {
    AfterExpiry(c, AfterExits(AfterSightings(c, st, dets, ts), Sightings(c.zones, dets, |dets|), ts), ts)
  }

  function Events(c: Config, st: State, dets: seq<Detection>, ts: Time): seq<ZoneEvent>
    requires Valid(st)
  {
    var hits := Sightings(c.zones, dets, |dets|);
    var seen := AfterSightings(c, st, dets, ts);
    var left := AfterExits(seen, hits, ts);
    EnterEvents(c, st.enter, hits, ts) + ExitEvents(c, seen.enter.vals, LeaversOf(seen, hits, ts))
    + ExitEvents(c, left.enter.vals, SilentsOf(c, left, ts))
  }

  // ---------------------------------------------------------------------------
  // The engine
  // ---------------------------------------------------------------------------

  function CountKind(keys: seq<Key>, kind: ZoneKind): nat {
    if |keys| == 0 then 0 else
      CountKind(keys[..|keys| - 1], kind) + if keys[|keys| - 1].kind == kind then 1 else 0
  }

  class ZoneEngine {
    const config: Config
    var enterTs: Dict<Key, Time>
    var lastSeen: Dict<int, Time>

    constructor (tenantId: int, locationId: Name, cameraId: Name, zones: seq<Zone>, maxSilence: int := 15 * SECOND)
      ensures config == Config(tenantId, locationId, cameraId, zones, maxSilence)
      ensures Current() == State(Dict([], map[]), Dict([], map[]))
    {
      config := Config(tenantId, locationId, cameraId, zones, maxSilence);
      enterTs, lastSeen := Dict([], map[]), Dict([], map[]);
    }

    function Current(): State
      reads this
    {
      State(enterTs, lastSeen)
    }

    function Occupancy(kind: ZoneKind): nat
      reads this
    {
      CountKind(enterTs.order, kind)
    }

    method Update(detections: seq<Detection>, ts: Time) returns (events: seq<ZoneEvent>)
      requires Valid(Current())
      modifies this
      ensures Current() == Next(config, old(Current()), detections, ts)
      ensures events == Events(config, old(Current()), detections, ts)
    {
      ghost var was := Current();
      ghost var hits := Sightings(config.zones, detections, |detections|);
      var present;
      present, events := Enter(detections, ts);
      ghost var seen := Current();
      assert seen == AfterSightings(config, was, detections, ts);
      var exits := Leave(present, hits, ts);
      var expired := Expire(ts);
      events := events + exits + expired;
    }

    /** The detection loop: notes sightings and opens stays. */
    method Enter(detections: seq<Detection>, ts: Time) returns (present: set<Key>, events: seq<ZoneEvent>)
      modifies this
      ensures var hits := Sightings(config.zones, detections, |detections|);
              && present == (set k | k in hits)
              && enterTs == EnterAll(old(enterTs), hits, ts)
              && events == EnterEvents(config, old(enterTs), hits, ts)
      ensures lastSeen == Touch(old(lastSeen), detections, |detections|, ts)
    {
      present, events := {}, [];
      for i := 0 to |detections|
        invariant lastSeen == Touch(old(lastSeen), detections, i, ts)
        invariant var hits := Sightings(config.zones, detections, i);
                  && present == (set k | k in hits)
                  && enterTs == EnterAll(old(enterTs), hits, ts)
                  && events == EnterEvents(config, old(enterTs), hits, ts)
      {
        var det := detections[i];
        if det.trackerId.Some? {
          lastSeen := lastSeen.Put(det.trackerId.value, ts);
          present, events := EnterZones(det, ts, present, events, old(enterTs), Sightings(config.zones, detections, i));
        } else {
          assert Sightings(config.zones, detections, i + 1) == Sightings(config.zones, detections, i);
        }
      }
    }

    /** The zone loop for one tracked detection. */
    method EnterZones(det: Detection, ts: Time, present0: set<Key>, events0: seq<ZoneEvent>,
                      ghost start: Dict<Key, Time>, ghost hits0: seq<Key>)
      returns (present: set<Key>, events: seq<ZoneEvent>)
      requires det.trackerId.Some?
      requires present0 == (set k | k in hits0)
      requires enterTs == EnterAll(start, hits0, ts) && events0 == EnterEvents(config, start, hits0, ts)
      modifies this`enterTs
      ensures var hits := hits0 + Hits(config.zones, det, |config.zones|);
              && present == (set k | k in hits)
              && enterTs == EnterAll(start, hits, ts) && events == EnterEvents(config, start, hits, ts)
    {
      hide Polygon.Inside, EnterEvent;
      var tid := det.trackerId.value;
      present, events := present0, events0;
      ghost var hits := hits0;
      for z := 0 to |config.zones|
        invariant hits == hits0 + Hits(config.zones, det, z)
        invariant present == (set k | k in hits)
        invariant enterTs == EnterAll(start, hits, ts) && events == EnterEvents(config, start, hits, ts)
      {
        var zone := config.zones[z];
        var key := Key(tid, zone.kind);
        var inside := Polygon.PointInPolygon(det.bbox.Anchor(), zone.polygon);
        if inside {
          present := present + {key};
          ghost var longer := hits + [key];
          assert longer[..|longer| - 1] == hits;
          if key !in enterTs.vals {
            enterTs := enterTs.Put(key, ts);
            events := events + [EnterEvent(config, key, ts)];
          }
          hits := longer;
        }
      }
    }

    /** The exit loop: closes stays of tracks seen now but no longer inside. */
    method Leave(present: set<Key>, ghost hits: seq<Key>, ts: Time) returns (events: seq<ZoneEvent>)
      requires Valid(Current()) && present == (set k | k in hits)
      modifies this`enterTs
      ensures Current() == AfterExits(old(Current()), hits, ts)
      ensures events == ExitEvents(config, old(enterTs).vals, LeaversOf(old(Current()), hits, ts))
    {
      var keys := enterTs.order;
      events := [];
      ghost var done: seq<Closing> := [];
      for i := 0 to |keys|
        invariant done == Leavers(keys[..i], present, lastSeen.vals, ts) && Pending(done, old(enterTs).vals)
        invariant enterTs == CloseAll(old(enterTs), done)
        invariant events == ExitEvents(config, old(enterTs).vals, done)
      {
        var key := keys[i];
        assert keys[..i + 1][..i] == keys[..i];
        if Leaving(key, present, lastSeen.vals, ts) {
          StillOpen(old(enterTs), keys, i, done);
          ghost var longer := done + [Closing(key, ts)];
          assert longer[..|longer| - 1] == done;
          var ev := Close(key, ts);
          events := events + [ev];
          done := longer;
        }
      }
      assert keys[..|keys|] == keys;
    }

    /** Closes the stays of tracks not seen for longer than `maxSilence`, as of when they were last seen. */
    method Expire(ts: Time) returns (events: seq<ZoneEvent>)
      requires Valid(Current())
      modifies this
      ensures Current() == AfterExpiry(config, old(Current()), ts)
      ensures events == ExitEvents(config, old(enterTs).vals, SilentsOf(config, old(Current()), ts))
    {
      events := CloseSilent(ts);
      ForgetSilent(ts);
    }

    method CloseSilent(ts: Time) returns (events: seq<ZoneEvent>)
      requires Valid(Current())
      modifies this`enterTs
      ensures enterTs == CloseAll(old(enterTs), SilentsOf(config, old(Current()), ts))
      ensures events == ExitEvents(config, old(enterTs).vals, SilentsOf(config, old(Current()), ts))
    {
      var keys := enterTs.order;
      events := [];
      ghost var done: seq<Closing> := [];
      for i := 0 to |keys|
        invariant done == Silents(keys[..i], lastSeen.vals, ts, config.maxSilence) && Pending(done, old(enterTs).vals)
        invariant enterTs == CloseAll(old(enterTs), done)
        invariant events == ExitEvents(config, old(enterTs).vals, done)
      {
        var key := keys[i];
        assert keys[..i + 1][..i] == keys[..i];
        if Silent(key.tid, lastSeen.vals, ts, config.maxSilence) {
          var last := lastSeen.vals[key.tid];
          StillOpen(old(enterTs), keys, i, done);
          ghost var longer := done + [Closing(key, last)];
          assert longer[..|longer| - 1] == done;
          var ev := Close(key, last);
          events := events + [ev];
          done := longer;
        }
      }
      assert keys[..|keys|] == keys;
    }

    method ForgetSilent(ts: Time)
      modifies this`lastSeen
      ensures lastSeen == Forget(old(lastSeen), old(lastSeen).order, ts, config.maxSilence)
    {
      var tids, seen := lastSeen.order, lastSeen.vals;
      for i := 0 to |tids|
        invariant lastSeen == Forget(old(lastSeen), tids[..i], ts, config.maxSilence)
      {
        assert tids[..i + 1][..i] == tids[..i];
        if Silent(tids[i], seen, ts, config.maxSilence) {
          lastSeen := lastSeen.Pop(tids[i]);
        }
      }
      assert tids[..|tids|] == tids;
    }

    method Close(key: Key, ts: Time) returns (ev: ZoneEvent)
      requires key in enterTs.vals
      modifies this`enterTs
      ensures enterTs == old(enterTs).Pop(key)
      ensures ev == ExitEvent(config, key, ts, old(enterTs).vals[key])
    {
      var enter := enterTs.vals[key];
      enterTs := enterTs.Pop(key);
      ev := ExitEvent(config, key, ts, enter);
    }
  }

  /** Keys not reached yet by a closing loop are still open. */
  lemma StillOpen(enter: Dict<Key, Time>, keys: seq<Key>, i: nat, done: seq<Closing>)
    requires enter.Valid() && keys == enter.order && i < |keys|
    requires forall x :: x in done ==> x.key in keys[..i]
    ensures keys[i] in CloseAll(enter, done).vals && keys[i] in enter.vals
    ensures CloseAll(enter, done).vals[keys[i]] == enter.vals[keys[i]]
  {
    CloseAllIs(enter, done);
  }

  // ---------------------------------------------------------------------------
  // What one update does, key by key
  // ---------------------------------------------------------------------------

  ghost predicate Here(dets: seq<Detection>, tid: int) {
    exists i :: 0 <= i < |dets| && dets[i].trackerId == Some(tid)
  }

  ghost predicate InZoneBy(zones: seq<Zone>, det: Detection, z: int, key: Key) {
    0 <= z < |zones| && det.trackerId == Some(key.tid) && zones[z].kind == key.kind && zones[z].Contains(det)
  }

  /** Some detection of the track stands in some zone of the kind. */
  ghost predicate InZone(zones: seq<Zone>, dets: seq<Detection>, key: Key) {
    exists i, z :: 0 <= i < |dets| && InZoneBy(zones, dets[i], z, key)
  }

  lemma {:induction false} HitsAre(zones: seq<Zone>, det: Detection, n: nat, key: Key)
    requires n <= |zones|
    ensures key in Hits(zones, det, n) <==> exists z :: z < n && InZoneBy(zones, det, z, key)
  {
    if n > 0 && det.trackerId.Some? {
      HitsAre(zones, det, n - 1, key);
      var prev := Hits(zones, det, n - 1);
      assert zones[n - 1].Contains(det) ==> prev + [Key(det.trackerId.value, zones[n - 1].kind)] == Hits(zones, det, n);
      assert InZoneBy(zones, det, n - 1, key) <==>
        zones[n - 1].Contains(det) && key == Key(det.trackerId.value, zones[n - 1].kind);
    }
  }

  lemma {:induction false} SightingsAre(zones: seq<Zone>, dets: seq<Detection>, n: nat, key: Key)
    requires n <= |dets|
    ensures key in Sightings(zones, dets, n) <==> InZone(zones, dets[..n], key)
  {
    if n > 0 {
      SightingsAre(zones, dets, n - 1, key);
      HitsAre(zones, dets[n - 1], |zones|, key);
      assert dets[..n] == dets[..n - 1] + [dets[n - 1]];
      if InZone(zones, dets[..n - 1], key) {
        var i, z :| 0 <= i < n - 1 && InZoneBy(zones, dets[..n - 1][i], z, key);
        assert InZoneBy(zones, dets[..n][i], z, key);
      }
      if InZone(zones, dets[..n], key) {
        var i, z :| 0 <= i < n && InZoneBy(zones, dets[..n][i], z, key);
        assert i < n - 1 ==> InZoneBy(zones, dets[..n - 1][i], z, key);
      }
      if key in Hits(zones, dets[n - 1], |zones|) {
        var z :| z < |zones| && InZoneBy(zones, dets[n - 1], z, key);
        assert InZoneBy(zones, dets[..n][n - 1], z, key);
      }
    }
  }

  lemma {:induction false} TouchIs(last: Dict<int, Time>, dets: seq<Detection>, n: nat, ts: Time, tid: int)
    requires n <= |dets|
    ensures tid in Touch(last, dets, n, ts).vals <==> tid in last.vals || Here(dets[..n], tid)
    ensures tid in Touch(last, dets, n, ts).vals ==>
              Touch(last, dets, n, ts).vals[tid] == if Here(dets[..n], tid) then ts else last.vals[tid]
  {
    if n > 0 {
      TouchIs(last, dets, n - 1, ts, tid);
      assert dets[..n] == dets[..n - 1] + [dets[n - 1]];
      assert Here(dets[..n], tid) <==> Here(dets[..n - 1], tid) || dets[n - 1].trackerId == Some(tid) by {
        if Here(dets[..n - 1], tid) {
          var i :| 0 <= i < n - 1 && dets[..n - 1][i].trackerId == Some(tid);
          assert dets[..n][i].trackerId == Some(tid);
        }
        if dets[n - 1].trackerId == Some(tid) {
          assert dets[..n][n - 1].trackerId == Some(tid);
        }
        if Here(dets[..n], tid) {
          var i :| 0 <= i < n && dets[..n][i].trackerId == Some(tid);
          assert i < n - 1 ==> dets[..n - 1][i].trackerId == Some(tid);
        }
      }
    }
  }

  lemma {:induction false} EnterAllIs(enter: Dict<Key, Time>, hits: seq<Key>, ts: Time, key: Key)
    ensures key in EnterAll(enter, hits, ts).vals <==> key in enter.vals || key in hits
    ensures key in EnterAll(enter, hits, ts).vals ==>
              EnterAll(enter, hits, ts).vals[key] == if key in enter.vals then enter.vals[key] else ts
  {
    if |hits| > 0 {
      EnterAllIs(enter, hits[..|hits| - 1], ts, key);
      assert hits == hits[..|hits| - 1] + [hits[|hits| - 1]];
    }
  }

  lemma {:induction false} ForgetIs(last: Dict<int, Time>, tids: seq<int>, ts: Time, maxSilence: int)
    requires last.Valid()
    ensures Forget(last, tids, ts, maxSilence).Valid()
    ensures forall tid :: tid in Forget(last, tids, ts, maxSilence).vals <==>
              tid in last.vals && !(tid in tids && Silent(tid, last.vals, ts, maxSilence))
    ensures forall tid :: tid in Forget(last, tids, ts, maxSilence).vals ==>
              Forget(last, tids, ts, maxSilence).vals[tid] == last.vals[tid]
  {
    if |tids| > 0 {
      var front, tid := tids[..|tids| - 1], tids[|tids| - 1];
      assert tids == front + [tid];
      ForgetIs(last, front, ts, maxSilence);
      Forget(last, front, ts, maxSilence).PopValid(tid);
    }
  }

  /** When the track was last seen, this frame included. */
  ghost function SeenTime(st: State, dets: seq<Detection>, ts: Time, tid: int): Option<Time> {
    if Here(dets, tid) then Some(ts) else if tid in st.last.vals then Some(st.last.vals[tid]) else None
  }

  ghost predicate OpenAfter(c: Config, st: State, dets: seq<Detection>, ts: Time, key: Key) {
    var seen := SeenTime(st, dets, ts, key.tid);
    && (key in st.enter.vals || InZone(c.zones, dets, key))
    && (seen.Some? ==> (InZone(c.zones, dets, key) || seen.value != ts) && ts - seen.value <= c.maxSilence)
  }

  lemma AfterSightingsIs(c: Config, st: State, dets: seq<Detection>, ts: Time, key: Key)
    requires Valid(st)
    ensures var r := AfterSightings(c, st, dets, ts);
            && (key in r.enter.vals <==> key in st.enter.vals || InZone(c.zones, dets, key))
            && (key in r.enter.vals ==> r.enter.vals[key] == if key in st.enter.vals then st.enter.vals[key] else ts)
            && (key.tid in r.last.vals <==> SeenTime(st, dets, ts, key.tid).Some?)
            && (key.tid in r.last.vals ==> r.last.vals[key.tid] == SeenTime(st, dets, ts, key.tid).value)
  {
    assert dets[..|dets|] == dets;
    SightingsAre(c.zones, dets, |dets|, key);
    EnterAllIs(st.enter, Sightings(c.zones, dets, |dets|), ts, key);
    TouchIs(st.last, dets, |dets|, ts, key.tid);
  }

  lemma AfterExitsIs(st: State, hits: seq<Key>, ts: Time, key: Key)
    requires Valid(st)
    ensures var r := AfterExits(st, hits, ts);
            && (key in r.enter.vals <==> key in st.enter.vals && !Leaving(key, (set k | k in hits), st.last.vals, ts))
            && (key in r.enter.vals ==> r.enter.vals[key] == st.enter.vals[key])
            && r.last == st.last
  {
    var present := set k | k in hits;
    var closings := LeaversOf(st, hits, ts);
    CloseAllIs(st.enter, closings);
    LeaversAre(st.enter.order, present, st.last.vals, ts, Closing(key, ts));
    forall x | x in closings && x.key == key ensures x == Closing(key, ts) {
      LeaversAre(st.enter.order, present, st.last.vals, ts, x);
    }
  }

  lemma AfterExpiryIs(c: Config, st: State, ts: Time, key: Key)
    requires Valid(st)
    ensures var r := AfterExpiry(c, st, ts);
            && Valid(r)
            && (key in r.enter.vals <==> key in st.enter.vals && !Silent(key.tid, st.last.vals, ts, c.maxSilence))
            && (key in r.enter.vals ==> r.enter.vals[key] == st.enter.vals[key])
            && (key.tid in r.last.vals <==> key.tid in st.last.vals && !Silent(key.tid, st.last.vals, ts, c.maxSilence))
            && (key.tid in r.last.vals ==> r.last.vals[key.tid] == st.last.vals[key.tid])
  {
    var closings := SilentsOf(c, st, ts);
    CloseAllIs(st.enter, closings);
    ForgetIs(st.last, st.last.order, ts, c.maxSilence);
    if Silent(key.tid, st.last.vals, ts, c.maxSilence) {
      SilentsAre(st.enter.order, st.last.vals, ts, c.maxSilence, Closing(key, st.last.vals[key.tid]));
    }
    forall x | x in closings && x.key == key ensures Silent(key.tid, st.last.vals, ts, c.maxSilence) {
      SilentsAre(st.enter.order, st.last.vals, ts, c.maxSilence, x);
    }
  }

  /** One update in terms of what the frame shows: which stays are open after it, and what is remembered. */
  lemma NextIs(c: Config, st: State, dets: seq<Detection>, ts: Time, next: State, key: Key)
    requires Valid(st) && next == Next(c, st, dets, ts)
    ensures Valid(next)
    ensures key in next.enter.vals <==> OpenAfter(c, st, dets, ts, key)
    ensures key in next.enter.vals ==>
              next.enter.vals[key] == if key in st.enter.vals then st.enter.vals[key] else ts
    ensures key.tid in next.last.vals <==>
              SeenTime(st, dets, ts, key.tid).Some? && ts - SeenTime(st, dets, ts, key.tid).value <= c.maxSilence
    ensures key.tid in next.last.vals ==> next.last.vals[key.tid] == SeenTime(st, dets, ts, key.tid).value
  {
    var hits := Sightings(c.zones, dets, |dets|);
    var seen := AfterSightings(c, st, dets, ts);
    AfterSightingsIs(c, st, dets, ts, key);
    AfterExitsIs(seen, hits, ts, key);
    AfterExpiryIs(c, AfterExits(seen, hits, ts), ts, key);
    assert dets[..|dets|] == dets;
    SightingsAre(c.zones, dets, |dets|, key);
  }
}
