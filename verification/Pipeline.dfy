/**
 The wiring of api/state.py as a protocol: cameras turn frames into events, the bus delivers each camera's events
 first in, first out, and the wait engine keeps the queue of every location.
 */
module Pipeline {
  import opened Schemas
  import opened Dicts
  import Zones
  import opened ZoneRuns
  import opened WaitTime

  datatype CamKey = CamKey(tenantId: int, cameraId: Name)

  /** A registered camera: its configuration, its zone engine, and its events not delivered yet. */
  datatype Camera = Camera(config: Zones.Config, engine: Zones.State, outbox: seq<ZoneEvent>)

  datatype World = World(cameras: map<CamKey, Camera>, wait: map<Name, LocState>)

  const START: World := World(map[], map[])

  datatype Step =
    | Register(config: Zones.Config)
    | FrameIn(cam: CamKey, loc: Name, dets: seq<Detection>, ts: Time)
    | Deliver(cam: CamKey)
    | PosIn(pos: PosEvent)
    | Ask(loc: Name, now: Time)

  function KeyFor(config: Zones.Config): CamKey { CamKey(config.tenantId, config.cameraId) }

  ghost predicate EnginesValid(w: World) {
    forall k :: k in w.cameras ==> Zones.Valid(w.cameras[k].engine)
  }

  // ---------------------------------------------------------------------------
  // Steps
  // ---------------------------------------------------------------------------

  /** A new engine takes the place of whatever was there; events on their way stay on their way. */
  function AfterRegister(w: World, config: Zones.Config): World {
    var k := KeyFor(config);
    w.(cameras := w.cameras[k := Camera(config, EMPTY, if k in w.cameras then w.cameras[k].outbox else [])])
  }

  /** The camera's engine moved on to `next` and gave `evs`; the location gets a heartbeat. */
  function AfterUpdate(w: World, cam: CamKey, loc: Name, ts: Time, next: Zones.State, evs: seq<ZoneEvent>): World
    requires cam in w.cameras
  {
    var x := w.cameras[cam];
    World(w.cameras[cam := Camera(x.config, next, x.outbox + evs)], w.wait[loc := AfterHeartbeat(At(w.wait, loc), ts)])
  }

  function AfterFrame(w: World, cam: CamKey, loc: Name, dets: seq<Detection>, ts: Time): World
    requires EnginesValid(w) && cam in w.cameras
  {
    var x := w.cameras[cam];
    AfterUpdate(w, cam, loc, ts, Zones.Next(x.config, x.engine, dets, ts), Zones.Events(x.config, x.engine, dets, ts))
  }

  function AfterDelivery(c: Config, w: World, cam: CamKey): World
    requires cam in w.cameras && |w.cameras[cam].outbox| > 0
  {
    var x := w.cameras[cam];
    var ev := x.outbox[0];
    World(w.cameras[cam := x.(outbox := x.outbox[1..])],
          w.wait[ev.locationId := AfterZoneEvent(c, At(w.wait, ev.locationId), ev)])
  }

  /** Frames of unknown cameras are refused; there may be nothing to deliver. */
  function Next(c: Config, w: World, s: Step): World
    requires EnginesValid(w)
  {
    match s
    case Register(config) => AfterRegister(w, config)
    case FrameIn(cam, loc, dets, ts) => if cam in w.cameras then AfterFrame(w, cam, loc, dets, ts) else w
    case Deliver(cam) => if cam in w.cameras && |w.cameras[cam].outbox| > 0 then AfterDelivery(c, w, cam) else w
    case PosIn(pos) => w.(wait := w.wait[pos.locationId := AfterPosEvent(c, At(w.wait, pos.locationId), pos)])
    case Ask(loc, now) => w.(wait := w.wait[loc := Trimmed(c, At(w.wait, loc), now)])
  }

  // ---------------------------------------------------------------------------
  // The invariant
  // ---------------------------------------------------------------------------

  ghost predicate WatchedBy(w: World, loc: Name, k: CamKey) {
    k in w.cameras && w.cameras[k].config.locationId == loc
  }

  /** The queue events of a stream that are addressed to a location: an event keeps the location it was made for. */
  ghost function ForQueue(evs: seq<ZoneEvent>, loc: Name): seq<ZoneEvent> {
    if |evs| == 0 then [] else
      var last := evs[|evs| - 1];
      ForQueue(evs[..|evs| - 1], loc) + if last.zone == Queue && last.locationId == loc then [last] else []
  }

  /** The camera watches the location, or queue events it made for it while it did are still under way. */
  ghost predicate Speaks(w: World, loc: Name, k: CamKey) {
    WatchedBy(w, loc, k) || (k in w.cameras && ForQueue(w.cameras[k].outbox, loc) != [])
  }

  /** Cameras are filed under their own names, and no two that speak at a location share a camera id. */
  ghost predicate WellNamed(w: World) {
    && (forall k :: k in w.cameras ==> KeyFor(w.cameras[k].config) == k)
    && forall loc, j, k :: Speaks(w, loc, j) && Speaks(w, loc, k) && j.cameraId == k.cameraId ==> j == k
  }

  /** What the last event of a stream says about being inside, or `otherwise` if there is none. */
  ghost predicate LastSays(s: seq<ZoneEvent>, otherwise: bool) {
    if |s| == 0 then otherwise else s[|s| - 1].eventType == Enter
  }

  ghost function QueueKey(tid: int): Zones.Key { Zones.Key(tid, Queue) }

  ghost function InQueue(w: World, loc: Name): set<Waiter> { At(w.wait, loc).inQueue }

  /** Every event of the stream changes something: an ENTER comes only from outside, an EXIT only from inside. */
  ghost predicate Flips(s: seq<ZoneEvent>, inside: bool) {
    forall i :: 0 <= i < |s| ==> FlipsAt(s, inside, i)
  }

  ghost predicate FlipsAt(s: seq<ZoneEvent>, inside: bool, i: nat)
    requires i < |s|
  {
    s[i].eventType == Enter <==> if i == 0 then !inside else s[i - 1].eventType == Exit
  }

  /** The track's queue events in a stream lead from `waiting` to `open`, each a change. */
  ghost predicate LeadsTo(evs: seq<ZoneEvent>, tid: int, waiting: bool, open: bool) {
    var s := OfKey(evs, QueueKey(tid));
    Flips(s, waiting) && (LastSays(s, waiting) <==> open)
  }

  /** The camera watches the location and has the track's stay in its queue open. */
  ghost predicate OpenHere(x: Camera, loc: Name, tid: int) {
    x.config.locationId == loc && QueueKey(tid) in x.engine.enter.vals
  }

  /** Once all is delivered, the location will count the track as waiting exactly if the camera has its stay open. */
  ghost predicate Settles(w: World, loc: Name, k: CamKey, tid: int)
    requires k in w.cameras
  {
    var x := w.cameras[k];
    LeadsTo(ForQueue(x.outbox, loc), tid, Waiter(k.cameraId, tid) in InQueue(w, loc), OpenHere(x, loc, tid))
  }

  ghost predicate FromCamera(evs: seq<ZoneEvent>, config: Zones.Config) {
    forall e :: e in evs ==>
      e.tenantId == config.tenantId && e.locationId == config.locationId && e.cameraId == config.cameraId
  }

  /** Undelivered events carry the id of the camera that made them. */
  ghost predicate Signed(w: World) {
    forall k, e :: k in w.cameras && e in w.cameras[k].outbox ==> e.cameraId == k.cameraId
  }

  /** Every waiter of a location was reported by a camera that speaks there. */
  ghost predicate WaitersKnown(w: World) {
    forall loc, who :: who in InQueue(w, loc) ==> HasSpeaker(w, loc, who.cameraId)
  }

  ghost predicate HasSpeaker(w: World, loc: Name, cameraId: Name) {
    exists k :: Speaks(w, loc, k) && k.cameraId == cameraId
  }

  ghost predicate Remembered(st: Zones.State) {
    forall key :: Tracked(st, key)
  }

  ghost predicate Consistent(w: World) {
    && EnginesValid(w) && WellNamed(w) && Signed(w) && WaitersKnown(w)
    && (forall k :: k in w.cameras ==> Remembered(w.cameras[k].engine))
    && forall loc, k, tid :: Speaks(w, loc, k) ==> Settles(w, loc, k, tid)
  }

  // ---------------------------------------------------------------------------
  // Frames
  // ---------------------------------------------------------------------------

  lemma {:induction false} EntersFromCamera(c: Zones.Config, enter: Dict<Zones.Key, Time>, hits: seq<Zones.Key>,
                                            ts: Time)
    ensures FromCamera(Zones.EnterEvents(c, enter, hits, ts), c)
  {
    if |hits| > 0 {
      EntersFromCamera(c, enter, hits[..|hits| - 1], ts);
    }
  }

  lemma {:induction false} ExitsFromCamera(c: Zones.Config, enter: map<Zones.Key, Time>, closings: seq<Zones.Closing>)
    requires forall x :: x in closings ==> x.key in enter
    ensures FromCamera(Zones.ExitEvents(c, enter, closings), c)
  {
    if |closings| > 0 {
      ExitsFromCamera(c, enter, closings[..|closings| - 1]);
    }
  }

  lemma EventsFromCamera(c: Zones.Config, st: Zones.State, dets: seq<Detection>, ts: Time)
    requires Zones.Valid(st)
    ensures FromCamera(Zones.Events(c, st, dets, ts), c)
  {
    var hits := Zones.Sightings(c.zones, dets, |dets|);
    var seen := Zones.AfterSightings(c, st, dets, ts);
    var left := Zones.AfterExits(seen, hits, ts);
    EntersFromCamera(c, st.enter, hits, ts);
    ExitsFromCamera(c, seen.enter.vals, Zones.LeaversOf(seen, hits, ts));
    ExitsFromCamera(c, left.enter.vals, Zones.SilentsOf(c, left, ts));
  }

  /** The events of a key in an update lead from the stay before it to the stay after it. */
  lemma StepSays(c: Zones.Config, st: Zones.State, dets: seq<Detection>, ts: Time, next: Zones.State, key: Zones.Key)
    requires Zones.Valid(st) && Tracked(st, key) && next == Zones.Next(c, st, dets, ts)
    ensures LastSays(KeyEvents(c, st, dets, ts, key), key in st.enter.vals) <==> key in next.enter.vals
    ensures Flips(KeyEvents(c, st, dets, ts, key), key in st.enter.vals)
    ensures Tracked(next, key) && Zones.Valid(next)
  {
    Zones.NextIs(c, st, dets, ts, next, key);
    HereIfInZone(c.zones, dets, key);
  }

  lemma StreamAppend(s: seq<ZoneEvent>, t: seq<ZoneEvent>, b: bool)
    ensures LastSays(s + t, b) == LastSays(t, LastSays(s, b))
    ensures Flips(s, b) && Flips(t, LastSays(s, b)) ==> Flips(s + t, b)
    ensures Flips(s + t, b) ==> Flips(t, LastSays(s, b))
  {
    if Flips(s, b) && Flips(t, LastSays(s, b)) {
      forall i | 0 <= i < |s + t| ensures FlipsAt(s + t, b, i) {
        assert if i < |s| then FlipsAt(s, b, i) else FlipsAt(t, LastSays(s, b), i - |s|);
      }
    }
    if Flips(s + t, b) {
      forall i | 0 <= i < |t| ensures FlipsAt(t, LastSays(s, b), i) {
        assert FlipsAt(s + t, b, |s| + i);
      }
    }
  }

  lemma {:induction false} ForQueueAppend(a: seq<ZoneEvent>, b: seq<ZoneEvent>, loc: Name)
    ensures ForQueue(a + b, loc) == ForQueue(a, loc) + ForQueue(b, loc)
  {
    if |b| == 0 {
      assert a + b == a;
    } else {
      ForQueueAppend(a, b[..|b| - 1], loc);
      assert (a + b)[..|a + b| - 1] == a + b[..|b| - 1];
    }
  }

  /** Events that all name one location are addressed to its queue and no other. */
  lemma {:induction false} ForOneQueue(evs: seq<ZoneEvent>, there: Name, loc: Name, tid: int)
    requires forall e :: e in evs ==> e.locationId == there
    ensures loc != there ==> ForQueue(evs, loc) == []
    ensures loc == there ==> OfKey(ForQueue(evs, loc), QueueKey(tid)) == OfKey(evs, QueueKey(tid))
  {
    if |evs| > 0 {
      var front, last := evs[..|evs| - 1], evs[|evs| - 1];
      assert last in evs;
      ForOneQueue(front, there, loc, tid);
      OneMoreOfKey(ForQueue(front, loc), last, QueueKey(tid));
      assert ForQueue(evs, loc) ==
        if last.zone == Queue && last.locationId == loc then ForQueue(front, loc) + [last] else ForQueue(front, loc);
    }
  }

  lemma OneMoreOfKey(s: seq<ZoneEvent>, e: ZoneEvent, key: Zones.Key)
    ensures OfKey(s + [e], key) == OfKey(s, key) + if Concerns(e, key) then [e] else []
  {
    OfKeyAppend(s, [e], key);
    OfKeyOne([e], key);
  }

  lemma FrameSettles(x: Camera, dets: seq<Detection>, ts: Time, y: Camera, loc: Name, tid: int, waiting: bool)
    requires Zones.Valid(x.engine) && Remembered(x.engine)
    requires y == Camera(x.config, Zones.Next(x.config, x.engine, dets, ts),
                         x.outbox + Zones.Events(x.config, x.engine, dets, ts))
    requires LeadsTo(ForQueue(x.outbox, loc), tid, waiting, OpenHere(x, loc, tid))
    ensures LeadsTo(ForQueue(y.outbox, loc), tid, waiting, OpenHere(y, loc, tid))
  {
    hide Zones.Next, Zones.Events, ForQueue, OfKey;
    var key, more := QueueKey(tid), Zones.Events(x.config, x.engine, dets, ts);
    assert Tracked(x.engine, key);
    EventsFromCamera(x.config, x.engine, dets, ts);
    ForQueueAppend(x.outbox, more, loc);
    ForOneQueue(more, x.config.locationId, loc, tid);
    if loc == x.config.locationId {
      OfKeyAppend(ForQueue(x.outbox, loc), ForQueue(more, loc), key);
      StepKeyEvents(x.config, x.engine, dets, ts, key);
      StreamAppend(OfKey(ForQueue(x.outbox, loc), key), OfKey(more, key), waiting);
      StepSays(x.config, x.engine, dets, ts, y.engine, key);
    } else {
      assert ForQueue(y.outbox, loc) == ForQueue(x.outbox, loc);
    }
  }

  lemma FrameSpeaks(w: World, v: World, cam: CamKey, loc: Name, dets: seq<Detection>, ts: Time)
    requires EnginesValid(w) && cam in w.cameras && v == AfterFrame(w, cam, loc, dets, ts)
    ensures SameSpeakers(w, v)
  {
    hide Zones.Next, Zones.Events, ForQueue;
    var x := w.cameras[cam];
    var more := Zones.Events(x.config, x.engine, dets, ts);
    EventsFromCamera(x.config, x.engine, dets, ts);
    forall l, k ensures Speaks(v, l, k) <==> Speaks(w, l, k) {
      ForQueueAppend(x.outbox, more, l);
      ForOneQueue(more, x.config.locationId, l, 0);
    }
  }

  lemma FrameKeeps(w: World, v: World, cam: CamKey, loc: Name, dets: seq<Detection>, ts: Time)
    requires Consistent(w) && cam in w.cameras && v == AfterFrame(w, cam, loc, dets, ts)
    ensures Consistent(v)
  {
    hide LeadsTo, Zones.Next, Zones.Events, ForQueue, Speaks, OpenHere;
    var x, y := w.cameras[cam], v.cameras[cam];
    EventsFromCamera(x.config, x.engine, dets, ts);
    QueuesKept(w, v);
    FrameSpeaks(w, v, cam, loc, dets, ts);
    forall key ensures Tracked(y.engine, key) && Zones.Valid(y.engine) {
      assert Tracked(x.engine, key);
      StepSays(x.config, x.engine, dets, ts, y.engine, key);
    }
    assert Tracked(y.engine, QueueKey(0));
    forall l, k, tid | Speaks(v, l, k) ensures k in v.cameras && Settles(v, l, k, tid) {
      SpeakersAreCameras(w, l, k);
      assert Settles(w, l, k, tid);
      if k == cam {
        FrameSettles(x, dets, ts, y, l, tid, Waiter(k.cameraId, tid) in InQueue(w, l));
      }
    }
    NamesKept(w, v);
  }

  lemma SpeakersAreCameras(w: World, loc: Name, k: CamKey)
    requires Speaks(w, loc, k)
    ensures k in w.cameras
  {
  }

  lemma QueuesKept(w: World, v: World)
    requires forall loc :: loc in w.wait ==> loc in v.wait && v.wait[loc].inQueue == w.wait[loc].inQueue
    requires forall loc :: loc in v.wait && loc !in w.wait ==> v.wait[loc].inQueue == {}
    ensures forall loc :: InQueue(v, loc) == InQueue(w, loc)
  {
  }

  ghost predicate SameSpeakers(w: World, v: World) {
    forall loc, k :: Speaks(v, loc, k) <==> Speaks(w, loc, k)
  }

  lemma NamesKept(w: World, v: World)
    requires WellNamed(w) && WaitersKnown(w) && v.cameras.Keys == w.cameras.Keys && SameSpeakers(w, v)
    requires forall k :: k in w.cameras ==> v.cameras[k].config == w.cameras[k].config
    requires forall loc :: InQueue(v, loc) == InQueue(w, loc)
    ensures WellNamed(v) && WaitersKnown(v)
  {
    hide Speaks;
    forall loc, who | who in InQueue(v, loc) ensures HasSpeaker(v, loc, who.cameraId) {
      assert HasSpeaker(w, loc, who.cameraId);
      var k :| Speaks(w, loc, k) && k.cameraId == who.cameraId;
      assert Speaks(v, loc, k);
    }
  }

  // ---------------------------------------------------------------------------
  // Deliveries
  // ---------------------------------------------------------------------------

  /** One event's effect on a queue. */
  function Shifted(q: set<Waiter>, e: ZoneEvent): set<Waiter> {
    var who := Waiter(e.cameraId, e.trackerId);
    if e.zone != Queue then q else if e.eventType == Enter then q + {who} else q - {who}
  }

  lemma DeliveryShifts(c: Config, s: LocState, e: ZoneEvent)
    ensures AfterZoneEvent(c, s, e).inQueue == Shifted(s.inQueue, e)
  {
  }

  ghost predicate Moves(e: ZoneEvent, who: Waiter) {
    e.zone == Queue && e.cameraId == who.cameraId && e.trackerId == who.trackerId
  }

  lemma ShiftedIs(q: set<Waiter>, e: ZoneEvent, who: Waiter)
    ensures who in Shifted(q, e) <==> if Moves(e, who) then e.eventType == Enter else who in q
  {
    assert who == Waiter(who.cameraId, who.trackerId);
  }

  lemma FirstDelivered(s: seq<ZoneEvent>, rest: seq<ZoneEvent>, e: ZoneEvent, tid: int, waiting: bool, open: bool)
    requires s == [e] + rest && LeadsTo(s, tid, waiting, open)
    ensures LeadsTo(rest, tid, if Concerns(e, QueueKey(tid)) then e.eventType == Enter else waiting, open)
  {
    var one, key := [e], QueueKey(tid);
    OfKeyAppend(one, rest, key);
    OfKeyOne(one, key);
    StreamAppend(OfKey(one, key), OfKey(rest, key), waiting);
  }

  /** What is left for a queue after the first delivery. */
  lemma ForQueueFirst(outbox: seq<ZoneEvent>, loc: Name)
    requires |outbox| > 0
    ensures var e := outbox[0];
            ForQueue(outbox, loc) ==
            if e.zone == Queue && e.locationId == loc then [e] + ForQueue(outbox[1..], loc)
            else ForQueue(outbox[1..], loc)
  {
    assert outbox == [outbox[0]] + outbox[1..];
    ForQueueAppend([outbox[0]], outbox[1..], loc);
    assert [outbox[0]][..0] == [];
  }

  /** A delivery touches one location's queue, and no queue at all unless the event is about one. */
  lemma DeliveryQueues(c: Config, w: World, v: World, cam: CamKey, e: ZoneEvent)
    requires cam in w.cameras && |w.cameras[cam].outbox| > 0 && v == AfterDelivery(c, w, cam)
    requires e == w.cameras[cam].outbox[0]
    ensures forall loc, who :: who in InQueue(v, loc) <==>
              if loc == e.locationId && Moves(e, who) then e.eventType == Enter else who in InQueue(w, loc)
  {
    DeliveryShifts(c, At(w.wait, e.locationId), e);
    forall who ensures who in InQueue(v, e.locationId) <==>
                       if Moves(e, who) then e.eventType == Enter else who in InQueue(w, e.locationId) {
      ShiftedIs(InQueue(w, e.locationId), e, who);
    }
    assert forall loc :: loc != e.locationId ==> InQueue(v, loc) == InQueue(w, loc);
  }

  lemma DeliverySettles(c: Config, w: World, v: World, cam: CamKey, loc: Name, k: CamKey, tid: int)
    requires Consistent(w) && cam in w.cameras && |w.cameras[cam].outbox| > 0 && v == AfterDelivery(c, w, cam)
    requires k in w.cameras && Speaks(w, loc, k)
    ensures Settles(v, loc, k, tid)
  {
    hide LeadsTo, AfterZoneEvent, ForQueue;
    var x := w.cameras[cam];
    var e, who := x.outbox[0], Waiter(k.cameraId, tid);
    assert e in x.outbox && e.cameraId == cam.cameraId;
    DeliveryQueues(c, w, v, cam, e);
    ForQueueFirst(x.outbox, loc);
    assert Settles(w, loc, k, tid);
    assert OpenHere(v.cameras[k], loc, tid) <==> OpenHere(w.cameras[k], loc, tid);
    if e.zone == Queue && e.locationId == loc {
      if k == cam {
        FirstDelivered(ForQueue(x.outbox, loc), ForQueue(x.outbox[1..], loc), e, tid, who in InQueue(w, loc),
          OpenHere(x, loc, tid));
        assert Moves(e, who) <==> Concerns(e, QueueKey(tid));
      } else {
        assert Speaks(w, loc, cam);
        assert !Moves(e, who);
      }
    } else {
      assert !(loc == e.locationId && Moves(e, who));
    }
  }

  lemma DeliverySpeaks(c: Config, w: World, v: World, cam: CamKey)
    requires cam in w.cameras && |w.cameras[cam].outbox| > 0 && v == AfterDelivery(c, w, cam)
    ensures forall loc, k :: Speaks(v, loc, k) ==> Speaks(w, loc, k)
  {
    hide AfterZoneEvent, ForQueue;
    forall loc, k | Speaks(v, loc, k) ensures Speaks(w, loc, k) {
      ForQueueFirst(w.cameras[cam].outbox, loc);
    }
  }

  /** A camera that has said its last word at a location it does not watch has left nobody waiting there. */
  lemma LastWordSaid(v: World, loc: Name, k: CamKey, tid: int)
    requires k in v.cameras && !Speaks(v, loc, k) && Settles(v, loc, k, tid)
    ensures Waiter(k.cameraId, tid) !in InQueue(v, loc)
  {
    assert OfKey([], QueueKey(tid)) == [];
  }

  lemma DeliveryWaiters(c: Config, w: World, v: World, cam: CamKey, loc: Name, who: Waiter)
    requires Consistent(w) && cam in w.cameras && |w.cameras[cam].outbox| > 0 && v == AfterDelivery(c, w, cam)
    requires who in InQueue(v, loc)
    ensures HasSpeaker(v, loc, who.cameraId)
  {
    hide LeadsTo, AfterZoneEvent, ForQueue, Settles;
    var e := w.cameras[cam].outbox[0];
    assert e in w.cameras[cam].outbox;
    DeliveryQueues(c, w, v, cam, e);
    ForQueueFirst(w.cameras[cam].outbox, loc);
    assert HasSpeaker(w, loc, who.cameraId) by {
      if loc == e.locationId && Moves(e, who) {
        assert Speaks(w, loc, cam);
      } else {
        assert who in InQueue(w, loc);
      }
    }
    var k :| Speaks(w, loc, k) && k.cameraId == who.cameraId;
    DeliverySettles(c, w, v, cam, loc, k, who.trackerId);
    assert who == Waiter(k.cameraId, who.trackerId);
    if !Speaks(v, loc, k) {
      LastWordSaid(v, loc, k, who.trackerId);
    }
  }

  lemma DeliveryKeeps(c: Config, w: World, v: World, cam: CamKey)
    requires Consistent(w) && cam in w.cameras && |w.cameras[cam].outbox| > 0 && v == AfterDelivery(c, w, cam)
    ensures Consistent(v)
  {
    hide LeadsTo, AfterZoneEvent, Speaks, Settles, OpenHere;
    DeliverySpeaks(c, w, v, cam);
    forall loc, k, tid | Speaks(v, loc, k) ensures k in v.cameras && Settles(v, loc, k, tid) {
      SpeakersAreCameras(w, loc, k);
      DeliverySettles(c, w, v, cam, loc, k, tid);
    }
    forall loc, who | who in InQueue(v, loc) ensures HasSpeaker(v, loc, who.cameraId) {
      DeliveryWaiters(c, w, v, cam, loc, who);
    }
  }

  lemma QuietKeeps(w: World, v: World)
    requires Consistent(w) && v.cameras == w.cameras && forall loc :: InQueue(v, loc) == InQueue(w, loc)
    ensures Consistent(v)
  {
    hide LeadsTo, ForQueue, OpenHere;
    forall loc, k, tid | Speaks(v, loc, k) ensures Settles(v, loc, k, tid) {
      assert Speaks(w, loc, k) && Settles(w, loc, k, tid);
    }
    NamesKept(w, v);
  }

  // ---------------------------------------------------------------------------
  // Registration
  // ---------------------------------------------------------------------------

  /** No other camera speaks at the location under the camera's name. */
  ghost predicate NameFree(w: World, config: Zones.Config) {
    forall k :: Speaks(w, config.locationId, k) && k.cameraId == config.cameraId ==> k == KeyFor(config)
  }

  lemma RegisterSpeaks(w: World, v: World, config: Zones.Config)
    requires v == AfterRegister(w, config)
    ensures forall loc, k :: Speaks(v, loc, k) ==>
              Speaks(w, loc, k) || (loc == config.locationId && k == KeyFor(config))
  {
    assert forall loc :: ForQueue([], loc) == [];
  }

  lemma RegisterNames(w: World, v: World, config: Zones.Config)
    requires WellNamed(w) && Signed(w) && NameFree(w, config) && v == AfterRegister(w, config)
    ensures WellNamed(v) && Signed(v)
    ensures forall loc :: InQueue(v, loc) == InQueue(w, loc)
  {
    hide Speaks, ForQueue;
    RegisterSpeaks(w, v, config);
  }

  lemma NewHere(w: World, config: Zones.Config, tid: int)
    requires WaitersKnown(w) && NameFree(w, config) && !Speaks(w, config.locationId, KeyFor(config))
    ensures Waiter(config.cameraId, tid) !in InQueue(w, config.locationId)
  {
    assert !HasSpeaker(w, config.locationId, config.cameraId);
  }

  /** The camera had nobody's stay in the queue open. */
  ghost predicate NobodyInside(st: Zones.State) {
    forall tid :: QueueKey(tid) !in st.enter.vals
  }

  /** Nobody was in the queue of the camera that is replaced, if there was one. */
  ghost predicate Replaceable(w: World, k: CamKey) {
    k in w.cameras ==> NobodyInside(w.cameras[k].engine)
  }

  /** What the camera had to say still leads nowhere but out. */
  lemma RegisteredSettles(w: World, v: World, config: Zones.Config, loc: Name, tid: int)
    requires Consistent(w) && NameFree(w, config) && v == AfterRegister(w, config) && Speaks(v, loc, KeyFor(config))
    requires Replaceable(w, KeyFor(config))
    ensures Settles(v, loc, KeyFor(config), tid)
  {
    var cam := KeyFor(config);
    if Speaks(w, loc, cam) {
      assert Settles(w, loc, cam, tid);
    } else {
      NewHere(w, config, tid);
      NothingSays(tid, false);
    }
  }

  lemma NothingSays(tid: int, b: bool)
    ensures LeadsTo([], tid, b, b)
  {
    assert OfKey([], QueueKey(tid)) == [];
  }

  lemma RegisteredWaiters(w: World, v: World, config: Zones.Config, loc: Name, who: Waiter)
    requires Consistent(w) && NameFree(w, config) && v == AfterRegister(w, config) && who in InQueue(w, loc)
    requires Replaceable(w, KeyFor(config))
    ensures HasSpeaker(v, loc, who.cameraId)
  {
    hide ForQueue;
    assert HasSpeaker(w, loc, who.cameraId) && OfKey([], QueueKey(who.trackerId)) == [];
    var k :| Speaks(w, loc, k) && k.cameraId == who.cameraId;
    assert who == Waiter(k.cameraId, who.trackerId) && Settles(w, loc, k, who.trackerId);
    assert Speaks(v, loc, k);
  }

  lemma RegisterSettles(w: World, v: World, config: Zones.Config)
    requires Consistent(w) && NameFree(w, config) && v == AfterRegister(w, config)
    requires Replaceable(w, KeyFor(config))
    requires WellNamed(v) && Signed(v) && forall loc :: InQueue(v, loc) == InQueue(w, loc)
    ensures Consistent(v)
  {
    hide ForQueue, LeadsTo, OpenHere, NobodyInside;
    RegisterSpeaks(w, v, config);
    forall loc, k, tid | Speaks(v, loc, k) ensures Settles(v, loc, k, tid) {
      if k == KeyFor(config) {
        RegisteredSettles(w, v, config, loc, tid);
      } else {
        assert Settles(w, loc, k, tid);
      }
    }
    forall loc, who | who in InQueue(v, loc) ensures HasSpeaker(v, loc, who.cameraId) {
      RegisteredWaiters(w, v, config, loc, who);
    }
  }

  /**
   Registering a camera, for the first time or again, at any location and with whatever under way, keeps the invariant
   if and only if its name is free there and nobody was in its queue.
   */
  lemma RegisterKeepsIff(w: World, v: World, config: Zones.Config)
    requires Consistent(w) && v == AfterRegister(w, config)
    ensures Consistent(v) <==> NameFree(w, config) && Replaceable(w, KeyFor(config))
  {
    hide ForQueue, LeadsTo, OpenHere, Settles;
    if Consistent(v) {
      forall k | Speaks(w, config.locationId, k) && k.cameraId == config.cameraId ensures k == KeyFor(config) {
        assert k != KeyFor(config) ==> Speaks(v, config.locationId, k);
        assert Speaks(v, config.locationId, KeyFor(config));
      }
      if KeyFor(config) in w.cameras {
        forall tid ensures QueueKey(tid) !in w.cameras[KeyFor(config)].engine.enter.vals {
          StayLost(w, v, config, tid);
        }
      }
    }
    if NameFree(w, config) && Replaceable(w, KeyFor(config)) {
      RegisterNames(w, v, config);
      RegisterSettles(w, v, config);
    }
  }

  lemma StayLost(w: World, v: World, config: Zones.Config, tid: int)
    requires Consistent(w) && KeyFor(config) in w.cameras && v == AfterRegister(w, config) && Consistent(v)
    ensures QueueKey(tid) !in w.cameras[KeyFor(config)].engine.enter.vals
  {
    var cam := KeyFor(config);
    var loc, who := w.cameras[cam].config.locationId, Waiter(cam.cameraId, tid);
    assert Speaks(w, loc, cam) && Settles(w, loc, cam, tid);
    if Speaks(v, loc, cam) {
      assert Settles(v, loc, cam, tid);
    } else {
      assert OfKey([], QueueKey(tid)) == [];
      assert forall k :: Speaks(v, loc, k) ==> Speaks(w, loc, k);
      assert !HasSpeaker(v, loc, who.cameraId);
      assert who !in InQueue(v, loc) && ForQueue(w.cameras[cam].outbox, loc) == [];
    }
  }

  // ---------------------------------------------------------------------------
  // Runs
  // ---------------------------------------------------------------------------

  /**
   Cameras are registered under a name free at their location, and again, there or elsewhere, only with nobody in their
   queue. Anything else may come at any time.
   */
  ghost predicate Allowed(w: World, s: Step) {
    s.Register? ==> NameFree(w, s.config) && Replaceable(w, KeyFor(s.config))
  }

  ghost predicate IsRun(c: Config, steps: seq<Step>, worlds: seq<World>) {
    && |worlds| == |steps| + 1 && worlds[0] == START
    && forall n :: 0 <= n < |steps| ==> EnginesValid(worlds[n]) && worlds[n + 1] == Next(c, worlds[n], steps[n])
  }

  /** Registrations are in order for the first `n` steps. */
  ghost predicate AllAllowed(steps: seq<Step>, worlds: seq<World>, n: nat)
    requires n <= |steps| < |worlds|
  {
    forall i :: 0 <= i < n ==> Allowed(worlds[i], steps[i])
  }

  /** Those are exactly the steps that keep engines and queues in agreement. */
  lemma StepKeepsIff(c: Config, w: World, s: Step)
    requires Consistent(w)
    ensures Consistent(Next(c, w, s)) <==> Allowed(w, s)
  {
    hide NameFree, Replaceable, Settles, Speaks, AfterZoneEvent, AfterFrame, AfterDelivery;
    var v := Next(c, w, s);
    match s
    case Register(config) => RegisterKeepsIff(w, v, config);
    case FrameIn(cam, loc, dets, ts) => if cam in w.cameras { FrameKeeps(w, v, cam, loc, dets, ts); }
    case Deliver(cam) => if cam in w.cameras && |w.cameras[cam].outbox| > 0 { DeliveryKeeps(c, w, v, cam); }
    case PosIn(pos) => QuietKeeps(w, v);
    case Ask(loc, now) => QuietKeeps(w, v);
  }

  /** Under every interleaving of frames, deliveries, orders and questions, engines and queues agree up to delivery. */
  lemma {:induction false} AlwaysConsistent(c: Config, steps: seq<Step>, worlds: seq<World>, n: nat)
    requires IsRun(c, steps, worlds) && n <= |steps| && AllAllowed(steps, worlds, n)
    ensures Consistent(worlds[n])
  {
    hide Consistent, Allowed;
    if n > 0 {
      AlwaysConsistent(c, steps, worlds, n - 1);
      StepKeepsIff(c, worlds[n - 1], steps[n - 1]);
      assert worlds[n - 1 + 1] == Next(c, worlds[n - 1], steps[n - 1]);
    } else {
      StartConsistent();
    }
  }

  lemma StartConsistent()
    ensures Consistent(START)
  {
  }

  /** A run is in agreement throughout if and only if its registrations are all in order. */
  lemma RunConsistentIff(c: Config, steps: seq<Step>, worlds: seq<World>)
    requires IsRun(c, steps, worlds)
    ensures (forall n :: 0 <= n <= |steps| ==> Consistent(worlds[n])) <==> AllAllowed(steps, worlds, |steps|)
  {
    hide Consistent, Allowed, Next;
    if forall n :: 0 <= n <= |steps| ==> Consistent(worlds[n]) {
      forall i | 0 <= i < |steps| ensures Allowed(worlds[i], steps[i]) {
        StepKeepsIff(c, worlds[i], steps[i]);
        assert worlds[i + 1] == Next(c, worlds[i], steps[i]);
      }
    }
    if AllAllowed(steps, worlds, |steps|) {
      forall n | 0 <= n <= |steps| ensures Consistent(worlds[n]) {
        AlwaysConsistent(c, steps, worlds, n);
      }
    }
  }

  // ---------------------------------------------------------------------------
  // What the queue is once everything is delivered
  // ---------------------------------------------------------------------------

  /** The stays in the queue that the cameras of a location have open. */
  ghost function OpenAt(w: World, loc: Name): set<Waiter> {
    set k, key | k in w.cameras && w.cameras[k].config.locationId == loc && key in w.cameras[k].engine.enter.vals &&
                 key.kind == Queue :: Waiter(k.cameraId, key.tid)
  }

  function Replayed(q: set<Waiter>, evs: seq<ZoneEvent>): set<Waiter> {
    if |evs| == 0 then q else Shifted(Replayed(q, evs[..|evs| - 1]), evs[|evs| - 1])
  }

  ghost function OfCamera(evs: seq<ZoneEvent>, cameraId: Name): seq<ZoneEvent> {
    if |evs| == 0 then [] else
      OfCamera(evs[..|evs| - 1], cameraId) + if evs[|evs| - 1].cameraId == cameraId then [evs[|evs| - 1]] else []
  }

  /** `evs` interleaves the undelivered queue events addressed to the location, each camera's in order. */
  ghost predicate Interleaves(w: World, loc: Name, evs: seq<ZoneEvent>) {
    && Addressed(w, loc, evs)
    && forall k :: Speaks(w, loc, k) ==> OfCamera(evs, k.cameraId) == ForQueue(w.cameras[k].outbox, loc)
  }

  /** Events for the location, from cameras that speak there. */
  ghost predicate Addressed(w: World, loc: Name, evs: seq<ZoneEvent>) {
    forall e :: e in evs ==> e.locationId == loc && HasSpeaker(w, loc, e.cameraId)
  }

  lemma OneMoreSays(s: seq<ZoneEvent>, e: ZoneEvent, who: Waiter, b: bool)
    ensures var t := if e.cameraId == who.cameraId then s + [e] else s;
            LastSays(OfKey(t, QueueKey(who.trackerId)), b) <==>
            if Moves(e, who) then e.eventType == Enter else LastSays(OfKey(s, QueueKey(who.trackerId)), b)
  {
    if e.cameraId == who.cameraId {
      var key := QueueKey(who.trackerId);
      OfKeyAppend(s, [e], key);
      OfKeyOne([e], key);
    }
  }

  lemma {:induction false} ReplayedIs(q: set<Waiter>, evs: seq<ZoneEvent>, who: Waiter)
    ensures who in Replayed(q, evs) <==>
            LastSays(OfKey(OfCamera(evs, who.cameraId), QueueKey(who.trackerId)), who in q)
  {
    if |evs| > 0 {
      var front, e := evs[..|evs| - 1], evs[|evs| - 1];
      ReplayedIs(q, front, who);
      ShiftedIs(Replayed(q, front), e, who);
      OneMoreSays(OfCamera(front, who.cameraId), e, who, who in q);
      assert OfCamera(evs, who.cameraId) ==
        if e.cameraId == who.cameraId then OfCamera(front, who.cameraId) + [e] else OfCamera(front, who.cameraId);
    } else {
      assert OfKey([], QueueKey(who.trackerId)) == [];
    }
  }

  lemma {:induction false} NoneOfCamera(evs: seq<ZoneEvent>, cameraId: Name)
    requires forall e :: e in evs ==> e.cameraId != cameraId
    ensures OfCamera(evs, cameraId) == []
  {
    if |evs| > 0 {
      NoneOfCamera(evs[..|evs| - 1], cameraId);
    }
  }

  /** Membership in the open stays, in terms of the one camera that can have reported the waiter. */
  lemma OpenAtIs(w: World, loc: Name, who: Waiter)
    requires WellNamed(w)
    ensures who in OpenAt(w, loc) <==>
            exists k :: WatchedBy(w, loc, k) && k.cameraId == who.cameraId && OpenIn(w, k, who.trackerId)
  {
    if k :| WatchedBy(w, loc, k) && k.cameraId == who.cameraId && OpenIn(w, k, who.trackerId) {
      assert Waiter(k.cameraId, QueueKey(who.trackerId).tid) == who;
    }
    if who in OpenAt(w, loc) {
      var j, key :| j in w.cameras && w.cameras[j].config.locationId == loc && key in w.cameras[j].engine.enter.vals &&
        key.kind == Queue && Waiter(j.cameraId, key.tid) == who;
      assert WatchedBy(w, loc, j) && key == QueueKey(who.trackerId) && OpenIn(w, j, who.trackerId);
    }
  }

  ghost predicate OpenIn(w: World, k: CamKey, tid: int) {
    k in w.cameras && QueueKey(tid) in w.cameras[k].engine.enter.vals
  }

  /** What a camera's events say last about a track, in the order given, starting from the location's queue. */
  ghost predicate Concludes(w: World, loc: Name, evs: seq<ZoneEvent>, who: Waiter) {
    LastSays(OfKey(evs, QueueKey(who.trackerId)), who in InQueue(w, loc))
  }

  lemma ReplayedSpoken(w: World, loc: Name, evs: seq<ZoneEvent>, k: CamKey, tid: int)
    requires Consistent(w) && Speaks(w, loc, k)
    ensures var who := Waiter(k.cameraId, tid);
            && (who in Replayed(InQueue(w, loc), evs) <==> Concludes(w, loc, OfCamera(evs, k.cameraId), who))
            && (who in OpenAt(w, loc) <==> Concludes(w, loc, ForQueue(w.cameras[k].outbox, loc), who))
  {
    hide ForQueue, OfKey, Replayed, OfCamera;
    var who := Waiter(k.cameraId, tid);
    ReplayedIs(InQueue(w, loc), evs, who);
    OpenAtIs(w, loc, who);
    assert Settles(w, loc, k, tid);
    if WatchedBy(w, loc, k) && OpenIn(w, k, tid) {
      assert k.cameraId == who.cameraId;
    }
  }

  lemma ReplayedStranger(w: World, loc: Name, evs: seq<ZoneEvent>, who: Waiter)
    requires Consistent(w) && !HasSpeaker(w, loc, who.cameraId) && Addressed(w, loc, evs)
    ensures who !in Replayed(InQueue(w, loc), evs) && who !in OpenAt(w, loc)
  {
    ReplayedIs(InQueue(w, loc), evs, who);
    OpenAtIs(w, loc, who);
    NoneOfCamera(evs, who.cameraId);
    assert OfKey([], QueueKey(who.trackerId)) == [];
    assert forall k :: WatchedBy(w, loc, k) ==> Speaks(w, loc, k);
  }

  /** In the order given, the events say the same last of every track as in the order they were made. */
  ghost predicate SameConclusions(w: World, loc: Name, evs: seq<ZoneEvent>) {
    forall k, tid :: Speaks(w, loc, k) ==>
      (Concludes(w, loc, OfCamera(evs, k.cameraId), Waiter(k.cameraId, tid)) <==>
       Concludes(w, loc, ForQueue(w.cameras[k].outbox, loc), Waiter(k.cameraId, tid)))
  }

  /**
   For events delivered to the location in any order whatever: the queue ends as the open stays if and only if, of
   each track, the last one delivered says what the last one made says.
   */
  lemma DeliveryOrderIff(w: World, loc: Name, evs: seq<ZoneEvent>)
    requires Consistent(w) && Addressed(w, loc, evs)
    ensures Replayed(InQueue(w, loc), evs) == OpenAt(w, loc) <==> SameConclusions(w, loc, evs)
  {
    hide ForQueue, OfCamera, Replayed, OpenAt, Concludes, Speaks;
    if Replayed(InQueue(w, loc), evs) == OpenAt(w, loc) {
      forall k, tid | Speaks(w, loc, k)
        ensures k in w.cameras
        ensures Concludes(w, loc, OfCamera(evs, k.cameraId), Waiter(k.cameraId, tid)) <==>
                Concludes(w, loc, ForQueue(w.cameras[k].outbox, loc), Waiter(k.cameraId, tid))
      {
        SpeakersAreCameras(w, loc, k);
        ReplayedSpoken(w, loc, evs, k, tid);
      }
    }
    if SameConclusions(w, loc, evs) {
      forall who ensures who in Replayed(InQueue(w, loc), evs) <==> who in OpenAt(w, loc) {
        if HasSpeaker(w, loc, who.cameraId) {
          var k :| Speaks(w, loc, k) && k.cameraId == who.cameraId;
          assert who == Waiter(k.cameraId, who.trackerId);
          ReplayedSpoken(w, loc, evs, k, who.trackerId);
        } else {
          ReplayedStranger(w, loc, evs, who);
        }
      }
    }
  }

  /** So it is enough to keep the events of each track in order: tracks may overtake one another, even of one camera. */
  lemma TrackOrderSuffices(w: World, loc: Name, evs: seq<ZoneEvent>)
    requires Consistent(w) && Addressed(w, loc, evs)
    requires forall k, tid :: Speaks(w, loc, k) ==>
               OfKey(OfCamera(evs, k.cameraId), QueueKey(tid)) ==
               OfKey(ForQueue(w.cameras[k].outbox, loc), QueueKey(tid))
    ensures Replayed(InQueue(w, loc), evs) == OpenAt(w, loc)
  {
    hide ForQueue, OfCamera, Replayed, OpenAt;
    forall k, tid | Speaks(w, loc, k)
      ensures Concludes(w, loc, OfCamera(evs, k.cameraId), Waiter(k.cameraId, tid)) <==>
              Concludes(w, loc, ForQueue(w.cameras[k].outbox, loc), Waiter(k.cameraId, tid))
    {
      assert OfKey(OfCamera(evs, k.cameraId), QueueKey(tid)) ==
        OfKey(ForQueue(w.cameras[k].outbox, loc), QueueKey(tid));
    }
    DeliveryOrderIff(w, loc, evs);
  }

  /**
   Replaying the undelivered events onto the queue, interleaved in whatever way the bus may do it, gives exactly the
   stays the location's cameras have open.
   */
  lemma QueueCatchesUp(w: World, loc: Name, evs: seq<ZoneEvent>)
    requires Consistent(w) && Interleaves(w, loc, evs)
    ensures Replayed(InQueue(w, loc), evs) == OpenAt(w, loc)
  {
    DeliveryOrderIff(w, loc, evs);
  }
}
