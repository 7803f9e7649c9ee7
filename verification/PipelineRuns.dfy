/** What the published queue length means: occupancies, sightings, and the state right after a frame was ingested. */
module PipelineRuns {
  import opened Schemas
  import opened Dicts
  import Zones
  import opened ZoneRuns
  import opened WaitTime
  import opened Pipeline

  // ---------------------------------------------------------------------------
  // Counting
  // ---------------------------------------------------------------------------

  ghost function OpenOf(cameraId: Name, keys: seq<Zones.Key>): set<Waiter> {
    set key | key in keys && key.kind == Queue :: Waiter(cameraId, key.tid)
  }

  lemma {:induction false} OpenOfCount(cameraId: Name, keys: seq<Zones.Key>)
    requires Distinct(keys)
    ensures |OpenOf(cameraId, keys)| == Zones.CountKind(keys, Queue)
  {
    if |keys| > 0 {
      var front, last := keys[..|keys| - 1], keys[|keys| - 1];
      OpenOfCount(cameraId, front);
      assert keys == front + [last];
      if last.kind == Queue {
        assert last == QueueKey(last.tid) && last !in front;
        assert Waiter(cameraId, last.tid) !in OpenOf(cameraId, front);
        assert OpenOf(cameraId, keys) == OpenOf(cameraId, front) + {Waiter(cameraId, last.tid)};
      } else {
        assert OpenOf(cameraId, keys) == OpenOf(cameraId, front);
      }
    }
  }

  /** The queue occupancies of the location's cameras, added up. */
  function TotalOccupancy(w: World, cams: seq<CamKey>, loc: Name): nat {
    if |cams| == 0 then 0 else
      var k := cams[|cams| - 1];
      TotalOccupancy(w, cams[..|cams| - 1], loc) +
      if k in w.cameras && w.cameras[k].config.locationId == loc
      then Zones.CountKind(w.cameras[k].engine.enter.order, Queue) else 0
  }

  ghost function OpenAmong(w: World, cams: seq<CamKey>, loc: Name): set<Waiter> {
    set k, key | k in cams && k in w.cameras && w.cameras[k].config.locationId == loc &&
                 key in w.cameras[k].engine.enter.order && key.kind == Queue :: Waiter(k.cameraId, key.tid)
  }

  lemma OpenAmongOneMore(w: World, front: seq<CamKey>, k: CamKey, loc: Name)
    requires EnginesValid(w) && WellNamed(w) && k !in front && WatchedBy(w, loc, k)
    ensures OpenAmong(w, front + [k], loc) ==
              OpenAmong(w, front, loc) + OpenOf(k.cameraId, w.cameras[k].engine.enter.order)
    ensures OpenAmong(w, front, loc) !! OpenOf(k.cameraId, w.cameras[k].engine.enter.order)
  {
    forall who | who in OpenAmong(w, front, loc) ensures who.cameraId != k.cameraId {
      var j, key :| j in front && j in w.cameras && w.cameras[j].config.locationId == loc &&
        key in w.cameras[j].engine.enter.order && key.kind == Queue && Waiter(j.cameraId, key.tid) == who;
      assert Speaks(w, loc, j) && Speaks(w, loc, k) && j != k;
    }
  }

  lemma {:induction false} OpenAmongCount(w: World, cams: seq<CamKey>, loc: Name)
    requires EnginesValid(w) && WellNamed(w) && Distinct(cams)
    ensures |OpenAmong(w, cams, loc)| == TotalOccupancy(w, cams, loc)
  {
    if |cams| > 0 {
      var front, k := cams[..|cams| - 1], cams[|cams| - 1];
      assert cams == front + [k];
      OpenAmongCount(w, front, loc);
      if WatchedBy(w, loc, k) {
        assert k !in front && Zones.Valid(w.cameras[k].engine);
        OpenOfCount(k.cameraId, w.cameras[k].engine.enter.order);
        OpenAmongOneMore(w, front, k, loc);
      } else {
        assert OpenAmong(w, cams, loc) == OpenAmong(w, front, loc);
      }
    }
  }

  /** `cams` lists the registered cameras. */
  ghost predicate Lists(cams: seq<CamKey>, w: World) {
    Distinct(cams) && forall k :: k in cams <==> k in w.cameras
  }

  /** Nothing is under way to the location's queue. */
  ghost predicate Drained(w: World, loc: Name) {
    forall k :: k in w.cameras ==> ForQueue(w.cameras[k].outbox, loc) == []
  }

  lemma OpenAtCount(w: World, cams: seq<CamKey>, loc: Name)
    requires EnginesValid(w) && WellNamed(w) && Lists(cams, w)
    ensures |OpenAt(w, loc)| == TotalOccupancy(w, cams, loc)
  {
    OpenAmongCount(w, cams, loc);
    forall k, key | k in w.cameras
      ensures key in w.cameras[k].engine.enter.vals <==> key in w.cameras[k].engine.enter.order
    {
      assert Zones.Valid(w.cameras[k].engine);
    }
    assert OpenAt(w, loc) == OpenAmong(w, cams, loc);
  }

  lemma DrainedQueue(w: World, loc: Name)
    requires Consistent(w) && Drained(w, loc)
    ensures InQueue(w, loc) == OpenAt(w, loc)
  {
    QueueCatchesUp(w, loc, []);
  }

  lemma LiveLength(c: Config, s: LocState, loc: Name, now: Time)
    requires ValidConfig(c) && VideoLive(c, s, now)
    ensures EstimateOf(c, s, loc, now).queueLength == |s.inQueue| && EstimateOf(c, s, loc, now).source == Vision
  {
  }

  /**
   With every event delivered and the video live, the queue length published for a location is the sum of the queue
   occupancies of its cameras.
   */
  lemma QueueLengthIsOccupancy(c: Config, w: World, cams: seq<CamKey>, loc: Name, now: Time)
    requires ValidConfig(c) && Consistent(w) && Drained(w, loc) && Lists(cams, w)
    requires VideoLive(c, At(w.wait, loc), now)
    ensures EstimateOf(c, Trimmed(c, At(w.wait, loc), now), loc, now).queueLength == TotalOccupancy(w, cams, loc)
  {
    DrainedQueue(w, loc);
    OpenAtCount(w, cams, loc);
    LiveLength(c, Trimmed(c, At(w.wait, loc), now), loc, now);
  }

  /** Order matters: an exit overtaking its entry leaves someone in the queue. */
  lemma OvertakingLeavesWaiter(enter: ZoneEvent, exit: ZoneEvent, who: Waiter)
    requires enter.eventType == Enter && exit.eventType == Exit && enter.zone == exit.zone == Queue
    requires who == Waiter(enter.cameraId, enter.trackerId) == Waiter(exit.cameraId, exit.trackerId)
    ensures who !in Replayed({}, [enter, exit]) && who in Replayed({}, [exit, enter])
  {
  }

  // ---------------------------------------------------------------------------
  // From frames to the queue
  // ---------------------------------------------------------------------------

  ghost predicate Registers(s: Step, k: CamKey) { s.Register? && KeyFor(s.config) == k }

  /** The frames camera `k` gave its current engine in the first `n` steps: registering it starts afresh. */
  ghost function FramesOf(steps: seq<Step>, worlds: seq<World>, n: nat, k: CamKey): seq<Zones.Frame>
    requires n <= |steps| < |worlds|
  {
    if n == 0 || Registers(steps[n - 1], k) then [] else
      var s := steps[n - 1];
      FramesOf(steps, worlds, n - 1, k) +
      if s.FrameIn? && s.cam == k && k in worlds[n - 1].cameras then [Zones.Frame(s.ts, s.dets)] else []
  }

  lemma WasThere(c: Config, w: World, s: Step, k: CamKey)
    requires EnginesValid(w) && !Registers(s, k) && k in Pipeline.Next(c, w, s).cameras
    ensures k in w.cameras
  {
  }

  /** What a step does to one camera it does not register. */
  lemma StepOfCamera(c: Config, w: World, s: Step, k: CamKey)
    requires EnginesValid(w) && !Registers(s, k) && k in w.cameras
    ensures var v, x := Pipeline.Next(c, w, s), w.cameras[k];
            && k in v.cameras && v.cameras[k].config == x.config
            && v.cameras[k].engine ==
               if s.FrameIn? && s.cam == k then Zones.Next(x.config, x.engine, s.dets, s.ts) else x.engine
  {
  }

  lemma SameStep(c: Zones.Config, frames: seq<Zones.Frame>, states: seq<Zones.State>, outs: seq<seq<ZoneEvent>>, i: nat,
                 f: Zones.Frame, st: Zones.State, next: Zones.State, out: seq<ZoneEvent>)
    requires ZoneRuns.IsRun(c, frames, states, outs) && i < |frames|
    requires f == frames[i] && st == states[i] && next == states[i + 1] && out == outs[i]
    ensures Zones.Valid(st) && next == Zones.Next(c, st, f.dets, f.ts) && out == Zones.Events(c, st, f.dets, f.ts)
  {
  }

  lemma RunExtends(c: Zones.Config, frames: seq<Zones.Frame>, states: seq<Zones.State>, outs: seq<seq<ZoneEvent>>,
                   f: Zones.Frame, next: Zones.State, out: seq<ZoneEvent>)
    requires ZoneRuns.IsRun(c, frames, states, outs) && Zones.Valid(states[|frames|])
    requires next == Zones.Next(c, states[|frames|], f.dets, f.ts)
    requires out == Zones.Events(c, states[|frames|], f.dets, f.ts)
    ensures ZoneRuns.IsRun(c, frames + [f], states + [next], outs + [out])
  {
    hide Zones.Next, Zones.Events, Zones.Valid;
    var frames', states', outs' := frames + [f], states + [next], outs + [out];
    forall i | 0 <= i < |frames'|
      ensures Zones.Valid(states'[i]) && states'[i + 1] == Zones.Next(c, states'[i], frames'[i].dets, frames'[i].ts)
      ensures outs'[i] == Zones.Events(c, states'[i], frames'[i].dets, frames'[i].ts)
    {
      if i < |frames| {
        SameStep(c, frames, states, outs, i, frames'[i], states'[i], states'[i + 1], outs'[i]);
      }
    }
  }

  lemma RunFollows(c: Config, w: World, v: World, s: Step, k: CamKey, frames: seq<Zones.Frame>,
                   states: seq<Zones.State>, outs: seq<seq<ZoneEvent>>)
    returns (states': seq<Zones.State>, outs': seq<seq<ZoneEvent>>)
    requires EnginesValid(w) && !Registers(s, k) && v == Pipeline.Next(c, w, s) && k in w.cameras
    requires ZoneRuns.IsRun(w.cameras[k].config, frames, states, outs) && states[|frames|] == w.cameras[k].engine
    ensures k in v.cameras
    ensures var more := if s.FrameIn? && s.cam == k then [Zones.Frame(s.ts, s.dets)] else [];
            && ZoneRuns.IsRun(v.cameras[k].config, frames + more, states', outs')
            && states'[|frames + more|] == v.cameras[k].engine
  {
    StepOfCamera(c, w, s, k);
    states', outs' := states, outs;
    var config, engine := w.cameras[k].config, w.cameras[k].engine;
    if s.FrameIn? && s.cam == k {
      var out := Zones.Events(config, engine, s.dets, s.ts);
      RunExtends(config, frames, states, outs, Zones.Frame(s.ts, s.dets), v.cameras[k].engine, out);
      states', outs' := states + [v.cameras[k].engine], outs + [out];
    } else {
      assert frames + [] == frames;
    }
  }

  lemma RegisteredEmpty(c: Config, w: World, s: Step, k: CamKey)
    requires EnginesValid(w) && Registers(s, k)
    ensures k in Pipeline.Next(c, w, s).cameras && Pipeline.Next(c, w, s).cameras[k].engine == EMPTY
  {
  }

  /** The engine of a camera is where a run over its frames since it was registered ends, whatever else happened. */
  lemma {:induction false} EngineIsRun(c: Config, steps: seq<Step>, worlds: seq<World>, n: nat, k: CamKey)
    returns (states: seq<Zones.State>, outs: seq<seq<ZoneEvent>>)
    requires Pipeline.IsRun(c, steps, worlds) && n <= |steps| && k in worlds[n].cameras
    ensures ZoneRuns.IsRun(worlds[n].cameras[k].config, FramesOf(steps, worlds, n, k), states, outs)
    ensures states[|FramesOf(steps, worlds, n, k)|] == worlds[n].cameras[k].engine
  {
    var w, s := worlds[n - 1], steps[n - 1];
    assert worlds[n - 1 + 1] == Pipeline.Next(c, w, s);
    if Registers(s, k) {
      RegisteredEmpty(c, w, s, k);
      states, outs := [EMPTY], [];
    } else {
      WasThere(c, w, s, k);
      states, outs := EngineIsRun(c, steps, worlds, n - 1, k);
      states, outs := RunFollows(c, w, worlds[n], s, k, FramesOf(steps, worlds, n - 1, k), states, outs);
    }
  }

  /** Some camera of the location last saw the track a moment ago, in a queue zone. */
  ghost predicate SeenQueueing(steps: seq<Step>, worlds: seq<World>, n: nat, loc: Name, who: Waiter)
    requires n <= |steps| < |worlds|
  {
    exists k :: WatchedBy(worlds[n], loc, k) && k.cameraId == who.cameraId && SeenBy(steps, worlds, n, k, who.trackerId)
  }

  ghost predicate SeenBy(steps: seq<Step>, worlds: seq<World>, n: nat, k: CamKey, tid: int)
    requires n <= |steps| < |worlds| && k in worlds[n].cameras
  {
    var frames := FramesOf(steps, worlds, n, k);
    ShouldBeOpen(worlds[n].cameras[k].config, frames, |frames|, QueueKey(tid))
  }

  lemma OpenIsSeen(c: Config, steps: seq<Step>, worlds: seq<World>, n: nat, k: CamKey, tid: int)
    requires Pipeline.IsRun(c, steps, worlds) && n <= |steps| && k in worlds[n].cameras
    requires StrictlyOrdered(FramesOf(steps, worlds, n, k))
    ensures QueueKey(tid) in worlds[n].cameras[k].engine.enter.vals <==> SeenBy(steps, worlds, n, k, tid)
  {
    var states, outs := EngineIsRun(c, steps, worlds, n, k);
    var frames, config := FramesOf(steps, worlds, n, k), worlds[n].cameras[k].config;
    OpenStaysAreRecentSightings(config, frames, states, outs, |frames|);
    assert AgreesOn(config, frames, |frames|, states[|frames|], QueueKey(tid));
  }

  /**
   End to end, for any interleaving of cameras, deliveries and orders: when each camera's frames come in time order
   and all events of the location are delivered, a person counts as queueing exactly if a camera of the location last
   saw them in a queue zone no longer ago than it waits for lost tracks.
   */
  lemma QueueIsWhoWasSeen(c: Config, steps: seq<Step>, worlds: seq<World>, n: nat, loc: Name, who: Waiter)
    requires Pipeline.IsRun(c, steps, worlds) && n <= |steps| && AllAllowed(steps, worlds, n) && Drained(worlds[n], loc)
    requires forall k :: WatchedBy(worlds[n], loc, k) ==> StrictlyOrdered(FramesOf(steps, worlds, n, k))
    ensures who in InQueue(worlds[n], loc) <==> SeenQueueing(steps, worlds, n, loc, who)
  {
    var w := worlds[n];
    AlwaysConsistent(c, steps, worlds, n);
    DrainedQueue(w, loc);
    if who in OpenAt(w, loc) {
      var k, key :| k in w.cameras && w.cameras[k].config.locationId == loc && key in w.cameras[k].engine.enter.vals &&
        key.kind == Queue && Waiter(k.cameraId, key.tid) == who;
      assert WatchedBy(w, loc, k) && key == QueueKey(who.trackerId);
      OpenIsSeen(c, steps, worlds, n, k, who.trackerId);
    }
    if SeenQueueing(steps, worlds, n, loc, who) {
      var k :| WatchedBy(w, loc, k) && k.cameraId == who.cameraId && SeenBy(steps, worlds, n, k, who.trackerId);
      OpenIsSeen(c, steps, worlds, n, k, who.trackerId);
      assert Waiter(k.cameraId, QueueKey(who.trackerId).tid) == who;
    }
  }

  // ---------------------------------------------------------------------------
  // One frame, delivered at once
  // ---------------------------------------------------------------------------

  /** The wait engine's state after the first `n` of some events. */
  function WaitAfter(c: Config, wait: map<Name, LocState>, evs: seq<ZoneEvent>, n: nat): map<Name, LocState>
    requires n <= |evs|
  {
    if n == 0 then wait else
      var m, ev := WaitAfter(c, wait, evs, n - 1), evs[n - 1];
      m[ev.locationId := AfterZoneEvent(c, At(m, ev.locationId), ev)]
  }

  /** The first `n` waiting events of a camera delivered. */
  function Delivered(c: Config, w: World, cam: CamKey, n: nat): World
    requires cam in w.cameras && n <= |w.cameras[cam].outbox|
  {
    var x := w.cameras[cam];
    World(w.cameras[cam := x.(outbox := if n == 0 then x.outbox else x.outbox[n..])], WaitAfter(c, w.wait, x.outbox, n))
  }

  lemma DeliveredNone(c: Config, w: World, cam: CamKey)
    requires cam in w.cameras
    ensures Delivered(c, w, cam, 0) == w
  {
    assert w.cameras[cam := w.cameras[cam]] == w.cameras;
  }

  /** That is, one delivery after another. */
  lemma DeliveredInTurn(c: Config, w: World, cam: CamKey, n: nat)
    requires cam in w.cameras && n < |w.cameras[cam].outbox|
    ensures Delivered(c, w, cam, n + 1) == AfterDelivery(c, Delivered(c, w, cam, n), cam)
  {
    var x := w.cameras[cam];
    var before, after := Delivered(c, w, cam, n), Delivered(c, w, cam, n + 1);
    assert before.cameras[cam].outbox[0] == x.outbox[n];
    assert before.cameras[cam].outbox[1..] == x.outbox[n + 1..];
    assert after.cameras == AfterDelivery(c, before, cam).cameras;
  }

  lemma OneMoreDelivered(c: Config, w: World, cam: CamKey, n: nat)
    requires cam in w.cameras && n < |w.cameras[cam].outbox| && Consistent(Delivered(c, w, cam, n))
    ensures Consistent(Delivered(c, w, cam, n + 1))
  {
    var before := Delivered(c, w, cam, n);
    DeliveredInTurn(c, w, cam, n);
    DeliveryKeeps(c, before, AfterDelivery(c, before, cam), cam);
  }

  lemma {:induction false} DeliveredKeeps(c: Config, w: World, cam: CamKey, n: nat)
    requires Consistent(w) && cam in w.cameras && n <= |w.cameras[cam].outbox|
    ensures Consistent(Delivered(c, w, cam, n))
  {
    hide *;
    if n > 0 {
      DeliveredKeeps(c, w, cam, n - 1);
      OneMoreDelivered(c, w, cam, n - 1);
    } else {
      DeliveredNone(c, w, cam);
    }
  }

  /** A location whose video was alive at `ts` stays so. */
  ghost predicate SeenSince(s: LocState, ts: Time) { s.lastVideo.Some? && s.lastVideo.value >= ts }

  lemma EventSeen(c: Config, s: LocState, ev: ZoneEvent, ts: Time)
    requires SeenSince(s, ts)
    ensures SeenSince(AfterZoneEvent(c, s, ev), ts)
  {
  }

  lemma {:induction false} WaitAfterSeen(c: Config, wait: map<Name, LocState>, evs: seq<ZoneEvent>, n: nat, loc: Name,
                                         ts: Time)
    requires n <= |evs| && SeenSince(At(wait, loc), ts)
    ensures SeenSince(At(WaitAfter(c, wait, evs, n), loc), ts)
  {
    if n > 0 {
      WaitAfterSeen(c, wait, evs, n - 1, loc, ts);
      EventSeen(c, At(WaitAfter(c, wait, evs, n - 1), loc), evs[n - 1], ts);
    }
  }

  /** Everything the camera has to say handled, and an estimate published. */
  function Settled(c: Config, w: World, cam: CamKey, loc: Name, now: Time): World
    requires cam in w.cameras
  {
    var done := Delivered(c, w, cam, |w.cameras[cam].outbox|);
    done.(wait := done.wait[loc := Trimmed(c, At(done.wait, loc), now)])
  }

  /** A frame taken in, its events handled one by one, and the estimate published. */
  function Ingested(c: Config, w: World, cam: CamKey, loc: Name, dets: seq<Detection>, ts: Time): World
    requires EnginesValid(w) && cam in w.cameras
  {
    Settled(c, AfterFrame(w, cam, loc, dets, ts), cam, loc, ts)
  }

  ghost predicate AllDrained(w: World) {
    forall k :: k in w.cameras ==> w.cameras[k].outbox == []
  }

  lemma DeliveredAll(c: Config, framed: World, cam: CamKey, loc: Name, ts: Time, done: World)
    requires Consistent(framed) && cam in framed.cameras && SeenSince(At(framed.wait, loc), ts)
    requires forall k :: k in framed.cameras && k != cam ==> framed.cameras[k].outbox == []
    requires done == Delivered(c, framed, cam, |framed.cameras[cam].outbox|)
    ensures Consistent(done) && AllDrained(done) && SeenSince(At(done.wait, loc), ts)
    ensures done.cameras.Keys == framed.cameras.Keys
  {
    var all := |framed.cameras[cam].outbox|;
    DeliveredKeeps(c, framed, cam, all);
    WaitAfterSeen(c, framed.wait, framed.cameras[cam].outbox, all, loc, ts);
  }

  lemma PublishedExact(c: Config, done: World, loc: Name, ts: Time, r: World)
    requires ValidConfig(c) && c.videoStaleAfter >= 0 && Consistent(done) && AllDrained(done)
    requires SeenSince(At(done.wait, loc), ts)
    requires r == done.(wait := done.wait[loc := Trimmed(c, At(done.wait, loc), ts)])
    ensures Consistent(r) && AllDrained(r)
    ensures EstimateOf(c, At(r.wait, loc), loc, ts).source == Vision
    ensures EstimateOf(c, At(r.wait, loc), loc, ts).queueLength == |OpenAt(r, loc)|
  {
    assert forall l :: InQueue(r, l) == InQueue(done, l);
    QuietKeeps(done, r);
    DrainedQueue(r, loc);
    LiveLength(c, At(r.wait, loc), loc, ts);
  }

  /**
   With the in-process bus, whatever the frame's time and whichever location it names: engines and queues agree after
   it, and the estimate published for that location comes from vision and counts exactly the open stays of its cameras.
   */
  lemma IngestedIsExact(c: Config, w: World, cam: CamKey, loc: Name, dets: seq<Detection>, ts: Time, r: World)
    requires ValidConfig(c) && c.videoStaleAfter >= 0 && Consistent(w) && AllDrained(w) && cam in w.cameras
    requires r == Ingested(c, w, cam, loc, dets, ts)
    ensures Consistent(r) && AllDrained(r)
    ensures EstimateOf(c, At(r.wait, loc), loc, ts).source == Vision
    ensures EstimateOf(c, At(r.wait, loc), loc, ts).queueLength == |OpenAt(r, loc)|
    ensures forall cams :: Lists(cams, r) ==> TotalOccupancy(r, cams, loc) == |OpenAt(r, loc)|
  {
    var framed := AfterFrame(w, cam, loc, dets, ts);
    FrameKeeps(w, framed, cam, loc, dets, ts);
    assert SeenSince(At(framed.wait, loc), ts);
    var done := Delivered(c, framed, cam, |framed.cameras[cam].outbox|);
    DeliveredAll(c, framed, cam, loc, ts, done);
    PublishedExact(c, done, loc, ts, r);
    forall cams | Lists(cams, r) ensures TotalOccupancy(r, cams, loc) == |OpenAt(r, loc)| {
      OpenAtCount(r, cams, loc);
    }
  }
}
