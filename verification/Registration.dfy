/** What registering a camera again does to the agreement between zone engines and queues. */
module Registration {
  import opened Schemas
  import opened ZoneRuns
  import opened WaitTime
  import opened Pipeline
  import opened PipelineRuns
  import Zones

  /** However the undelivered events of a location are interleaved, its queue ends as its cameras' open stays. */
  ghost predicate CatchesUp(w: World) {
    forall loc, evs :: Interleaves(w, loc, evs) ==> Replayed(InQueue(w, loc), evs) == OpenAt(w, loc)
  }

  // ---------------------------------------------------------------------------
  // There is always an interleaving
  // ---------------------------------------------------------------------------

  ghost predicate InterleavesOf(w: World, loc: Name, ks: set<CamKey>, evs: seq<ZoneEvent>) {
    && (forall e :: e in evs ==> e.locationId == loc)
    && (forall e :: e in evs ==> exists k :: k in ks && Speaks(w, loc, k) && k.cameraId == e.cameraId)
    && forall k :: k in ks && Speaks(w, loc, k) ==> OfCamera(evs, k.cameraId) == ForQueue(w.cameras[k].outbox, loc)
  }

  lemma {:induction false} OfCameraAppend(a: seq<ZoneEvent>, b: seq<ZoneEvent>, cameraId: Name)
    ensures OfCamera(a + b, cameraId) == OfCamera(a, cameraId) + OfCamera(b, cameraId)
  {
    if |b| == 0 {
      assert a + b == a;
    } else {
      OfCameraAppend(a, b[..|b| - 1], cameraId);
      assert (a + b)[..|a + b| - 1] == a + b[..|b| - 1];
    }
  }

  lemma {:induction false} AllOfCamera(evs: seq<ZoneEvent>, cameraId: Name)
    requires forall e :: e in evs ==> e.cameraId == cameraId
    ensures |OfCamera(evs, cameraId)| == |evs|
    ensures forall i :: 0 <= i < |evs| ==> OfCamera(evs, cameraId)[i] == evs[i]
  {
    if |evs| > 0 {
      AllOfCamera(evs[..|evs| - 1], cameraId);
    }
  }

  lemma {:induction false} ForQueueFrom(evs: seq<ZoneEvent>, loc: Name)
    ensures forall e :: e in ForQueue(evs, loc) ==> e in evs && e.locationId == loc
  {
    if |evs| > 0 {
      ForQueueFrom(evs[..|evs| - 1], loc);
    }
  }

  /** One camera after another is an interleaving. */
  lemma {:induction false} InterleavingOf(w: World, loc: Name, ks: set<CamKey>) returns (evs: seq<ZoneEvent>)
    requires WellNamed(w) && Signed(w) && ks <= w.cameras.Keys
    ensures InterleavesOf(w, loc, ks, evs)
    decreases |ks|
  {
    hide ForQueue, OfCamera, WellNamed, Signed, Speaks;
    if k :| k in ks {
      var rest := InterleavingOf(w, loc, ks - {k});
      if Speaks(w, loc, k) {
        evs := rest + ForQueue(w.cameras[k].outbox, loc);
        OneMoreCamera(w, loc, ks, k, rest);
      } else {
        evs := rest;
      }
    } else {
      evs := [];
    }
  }

  lemma OneMoreCamera(w: World, loc: Name, ks: set<CamKey>, k: CamKey, rest: seq<ZoneEvent>)
    requires WellNamed(w) && Signed(w) && k in ks && ks <= w.cameras.Keys && Speaks(w, loc, k)
    requires InterleavesOf(w, loc, ks - {k}, rest)
    ensures InterleavesOf(w, loc, ks, rest + ForQueue(w.cameras[k].outbox, loc))
  {
    hide OfCamera, ForQueue, Speaks;
    var own := ForQueue(w.cameras[k].outbox, loc);
    ForQueueFrom(w.cameras[k].outbox, loc);
    forall e | e in rest + own ensures exists j :: j in ks && Speaks(w, loc, j) && j.cameraId == e.cameraId {
      if e in own {
        assert k in ks && Speaks(w, loc, k);
      }
    }
    forall e | e in rest ensures e.cameraId != k.cameraId {
      var j :| j in ks - {k} && Speaks(w, loc, j) && j.cameraId == e.cameraId;
    }
    forall j | j in ks && Speaks(w, loc, j)
      ensures OfCamera(rest + own, j.cameraId) == ForQueue(w.cameras[j].outbox, loc)
    {
      OfCameraAppend(rest, own, j.cameraId);
      if j == k {
        NoneOfCamera(rest, k.cameraId);
        AllOfCamera(own, k.cameraId);
        assert OfCamera(own, k.cameraId) == own;
      } else {
        NoneOfCamera(own, j.cameraId);
      }
    }
  }

  lemma SomeInterleaving(w: World, loc: Name) returns (evs: seq<ZoneEvent>)
    requires WellNamed(w) && Signed(w)
    ensures Interleaves(w, loc, evs)
  {
    hide ForQueue, OfCamera;
    evs := InterleavingOf(w, loc, w.cameras.Keys);
    forall e | e in evs ensures HasSpeaker(w, loc, e.cameraId) {
      var k :| k in w.cameras.Keys && Speaks(w, loc, k) && k.cameraId == e.cameraId;
      assert Speaks(w, loc, k);
    }
  }

  // ---------------------------------------------------------------------------
  // Registering again
  // ---------------------------------------------------------------------------

  lemma ConsistentCatchesUp(w: World)
    requires Consistent(w)
    ensures CatchesUp(w)
  {
    forall loc, evs | Interleaves(w, loc, evs) ensures Replayed(InQueue(w, loc), evs) == OpenAt(w, loc) {
      QueueCatchesUp(w, loc, evs);
    }
  }

  /** The undelivered events go on to say what they said. */
  lemma ReplayedStays(w: World, v: World, loc: Name, k: CamKey, tid: int, evs: seq<ZoneEvent>)
    requires Consistent(w) && k in w.cameras && k in v.cameras && v.cameras[k].outbox == w.cameras[k].outbox
    requires v.wait == w.wait && Speaks(w, loc, k) && Interleaves(v, loc, evs)
    requires forall j :: Speaks(v, loc, j) ==> Speaks(w, loc, j)
    ensures var who := Waiter(k.cameraId, tid);
            who in Replayed(InQueue(v, loc), evs) <==> OpenHere(w.cameras[k], loc, tid)
  {
    hide OfCamera, Replayed, OpenHere;
    var who := Waiter(k.cameraId, tid);
    assert Settles(w, loc, k, tid);
    ReplayedIs(InQueue(v, loc), evs, who);
    if Speaks(v, loc, k) {
      assert OfCamera(evs, k.cameraId) == ForQueue(w.cameras[k].outbox, loc);
    } else {
      assert !HasSpeaker(v, loc, k.cameraId);
      NoneOfCamera(evs, k.cameraId);
    }
  }

  /** Whoever was in the camera's queue counts as waiting there for good, though no engine has the stay. */
  lemma StayForgotten(w: World, v: World, config: Zones.Config, tid: int)
    requires Consistent(w) && KeyFor(config) in w.cameras && NameFree(w, config) && v == AfterRegister(w, config)
    requires OpenIn(w, KeyFor(config), tid)
    ensures !CatchesUp(v)
  {
    hide OfCamera, Replayed, ForQueue;
    var cam := KeyFor(config);
    var loc, who := w.cameras[cam].config.locationId, Waiter(cam.cameraId, tid);
    RegisterNames(w, v, config);
    var evs := SomeInterleaving(v, loc);
    assert Speaks(w, loc, cam);
    RegisterSpeaks(w, v, config);
    ReplayedStays(w, v, loc, cam, tid, evs);
    OpenAtIs(v, loc, who);
    forall j | WatchedBy(v, loc, j) && j.cameraId == who.cameraId ensures j == cam {
      assert j != cam ==> Speaks(w, loc, j);
    }
    assert who in Replayed(InQueue(v, loc), evs) && who !in OpenAt(v, loc);
  }

  lemma RegisterCatchesUpIff(w: World, v: World, config: Zones.Config)
    requires Consistent(w) && KeyFor(config) in w.cameras && NameFree(w, config) && v == AfterRegister(w, config)
    ensures CatchesUp(v) <==> NobodyInside(w.cameras[KeyFor(config)].engine)
  {
    hide CatchesUp;
    if tid :| OpenIn(w, KeyFor(config), tid) {
      StayForgotten(w, v, config, tid);
    } else {
      forall tid ensures QueueKey(tid) !in w.cameras[KeyFor(config)].engine.enter.vals {
        assert !OpenIn(w, KeyFor(config), tid);
      }
      RegisterKeepsIff(w, v, config);
      ConsistentCatchesUp(v);
    }
  }

  /** Deliveries and the registration do not care which comes first. */
  lemma DeliveredRegister(c: Config, w: World, config: Zones.Config, n: nat)
    requires KeyFor(config) in w.cameras && n <= |w.cameras[KeyFor(config)].outbox|
    ensures Delivered(c, AfterRegister(w, config), KeyFor(config), n) ==
            AfterRegister(Delivered(c, w, KeyFor(config), n), config)
  {
    hide WaitAfter;
    var cam := KeyFor(config);
    var a, b := Delivered(c, AfterRegister(w, config), cam, n), AfterRegister(Delivered(c, w, cam, n), config);
    assert a.cameras[cam] == b.cameras[cam];
    assert a.cameras == b.cameras;
  }

  lemma {:induction false} DeliveredSpeaks(c: Config, w: World, cam: CamKey, n: nat)
    requires cam in w.cameras && n <= |w.cameras[cam].outbox|
    ensures forall loc, k :: Speaks(Delivered(c, w, cam, n), loc, k) ==> Speaks(w, loc, k)
  {
    hide ForQueue, WaitAfter;
    var outbox, v := w.cameras[cam].outbox, Delivered(c, w, cam, n);
    assert outbox == outbox[..n] + outbox[n..];
    forall loc, k | Speaks(v, loc, k) ensures Speaks(w, loc, k) {
      ForQueueAppend(outbox[..n], outbox[n..], loc);
      assert v.cameras[cam].outbox == outbox[n..];
    }
  }

  /**
   Registering a camera again, at any location and with any events under way: at every point of their delivery, the
   queues end as the open stays if and only if nobody was in the camera's queue when it was registered.
   */
  lemma ReregisterAgreesIff(c: Config, w: World, v: World, config: Zones.Config, n: nat)
    requires Consistent(w) && KeyFor(config) in w.cameras && NameFree(w, config) && v == AfterRegister(w, config)
    requires n <= |v.cameras[KeyFor(config)].outbox|
    ensures CatchesUp(Delivered(c, v, KeyFor(config), n)) <==> NobodyInside(w.cameras[KeyFor(config)].engine)
  {
    hide CatchesUp, Consistent, Speaks;
    DeliveredRegister(c, w, config, n);
    DeliveredKeeps(c, w, KeyFor(config), n);
    DeliveredSpeaks(c, w, KeyFor(config), n);
    RegisterCatchesUpIff(Delivered(c, w, KeyFor(config), n), Delivered(c, v, KeyFor(config), n), config);
  }

  /** Someone enters the queue, the ENTER is delivered, the camera is registered again: the queue keeps them. */
  lemma ReregisterLeavesWaiter(c: Config, config: Zones.Config, person: Detection, framed: World, v: World)
    requires Demo(config, person)
    requires framed == AfterFrame(AfterRegister(START, config), KeyFor(config), config.locationId, [person], 0)
    requires v == AfterRegister(Delivered(c, framed, KeyFor(config), |framed.cameras[KeyFor(config)].outbox|), config)
    ensures v.cameras == map[KeyFor(config) := Camera(config, EMPTY, [])]
    ensures Waiter(config.cameraId, 1) in InQueue(v, config.locationId)
  {
    hide Zones.Next, Zones.Events, Zones.InZone, Consistent, WaitAfter;
    var cam, loc, new', key := KeyFor(config), config.locationId, AfterRegister(START, config), QueueKey(1);
    assert Consistent(framed) by {
      StartConsistent();
      RegisterKeepsIff(START, new', config);
      FrameKeeps(new', framed, cam, loc, [person], 0);
    }
    DemoInside(config, person);
    Zones.NextIs(config, EMPTY, [person], 0, framed.cameras[cam].engine, key);
    var n := |framed.cameras[cam].outbox|;
    DeliveredKeeps(c, framed, cam, n);
    var done := Delivered(c, framed, cam, n);
    assert ForQueue([], loc) == [];
    DrainedQueue(done, loc);
    OpenAtIs(done, loc, Waiter(config.cameraId, 1));
    assert WatchedBy(done, loc, cam) && OpenIn(done, cam, 1);
  }

  // ---------------------------------------------------------------------------
  // Sharing a name
  // ---------------------------------------------------------------------------

  /** A frame taken in and all its camera's events delivered. */
  function Handled(c: Config, w: World, cam: CamKey, dets: seq<Detection>, ts: Time): World
    requires EnginesValid(w) && cam in w.cameras
  {
    var framed := AfterFrame(w, cam, w.cameras[cam].config.locationId, dets, ts);
    Delivered(c, framed, cam, |framed.cameras[cam].outbox|)
  }

  /** After `n` deliveries, a track's place in the queue is what the last of its events says. */
  lemma {:induction false} QueueAfter(c: Config, wait: map<Name, LocState>, evs: seq<ZoneEvent>, n: nat,
                                      config: Zones.Config, tid: int)
    requires n <= |evs| && FromCamera(evs, config)
    ensures var who := Waiter(config.cameraId, tid);
            who in At(WaitAfter(c, wait, evs, n), config.locationId).inQueue <==>
            LastSays(OfKey(evs[..n], QueueKey(tid)), who in At(wait, config.locationId).inQueue)
  {
    hide AfterZoneEvent;
    if n > 0 {
      QueueAfter(c, wait, evs, n - 1, config, tid);
      var who, e := Waiter(config.cameraId, tid), evs[n - 1];
      var before := At(WaitAfter(c, wait, evs, n - 1), e.locationId);
      assert e in evs;
      DeliveryShifts(c, before, e);
      ShiftedIs(before.inQueue, e, who);
      assert evs[..n] == evs[..n - 1] + [e];
      OneMoreSays(evs[..n - 1], e, who, who in At(wait, config.locationId).inQueue);
    } else {
      assert evs[..0] == [];
      assert OfKey([], QueueKey(tid)) == [];
    }
  }

  lemma HandledIs(c: Config, w: World, cam: CamKey, dets: seq<Detection>, ts: Time, v: World, tid: int)
    requires EnginesValid(w) && cam in w.cameras && KeyFor(w.cameras[cam].config) == cam
    requires w.cameras[cam].outbox == [] && Tracked(w.cameras[cam].engine, QueueKey(tid))
    requires v == Handled(c, w, cam, dets, ts)
    ensures var x := w.cameras[cam];
            && v.cameras == w.cameras[cam := Camera(x.config, Zones.Next(x.config, x.engine, dets, ts), [])]
            && EnginesValid(v) && Tracked(v.cameras[cam].engine, QueueKey(tid))
            && (Waiter(cam.cameraId, tid) in InQueue(v, x.config.locationId) <==>
                LastSays(KeyEvents(x.config, x.engine, dets, ts, QueueKey(tid)),
                         Waiter(cam.cameraId, tid) in InQueue(w, x.config.locationId)))
  {
    hide Zones.Next, Zones.Events, KeyEvents, LastSays, WaitAfter, OfKey;
    var x := w.cameras[cam];
    var evs := Zones.Events(x.config, x.engine, dets, ts);
    var framed := AfterFrame(w, cam, x.config.locationId, dets, ts);
    assert framed.cameras[cam].outbox == evs && evs[..|evs|] == evs;
    EventsFromCamera(x.config, x.engine, dets, ts);
    QueueAfter(c, framed.wait, evs, |evs|, x.config, tid);
    StepKeyEvents(x.config, x.engine, dets, ts, QueueKey(tid));
    StepSays(x.config, x.engine, dets, ts, Zones.Next(x.config, x.engine, dets, ts), QueueKey(tid));
    assert v.cameras[cam].outbox == [];
  }

  /**
   Why names must be free: two cameras of a location under one camera id, each with a track 1 in its queue. When one
   of the two leaves, the queue loses both, though the other camera still has its stay open.
   */
  lemma SharedNameLosesWaiter(c: Config, a: Zones.Config, b: Zones.Config, person: Detection, w0: World, w1: World,
                              w2: World, w3: World)
    requires Demo(a, person) && Demo(b, person) && a.tenantId != b.tenantId
    requires a.locationId == b.locationId && a.cameraId == b.cameraId
    requires w0 == AfterRegister(AfterRegister(START, a), b)
    requires w1 == Handled(c, w0, KeyFor(a), [person], 0)
    requires EnginesValid(w1) && KeyFor(b) in w1.cameras && w2 == Handled(c, w1, KeyFor(b), [person], 0)
    requires EnginesValid(w2) && KeyFor(a) in w2.cameras && w3 == Handled(c, w2, KeyFor(a), [], 20 * SECOND)
    ensures Drained(w3, a.locationId)
    ensures Waiter(a.cameraId, 1) !in InQueue(w3, a.locationId) && Waiter(a.cameraId, 1) in OpenAt(w3, a.locationId)
  {
    hide Zones.Next, Handled;
    var key := QueueKey(1);
    DemoInside(a, person);
    DemoInside(b, person);
    HandledIs(c, w0, KeyFor(a), [person], 0, w1, 1);
    HandledIs(c, w1, KeyFor(b), [person], 0, w2, 1);
    HandledIs(c, w2, KeyFor(a), [], 20 * SECOND, w3, 1);
    var st, other := w1.cameras[KeyFor(a)].engine, w2.cameras[KeyFor(b)].engine;
    Zones.NextIs(a, EMPTY, [person], 0, st, key);
    Zones.NextIs(b, EMPTY, [person], 0, other, key);
    assert !Zones.InZone(a.zones, [], key);
    assert w3.cameras[KeyFor(b)] == Camera(b, other, []) && w3.cameras.Keys == {KeyFor(a), KeyFor(b)};
    assert ForQueue([], a.locationId) == [];
    assert key in other.enter.vals && Waiter(KeyFor(b).cameraId, key.tid) == Waiter(a.cameraId, 1);
  }
}
