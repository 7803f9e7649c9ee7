/** The application state of api/state.py on the in-process bus: handlers run to the end before publishing returns. */
module Application {
  import opened Schemas
  import opened Dicts
  import Estimates
  import Zones
  import opened WaitTime
  import opened Pipeline
  import opened PipelineRuns
  import Matcher
  import Triggers
  import Idempotency

  datatype Error = UnknownCamera(cameraId: Name)

  datatype Result<+T> = Ok(value: T) | Err(error: Error)

  /** The settings of core/settings.py about waiting and triggers. */
  datatype Settings = Settings(waitWindowMinutes: int, waitMinSamples: int, videoStaleAfterSeconds: int,
                               vlmCadenceSeconds: int, vlmMinGapSeconds: int)

  /** The wait engine the settings describe; its POS window is no setting. */
  function WaitConfig(s: Settings): Config {
    Config(s.waitWindowMinutes * MINUTE, s.waitMinSamples, s.videoStaleAfterSeconds * SECOND, DEFAULTS.posWindow)
  }

  datatype LocKey = LocKey(tenantId: int, locationId: Name)

  /** A normalized webhook event. */
  datatype Incoming = Pos(pos: PosEvent) | Booking(tenantId: int, locationId: Name, eventId: Name, seated: bool,
                          receivedAt: Time) {
    function EventId(): string {
      match this
      case Pos(pos) => pos.eventId.text
      case Booking(_, _, id, _, _) => id.text
    }
  }

  // ---------------------------------------------------------------------------
  // Effects of a batch of zone events
  // ---------------------------------------------------------------------------

  /** The state with the camera's engine moved on and the queue after heartbeat and events is the settled one. */
  lemma IsSettled(c: Config, w: World, cam: CamKey, loc: Name, ts: Time, next: Zones.State, evs: seq<ZoneEvent>,
                  beat: map<Name, LocState>, after: map<Name, LocState>, r: World)
    requires cam in w.cameras && w.cameras[cam].outbox == []
    requires r.cameras == w.cameras[cam := Camera(w.cameras[cam].config, next, [])]
    requires beat == w.wait[loc := AfterHeartbeat(At(w.wait, loc), ts)] && after == WaitAfter(c, beat, evs, |evs|)
    requires r.wait == after[loc := Trimmed(c, At(after, loc), ts)]
    ensures r == Settled(c, AfterUpdate(w, cam, loc, ts, next, evs), cam, loc, ts)
  {
    var framed := AfterUpdate(w, cam, loc, ts, next, evs);
    assert framed.cameras[cam].outbox == evs;
    var done := Delivered(c, framed, cam, |evs|);
    assert done.cameras[cam].outbox == [];
    assert r.cameras == done.cameras;
  }

  /** The stored exits and checks of the events' location after the first `n`, given their ids. */
  function MatchedAll(mc: Matcher.Config, s: Matcher.Store, evs: seq<ZoneEvent>, ids: nat -> int, n: nat): Matcher.Store
    requires n <= |evs|
  {
    if n == 0 then s else
      Matcher.ZoneNext(mc, MatchedAll(mc, s, evs, ids, n - 1), Matcher.Stamped(ids(n - 1), evs[n - 1]))
  }

  predicate HasDwell(ev: ZoneEvent) {
    ev.eventType == Exit && ev.zone == Queue && ev.dwell.Some? && ev.dwell.value != 0
  }

  function Dwells(evs: seq<ZoneEvent>, n: nat): seq<real>
    requires n <= |evs|
  {
    if n == 0 then [] else
      Dwells(evs, n - 1) +
      if HasDwell(evs[n - 1]) then [evs[n - 1].dwell.value as real / SECOND as real] else []
  }

  function PushAll(q: seq<real>, more: seq<real>, bound: nat): seq<real> {
    if |more| == 0 then q else Triggers.Push(PushAll(q, more[..|more| - 1], bound), more[|more| - 1], bound)
  }

  function Sum(s: seq<real>): real {
    if |s| == 0 then 0.0 else Sum(s[..|s| - 1]) + s[|s| - 1]
  }

  /** Mean dwell of the queue exits among the events. */
  function AvgDwell(evs: seq<ZoneEvent>): Option<real> {
    var d := Dwells(evs, |evs|);
    if |d| == 0 then None else Some(Sum(d) / |d| as real)
  }

  function RecentOnly(orders: seq<Time>, n: nat, now: Time): seq<Time>
    requires n <= |orders|
  {
    if n == 0 then [] else
      RecentOnly(orders, n - 1, now) + if now - orders[n - 1] <= 5 * MINUTE then [orders[n - 1]] else []
  }

  /** Orders over five minutes old forgotten, where any are kept. */
  function Pruned(orders: map<LocKey, seq<Time>>, key: LocKey, now: Time): map<LocKey, seq<Time>> {
    if key in orders then orders[key := RecentOnly(orders[key], |orders[key]|, now)] else orders
  }

  function OrdersAt(orders: map<LocKey, seq<Time>>, key: LocKey): seq<Time> {
    if key in orders then orders[key] else []
  }

  predicate For(ev: Incoming, tenantId: int, locationId: Name) {
    match ev
    case Pos(pos) => pos.tenantId == tenantId && pos.locationId == locationId
    case Booking(t, loc, _, _, _) => t == tenantId && loc == locationId
  }

  /** A connector stamps every event with the tenant and location the webhook was addressed to. */
  predicate AllFor(evs: seq<Incoming>, tenantId: int, locationId: Name) {
    forall i :: 0 <= i < |evs| ==> For(evs[i], tenantId, locationId)
  }

  // ---------------------------------------------------------------------------
  // Effects of a webhook
  // ---------------------------------------------------------------------------

  /** What a webhook for one location touches: the dedupe store, and what is kept for the location. */
  datatype Desk = Desk(dedupe: Dict<Idempotency.Key, Time>, wait: LocState, store: Matcher.Store, orders: seq<Time>,
                       published: Option<WaitEstimate>, accepted: nat)

  function Published(c: Config, s: Desk, loc: Name, now: Time): Desk
    requires ValidConfig(c)
  {
    var wait := Trimmed(c, s.wait, now);
    s.(wait := wait, published := Some(EstimateOf(c, wait, loc, now)))
  }

  function AfterPos(c: Config, mc: Matcher.Config, s: Desk, ev: PosEvent): Desk
    requires ValidConfig(c)
  {
    Published(c, s.(wait := AfterPosEvent(c, s.wait, ev), store := Matcher.PosNext(mc, s.store, ev),
                    orders := if IsOrder(ev) then s.orders + [ev.receivedAt] else s.orders),
              ev.locationId, ev.receivedAt)
  }

  /** A seated reservation only publishes. */
  function AfterIncoming(c: Config, mc: Matcher.Config, s: Desk, ev: Incoming): Desk
    requires ValidConfig(c)
  {
    match ev
    case Pos(pos) => AfterPos(c, mc, s, pos)
    case Booking(_, loc, _, seated, receivedAt) => if seated then Published(c, s, loc, receivedAt) else s
  }

  /** Seen events are skipped, others counted and handled. */
  function Offered(c: Config, mc: Matcher.Config, ic: Idempotency.Config, s: Desk, ev: Incoming, key: Idempotency.Key,
                   now: Time): Desk
    requires ValidConfig(c)
  {
    var d := s.(dedupe := Idempotency.Next(ic, s.dedupe, key, now));
    if Idempotency.Known(s.dedupe, key, now) then d
    else AfterIncoming(c, mc, d.(accepted := d.accepted + 1), ev)
  }

  /** The first `n` events of a webhook; the clock is read at each. */
  function Webhook(c: Config, mc: Matcher.Config, ic: Idempotency.Config, s: Desk, provider: string, evs: seq<Incoming>,
                   clock: nat -> Time, n: nat): Desk
    requires ValidConfig(c) && n <= |evs|
  {
    if n == 0 then s else
      Offered(c, mc, ic, Webhook(c, mc, ic, s, provider, evs, clock, n - 1), evs[n - 1],
              Idempotency.KeyOf(provider, evs[n - 1].EventId()), clock(n - 1))
  }

  ghost predicate AllKnown(d: Dict<Idempotency.Key, Time>, provider: string, evs: seq<Incoming>, clock: nat -> Time) {
    forall i :: 0 <= i < |evs| ==> Idempotency.Known(d, Idempotency.KeyOf(provider, evs[i].EventId()), clock(i))
  }

  lemma OfferedAgain(c: Config, mc: Matcher.Config, ic: Idempotency.Config, s: Desk, ev: Incoming,
                     key: Idempotency.Key, now: Time)
    requires ValidConfig(c) && Idempotency.Known(s.dedupe, key, now)
    ensures var r := Offered(c, mc, ic, s, ev, key, now);
            r.dedupe.vals == s.dedupe.vals && r == s.(dedupe := r.dedupe)
  {
  }

  /** A provider's retry of events still remembered does nothing but refresh their place in the store. */
  lemma {:induction false} RetryChangesNothing(c: Config, mc: Matcher.Config, ic: Idempotency.Config, s: Desk,
                                               provider: string, evs: seq<Incoming>, clock: nat -> Time, n: nat)
    requires ValidConfig(c) && n <= |evs| && AllKnown(s.dedupe, provider, evs, clock)
    ensures Webhook(c, mc, ic, s, provider, evs, clock, n).dedupe.vals == s.dedupe.vals
    ensures Webhook(c, mc, ic, s, provider, evs, clock, n) ==
            s.(dedupe := Webhook(c, mc, ic, s, provider, evs, clock, n).dedupe)
  {
    hide Offered;
    if n > 0 {
      RetryChangesNothing(c, mc, ic, s, provider, evs, clock, n - 1);
      var key := Idempotency.KeyOf(provider, evs[n - 1].EventId());
      assert Idempotency.Known(s.dedupe, key, clock(n - 1));
      OfferedAgain(c, mc, ic, Webhook(c, mc, ic, s, provider, evs, clock, n - 1), evs[n - 1], key, clock(n - 1));
    }
  }

  lemma {:induction false} WebhookQuiet(c: Config, mc: Matcher.Config, ic: Idempotency.Config, s: Desk,
                                        provider: string, evs: seq<Incoming>, clock: nat -> Time, n: nat)
    requires ValidConfig(c) && n <= |evs|
    ensures Webhook(c, mc, ic, s, provider, evs, clock, n).wait.inQueue == s.wait.inQueue
  {
    hide EstimateOf, Matcher.PosNext, Idempotency.Next, Idempotency.Known, DropOldSamples, DropOldOrders;
    if n > 0 {
      WebhookQuiet(c, mc, ic, s, provider, evs, clock, n - 1);
    }
  }

  /** What the trigger policy is shown of a camera after a frame. */
  function Seen(st: Zones.State, evs: seq<ZoneEvent>, orders: seq<Time>, ts: Time): Triggers.Snapshot {
    Triggers.Snapshot(ts, Zones.CountKind(st.enter.order, Queue), Zones.CountKind(st.enter.order, Service),
      AvgDwell(evs), |RecentOnly(orders, |orders|, ts)|)
  }

  /** A camera's trigger state once the dwells of the events are recorded. */
  function WithDwells(c: Triggers.Config, s: Triggers.CamState, evs: seq<ZoneEvent>): Triggers.CamState {
    s.(baseline := PushAll(s.baseline, Dwells(evs, |evs|), c.baselineMax))
  }

  function FiredBy(reason: Option<Triggers.Reason>, meta: FrameMetadata): seq<Triggers.Trigger> {
    match reason
    case None => []
    case Some(r) => [Triggers.Trigger(r, meta.locationId, meta.cameraId, meta.ts)]
  }

  class AppState {
    const wait: WaitTimeEngine
    const matcher: Matcher.VisionPosMatcher
    const triggers: Triggers.TriggerPolicy
    const idempotency: Idempotency.MemoryIdempotencyStore
    var zoneEngines: map<CamKey, Zones.ZoneEngine>
    var lastEstimates: map<LocKey, WaitEstimate>
    var vlmTriggers: seq<Triggers.Trigger>
    var posOrders: map<LocKey, seq<Time>>

    constructor (settings: Settings)
      ensures Valid() <==> settings.waitMinSamples >= 1
      ensures CurrentWorld() == START && Consistent(CurrentWorld())
      ensures lastEstimates == map[] && vlmTriggers == [] && posOrders == map[]
      ensures wait.config == Config(1_800_000_000, settings.waitMinSamples, 120_000_000, 900_000_000)
      ensures wait.config == WaitConfig(settings) <==>
              settings.waitWindowMinutes == 30 && settings.videoStaleAfterSeconds == 120
      ensures matcher.tolerance == 60_000_000 && matcher.keep == 600_000_000
      ensures idempotency.config == Idempotency.Config(100_000, 604_800_000_000)
      ensures triggers.config == Triggers.Config(settings.vlmCadenceSeconds * 1_000_000,
                                                 settings.vlmMinGapSeconds * 1_000_000, 8, 12, 2000)
      ensures forall loc :: MatcherAt(loc) == Matcher.Store([], [])
      ensures forall cam :: triggers.Camera(cam) == Triggers.CamState(None, [], [])
      ensures idempotency.d == Dict([], map[])
      ensures fresh(wait) && fresh(matcher) && fresh(triggers) && fresh(idempotency)
    {
      wait := new WaitTimeEngine(DEFAULTS.(minSamples := settings.waitMinSamples));
      matcher := new Matcher.VisionPosMatcher();
      triggers := new Triggers.TriggerPolicy(
        Triggers.DEFAULTS.(cadence := settings.vlmCadenceSeconds * SECOND,
                           minGap := settings.vlmMinGapSeconds * SECOND));
      idempotency := new Idempotency.MemoryIdempotencyStore();
      zoneEngines, lastEstimates, vlmTriggers, posOrders := map[], map[], [], map[];
    }

    /** Every engine is filed under its own camera, and no two cameras share one. */
    ghost predicate Valid()
      reads this`zoneEngines, zoneEngines.Values
    {
      && ValidConfig(wait.config) && wait.config.videoStaleAfter >= 0 && matcher.keep >= 0
      && (forall k :: k in zoneEngines ==> Zones.Valid(zoneEngines[k].Current()) && KeyFor(zoneEngines[k].config) == k)
      && forall j, k :: j in zoneEngines && k in zoneEngines && zoneEngines[j] == zoneEngines[k] ==> j == k
    }

    ghost function Cameras(): map<CamKey, Camera>
      reads this`zoneEngines, zoneEngines.Values
    {
      map k | k in zoneEngines :: Camera(zoneEngines[k].config, zoneEngines[k].Current(), [])
    }

    /** Only the engine filed under `key` may have moved. */
    twostate lemma OneMoved(key: CamKey)
      requires old(zoneEngines) == zoneEngines
      requires forall k :: k in zoneEngines && k != key ==> zoneEngines[k].Current() == old(zoneEngines[k].Current())
      ensures key in zoneEngines ==>
                Cameras() == old(Cameras())[key := Camera(zoneEngines[key].config, zoneEngines[key].Current(), [])]
    {
    }

    /** No engine moved and no queue changed. */
    twostate lemma StillConsistent()
      requires old(zoneEngines) == zoneEngines && old(Valid())
      requires forall k :: k in zoneEngines ==> unchanged(zoneEngines[k])
      requires forall loc :: At(wait.state, loc).inQueue == old(At(wait.state, loc)).inQueue
      ensures Valid() && (old(Consistent(CurrentWorld())) ==> Consistent(CurrentWorld()))
    {
      ghost var w, v := old(CurrentWorld()), CurrentWorld();
      assert v.cameras == w.cameras;
      assert forall loc :: InQueue(v, loc) == InQueue(w, loc);
      if Consistent(w) {
        QuietKeeps(w, v);
      }
    }

    /** The state as the protocol sees it: nothing is ever left undelivered. */
    ghost function CurrentWorld(): World
      reads this`zoneEngines, wait, zoneEngines.Values
    {
      World(Cameras(), wait.state)
    }

    function MatcherAt(loc: Name): Matcher.Store
      reads matcher
    {
      Matcher.View(matcher.exits, matcher.pendingPos, loc)
    }

    function MatcherConfig(): Matcher.Config {
      Matcher.Config(matcher.tolerance, Some(matcher.keep))
    }

    // ---- camera registry ----------------------------------------------------

    method RegisterCamera(tenantId: int, locationId: Name, cameraId: Name, zones: seq<Zones.Zone>)
      requires Valid()
      modifies this`zoneEngines
      ensures Valid()
      ensures CurrentWorld() ==
              AfterRegister(old(CurrentWorld()), Zones.Config(tenantId, locationId, cameraId, zones, 15 * SECOND))
      ensures var config := Zones.Config(tenantId, locationId, cameraId, zones, 15 * SECOND);
              old(Consistent(CurrentWorld())) ==>
                (Consistent(CurrentWorld()) <==>
                 NameFree(old(CurrentWorld()), config) && Replaceable(old(CurrentWorld()), KeyFor(config)))
    {
      ghost var was := CurrentWorld();
      FileEngine(tenantId, locationId, cameraId, zones);
      if Consistent(was) {
        RegisterKeepsIff(was, CurrentWorld(), Zones.Config(tenantId, locationId, cameraId, zones, 15 * SECOND));
      }
    }

    method FileEngine(tenantId: int, locationId: Name, cameraId: Name, zones: seq<Zones.Zone>)
      requires Valid()
      modifies this`zoneEngines
      ensures Valid()
      ensures CurrentWorld() ==
              AfterRegister(old(CurrentWorld()), Zones.Config(tenantId, locationId, cameraId, zones, 15 * SECOND))
    {
      ghost var was := Cameras();
      var engine := new Zones.ZoneEngine(tenantId, locationId, cameraId, zones);
      zoneEngines := zoneEngines[CamKey(tenantId, cameraId) := engine];
      assert Cameras() == was[CamKey(tenantId, cameraId) := Camera(engine.config, engine.Current(), [])];
    }

    // ---- bus handlers -------------------------------------------------------

    method OnZoneEvent(ev: ZoneEvent, id: int)
      requires matcher.keep >= 0
      modifies wait, matcher, triggers
      ensures wait.state == old(wait.state)[ev.locationId :=
                AfterZoneEvent(wait.config, At(old(wait.state), ev.locationId), ev)]
      ensures MatcherAt(ev.locationId) ==
              Matcher.ZoneNext(MatcherConfig(), old(MatcherAt(ev.locationId)), Matcher.Stamped(id, ev))
      ensures forall loc :: loc != ev.locationId ==> MatcherAt(loc) == old(MatcherAt(loc))
      ensures triggers.Camera(ev.cameraId) == old(triggers.Camera(ev.cameraId)).(
                baseline := PushAll(old(triggers.Camera(ev.cameraId)).baseline, Dwells([ev], 1),
                  triggers.config.baselineMax))
      ensures forall cam :: cam != ev.cameraId ==> triggers.Camera(cam) == old(triggers.Camera(cam))
    {
      wait.OnZoneEvent(ev);
      var _ := matcher.OnZoneEvent(Matcher.Stamped(id, ev));
      if ev.eventType == Exit && ev.zone == Queue && ev.dwell.Some? && ev.dwell.value != 0 {
        var dwell := ev.dwell.value as real / SECOND as real;
        triggers.RecordDwell(ev.cameraId, dwell);
        assert [dwell][..0] == [];
        assert Dwells([ev], 1) == [dwell];
      } else {
        assert Dwells([ev], 1) == [];
      }
    }

    /** Publishes the events of one frame; the bus hands each to its handler before the next. */
    method PublishAll(events: seq<ZoneEvent>, ids: nat -> int, loc: Name, cam: Name)
      requires matcher.keep >= 0 && forall e :: e in events ==> e.locationId == loc && e.cameraId == cam
      modifies wait, matcher, triggers
      ensures wait.state == WaitAfter(wait.config, old(wait.state), events, |events|)
      ensures MatcherAt(loc) == MatchedAll(MatcherConfig(), old(MatcherAt(loc)), events, ids, |events|)
      ensures forall other :: other != loc ==> MatcherAt(other) == old(MatcherAt(other))
      ensures triggers.Camera(cam) == WithDwells(triggers.config, old(triggers.Camera(cam)), events)
      ensures forall other :: other != cam ==> triggers.Camera(other) == old(triggers.Camera(other))
    {
      hide Matcher.ZoneNext, AfterZoneEvent;
      for i := 0 to |events|
        invariant wait.state == WaitAfter(wait.config, old(wait.state), events, i)
        invariant MatcherAt(loc) == MatchedAll(MatcherConfig(), old(MatcherAt(loc)), events, ids, i)
        invariant forall other :: other != loc ==> MatcherAt(other) == old(MatcherAt(other))
        invariant triggers.Camera(cam) == old(triggers.Camera(cam)).(
                    baseline := PushAll(old(triggers.Camera(cam)).baseline, Dwells(events, i),
                      triggers.config.baselineMax))
        invariant forall other :: other != cam ==> triggers.Camera(other) == old(triggers.Camera(other))
      {
        assert events[i] in events;
        PushedOneMore(old(triggers.Camera(cam)).baseline, events, i, triggers.config.baselineMax);
        OnZoneEvent(events[i], ids(i));
      }
    }

    // ---- ingest -------------------------------------------------------------

    /** What a frame tells the matcher, the trigger policy and the order counts: each takes it, for its own key only. */
    twostate predicate Informed(engine: Zones.ZoneEngine, meta: FrameMetadata, events: seq<ZoneEvent>, ids: nat -> int)
      reads this`posOrders, this`vlmTriggers, matcher, triggers, engine
    {
      var loc, key := engine.config.locationId, LocKey(meta.tenantId, meta.locationId);
      var base := WithDwells(triggers.config, old(triggers.Camera(meta.cameraId)), events);
      var snap := Seen(engine.Current(), events, OrdersAt(old(posOrders), key), meta.ts);
      && MatcherAt(loc) == MatchedAll(MatcherConfig(), old(MatcherAt(loc)), events, ids, |events|)
      && (forall other :: other != loc ==> MatcherAt(other) == old(MatcherAt(other)))
      && triggers.Camera(meta.cameraId) == Triggers.Evaluated(triggers.config, base, snap)
      && (forall cam :: cam != meta.cameraId ==> triggers.Camera(cam) == old(triggers.Camera(cam)))
      && vlmTriggers == old(vlmTriggers) + FiredBy(Triggers.ReasonFor(triggers.config, base, snap), meta)
      && posOrders == Pruned(old(posOrders), key, meta.ts)
    }

    /**
     One frame: `ids` are the ids its events are given. An unknown camera is an error and changes nothing.
     Otherwise the protocol takes its step, with everything delivered, and the estimate is published.
     */
    method IngestFrame(meta: FrameMetadata, ids: nat -> int) returns (r: Result<seq<ZoneEvent>>)
      requires Valid()
      modifies this`lastEstimates, this`vlmTriggers, this`posOrders, wait, matcher, triggers, zoneEngines.Values
      ensures Valid()
      ensures CamKey(meta.tenantId, meta.cameraId) !in zoneEngines ==>
                && r == Err(UnknownCamera(meta.cameraId)) && unchanged(this) && unchanged(wait) && unchanged(matcher)
                && unchanged(triggers) && unchanged(zoneEngines.Values)
      ensures CamKey(meta.tenantId, meta.cameraId) in zoneEngines ==>
                var cam, was := CamKey(meta.tenantId, meta.cameraId), old(CurrentWorld());
                && r == Ok(Zones.Events(was.cameras[cam].config, was.cameras[cam].engine, meta.detections, meta.ts))
                && CurrentWorld() == Ingested(wait.config, was, cam, meta.locationId, meta.detections, meta.ts)
                && lastEstimates == old(lastEstimates)[LocKey(meta.tenantId, meta.locationId) :=
                     EstimateOf(wait.config, At(wait.state, meta.locationId), meta.locationId, meta.ts)]
      ensures r.Ok? ==> Informed(zoneEngines[CamKey(meta.tenantId, meta.cameraId)], meta, r.value, ids)
      ensures r.Ok? && old(Consistent(CurrentWorld())) ==>
                var e := lastEstimates[LocKey(meta.tenantId, meta.locationId)];
                && Consistent(CurrentWorld())
                && e.source == Vision && e.queueLength == |OpenAt(CurrentWorld(), meta.locationId)|
    {
      var key := CamKey(meta.tenantId, meta.cameraId);
      if key !in zoneEngines {
        return Err(UnknownCamera(meta.cameraId));
      }
      var events := IngestKnown(key, zoneEngines[key], meta, ids);
      if Consistent(old(CurrentWorld())) {
        IngestedIsExact(wait.config, old(CurrentWorld()), key, meta.locationId, meta.detections, meta.ts,
          CurrentWorld());
      }
      return Ok(events);
    }

    method IngestKnown(ghost key: CamKey, engine: Zones.ZoneEngine, meta: FrameMetadata, ids: nat -> int)
      returns (events: seq<ZoneEvent>)
      requires Valid() && key == CamKey(meta.tenantId, meta.cameraId)
      requires key in zoneEngines && engine == zoneEngines[key]
      modifies this`lastEstimates, this`vlmTriggers, this`posOrders, wait, matcher, triggers, engine
      ensures Valid()
      ensures events == Zones.Events(engine.config, old(engine.Current()), meta.detections, meta.ts)
      ensures CurrentWorld() ==
                Ingested(wait.config, old(CurrentWorld()), key, meta.locationId, meta.detections, meta.ts)
      ensures Informed(engine, meta, events, ids)
      ensures lastEstimates == old(lastEstimates)[LocKey(meta.tenantId, meta.locationId) :=
                EstimateOf(wait.config, At(wait.state, meta.locationId), meta.locationId, meta.ts)]
    {
      hide Zones.Next, Zones.Events, EstimateOf, Trimmed, MatchedAll, WithDwells, Seen, Pruned, Settled, AfterUpdate;
      hide Valid, Triggers.Evaluated, Triggers.ReasonFor;
      ghost var was := CurrentWorld();
      events := UpdateEngine(key, engine, meta);
      label updated:
      Follow(key, engine, meta, events, ids, was);
      StillValid@updated();
    }

    /** Only the engines can spoil validity. */
    twostate lemma StillValid()
      requires old(Valid()) && zoneEngines == old(zoneEngines)
      requires forall k :: k in zoneEngines ==> unchanged(zoneEngines[k])
      ensures Valid()
    {
    }

    /** The camera's engine moves on; the other cameras do not. */
    method UpdateEngine(ghost key: CamKey, engine: Zones.ZoneEngine, meta: FrameMetadata)
      returns (events: seq<ZoneEvent>)
      requires Valid() && key in zoneEngines && engine == zoneEngines[key]
      modifies engine
      ensures Valid() && FromCamera(events, engine.config) && KeyFor(engine.config) == key
      ensures engine.Current() == Zones.Next(engine.config, old(engine.Current()), meta.detections, meta.ts)
      ensures events == Zones.Events(engine.config, old(engine.Current()), meta.detections, meta.ts)
      ensures Cameras() == old(Cameras())[key := Camera(engine.config, engine.Current(), [])]
    {
      events := UpdateOne(engine, meta.detections, meta.ts);
      assert forall k :: k in zoneEngines && k != key ==> zoneEngines[k] != engine;
      OneMoved(key);
    }

    /** What follows the engine's update, as the protocol sees it. */
    method Follow(ghost key: CamKey, engine: Zones.ZoneEngine, meta: FrameMetadata, events: seq<ZoneEvent>,
                  ids: nat -> int, ghost was: World)
      requires Valid() && FromCamera(events, engine.config)
      requires meta.cameraId == engine.config.cameraId && key in was.cameras
      requires was.cameras[key].config == engine.config && was.cameras[key].outbox == []
      requires Cameras() == was.cameras[key := Camera(engine.config, engine.Current(), [])] && wait.state == was.wait
      modifies this`lastEstimates, this`vlmTriggers, this`posOrders, wait, matcher, triggers
      ensures forall k :: k in zoneEngines ==> unchanged(zoneEngines[k])
      ensures CurrentWorld() == Settled(wait.config,
                AfterUpdate(was, key, meta.locationId, meta.ts, engine.Current(), events), key, meta.locationId,
                  meta.ts)
      ensures Informed(engine, meta, events, ids)
      ensures lastEstimates == old(lastEstimates)[LocKey(meta.tenantId, meta.locationId) :=
                EstimateOf(wait.config, At(wait.state, meta.locationId), meta.locationId, meta.ts)]
    {
      hide EstimateOf, Trimmed, MatchedAll, WithDwells, Seen, Pruned, Settled, AfterUpdate, WaitAfter, AfterHeartbeat;
      hide Triggers.Evaluated, Triggers.ReasonFor;
      ghost var cams := Cameras();
      ghost var beat, after := HandleEvents(engine, meta, events, ids);
      forall k | k in zoneEngines ensures unchanged(zoneEngines[k]) {
        var e: object := zoneEngines[k];
        assert e != this && e != wait && e != matcher && e != triggers;
      }
      OneMoved(key);
      IsSettled(wait.config, was, key, meta.locationId, meta.ts, engine.Current(), events, beat, after,
        World(cams, wait.state));
    }

    /** Heartbeat, handlers, trigger policy, estimate. */
    method HandleEvents(engine: Zones.ZoneEngine, meta: FrameMetadata, events: seq<ZoneEvent>, ids: nat -> int)
      returns (ghost beat: map<Name, LocState>, ghost after: map<Name, LocState>)
      requires ValidConfig(wait.config) && matcher.keep >= 0 && FromCamera(events, engine.config)
      requires meta.cameraId == engine.config.cameraId
      modifies this`lastEstimates, this`vlmTriggers, this`posOrders, wait, matcher, triggers
      ensures beat == old(wait.state)[meta.locationId := AfterHeartbeat(At(old(wait.state), meta.locationId), meta.ts)]
      ensures after == WaitAfter(wait.config, beat, events, |events|)
      ensures wait.state == after[meta.locationId := Trimmed(wait.config, At(after, meta.locationId), meta.ts)]
      ensures Informed(engine, meta, events, ids)
      ensures lastEstimates == old(lastEstimates)[LocKey(meta.tenantId, meta.locationId) :=
                EstimateOf(wait.config, At(wait.state, meta.locationId), meta.locationId, meta.ts)]
    {
      wait.OnHeartbeat(meta.locationId, meta.ts);
      beat := wait.state;
      PublishAll(events, ids, engine.config.locationId, engine.config.cameraId);
      after := wait.state;
      Inspect(meta, engine, events);
      PublishEstimate(meta.tenantId, meta.locationId, meta.ts);
    }

    /**
     A verified and normalized webhook for one location: each event not seen before is handled before the next is
     looked at. Returns how many were new.
     */
    method IngestWebhook(provider: string, events: seq<Incoming>, tenantId: int, locationId: Name, clock: nat -> Time)
      returns (n: nat)
      requires Valid() && AllFor(events, tenantId, locationId)
      modifies this`posOrders, this`lastEstimates, wait, matcher, idempotency
      ensures DeskFor(tenantId, locationId, n) ==
              Webhook(wait.config, MatcherConfig(), idempotency.config, old(DeskFor(tenantId, locationId, 0)),
                provider, events, clock, |events|)
      ensures SameForOthers(LocKey(tenantId, locationId))
      ensures Valid() && (old(Consistent(CurrentWorld())) ==> Consistent(CurrentWorld()))
    {
      n := 0;
      for i := 0 to |events|
        invariant DeskFor(tenantId, locationId, n) ==
                  Webhook(wait.config, MatcherConfig(), idempotency.config, old(DeskFor(tenantId, locationId, 0)),
                    provider, events, clock, i)
        invariant SameForOthers(LocKey(tenantId, locationId))
      {
        var accepted := Offer(provider, events[i], tenantId, locationId, clock(i), n);
        if accepted {
          n := n + 1;
        }
      }
      WebhookQuiet(wait.config, MatcherConfig(), idempotency.config, old(DeskFor(tenantId, locationId, 0)), provider,
        events, clock, |events|);
      forall k | k in zoneEngines ensures unchanged(zoneEngines[k]) {
        var e: object := zoneEngines[k];
        assert e != this && e != wait && e != matcher && e != idempotency;
      }
      StillConsistent();
    }

    /** Nothing kept for other locations, or under other keys, has changed. */
    twostate predicate SameForOthers(key: LocKey)
      reads this`posOrders, this`lastEstimates, wait, matcher
    {
      && (forall loc :: loc != key.locationId ==>
            At(wait.state, loc) == old(At(wait.state, loc)) && MatcherAt(loc) == old(MatcherAt(loc)))
      && forall other :: other != key ==>
           && OrdersAt(posOrders, other) == old(OrdersAt(posOrders, other))
           && (other in lastEstimates <==> other in old(lastEstimates))
           && (other in lastEstimates ==> lastEstimates[other] == old(lastEstimates)[other])
    }

    function DeskFor(tenantId: int, locationId: Name, accepted: nat): Desk
      reads this`posOrders, this`lastEstimates, wait, matcher, idempotency
    {
      Desk(idempotency.d, At(wait.state, locationId), MatcherAt(locationId),
           OrdersAt(posOrders, LocKey(tenantId, locationId)),
           if LocKey(tenantId, locationId) in lastEstimates then Some(lastEstimates[LocKey(tenantId, locationId)])
             else None,
           accepted)
    }

    method Offer(provider: string, ev: Incoming, tenantId: int, locationId: Name, now: Time, ghost n: nat)
      returns (accepted: bool)
      requires ValidConfig(wait.config) && For(ev, tenantId, locationId)
      modifies this`posOrders, this`lastEstimates, wait, matcher, idempotency
      ensures DeskFor(tenantId, locationId, if accepted then n + 1 else n) ==
              Offered(wait.config, MatcherConfig(), idempotency.config, old(DeskFor(tenantId, locationId, n)), ev,
                      Idempotency.KeyOf(provider, ev.EventId()), now)
      ensures SameForOthers(LocKey(tenantId, locationId))
    {
      hide Matcher.PosNext, AfterPosEvent, EstimateOf, Trimmed, Idempotency.Next, Idempotency.Known;
      var seen := idempotency.Seen(provider, ev.EventId(), now);
      accepted := !seen;
      if accepted {
        match ev
        case Pos(pos) => OnPosEvent(pos);
        case Booking(_, _, _, seated, receivedAt) => OnBookingEvent(tenantId, locationId, seated, receivedAt);
      }
    }

    method OnPosEvent(ev: PosEvent)
      requires ValidConfig(wait.config)
      modifies this`posOrders, this`lastEstimates, wait, matcher
      ensures DeskFor(ev.tenantId, ev.locationId, 0) ==
              AfterPos(wait.config, MatcherConfig(), old(DeskFor(ev.tenantId, ev.locationId, 0)), ev)
      ensures SameForOthers(LocKey(ev.tenantId, ev.locationId))
    {
      hide Matcher.PosNext, Matcher.PosPair, Matcher.Answer, AfterPosEvent, Trimmed, EstimateOf;
      wait.OnPosEvent(ev);
      var _ := matcher.OnPosEvent(ev);
      if ev.eventType == OrderCreated || ev.eventType == CheckOpen {
        var key := LocKey(ev.tenantId, ev.locationId);
        posOrders := posOrders[key := OrdersAt(posOrders, key) + [ev.receivedAt]];
      }
      PublishEstimate(ev.tenantId, ev.locationId, ev.receivedAt);
    }

    method OnBookingEvent(tenantId: int, locationId: Name, seated: bool, receivedAt: Time)
      requires ValidConfig(wait.config)
      modifies this`lastEstimates, wait
      ensures wait.state ==
              if seated then old(wait.state)[locationId :=
                Trimmed(wait.config, At(old(wait.state), locationId), receivedAt)]
              else old(wait.state)
      ensures lastEstimates == (if seated then old(lastEstimates)[LocKey(tenantId, locationId) :=
                EstimateOf(wait.config, At(wait.state, locationId), locationId, receivedAt)] else old(lastEstimates))
    {
      if seated {
        PublishEstimate(tenantId, locationId, receivedAt);
      }
    }

    /** Shows the trigger policy what the camera looks like now. */
    method Inspect(meta: FrameMetadata, engine: Zones.ZoneEngine, events: seq<ZoneEvent>)
      modifies this`vlmTriggers, this`posOrders, triggers
      ensures triggers.Camera(meta.cameraId) == Triggers.Evaluated(triggers.config, old(triggers.Camera(meta.cameraId)),
                Seen(engine.Current(), events, OrdersAt(old(posOrders), LocKey(meta.tenantId, meta.locationId)),
                  meta.ts))
      ensures forall cam :: cam != meta.cameraId ==> triggers.Camera(cam) == old(triggers.Camera(cam))
      ensures vlmTriggers == old(vlmTriggers) +
                FiredBy(Triggers.ReasonFor(triggers.config, old(triggers.Camera(meta.cameraId)),
                  Seen(engine.Current(), events, OrdersAt(old(posOrders), LocKey(meta.tenantId, meta.locationId)),
                    meta.ts)), meta)
      ensures posOrders == Pruned(old(posOrders), LocKey(meta.tenantId, meta.locationId), meta.ts)
    {
      var orders := OrdersLast5m(LocKey(meta.tenantId, meta.locationId), meta.ts);
      var snap := Triggers.Snapshot(meta.ts, engine.Occupancy(Queue), engine.Occupancy(Service), AvgDwell(events),
        orders);
      var trigger := triggers.Evaluate(meta.locationId, meta.cameraId, snap);
      if trigger.Some? {
        vlmTriggers := vlmTriggers + [trigger.value];
      }
    }

    /** Forgets orders over five minutes old and counts the rest. */
    method OrdersLast5m(key: LocKey, now: Time) returns (n: nat)
      modifies this`posOrders
      ensures n == |RecentOnly(OrdersAt(old(posOrders), key), |OrdersAt(old(posOrders), key)|, now)|
      ensures posOrders == Pruned(old(posOrders), key, now)
    {
      var all := OrdersAt(posOrders, key);
      var recent: seq<Time> := [];
      for i := 0 to |all|
        invariant recent == RecentOnly(all, i, now)
      {
        if now - all[i] <= 5 * MINUTE {
          recent := recent + [all[i]];
        }
      }
      if key in posOrders {
        posOrders := posOrders[key := recent];
      }
      n := |recent|;
    }

    /** The estimate on demand: it is stored like a published one, and moves nobody in or out of a queue. */
    method Estimate(tenantId: int, locationId: Name, now: Time) returns (est: WaitEstimate)
      requires Valid()
      modifies this`lastEstimates, wait
      ensures wait.state == old(wait.state)[locationId := Trimmed(wait.config, At(old(wait.state), locationId), now)]
      ensures est == EstimateOf(wait.config, At(wait.state, locationId), locationId, now)
      ensures lastEstimates == old(lastEstimates)[LocKey(tenantId, locationId) := est]
      ensures Valid() && (old(Consistent(CurrentWorld())) ==> Consistent(CurrentWorld()))
      ensures Estimates.IsPublished(est, wait.config, At(wait.state, locationId), locationId, now)
    {
      hide Estimates.IsPublished, EstimateOf;
      est := wait.Estimate(locationId, now);
      lastEstimates := lastEstimates[LocKey(tenantId, locationId) := est];
      forall k | k in zoneEngines ensures unchanged(zoneEngines[k]) {
        var e: object := zoneEngines[k];
        assert e != this && e != wait;
      }
      StillConsistent();
      Estimates.EstimateIsPublished(wait.config, At(wait.state, locationId), locationId, now);
    }

    method PublishEstimate(tenantId: int, locationId: Name, now: Time)
      requires ValidConfig(wait.config)
      modifies this`lastEstimates, wait
      ensures wait.state == old(wait.state)[locationId := Trimmed(wait.config, At(old(wait.state), locationId), now)]
      ensures lastEstimates == old(lastEstimates)[LocKey(tenantId, locationId) :=
                EstimateOf(wait.config, At(wait.state, locationId), locationId, now)]
    {
      var est := wait.Estimate(locationId, now);
      lastEstimates := lastEstimates[LocKey(tenantId, locationId) := est];
    }
  }

  method UpdateOne(engine: Zones.ZoneEngine, dets: seq<Detection>, ts: Time) returns (events: seq<ZoneEvent>)
    requires Zones.Valid(engine.Current())
    modifies engine
    ensures Zones.Valid(engine.Current()) && FromCamera(events, engine.config)
    ensures engine.Current() == Zones.Next(engine.config, old(engine.Current()), dets, ts)
    ensures events == Zones.Events(engine.config, old(engine.Current()), dets, ts)
  {
    ghost var st := engine.Current();
    EventsFromCamera(engine.config, st, dets, ts);
    Zones.NextIs(engine.config, st, dets, ts, Zones.Next(engine.config, st, dets, ts), QueueKey(0));
    events := engine.Update(dets, ts);
  }

  lemma PushedOneMore(q: seq<real>, evs: seq<ZoneEvent>, i: nat, bound: nat)
    requires i < |evs|
    ensures PushAll(q, Dwells(evs, i + 1), bound) ==
              PushAll(PushAll(q, Dwells(evs, i), bound), Dwells([evs[i]], 1), bound)
  {
    var front, one := Dwells(evs, i), Dwells([evs[i]], 1);
    assert Dwells([evs[i]], 0) == [];
    if HasDwell(evs[i]) {
      assert (front + one)[..|front|] == front;
      assert one[..0] == [];
      assert PushAll(PushAll(q, front, bound), one[..0], bound) == PushAll(q, front, bound);
    } else {
      assert front + [] == front;
    }
  }
}
