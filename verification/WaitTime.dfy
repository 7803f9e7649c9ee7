/** The live wait-time engine (waittime/engine.py). */
module WaitTime {
  import opened Deques
  import opened Schemas
  import opened Stats

  datatype WaitSource = Vision | PosOnly | NoData

  datatype WaitEstimate = WaitEstimate(locationId: Name, ts: Time, queueLength: nat, p50: Option<real>,
                                       p90: Option<real>, bandLow: Option<int>, bandHigh: Option<int>,
                                       source: WaitSource, sampleSize: nat)

  /** Exit time and dwell of a completed stay in the queue. */
  datatype Sample = Sample(at: Time, dwell: int)

  /** Who is in the queue: camera and track. */
  datatype Waiter = Waiter(cameraId: Name, trackerId: int)

  datatype Config = Config(window: int, minSamples: int, videoStaleAfter: int, posWindow: int)

  const DEFAULTS := Config(30 * MINUTE, 5, 120 * SECOND, 15 * MINUTE)

  /** With these settings an estimate is defined in every state. */
  predicate ValidConfig(c: Config) {
    c.minSamples >= 1 && c.posWindow > 0
  }

  datatype LocState = LocState(dwell: seq<Sample>, inQueue: set<Waiter>, orders: seq<Time>, lastVideo: Option<Time>)

  const NEW_LOCATION := LocState([], {}, [], None)

  // ---------------------------------------------------------------------------
  // Inputs
  // ---------------------------------------------------------------------------

  function SampledAt(s: Sample): Time { s.at }

  function OrderedAt(t: Time): Time { t }

  function DropOldSamples(s: seq<Sample>, now: Time, window: int): seq<Sample> {
    Drop(s, OldAt(SampledAt, now, window))
  }

  function DropOldOrders(s: seq<Time>, now: Time, window: int): seq<Time> {
    Drop(s, OldAt(OrderedAt, now, window))
  }

  function Trimmed(c: Config, s: LocState, now: Time): LocState {
    s.(dwell := DropOldSamples(s.dwell, now, c.window), orders := DropOldOrders(s.orders, now, c.posWindow))
  }

  function Latest(ts: Time, last: Option<Time>): Option<Time> {
    match last
    case None => Some(ts)
    case Some(t) => Some(if t > ts then t else ts)
  }

  /** Stays of under three seconds are people walking through. */
  predicate CountsAsWait(ev: ZoneEvent) {
    ev.zone == Queue && ev.eventType == Exit && ev.dwell.Some? && ev.dwell.value >= 3 * SECOND
  }

  /** The event's effect before any trimming. */
  function Noted(s: LocState, ev: ZoneEvent): LocState {
    var seen := s.(lastVideo := Latest(ev.ts, s.lastVideo));
    if ev.zone != Queue then seen else
      var who := Waiter(ev.cameraId, ev.trackerId);
      if ev.eventType == Enter then seen.(inQueue := seen.inQueue + {who})
      else seen.(inQueue := seen.inQueue - {who},
                 dwell := if CountsAsWait(ev) then seen.dwell + [Sample(ev.ts, ev.dwell.value)] else seen.dwell)
  }

  function AfterZoneEvent(c: Config, s: LocState, ev: ZoneEvent): LocState {
    if ev.zone != Queue then Noted(s, ev) else Trimmed(c, Noted(s, ev), ev.ts)
  }

  predicate IsOrder(ev: PosEvent) {
    ev.eventType == OrderCreated || ev.eventType == CheckOpen
  }

  function OrderNoted(s: LocState, ev: PosEvent): LocState {
    if IsOrder(ev) then s.(orders := s.orders + [ev.receivedAt]) else s
  }

  function AfterPosEvent(c: Config, s: LocState, ev: PosEvent): LocState {
    Trimmed(c, OrderNoted(s, ev), ev.receivedAt)
  }

  function AfterHeartbeat(s: LocState, ts: Time): LocState {
    s.(lastVideo := Latest(ts, s.lastVideo))
  }

  // ---------------------------------------------------------------------------
  // Output
  // ---------------------------------------------------------------------------

  /** Customer-facing band: 5-minute steps from 10 minutes up, 2-minute steps below. */
  function Band(p50: real, p90: real): (int, int) {
    var step := if p90 >= 10.0 then 5 else 2;
    var low := (p50 / step as real).Floor * step;
    var high := Ceiling(p90 / step as real) * step;
    (low, if high <= low then low + step else high)
  }

  function Minutes(s: seq<Sample>): seq<real> {
    seq(|s|, i requires 0 <= i < |s| => s[i].dwell as real / MINUTE as real)
  }

  function RecentOrders(orders: seq<Time>, n: nat, now: Time): (k: nat)
    requires n <= |orders|
    ensures k <= n
  {
    if n == 0 then 0 else
      RecentOrders(orders, n - 1, now) + if now - orders[n - 1] <= 5 * MINUTE then 1 else 0
  }

  /** Orders per minute over the POS window. */
  function Rate(c: Config, orders: seq<Time>): (r: real)
    requires c.posWindow != 0
    ensures c.posWindow > 0 && |orders| > 0 ==> r > 0.0
    ensures c.posWindow < 0 ==> r <= 0.0
  {
    var minutes := c.posWindow as real / MINUTE as real;
    |orders| as real / minutes
  }

  /** There is no rate over no time. */
  predicate RateDefined(c: Config, orders: seq<Time>) {
    |orders| >= 3 ==> c.posWindow != 0
  }

  /** Little's law. Without video the queue is guessed from the last five minutes against the average. */
  function PosEstimate(c: Config, orders: seq<Time>, now: Time, queueLen: Option<nat>): Option<real>
    requires RateDefined(c, orders)
  {
    if |orders| < 3 then None else
      var rate := Rate(c, orders);
      if rate <= 0.0 then None else
        match queueLen
        case Some(n) => Some(n as real / rate)
        case None =>
          var guess := Round(RecentOrders(orders, |orders|, now) as real - rate * 5.0);
          Some((if guess > 0 then guess else 0) as real / rate)
  }

  function Build(loc: Name, now: Time, queueLen: nat, p50: real, p90: real, source: WaitSource, n: nat): WaitEstimate {
    var (low, high) := Band(p50, p90);
    WaitEstimate(loc, now, queueLen, Some(Round1(p50)), Some(Round1(p90)), Some(low), Some(high), source, n)
  }

  predicate VideoLive(c: Config, s: LocState, now: Time) {
    s.lastVideo.Some? && now - s.lastVideo.value <= c.videoStaleAfter
  }

  /** No percentile of no samples is asked for, and no rate over no time. */
  predicate Defined(c: Config, s: LocState, now: Time) {
    if !VideoLive(c, s, now) then RateDefined(c, s.orders)
    else if |s.dwell| >= c.minSamples then |s.dwell| > 0
    else |s.inQueue| > 0 ==> RateDefined(c, s.orders)
  }

  /** The estimate read off a state that has just been trimmed. */
  function EstimateOf(c: Config, s: LocState, loc: Name, now: Time): WaitEstimate
    requires Defined(c, s, now)
  {
    if VideoLive(c, s, now) then
      var samples := Minutes(s.dwell);
      if |samples| >= c.minSamples then
        Build(loc, now, |s.inQueue|, Percentile(samples, 50.0), Percentile(samples, 90.0), Vision, |samples|)
      else if |s.inQueue| == 0 then
        Build(loc, now, 0, 0.0, 0.0, Vision, |samples|)
      else
        match PosEstimate(c, s.orders, now, Some(|s.inQueue|))
        case Some(w) => Build(loc, now, |s.inQueue|, w, w * 1.5, Vision, |samples|)
        case None => WaitEstimate(loc, now, |s.inQueue|, None, None, None, None, Vision, |samples|)
    else
      match PosEstimate(c, s.orders, now, None)
      case Some(w) => Build(loc, now, 0, w, w * 1.5, PosOnly, |s.orders|)
      case None => WaitEstimate(loc, now, 0, None, None, None, None, NoData, 0)
  }

  // ---------------------------------------------------------------------------
  // The engine
  // ---------------------------------------------------------------------------

  /** The state kept for a location; nothing yet if it was never mentioned. */
  function At(state: map<Name, LocState>, loc: Name): LocState {
    if loc in state then state[loc] else NEW_LOCATION
  }

  class WaitTimeEngine {
    const config: Config
    var state: map<Name, LocState>

    constructor (config: Config := DEFAULTS)
      ensures this.config == config && state == map[]
    {
      this.config := config;
      state := map[];
    }

    method OnZoneEvent(ev: ZoneEvent)
      modifies this
      ensures state == old(state)[ev.locationId := AfterZoneEvent(config, At(old(state), ev.locationId), ev)]
    {
      var st := At(state, ev.locationId);
      st := st.(lastVideo := Latest(ev.ts, st.lastVideo));
      if ev.zone == Queue {
        var who := Waiter(ev.cameraId, ev.trackerId);
        if ev.eventType == Enter {
          st := st.(inQueue := st.inQueue + {who});
        } else {
          st := st.(inQueue := st.inQueue - {who});
          if ev.dwell.Some? && ev.dwell.value >= 3 * SECOND {
            st := st.(dwell := st.dwell + [Sample(ev.ts, ev.dwell.value)]);
          }
        }
        st := Trim(st, ev.ts);
      }
      state := state[ev.locationId := st];
    }

    method OnPosEvent(ev: PosEvent)
      modifies this
      ensures state == old(state)[ev.locationId := AfterPosEvent(config, At(old(state), ev.locationId), ev)]
    {
      var st := At(state, ev.locationId);
      if ev.eventType == OrderCreated || ev.eventType == CheckOpen {
        st := st.(orders := st.orders + [ev.receivedAt]);
      }
      st := Trim(st, ev.receivedAt);
      state := state[ev.locationId := st];
    }

    method OnHeartbeat(loc: Name, ts: Time)
      modifies this
      ensures state == old(state)[loc := AfterHeartbeat(At(old(state), loc), ts)]
    {
      var st := At(state, loc);
      state := state[loc := st.(lastVideo := Latest(ts, st.lastVideo))];
    }

    method Estimate(loc: Name, now: Time) returns (est: WaitEstimate)
      requires Defined(config, Trimmed(config, At(state, loc), now), now)
      modifies this
      ensures state == old(state)[loc := Trimmed(config, At(old(state), loc), now)]
      ensures est == EstimateOf(config, Trimmed(config, At(old(state), loc), now), loc, now)
    {
      var st := Trim(At(state, loc), now);
      state := state[loc := st];
      if st.lastVideo.Some? && now - st.lastVideo.value <= config.videoStaleAfter {
        var queueLen := |st.inQueue|;
        var samples := Minutes(st.dwell);
        if |samples| >= config.minSamples {
          var p50, p90 := Percentile(samples, 50.0), Percentile(samples, 90.0);
          return Build(loc, now, queueLen, p50, p90, Vision, |samples|);
        }
        if queueLen == 0 {
          return Build(loc, now, 0, 0.0, 0.0, Vision, |samples|);
        }
        var wait := PosEstimate(config, st.orders, now, Some(queueLen));
        if wait.Some? {
          return Build(loc, now, queueLen, wait.value, wait.value * 1.5, Vision, |samples|);
        }
        return WaitEstimate(loc, now, queueLen, None, None, None, None, Vision, |samples|);
      }
      var wait := PosEstimate(config, st.orders, now, None);
      if wait.None? {
        return WaitEstimate(loc, now, 0, None, None, None, None, NoData, 0);
      }
      return Build(loc, now, 0, wait.value, wait.value * 1.5, PosOnly, |st.orders|);
    }

    /** Pops stale heads off both deques. */
    method Trim(st: LocState, now: Time) returns (r: LocState)
      ensures r == Trimmed(config, st, now)
    {
      var dwell, orders := st.dwell, st.orders;
      ghost var n := 0;
      while |dwell| > 0 && now - dwell[0].at > config.window
        invariant 0 <= n <= |st.dwell| && dwell == if n == 0 then st.dwell else st.dwell[n..]
        invariant forall i :: 0 <= i < n ==> now - st.dwell[i].at > config.window
        decreases |dwell|
      {
        dwell := dwell[1..];
        n := n + 1;
      }
      PoppedIs(st.dwell, SampledAt, now, config.window, n);
      n := 0;
      while |orders| > 0 && now - orders[0] > config.posWindow
        invariant 0 <= n <= |st.orders| && orders == if n == 0 then st.orders else st.orders[n..]
        invariant forall i :: 0 <= i < n ==> now - st.orders[i] > config.posWindow
        decreases |orders|
      {
        orders := orders[1..];
        n := n + 1;
      }
      PoppedIs(st.orders, OrderedAt, now, config.posWindow, n);
      r := st.(dwell := dwell, orders := orders);
    }
  }
}
