/** When to spend a call to the vision-language model (vlm/triggers.py). */
module Triggers {
  import opened Arithmetic
  import opened Schemas
  import opened Stats

  datatype Snapshot = Snapshot(ts: Time, queueLen: nat, serviceLen: nat, avgDwell: Option<real>, posOrders: nat)

  datatype Anomaly = QueueJump | DwellP95 | ServiceEmpty | PosFlat

  datatype Reason = Anomalous(anomalies: seq<Anomaly>) | Cadence

  datatype Trigger = Trigger(reason: Reason, locationId: Name, cameraId: Name, ts: Time)

  datatype Config = Config(cadence: int, minGap: int, longQueue: nat, highCount: nat, baselineMax: nat)

  const DEFAULTS := Config(60 * SECOND, 30 * SECOND, 8, 12, 2000)

  const HISTORY: nat := 120

  /** A bounded deque drops from its head. */
  function Push<T>(q: seq<T>, x: T, bound: nat): (r: seq<T>)
    ensures |q| <= bound ==> |r| <= bound
  {
    if bound == 0 then [] else if |q| < bound then q + [x] else q[|q| - bound + 1..] + [x]
  }

  /** Snapshots of the first `n` no older than `age`, in order. */
  function Within(hist: seq<Snapshot>, n: nat, now: Time, age: int): seq<Snapshot>
    requires n <= |hist|
  {
    if n == 0 then [] else
      Within(hist, n - 1, now, age) + if now - hist[n - 1].ts <= age then [hist[n - 1]] else []
  }

  function FewestOrders(s: seq<Snapshot>, n: nat): nat
    requires 0 < n <= |s|
  {
    if n == 1 then s[0].posOrders else
      var m := FewestOrders(s, n - 1);
      if s[n - 1].posOrders < m then s[n - 1].posOrders else m
  }

  function Anomalies(c: Config, snap: Snapshot, hist: seq<Snapshot>, baseline: seq<real>): seq<Anomaly> {
    var minute := Within(hist, |hist|, snap.ts, 60 * SECOND);
    var prior := Within(hist, |hist|, snap.ts, 5 * MINUTE);
    (if |minute| > 0 && minute[0].queueLen >= 2 && snap.queueLen as real > minute[0].queueLen as real * 1.5
     then [QueueJump] else []) +
    (if |baseline| >= 30 && snap.avgDwell.Some? && snap.avgDwell.value > Percentile(baseline, 95.0)
     then [DwellP95] else []) +
    (if snap.queueLen >= c.longQueue && snap.serviceLen == 0 then [ServiceEmpty] else []) +
    (if snap.queueLen >= c.highCount && |minute| > 0 && |prior| > 0 && snap.posOrders <= FewestOrders(prior, |prior|)
     then [PosFlat] else [])
  }

  /** What is kept for a camera. */
  datatype CamState = CamState(lastFire: Option<Time>, history: seq<Snapshot>, baseline: seq<real>)

  predicate AtLeastSince(last: Option<Time>, now: Time, wait: int) {
    last.None? || now - last.value >= wait
  }

  function ReasonFor(c: Config, s: CamState, snap: Snapshot): Option<Reason> {
    var found := Anomalies(c, snap, s.history, s.baseline);
    if |found| > 0 && AtLeastSince(s.lastFire, snap.ts, c.minGap) then Some(Anomalous(found))
    else if AtLeastSince(s.lastFire, snap.ts, c.cadence) then Some(Cadence)
    else None
  }

  function Evaluated(c: Config, s: CamState, snap: Snapshot): CamState {
    CamState(if ReasonFor(c, s, snap).Some? then Some(snap.ts) else s.lastFire,
             Push(s.history, snap, HISTORY), s.baseline)
  }

  // ---------------------------------------------------------------------------
  // The anomalies in terms of what was recorded
  // ---------------------------------------------------------------------------

  /** The oldest snapshot of the last minute had at least two queueing, and fewer than two thirds of now. */
  ghost predicate QueueJumped(snap: Snapshot, hist: seq<Snapshot>) {
    exists i :: 0 <= i < |hist| && OldestSince(hist, snap.ts - 60_000_000, i) &&
                hist[i].queueLen >= 2 && 3 * hist[i].queueLen < 2 * snap.queueLen
  }

  ghost predicate OldestSince(hist: seq<Snapshot>, from: Time, i: nat)
    requires i < |hist|
  {
    hist[i].ts >= from && forall j :: 0 <= j < i ==> hist[j].ts < from
  }

  /** The mean dwell is above the 95th percentile of at least thirty recorded dwells, however these are ranked. */
  ghost predicate DwellIsLong(snap: Snapshot, baseline: seq<real>) {
    && |baseline| >= 30 && snap.avgDwell.Some?
    && forall x :: Arranges(x, baseline) ==> AboveRank(snap.avgDwell.value, x, 95)
  }

  ghost predicate AboveRank(d: real, x: seq<real>, p: nat) {
    |x| > 0 && p <= 100 && forall v :: IsPercentile(v, x, p) ==> d > v
  }

  ghost predicate Unstaffed(c: Config, snap: Snapshot) {
    snap.queueLen >= c.longQueue && snap.serviceLen == 0
  }

  /** The queue is high, there was a snapshot in the last minute, and none in five minutes had fewer orders. */
  ghost predicate OrdersFlat(c: Config, snap: Snapshot, hist: seq<Snapshot>) {
    && snap.queueLen >= c.highCount
    && (exists i :: 0 <= i < |hist| && hist[i].ts >= snap.ts - 60_000_000)
    && forall i :: 0 <= i < |hist| && hist[i].ts >= snap.ts - 300_000_000 ==> hist[i].posOrders >= snap.posOrders
  }

  /** What is wrong, in the order it is reported. */
  ghost function Alarms(c: Config, snap: Snapshot, hist: seq<Snapshot>, baseline: seq<real>): seq<Anomaly> {
    (if QueueJumped(snap, hist) then [QueueJump] else []) + (if DwellIsLong(snap, baseline) then [DwellP95] else []) +
    (if Unstaffed(c, snap) then [ServiceEmpty] else []) + if OrdersFlat(c, snap, hist) then [PosFlat] else []
  }

  lemma {:induction false} WithinHead(hist: seq<Snapshot>, n: nat, now: Time, age: int, i: nat)
    requires n <= |hist| && i < n && OldestSince(hist, now - age, i)
    ensures |Within(hist, n, now, age)| > 0 && Within(hist, n, now, age)[0] == hist[i]
  {
    if i < n - 1 {
      WithinHead(hist, n - 1, now, age, i);
    } else {
      WithinNone(hist, i, now, age);
    }
  }

  lemma {:induction false} WithinNone(hist: seq<Snapshot>, n: nat, now: Time, age: int)
    requires n <= |hist| && forall j :: 0 <= j < n ==> hist[j].ts < now - age
    ensures Within(hist, n, now, age) == []
  {
    if n > 0 {
      WithinNone(hist, n - 1, now, age);
    }
  }

  /** Either nothing is recent enough, or there is an oldest one. */
  lemma {:induction false} OldestOf(hist: seq<Snapshot>, n: nat, from: Time) returns (i: nat)
    requires n <= |hist|
    ensures i <= n && (i < n ==> OldestSince(hist, from, i))
    ensures i == n ==> forall j :: 0 <= j < n ==> hist[j].ts < from
  {
    if n == 0 {
      i := 0;
    } else {
      i := OldestOf(hist, n - 1, from);
      if i == n - 1 && hist[i].ts < from {
        i := n;
      }
    }
  }

  lemma OneOldest(hist: seq<Snapshot>, from: Time, i: nat, j: nat)
    requires i < |hist| && j < |hist| && OldestSince(hist, from, i) && OldestSince(hist, from, j)
    ensures i == j
  {
  }

  lemma JumpIs(snap: Snapshot, hist: seq<Snapshot>)
    ensures QueueJumped(snap, hist) <==>
            var minute := Within(hist, |hist|, snap.ts, 60 * SECOND);
            && |minute| > 0 && minute[0].queueLen >= 2
            && snap.queueLen as real > minute[0].queueLen as real * 1.5
    ensures |Within(hist, |hist|, snap.ts, 60 * SECOND)| > 0 <==>
            exists i :: 0 <= i < |hist| && hist[i].ts >= snap.ts - 60_000_000
  {
    var i := OldestOf(hist, |hist|, snap.ts - 60 * SECOND);
    if i < |hist| {
      WithinHead(hist, |hist|, snap.ts, 60 * SECOND, i);
      HalfMore(hist[i].queueLen, snap.queueLen);
      if QueueJumped(snap, hist) {
        var j :| 0 <= j < |hist| && OldestSince(hist, snap.ts - 60_000_000, j) && hist[j].queueLen >= 2 &&
          3 * hist[j].queueLen < 2 * snap.queueLen;
        OneOldest(hist, snap.ts - 60_000_000, i, j);
      }
    } else {
      WithinNone(hist, |hist|, snap.ts, 60 * SECOND);
    }
  }

  lemma HalfMore(base: nat, queue: nat)
    ensures queue as real > base as real * 1.5 <==> 3 * base < 2 * queue
  {
    assert 2.0 * queue as real == (2 * queue) as real && 3.0 * base as real == (3 * base) as real;
  }

  lemma DwellIs(snap: Snapshot, baseline: seq<real>)
    requires |baseline| >= 30 && snap.avgDwell.Some?
    ensures DwellIsLong(snap, baseline) <==> snap.avgDwell.value > Percentile(baseline, 95.0)
  {
    hide IsPercentile, Percentile;
    assert 95 as real == 95.0;
    RankedArranges(baseline);
    forall x | Arranges(x, baseline)
      ensures |x| > 0 && forall v :: IsPercentile(v, x, 95) <==> v == Percentile(baseline, 95.0)
    {
      PercentileByRank(baseline, x, 95);
      forall v | IsPercentile(v, x, 95) ensures v == Percentile(baseline, 95.0) {
        OnePercentile(v, Percentile(baseline, 95.0), x, 95);
      }
    }
    var x := Ranked(baseline);
    assert Arranges(x, baseline) && IsPercentile(Percentile(baseline, 95.0), x, 95);
  }

  lemma {:induction false} FewestOrdersIs(s: seq<Snapshot>, n: nat, orders: nat)
    requires 0 < n <= |s|
    ensures orders <= FewestOrders(s, n) <==> forall i :: 0 <= i < n ==> orders <= s[i].posOrders
  {
    if n > 1 {
      FewestOrdersIs(s, n - 1, orders);
    }
  }

  ghost predicate NoneFewer(s: seq<Snapshot>, orders: nat) {
    forall i :: 0 <= i < |s| ==> orders <= s[i].posOrders
  }

  lemma NoneFewerMore(s: seq<Snapshot>, x: Snapshot, orders: nat)
    ensures NoneFewer(s + [x], orders) <==> NoneFewer(s, orders) && orders <= x.posOrders
  {
    assert (s + [x])[|s|] == x && forall i :: 0 <= i < |s| ==> (s + [x])[i] == s[i];
  }

  lemma {:induction false} WithinAre(hist: seq<Snapshot>, n: nat, now: Time, age: int, orders: nat)
    requires n <= |hist|
    ensures NoneFewer(Within(hist, n, now, age), orders) <==>
            forall i :: 0 <= i < n && hist[i].ts >= now - age ==> orders <= hist[i].posOrders
    ensures (exists i :: 0 <= i < n && hist[i].ts >= now - age) ==> |Within(hist, n, now, age)| > 0
  {
    if n > 0 {
      WithinAre(hist, n - 1, now, age, orders);
      hide NoneFewer;
      var front, last := Within(hist, n - 1, now, age), hist[n - 1];
      NoneFewerMore(front, last, orders);
      assert Within(hist, n, now, age) == if now - last.ts <= age then front + [last] else front;
    }
  }

  lemma FlatIs(c: Config, snap: Snapshot, hist: seq<Snapshot>)
    ensures OrdersFlat(c, snap, hist) <==>
            var minute, prior := Within(hist, |hist|, snap.ts, 60 * SECOND), Within(hist, |hist|, snap.ts, 5 * MINUTE);
            && snap.queueLen >= c.highCount && |minute| > 0 && |prior| > 0
            && snap.posOrders <= FewestOrders(prior, |prior|)
  {
    var prior := Within(hist, |hist|, snap.ts, 5 * MINUTE);
    JumpIs(snap, hist);
    WithinAre(hist, |hist|, snap.ts, 5 * MINUTE, snap.posOrders);
    if |prior| > 0 {
      FewestOrdersIs(prior, |prior|, snap.posOrders);
    }
  }

  lemma AnomaliesAreAlarms(c: Config, snap: Snapshot, hist: seq<Snapshot>, baseline: seq<real>)
    ensures Anomalies(c, snap, hist, baseline) == Alarms(c, snap, hist, baseline)
  {
    hide Within, FewestOrders, Percentile, QueueJumped, OrdersFlat;
    JumpIs(snap, hist);
    FlatIs(c, snap, hist);
    if |baseline| >= 30 && snap.avgDwell.Some? {
      DwellIs(snap, baseline);
    }
  }

  /** Long enough after the last trigger, if there was one. */
  ghost predicate Waited(last: Option<Time>, now: Time, wait: int) {
    last == None || last.value + wait <= now
  }

  /** What fires: an alarm as soon as the minimum gap has passed, else the timer. */
  ghost function Firing(c: Config, s: CamState, snap: Snapshot): Option<Reason> {
    var alarms := Alarms(c, snap, s.history, s.baseline);
    if alarms != [] && Waited(s.lastFire, snap.ts, c.minGap) then Some(Anomalous(alarms))
    else if Waited(s.lastFire, snap.ts, c.cadence) then Some(Cadence)
    else None
  }

  lemma ReasonIsFiring(c: Config, s: CamState, snap: Snapshot)
    ensures ReasonFor(c, s, snap) == Firing(c, s, snap)
  {
    hide Anomalies, Alarms;
    AnomaliesAreAlarms(c, snap, s.history, s.baseline);
  }

  /** More people serving, or more orders, never make a camera fire that would not have fired. */
  lemma HelpIsQuiet(c: Config, s: CamState, snap: Snapshot, more: Snapshot)
    requires ReasonFor(c, s, snap) == None
    requires more.serviceLen >= snap.serviceLen && more.posOrders >= snap.posOrders
    requires more == snap.(serviceLen := more.serviceLen, posOrders := more.posOrders)
    ensures ReasonFor(c, s, more) == None
  {
    hide Anomalies, DwellIsLong;
    AnomaliesAreAlarms(c, snap, s.history, s.baseline);
    AnomaliesAreAlarms(c, more, s.history, s.baseline);
    assert QueueJumped(more, s.history) <==> QueueJumped(snap, s.history);
    SameDwell(snap, more, s.baseline);
  }

  lemma SameDwell(snap: Snapshot, more: Snapshot, baseline: seq<real>)
    requires more.avgDwell == snap.avgDwell
    ensures DwellIsLong(snap, baseline) <==> DwellIsLong(more, baseline)
  {
  }

  class TriggerPolicy {
    const config: Config
    var lastFire: map<Name, Time>
    var history: map<Name, seq<Snapshot>>
    var baseline: map<Name, seq<real>>

    constructor (config: Config := DEFAULTS)
      ensures this.config == config && lastFire == map[] && history == map[] && baseline == map[]
    {
      this.config := config;
      lastFire, history, baseline := map[], map[], map[];
    }

    function Camera(cam: Name): CamState
      reads this
    {
      CamState(if cam in lastFire then Some(lastFire[cam]) else None,
               if cam in history then history[cam] else [],
               if cam in baseline then baseline[cam] else [])
    }

    method RecordDwell(cam: Name, dwell: real)
      modifies this`baseline
      ensures Camera(cam) == old(Camera(cam)).(baseline := Push(old(Camera(cam)).baseline, dwell, config.baselineMax))
      ensures forall other :: other != cam ==> Camera(other) == old(Camera(other))
    {
      var q := if cam in baseline then baseline[cam] else [];
      baseline := baseline[cam := Push(q, dwell, config.baselineMax)];
    }

    method Evaluate(loc: Name, cam: Name, snap: Snapshot) returns (trigger: Option<Trigger>)
      modifies this
      ensures Camera(cam) == Evaluated(config, old(Camera(cam)), snap)
      ensures forall other :: other != cam ==> Camera(other) == old(Camera(other))
      ensures trigger == match ReasonFor(config, old(Camera(cam)), snap)
                         case None => None
                         case Some(reason) => Some(Trigger(reason, loc, cam, snap.ts))
      ensures trigger.Some? <==> Firing(config, old(Camera(cam)), snap).Some?
      ensures trigger.Some? ==> Some(trigger.value.reason) == Firing(config, old(Camera(cam)), snap)
    {
      hide Firing, Anomalies, Push;
      ghost var was := Camera(cam);
      ReasonIsFiring(config, was, snap);
      var hist := if cam in history then history[cam] else [];
      var found := Anomalies(config, snap, hist, if cam in baseline then baseline[cam] else []);
      history := history[cam := Push(hist, snap, HISTORY)];
      var reason: Option<Reason> := None;
      var last := if cam in lastFire then Some(lastFire[cam]) else None;
      if |found| > 0 && AtLeastSince(last, snap.ts, config.minGap) {
        reason := Some(Anomalous(found));
      } else if AtLeastSince(last, snap.ts, config.cadence) {
        reason := Some(Cadence);
      }
      assert reason == ReasonFor(config, was, snap);
      if reason.None? {
        return None;
      }
      lastFire := lastFire[cam := snap.ts];
      return Some(Trigger(reason.value, loc, cam, snap.ts));
    }
  }

  // ---------------------------------------------------------------------------
  // Runs of one camera
  // ---------------------------------------------------------------------------

  /** Evaluations of a camera in any order of times; dwells recorded in between change the baseline only. */
  ghost predicate IsRun(c: Config, snaps: seq<Snapshot>, states: seq<CamState>, fired: seq<Option<Reason>>) {
    && |states| == |snaps| + 1 && |fired| == |snaps| && states[0].lastFire == None && states[0].history == []
    && forall k :: 0 <= k < |snaps| ==>
      && fired[k] == ReasonFor(c, states[k], snaps[k])
      && states[k + 1].lastFire == Evaluated(c, states[k], snaps[k]).lastFire
      && states[k + 1].history == Evaluated(c, states[k], snaps[k]).history
  }

  /** Dropping the anomalies themselves: fires late enough, and always once the cadence has passed. */
  ghost predicate Paced(c: Config, last: Option<Time>, snap: Snapshot, fires: bool, next: Option<Time>) {
    && (fires ==> AtLeastSince(last, snap.ts, Least(c.minGap, c.cadence)))
    && (AtLeastSince(last, snap.ts, c.cadence) ==> fires)
    && next == if fires then Some(snap.ts) else last
  }

  ghost predicate PacedRun(c: Config, snaps: seq<Snapshot>, states: seq<CamState>, fired: seq<Option<Reason>>) {
    && |states| == |snaps| + 1 && |fired| == |snaps| && states[0].lastFire == None && states[0].history == []
    && (forall k :: 0 <= k < |snaps| ==>
          Paced(c, states[k].lastFire, snaps[k], fired[k].Some?, states[k + 1].lastFire))
    && forall k :: 0 <= k < |snaps| ==> states[k + 1].history == Push(states[k].history, snaps[k], HISTORY)
  }

  lemma RunIsPaced(c: Config, snaps: seq<Snapshot>, states: seq<CamState>, fired: seq<Option<Reason>>)
    requires IsRun(c, snaps, states, fired)
    ensures PacedRun(c, snaps, states, fired)
  {
    forall k | 0 <= k < |snaps|
      ensures Paced(c, states[k].lastFire, snaps[k], fired[k].Some?, states[k + 1].lastFire)
      ensures states[k + 1].history == Push(states[k].history, snaps[k], HISTORY)
    {
      StepPaced(c, states[k], snaps[k]);
    }
  }

  lemma StepPaced(c: Config, s: CamState, snap: Snapshot)
    ensures Paced(c, s.lastFire, snap, ReasonFor(c, s, snap).Some?, Evaluated(c, s, snap).lastFire)
  {
  }

  function Least(a: int, b: int): int { if a <= b then a else b }

  /** Times of the triggers among the first `n` snapshots. */
  ghost function FireTimes(snaps: seq<Snapshot>, fired: seq<Option<Reason>>, n: nat): seq<Time>
    requires n <= |snaps| == |fired|
  {
    if n == 0 then [] else
      var front := FireTimes(snaps, fired, n - 1);
      if fired[n - 1].Some? then front + [snaps[n - 1].ts] else front
  }

  ghost predicate SpacedBy(f: seq<Time>, g: int) {
    forall i :: 0 < i < |f| ==> f[i] - f[i - 1] >= g
  }

  /** Whatever the order of snapshots, consecutive triggers are at least min(minGap, cadence) apart. */
  lemma {:induction false} FireTimesSpaced(c: Config, snaps: seq<Snapshot>, states: seq<CamState>,
                                           fired: seq<Option<Reason>>, n: nat, f: seq<Time>)
    requires PacedRun(c, snaps, states, fired) && n <= |snaps| && f == FireTimes(snaps, fired, n)
    ensures SpacedBy(f, Least(c.minGap, c.cadence))
    ensures states[n].lastFire == if |f| == 0 then None else Some(f[|f| - 1])
  {
    if n > 0 {
      FireTimesSpaced(c, snaps, states, fired, n - 1, FireTimes(snaps, fired, n - 1));
      assert Paced(c, states[n - 1].lastFire, snaps[n - 1], fired[n - 1].Some?, states[n - 1 + 1].lastFire);
    }
  }

  /** Two quiet snapshots exactly one cadence apart both fire. */
  lemma TwoTriggers(c: Config)
    returns (snaps: seq<Snapshot>, states: seq<CamState>, fired: seq<Option<Reason>>)
    ensures IsRun(c, snaps, states, fired) && |snaps| == 2
    ensures FireTimes(snaps, fired, 2) == [0, c.cadence]
  {
    hide ReasonFor, Evaluated;
    var first, second := Snapshot(0, 0, 0, None, 0), Snapshot(c.cadence, 0, 0, None, 0);
    var s0 := CamState(None, [], []);
    var s1 := Evaluated(c, s0, first);
    snaps, states := [first, second], [s0, s1, Evaluated(c, s1, second)];
    fired := [ReasonFor(c, s0, first), ReasonFor(c, s1, second)];
    StepPaced(c, s0, first);
    StepPaced(c, s1, second);
    assert FireTimes(snaps, fired, 1) == [0];
  }

  /**
   Any two triggers of a camera, on every run, are `minGap` apart if and only if `minGap` is within the cadence:
   anomalies wait for it, the timer does not.
   */
  lemma MinGapHoldsIff(c: Config)
    ensures (forall snaps, states, fired :: IsRun(c, snaps, states, fired) ==>
               SpacedBy(FireTimes(snaps, fired, |snaps|), c.minGap)) <==> c.minGap <= c.cadence
  {
    hide ReasonFor, Evaluated;
    if c.minGap <= c.cadence {
      forall snaps, states, fired | IsRun(c, snaps, states, fired)
        ensures SpacedBy(FireTimes(snaps, fired, |snaps|), c.minGap)
      {
        RunIsPaced(c, snaps, states, fired);
        FireTimesSpaced(c, snaps, states, fired, |snaps|, FireTimes(snaps, fired, |snaps|));
      }
    } else {
      var snaps, states, fired := TwoTriggers(c);
      assert FireTimes(snaps, fired, |snaps|)[1] - FireTimes(snaps, fired, |snaps|)[0] < c.minGap;
    }
  }

  ghost function CountIn(f: seq<Time>, a: Time, b: Time): nat {
    if |f| == 0 then 0 else
      CountIn(f[..|f| - 1], a, b) + if a <= f[|f| - 1] <= b then 1 else 0
  }

  lemma {:induction false} CountSpaced(f: seq<Time>, a: Time, b: Time, g: int)
    requires SpacedBy(f, g) && g > 0
    ensures CountIn(f, a, b) > 0 ==> |f| > 0 && (CountIn(f, a, b) - 1) * g <= f[|f| - 1] - a
    ensures CountIn(f, a, b) > 0 ==> (CountIn(f, a, b) - 1) * g <= b - a
  {
    if |f| > 0 {
      var front, last := f[..|f| - 1], f[|f| - 1];
      CountSpaced(front, a, b, g);
      var m := CountIn(front, a, b);
      assert m * g == (m - 1) * g + g;
      if |f| > 1 {
        assert last - f[|f| - 2] >= g;
      }
    }
  }

  lemma DivisionBound(m: int, g: int, span: nat)
    requires g > 0 && m * g <= span
    ensures m <= span / g
  {
    var q := span / g;
    assert span < (q + 1) * g;
    if m >= q + 1 { MulMonotone(q + 1, m, g); }
  }

  /** Budget: at most floor(T / g) + 1 triggers in any span of length T, with g = min(minGap, cadence). */
  lemma TriggerBudget(c: Config, snaps: seq<Snapshot>, states: seq<CamState>, fired: seq<Option<Reason>>, n: nat,
                      from: Time, span: nat, g: int)
    requires IsRun(c, snaps, states, fired) && n <= |snaps| && g == Least(c.minGap, c.cadence) && g > 0
    ensures CountIn(FireTimes(snaps, fired, n), from, from + span) <= span / g + 1
  {
    RunIsPaced(c, snaps, states, fired);
    var f := FireTimes(snaps, fired, n);
    FireTimesSpaced(c, snaps, states, fired, n, f);
    BudgetOf(f, from, span, g);
  }

  lemma BudgetOf(f: seq<Time>, from: Time, span: nat, g: int)
    requires SpacedBy(f, g) && g > 0
    ensures CountIn(f, from, from + span) <= span / g + 1
  {
    CountSpaced(f, from, from + span, g);
    if CountIn(f, from, from + span) > 0 {
      DivisionBound(CountIn(f, from, from + span) - 1, g, span);
    }
  }

  /** Snapshots in time order, no two neighbours more than `delta` apart. */
  ghost predicate Steady(snaps: seq<Snapshot>, delta: int) {
    forall k :: 0 < k < |snaps| ==> 0 <= snaps[k].ts - snaps[k - 1].ts <= delta
  }

  /** As long as nothing fires, the last trigger is less than the cadence ago. */
  lemma {:induction false} RecentlyFired(c: Config, snaps: seq<Snapshot>, states: seq<CamState>,
                                         fired: seq<Option<Reason>>, i: nat, k: nat)
    requires PacedRun(c, snaps, states, fired) && i <= k < |snaps| && c.cadence > 0
    requires fired[i].Some? && forall j :: i < j <= k ==> fired[j].None?
    ensures states[k + 1].lastFire == Some(snaps[i].ts) && snaps[k].ts - snaps[i].ts < c.cadence
    decreases k
  {
    assert Paced(c, states[k].lastFire, snaps[k], fired[k].Some?, states[k + 1].lastFire);
    if i < k {
      RecentlyFired(c, snaps, states, fired, i, k - 1);
    }
  }

  /** Responsiveness: with steady snapshots, consecutive triggers `i` and `j` are less than cadence + delta apart. */
  lemma TriggersKeepComing(c: Config, snaps: seq<Snapshot>, states: seq<CamState>, fired: seq<Option<Reason>>,
                           i: nat, j: nat, delta: int)
    requires IsRun(c, snaps, states, fired) && Steady(snaps, delta) && c.cadence > 0 && i < j < |snaps|
    requires fired[i].Some? && forall k :: i < k < j ==> fired[k].None?
    ensures snaps[j].ts - snaps[i].ts < c.cadence + delta
  {
    RunIsPaced(c, snaps, states, fired);
    RecentlyFired(c, snaps, states, fired, i, j - 1);
  }

  /** And the first snapshot of a camera always fires. */
  lemma FirstFires(c: Config, snaps: seq<Snapshot>, states: seq<CamState>, fired: seq<Option<Reason>>)
    requires IsRun(c, snaps, states, fired) && |snaps| > 0
    ensures fired[0].Some?
  {
    RunIsPaced(c, snaps, states, fired);
    assert Paced(c, states[0].lastFire, snaps[0], fired[0].Some?, states[0 + 1].lastFire);
  }

  /** The history looked at is exactly the last 120 snapshots. */
  lemma HistoryIsRecent(c: Config, snaps: seq<Snapshot>, states: seq<CamState>, fired: seq<Option<Reason>>, n: nat)
    requires IsRun(c, snaps, states, fired) && n <= |snaps|
    ensures |states[n].history| == Least(n, HISTORY)
    ensures forall i :: 0 <= i < |states[n].history| ==> states[n].history[i] == snaps[n - |states[n].history| + i]
  {
    RunIsPaced(c, snaps, states, fired);
    PacedHistory(c, snaps, states, fired, n);
  }

  lemma {:induction false} PacedHistory(c: Config, snaps: seq<Snapshot>, states: seq<CamState>,
                                        fired: seq<Option<Reason>>, n: nat)
    requires PacedRun(c, snaps, states, fired) && n <= |snaps|
    ensures |states[n].history| == Least(n, HISTORY)
    ensures forall i :: 0 <= i < |states[n].history| ==> states[n].history[i] == snaps[n - |states[n].history| + i]
  {
    if n > 0 {
      PacedHistory(c, snaps, states, fired, n - 1);
      assert states[n - 1 + 1].history == Push(states[n - 1].history, snaps[n - 1], HISTORY);
      PushIs(states[n - 1].history, snaps[n - 1], HISTORY, states[n].history);
    }
  }

  lemma PushIs<T>(q: seq<T>, x: T, bound: nat, r: seq<T>)
    requires 0 < bound && |q| <= bound && r == Push(q, x, bound)
    ensures |r| == Least(|q| + 1, bound) && r[|r| - 1] == x
    ensures forall i :: 0 <= i < |r| - 1 ==> r[i] == q[|q| + 1 - |r| + i]
  {
  }
}
