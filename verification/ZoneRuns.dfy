/** What the zone engine guarantees over whole runs of frames, for any timestamps and for ordered ones. */
module ZoneRuns {
  import opened Schemas
  import opened Dicts
  import opened Zones
  import Polygon

  // ---------------------------------------------------------------------------
  // The events of one key
  // ---------------------------------------------------------------------------

  ghost predicate Concerns(e: ZoneEvent, key: Key) {
    e.trackerId == key.tid && e.zone == key.kind
  }

  ghost function OfKey(evs: seq<ZoneEvent>, key: Key): seq<ZoneEvent> {
    if |evs| == 0 then [] else
      OfKey(evs[..|evs| - 1], key) + if Concerns(evs[|evs| - 1], key) then [evs[|evs| - 1]] else []
  }

  lemma {:induction false} OfKeyAppend(a: seq<ZoneEvent>, b: seq<ZoneEvent>, key: Key)
    ensures OfKey(a + b, key) == OfKey(a, key) + OfKey(b, key)
  {
    if |b| == 0 {
      assert a + b == a;
    } else {
      OfKeyAppend(a, b[..|b| - 1], key);
      assert (a + b)[..|a + b| - 1] == a + b[..|b| - 1];
    }
  }

  lemma {:induction false} EntersOfKey(c: Config, enter: Dict<Key, Time>, hits: seq<Key>, ts: Time, key: Key)
    ensures OfKey(EnterEvents(c, enter, hits, ts), key) ==
            if key in hits && key !in enter.vals then [EnterEvent(c, key, ts)] else []
  {
    if |hits| > 0 {
      var front, k := hits[..|hits| - 1], hits[|hits| - 1];
      assert hits == front + [k];
      EntersOfKey(c, enter, front, ts, key);
      EnterAllIs(enter, front, ts, k);
      var one := if k in EnterAll(enter, front, ts).vals then [] else [EnterEvent(c, k, ts)];
      OfKeyAppend(EnterEvents(c, enter, front, ts), one, key);
      OfKeyOne(one, key);
    }
  }

  lemma OfKeyOne(one: seq<ZoneEvent>, key: Key)
    requires |one| <= 1
    ensures OfKey(one, key) == if |one| == 1 && Concerns(one[0], key) then one else []
  {
    if |one| == 1 {
      assert OfKey(one[..0], key) == [];
    }
  }

  lemma {:induction false} LeaversOfKey(c: Config, enter: map<Key, Time>, keys: seq<Key>, present: set<Key>,
                                        last: map<int, Time>, ts: Time, key: Key)
    requires Distinct(keys) && forall k :: k in keys ==> k in enter
    ensures Pending(Leavers(keys, present, last, ts), enter)
    ensures OfKey(ExitEvents(c, enter, Leavers(keys, present, last, ts)), key) ==
            if key in keys && Leaving(key, present, last, ts) then [ExitEvent(c, key, ts, enter[key])] else []
  {
    if |keys| > 0 {
      var front, k := keys[..|keys| - 1], keys[|keys| - 1];
      assert keys == front + [k];
      LeaversOfKey(c, enter, front, present, last, ts, key);
      var fore, all := Leavers(front, present, last, ts), Leavers(keys, present, last, ts);
      if Leaving(k, present, last, ts) {
        ExitEventsLast(c, enter, fore, Closing(k, ts), key);
      } else {
        assert all == fore;
      }
    }
  }

  lemma {:induction false} SilentsOfKey(c: Config, enter: map<Key, Time>, keys: seq<Key>, last: map<int, Time>,
                                        ts: Time, maxSilence: int, key: Key)
    requires Distinct(keys) && forall k :: k in keys ==> k in enter
    ensures Pending(Silents(keys, last, ts, maxSilence), enter)
    ensures OfKey(ExitEvents(c, enter, Silents(keys, last, ts, maxSilence)), key) ==
            if key in keys && Silent(key.tid, last, ts, maxSilence)
            then [ExitEvent(c, key, last[key.tid], enter[key])] else []
  {
    if |keys| > 0 {
      var front, k := keys[..|keys| - 1], keys[|keys| - 1];
      assert keys == front + [k];
      SilentsOfKey(c, enter, front, last, ts, maxSilence, key);
      var fore, all := Silents(front, last, ts, maxSilence), Silents(keys, last, ts, maxSilence);
      if Silent(k.tid, last, ts, maxSilence) {
        ExitEventsLast(c, enter, fore, Closing(k, last[k.tid]), key);
      } else {
        assert all == fore;
      }
    }
  }

  lemma ExitEventsLast(c: Config, enter: map<Key, Time>, fore: seq<Closing>, x: Closing, key: Key)
    requires Pending(fore, enter) && x.key in enter
    ensures Pending(fore + [x], enter)
    ensures OfKey(ExitEvents(c, enter, fore + [x]), key) ==
            OfKey(ExitEvents(c, enter, fore), key) + if x.key == key then [ExitEvent(c, key, x.at, enter[key])] else []
  {
    assert (fore + [x])[..|fore|] == fore;
    var one := [ExitEvent(c, x.key, x.at, enter[x.key])];
    OfKeyAppend(ExitEvents(c, enter, fore), one, key);
    OfKeyOne(one, key);
  }

  /** The events of `key` in one update: at most an ENTER, then an EXIT for leaving or an EXIT for silence. */
  ghost function KeyEvents(c: Config, st: State, dets: seq<Detection>, ts: Time, key: Key): seq<ZoneEvent> {
    var inside := InZone(c.zones, dets, key);
    var seen := SeenTime(st, dets, ts, key.tid);
    var since := if key in st.enter.vals then st.enter.vals[key] else ts;
    (if inside && key !in st.enter.vals then [EnterEvent(c, key, ts)] else []) +
    if key !in st.enter.vals && !inside then []
    else if !inside && seen == Some(ts) then [ExitEvent(c, key, ts, since)]
    else if seen.Some? && ts - seen.value > c.maxSilence then [ExitEvent(c, key, seen.value, since)]
    else []
  }

  lemma LeaveKeyEvents(c: Config, st: State, dets: seq<Detection>, ts: Time, key: Key, hits: seq<Key>, seen: State)
    requires Valid(st) && hits == Sightings(c.zones, dets, |dets|) && seen == AfterSightings(c, st, dets, ts)
    ensures OfKey(ExitEvents(c, seen.enter.vals, LeaversOf(seen, hits, ts)), key) ==
            if key in st.enter.vals && !InZone(c.zones, dets, key) && SeenTime(st, dets, ts, key.tid) == Some(ts)
            then [ExitEvent(c, key, ts, st.enter.vals[key])] else []
  {
    assert dets[..|dets|] == dets;
    SightingsAre(c.zones, dets, |dets|, key);
    AfterSightingsIs(c, st, dets, ts, key);
    LeaversOfKey(c, seen.enter.vals, seen.enter.order, (set k | k in hits), seen.last.vals, ts, key);
  }

  lemma SilenceKeyEvents(c: Config, st: State, dets: seq<Detection>, ts: Time, key: Key, hits: seq<Key>, seen: State,
                         left: State)
    requires Valid(st) && hits == Sightings(c.zones, dets, |dets|) && seen == AfterSightings(c, st, dets, ts)
    requires left == AfterExits(seen, hits, ts)
    ensures var s, inside := SeenTime(st, dets, ts, key.tid), InZone(c.zones, dets, key);
            OfKey(ExitEvents(c, left.enter.vals, SilentsOf(c, left, ts)), key) ==
            if (key in st.enter.vals || inside) && !(!inside && s == Some(ts)) && s.Some? && ts - s.value > c.maxSilence
            then [ExitEvent(c, key, s.value, if key in st.enter.vals then st.enter.vals[key] else ts)] else []
  {
    assert dets[..|dets|] == dets;
    SightingsAre(c.zones, dets, |dets|, key);
    AfterSightingsIs(c, st, dets, ts, key);
    AfterExitsIs(seen, hits, ts, key);
    SilentsOfKey(c, left.enter.vals, left.enter.order, left.last.vals, ts, c.maxSilence, key);
  }

  lemma KeyEventsJoin(c: Config, st: State, dets: seq<Detection>, ts: Time, key: Key,
                      a: seq<ZoneEvent>, b: seq<ZoneEvent>, d: seq<ZoneEvent>)
    requires var inside, seen := InZone(c.zones, dets, key), SeenTime(st, dets, ts, key.tid);
             && OfKey(a, key) == (if inside && key !in st.enter.vals then [EnterEvent(c, key, ts)] else [])
             && OfKey(b, key) == (if key in st.enter.vals && !inside && seen == Some(ts)
                                  then [ExitEvent(c, key, ts, st.enter.vals[key])] else [])
             && OfKey(d, key) ==
                if (key in st.enter.vals || inside) && !(!inside && seen == Some(ts)) && seen.Some? &&
                  ts - seen.value > c.maxSilence
                then [ExitEvent(c, key, seen.value, if key in st.enter.vals then st.enter.vals[key] else ts)] else []
    ensures OfKey(a + b + d, key) == KeyEvents(c, st, dets, ts, key)
  {
    OfKeyAppend(a + b, d, key);
    OfKeyAppend(a, b, key);
  }

  lemma StepKeyEvents(c: Config, st: State, dets: seq<Detection>, ts: Time, key: Key)
    requires Valid(st)
    ensures OfKey(Events(c, st, dets, ts), key) == KeyEvents(c, st, dets, ts, key)
  {
    var hits := Sightings(c.zones, dets, |dets|);
    var seen := AfterSightings(c, st, dets, ts);
    var left := AfterExits(seen, hits, ts);
    assert dets[..|dets|] == dets;
    SightingsAre(c.zones, dets, |dets|, key);
    EntersOfKey(c, st.enter, hits, ts, key);
    LeaveKeyEvents(c, st, dets, ts, key, hits, seen);
    SilenceKeyEvents(c, st, dets, ts, key, hits, seen, left);
    KeyEventsJoin(c, st, dets, ts, key, EnterEvents(c, st.enter, hits, ts),
                  ExitEvents(c, seen.enter.vals, LeaversOf(seen, hits, ts)),
                  ExitEvents(c, left.enter.vals, SilentsOf(c, left, ts)));
  }

  // ---------------------------------------------------------------------------
  // Runs
  // ---------------------------------------------------------------------------

  const EMPTY: State := State(Dict([], map[]), Dict([], map[]))

  ghost predicate IsRun(c: Config, frames: seq<Frame>, states: seq<State>, outs: seq<seq<ZoneEvent>>) {
    && |states| == |frames| + 1 && |outs| == |frames| && states[0] == EMPTY
    && forall k :: 0 <= k < |frames| ==>
      && Valid(states[k])
      && states[k + 1] == Next(c, states[k], frames[k].dets, frames[k].ts)
      && outs[k] == Events(c, states[k], frames[k].dets, frames[k].ts)
  }

  lemma {:induction false} AllEnter(c: Config, enter: Dict<Key, Time>, hits: seq<Key>, ts: Time)
    ensures forall e :: e in EnterEvents(c, enter, hits, ts) ==> e.eventType == Enter
  {
    if |hits| > 0 {
      AllEnter(c, enter, hits[..|hits| - 1], ts);
    }
  }

  lemma {:induction false} AllExit(c: Config, enter: map<Key, Time>, closings: seq<Closing>)
    requires Pending(closings, enter)
    ensures forall e :: e in ExitEvents(c, enter, closings) ==> e.eventType == Exit
  {
    if |closings| > 0 {
      AllExit(c, enter, closings[..|closings| - 1]);
    }
  }

  /** A frame reports all its ENTERs before any EXIT. */
  lemma EntersFirst(c: Config, st: State, dets: seq<Detection>, ts: Time, i: nat, j: nat)
    requires Valid(st) && i < j < |Events(c, st, dets, ts)| && Events(c, st, dets, ts)[i].eventType == Exit
    ensures Events(c, st, dets, ts)[j].eventType == Exit
  {
    hide EnterEvents, ExitEvents;
    var hits := Sightings(c.zones, dets, |dets|);
    var seen := AfterSightings(c, st, dets, ts);
    var left := AfterExits(seen, hits, ts);
    var enters, leaves := EnterEvents(c, st.enter, hits, ts), ExitEvents(c, seen.enter.vals, LeaversOf(seen, hits, ts));
    var silences := ExitEvents(c, left.enter.vals, SilentsOf(c, left, ts));
    AllEnter(c, st.enter, hits, ts);
    AllExit(c, seen.enter.vals, LeaversOf(seen, hits, ts));
    AllExit(c, left.enter.vals, SilentsOf(c, left, ts));
    var exits := leaves + silences;
    assert Events(c, st, dets, ts) == enters + exits;
    assert forall k :: 0 <= k < |enters| ==> enters[k] in enters;
    assert i >= |enters| && exits[j - |enters|] in exits;
  }

  /** The first `n` frames' events, in the order emitted. */
  ghost function Emitted(outs: seq<seq<ZoneEvent>>, n: nat): seq<ZoneEvent>
    requires n <= |outs|
  {
    if n == 0 then [] else Emitted(outs, n - 1) + outs[n - 1]
  }

  ghost predicate Ordered(frames: seq<Frame>) {
    forall i, j :: 0 <= i < j < |frames| ==> frames[i].ts <= frames[j].ts
  }

  ghost predicate StrictlyOrdered(frames: seq<Frame>) {
    forall i, j :: 0 <= i < j < |frames| ==> frames[i].ts < frames[j].ts
  }

  function Clamped(d: int): int { if d >= 0 then d else 0 }

  /** Events of one key: ENTER, EXIT, ENTER, EXIT, ... each EXIT carrying the clamped time since its ENTER. */
  ghost predicate Alternates(s: seq<ZoneEvent>) {
    forall i :: 0 <= i < |s| ==> InTurn(s, i)
  }

  ghost predicate InTurn(s: seq<ZoneEvent>, i: nat)
    requires i < |s|
  {
    if i % 2 == 0 then s[i].eventType == Enter && s[i].dwell == None
    else s[i].eventType == Exit && s[i].dwell == Some(Clamped(s[i].ts - s[i - 1].ts))
  }

  /** The stream so far matches the open stay of the key, if any. */
  ghost predicate Matches(s: seq<ZoneEvent>, st: State, key: Key) {
    && Alternates(s)
    && (key in st.enter.vals <==> |s| % 2 == 1)
    && (key in st.enter.vals ==> st.enter.vals[key] == s[|s| - 1].ts)
  }

  ghost predicate Tracked(st: State, key: Key) {
    key in st.enter.vals ==> key.tid in st.last.vals
  }

  lemma AppendEnter(s: seq<ZoneEvent>, e: ZoneEvent)
    requires Alternates(s) && |s| % 2 == 0 && e.eventType == Enter && e.dwell == None
    ensures Alternates(s + [e]) && |s + [e]| % 2 == 1
  {
    forall i | 0 <= i < |s + [e]| ensures InTurn(s + [e], i) {
      if i < |s| { assert InTurn(s, i); }
    }
  }

  lemma AppendExit(s: seq<ZoneEvent>, e: ZoneEvent)
    requires Alternates(s) && |s| % 2 == 1 && e.eventType == Exit
    requires e.dwell == Some(Clamped(e.ts - s[|s| - 1].ts))
    ensures Alternates(s + [e]) && |s + [e]| % 2 == 0
  {
    forall i | 0 <= i < |s + [e]| ensures InTurn(s + [e], i) {
      if i < |s| { assert InTurn(s, i); }
    }
  }

  lemma KeyMatches(c: Config, st: State, dets: seq<Detection>, ts: Time, next: State, s: seq<ZoneEvent>, key: Key)
    requires Tracked(st, key) && Matches(s, st, key) && (InZone(c.zones, dets, key) ==> Here(dets, key.tid))
    requires key in next.enter.vals <==> OpenAfter(c, st, dets, ts, key)
    requires key in next.enter.vals ==> next.enter.vals[key] == if key in st.enter.vals then st.enter.vals[key] else ts
    requires key.tid in next.last.vals <==>
             SeenTime(st, dets, ts, key.tid).Some? && ts - SeenTime(st, dets, ts, key.tid).value <= c.maxSilence
    ensures Tracked(next, key) && Matches(s + KeyEvents(c, st, dets, ts, key), next, key)
  {
    var ks := KeyEvents(c, st, dets, ts, key);
    var inside, seen := InZone(c.zones, dets, key), SeenTime(st, dets, ts, key.tid);
    if key in st.enter.vals {
      if !inside && seen == Some(ts) {
        assert ks == [ExitEvent(c, key, ts, st.enter.vals[key])];
        AppendExit(s, ExitEvent(c, key, ts, st.enter.vals[key]));
      } else if ts - seen.value > c.maxSilence {
        assert ks == [ExitEvent(c, key, seen.value, st.enter.vals[key])];
        AppendExit(s, ExitEvent(c, key, seen.value, st.enter.vals[key]));
      } else {
        assert ks == [] && s + ks == s;
      }
    } else if inside {
      var entered := s + [EnterEvent(c, key, ts)];
      AppendEnter(s, EnterEvent(c, key, ts));
      if 0 > c.maxSilence {
        AppendExit(entered, ExitEvent(c, key, ts, ts));
        assert s + ks == entered + [ExitEvent(c, key, ts, ts)];
      } else {
        assert ks == [EnterEvent(c, key, ts)];
      }
    } else {
      assert ks == [] && s + ks == s;
    }
  }

  lemma StepMatches(c: Config, st: State, dets: seq<Detection>, ts: Time, next: State, s: seq<ZoneEvent>, key: Key)
    requires Valid(st) && next == Next(c, st, dets, ts) && Tracked(st, key) && Matches(s, st, key)
    ensures Tracked(next, key) && Matches(s + KeyEvents(c, st, dets, ts, key), next, key)
  {
    NextIs(c, st, dets, ts, next, key);
    HereIfInZone(c.zones, dets, key);
    KeyMatches(c, st, dets, ts, next, s, key);
  }

  lemma HereIfInZone(zones: seq<Zone>, dets: seq<Detection>, key: Key)
    ensures InZone(zones, dets, key) ==> Here(dets, key.tid)
  {
    if InZone(zones, dets, key) {
      var i, z :| 0 <= i < |dets| && InZoneBy(zones, dets[i], z, key);
      assert dets[i].trackerId == Some(key.tid);
    }
  }

  /**
   For any timestamps, repeated or going backwards too: the events of a key alternate ENTER and EXIT,
   every dwell is the time since the ENTER clamped at zero, and the key is open exactly after an ENTER.
   */
  lemma {:induction false} KeyStreamAlternates(c: Config, frames: seq<Frame>, states: seq<State>,
                                               outs: seq<seq<ZoneEvent>>, n: nat, key: Key)
    requires IsRun(c, frames, states, outs) && n <= |frames|
    ensures Matches(OfKey(Emitted(outs, n), key), states[n], key) && Tracked(states[n], key)
  {
    if n > 0 {
      KeyStreamAlternates(c, frames, states, outs, n - 1, key);
      var f := frames[n - 1];
      StepKeyEvents(c, states[n - 1], f.dets, f.ts, key);
      OfKeyAppend(Emitted(outs, n - 1), outs[n - 1], key);
      assert states[n - 1 + 1] == Next(c, states[n - 1], f.dets, f.ts);
      StepMatches(c, states[n - 1], f.dets, f.ts, states[n], OfKey(Emitted(outs, n - 1), key), key);
    }
  }

  // ---------------------------------------------------------------------------
  // Frames in time order
  // ---------------------------------------------------------------------------

  ghost predicate InTimeOrder(s: seq<ZoneEvent>) {
    forall i, j :: 0 <= i < j < |s| ==> s[i].ts <= s[j].ts
  }

  /** No later than the open stay began, or than `now` when there is none. */
  ghost predicate Before(s: seq<ZoneEvent>, bound: Time, t0: Time) {
    forall i :: 0 <= i < |s| ==> t0 <= s[i].ts <= bound
  }

  ghost predicate Timely(s: seq<ZoneEvent>, st: State, key: Key, t0: Time, now: Time) {
    && t0 <= now && InTimeOrder(s) && Before(s, if key in st.enter.vals then st.enter.vals[key] else now, t0)
    && (key.tid in st.last.vals ==> st.last.vals[key.tid] <= now)
    && (key in st.enter.vals ==> key.tid in st.last.vals && t0 <= st.enter.vals[key] <= st.last.vals[key.tid])
  }

  lemma AppendTimely(s: seq<ZoneEvent>, e: ZoneEvent, bound: Time, t0: Time)
    requires InTimeOrder(s) && Before(s, bound, t0) && t0 <= bound <= e.ts
    ensures InTimeOrder(s + [e]) && Before(s + [e], e.ts, t0)
  {
  }

  lemma StepTimely(c: Config, st: State, dets: seq<Detection>, ts: Time, next: State, s: seq<ZoneEvent>, key: Key,
                   t0: Time, now: Time)
    requires Valid(st) && next == Next(c, st, dets, ts) && Timely(s, st, key, t0, now) && now <= ts
    ensures Timely(s + KeyEvents(c, st, dets, ts, key), next, key, t0, ts)
  {
    NextIs(c, st, dets, ts, next, key);
    HereIfInZone(c.zones, dets, key);
    var ks := KeyEvents(c, st, dets, ts, key);
    if key in st.enter.vals {
      OpenTimely(c, st, dets, ts, s, ks, key, t0, now);
    } else if InZone(c.zones, dets, key) {
      EnteringTimely(c, st, dets, ts, s, ks, key, t0, now);
    } else {
      assert ks == [] && s + ks == s;
    }
  }

  lemma OpenTimely(c: Config, st: State, dets: seq<Detection>, ts: Time, s: seq<ZoneEvent>, ks: seq<ZoneEvent>,
                   key: Key, t0: Time, now: Time)
    requires Timely(s, st, key, t0, now) && now <= ts && key in st.enter.vals
    requires ks == KeyEvents(c, st, dets, ts, key)
    ensures InTimeOrder(s + ks) && Before(s + ks, if |ks| == 0 then st.enter.vals[key] else ts, t0)
  {
    var since, seen := st.enter.vals[key], SeenTime(st, dets, ts, key.tid);
    if !InZone(c.zones, dets, key) && seen == Some(ts) {
      assert ks == [ExitEvent(c, key, ts, since)];
      AppendTimely(s, ks[0], since, t0);
    } else if ts - seen.value > c.maxSilence {
      assert ks == [ExitEvent(c, key, seen.value, since)];
      AppendTimely(s, ks[0], since, t0);
    } else {
      assert ks == [] && s + ks == s;
    }
  }

  lemma EnteringTimely(c: Config, st: State, dets: seq<Detection>, ts: Time, s: seq<ZoneEvent>, ks: seq<ZoneEvent>,
                       key: Key, t0: Time, now: Time)
    requires Timely(s, st, key, t0, now) && now <= ts && key !in st.enter.vals
    requires InZone(c.zones, dets, key) && Here(dets, key.tid)
    requires ks == KeyEvents(c, st, dets, ts, key)
    ensures InTimeOrder(s + ks) && Before(s + ks, ts, t0)
  {
    var entered := s + [EnterEvent(c, key, ts)];
    AppendTimely(s, EnterEvent(c, key, ts), now, t0);
    if 0 > c.maxSilence {
      assert s + ks == entered + [ExitEvent(c, key, ts, ts)];
      AppendTimely(entered, ExitEvent(c, key, ts, ts), ts, t0);
    } else {
      assert ks == [EnterEvent(c, key, ts)];
    }
  }

  lemma {:induction false} RunTimely(c: Config, frames: seq<Frame>, states: seq<State>, outs: seq<seq<ZoneEvent>>,
                                     n: nat, key: Key)
    requires IsRun(c, frames, states, outs) && 0 < n <= |frames| && Ordered(frames)
    ensures Timely(OfKey(Emitted(outs, n), key), states[n], key, frames[0].ts, frames[n - 1].ts)
  {
    var f := frames[n - 1];
    var s := OfKey(Emitted(outs, n - 1), key);
    StepKeyEvents(c, states[n - 1], f.dets, f.ts, key);
    OfKeyAppend(Emitted(outs, n - 1), outs[n - 1], key);
    assert states[n - 1 + 1] == Next(c, states[n - 1], f.dets, f.ts);
    if n == 1 {
      StepTimely(c, EMPTY, f.dets, f.ts, states[1], s, key, f.ts, f.ts);
    } else {
      RunTimely(c, frames, states, outs, n - 1, key);
      StepTimely(c, states[n - 1], f.dets, f.ts, states[n], s, key, frames[0].ts, frames[n - 2].ts);
    }
  }

  ghost function TotalDwell(s: seq<ZoneEvent>): int {
    if |s| == 0 then 0 else
      TotalDwell(s[..|s| - 1]) + if s[|s| - 1].dwell.Some? then s[|s| - 1].dwell.value else 0
  }

  lemma {:induction false} StaysFitInTime(s: seq<ZoneEvent>)
    requires Alternates(s) && InTimeOrder(s) && |s| > 0
    ensures TotalDwell(s) <= s[|s| - 1].ts - s[0].ts
  {
    var n := |s|;
    assert InTurn(s, n - 1);
    if n > 1 {
      var front := s[..n - 1];
      forall i | 0 <= i < n - 1 ensures InTurn(front, i) {
        assert InTurn(s, i);
      }
      if n % 2 == 0 && n > 2 {
        var stays := front[..n - 2];
        forall i | 0 <= i < n - 2 ensures InTurn(stays, i) {
          assert InTurn(front, i);
        }
        StaysFitInTime(stays);
        assert InTurn(front, n - 2);
      } else if n > 2 {
        StaysFitInTime(front);
      } else {
        assert InTurn(front, 0);
        assert TotalDwell(front[..0]) == 0;
      }
    }
  }

  /** In time order, each dwell exactly the time from its ENTER to its EXIT, all of them within `t0` to `now`. */
  ghost predicate SpentBetween(s: seq<ZoneEvent>, t0: Time, now: Time) {
    && InTimeOrder(s)
    && (forall i :: 0 <= i < |s| && i % 2 == 1 ==> s[i].dwell == Some(s[i].ts - s[i - 1].ts))
    && 0 <= TotalDwell(s) <= now - t0
  }

  /**
   Frames in time order, repeats allowed: the events of a key come in time order, a dwell is exactly the time
   from its ENTER to its EXIT, and all dwells of the key together fit in the time elapsed.
   */
  lemma DwellIsTimeSpent(c: Config, frames: seq<Frame>, states: seq<State>, outs: seq<seq<ZoneEvent>>, n: nat, key: Key)
    requires IsRun(c, frames, states, outs) && 0 < n <= |frames| && Ordered(frames)
    ensures SpentBetween(OfKey(Emitted(outs, n), key), frames[0].ts, frames[n - 1].ts)
  {
    RunTimely(c, frames, states, outs, n, key);
    KeyStreamAlternates(c, frames, states, outs, n, key);
    hide Next, Events, OfKey, Emitted;
    FitsBetween(OfKey(Emitted(outs, n), key), states[n], key, frames[0].ts, frames[n - 1].ts);
  }

  lemma FitsBetween(s: seq<ZoneEvent>, st: State, key: Key, t0: Time, now: Time)
    requires Timely(s, st, key, t0, now) && Matches(s, st, key)
    ensures SpentBetween(s, t0, now)
  {
    forall i | 0 <= i < |s| && i % 2 == 1 ensures s[i].dwell == Some(s[i].ts - s[i - 1].ts) {
      assert InTurn(s, i);
    }
    DwellNonNegative(s);
    if |s| > 0 {
      StaysFitInTime(s);
    }
  }

  lemma {:induction false} DwellNonNegative(s: seq<ZoneEvent>)
    requires Alternates(s)
    ensures TotalDwell(s) >= 0
  {
    if |s| > 0 {
      var front := s[..|s| - 1];
      forall i | 0 <= i < |front| ensures InTurn(front, i) {
        assert InTurn(s, i);
      }
      DwellNonNegative(front);
      assert InTurn(s, |s| - 1);
    }
  }

  // ---------------------------------------------------------------------------
  // Open stays as a function of the frame log
  // ---------------------------------------------------------------------------

  /** Number of the last of the first `n` frames that shows the track. */
  ghost function LastSighting(frames: seq<Frame>, n: nat, tid: int): (r: Option<nat>)
    requires n <= |frames|
    ensures r.Some? ==> r.value < n
  {
    if n == 0 then None
    else if Here(frames[n - 1].dets, tid) then Some(n - 1)
    else LastSighting(frames, n - 1, tid)
  }

  /** At time `now`, the last sighting among the first `n` frames is at most `maxSilence` old. */
  ghost predicate Recent(c: Config, frames: seq<Frame>, n: nat, now: Time, tid: int)
    requires n <= |frames|
  {
    var i := LastSighting(frames, n, tid);
    i.Some? && now - frames[i.value].ts <= c.maxSilence
  }

  /** ... and that sighting was inside a zone of the kind. */
  ghost predicate ShouldBeOpen(c: Config, frames: seq<Frame>, n: nat, key: Key)
    requires n <= |frames|
  {
    var i := LastSighting(frames, n, key.tid);
    && i.Some? && Recent(c, frames, n, frames[n - 1].ts, key.tid)
    && InZone(c.zones, frames[i.value].dets, key)
  }

  ghost predicate AgreesOn(c: Config, frames: seq<Frame>, n: nat, st: State, key: Key)
    requires n <= |frames|
  {
    var i := LastSighting(frames, n, key.tid);
    && (key in st.enter.vals <==> ShouldBeOpen(c, frames, n, key))
    && (key.tid in st.last.vals <==> i.Some? && Recent(c, frames, n, frames[n - 1].ts, key.tid))
    && (key.tid in st.last.vals ==> st.last.vals[key.tid] == frames[i.value].ts)
  }

  /** The engine remembers and keeps open exactly what the log of the first `n` frames says it should. */
  ghost predicate Agrees(c: Config, frames: seq<Frame>, n: nat, st: State)
    requires n <= |frames|
  {
    forall key :: AgreesOn(c, frames, n, st, key)
  }

  /** The clock stands still: the track is absent, yet its last sighting carries the very time of frame `n`. */
  ghost predicate Frozen(c: Config, frames: seq<Frame>, n: nat, key: Key)
    requires n < |frames|
  {
    var i := LastSighting(frames, n, key.tid);
    && !Here(frames[n].dets, key.tid) && i.Some? && frames[i.value].ts == frames[n].ts
    && c.maxSilence >= 0 && Recent(c, frames, n, frames[n - 1].ts, key.tid)
    && InZone(c.zones, frames[i.value].dets, key)
  }

  /** The clock goes back: the track is absent and already forgotten, yet frame `n` is close to its last sighting. */
  ghost predicate Rewound(c: Config, frames: seq<Frame>, n: nat, key: Key)
    requires n < |frames|
  {
    && n > 0 && !Here(frames[n].dets, key.tid)
    && Recent(c, frames, n, frames[n].ts, key.tid) && !Recent(c, frames, n, frames[n - 1].ts, key.tid)
  }

  ghost predicate InStep(c: Config, frames: seq<Frame>, n: nat, key: Key)
    requires n < |frames|
  {
    !Frozen(c, frames, n, key) && !Rewound(c, frames, n, key)
  }

  /** For any timestamps: a frame keeps engine and log in step unless the clock froze or went back on a key. */
  lemma StepAgreesOnIff(c: Config, frames: seq<Frame>, n: nat, st: State, next: State, key: Key)
    requires n < |frames| && Valid(st) && AgreesOn(c, frames, n, st, key)
    requires next == Next(c, st, frames[n].dets, frames[n].ts)
    ensures AgreesOn(c, frames, n + 1, next, key) <==> InStep(c, frames, n, key)
  {
    var f := frames[n];
    NextIs(c, st, f.dets, f.ts, next, key);
    HereIfInZone(c.zones, f.dets, key);
    assert LastSighting(frames, n + 1, key.tid) ==
      if Here(f.dets, key.tid) then Some(n) else LastSighting(frames, n, key.tid);
  }

  lemma StepAgreesIff(c: Config, frames: seq<Frame>, n: nat, st: State, next: State)
    requires n < |frames| && Valid(st) && Agrees(c, frames, n, st)
    requires next == Next(c, st, frames[n].dets, frames[n].ts)
    ensures Agrees(c, frames, n + 1, next) <==>
            forall key :: InStep(c, frames, n, key)
  {
    if Agrees(c, frames, n + 1, next) {
      forall key ensures InStep(c, frames, n, key) {
        assert AgreesOn(c, frames, n, st, key) && AgreesOn(c, frames, n + 1, next, key);
        StepAgreesOnIff(c, frames, n, st, next, key);
      }
    }
    if forall key :: InStep(c, frames, n, key) {
      var after := n + 1;
      forall key ensures AgreesOn(c, frames, after, next, key) {
        assert AgreesOn(c, frames, n, st, key) && InStep(c, frames, n, key);
        StepAgreesOnIff(c, frames, n, st, next, key);
      }
    }
  }

  /** One camera with a 10 by 10 queue zone and a person with their feet at its centre and most of them above it. */
  ghost predicate Demo(c: Config, person: Detection) {
    && c.zones == [Zone(Queue, Polygon.Rectangle(0.0, 10.0, 10.0, 20.0))] && c.maxSilence == 15 * SECOND
    && person.bbox == BBox(4.0, 2.0, 6.0, 15.0) && person.trackerId == Some(1)
  }

  lemma DemoInside(c: Config, person: Detection)
    requires Demo(c, person)
    ensures InZone(c.zones, [person], Key(1, Queue)) && Here([person], 1) && !Here([], 1)
  {
    Polygon.InsideRectangle(person.bbox.Anchor(), 0.0, 10.0, 10.0, 20.0);
    assert InZoneBy(c.zones, [person][0], 0, Key(1, Queue));
    assert [person][0].trackerId == Some(1);
  }

  /** Two frames with the same time: whoever is missing from the second is closed at once, zero seconds after. */
  lemma RepeatedTimeClosesEarly(c: Config, person: Detection, frames: seq<Frame>, states: seq<State>,
                                outs: seq<seq<ZoneEvent>>)
    requires Demo(c, person) && IsRun(c, frames, states, outs)
    requires frames == [Frame(0, [person]), Frame(0, [])]
    ensures ShouldBeOpen(c, frames, 2, Key(1, Queue)) && Key(1, Queue) !in states[2].enter.vals
  {
    DemoInside(c, person);
    var key := Key(1, Queue);
    assert states[0 + 1] == Next(c, states[0], frames[0].dets, 0);
    assert states[1 + 1] == Next(c, states[1], frames[1].dets, 0);
    NextIs(c, states[0], [person], 0, states[1], key);
    NextIs(c, states[1], [], 0, states[2], key);
    assert LastSighting(frames, 1, 1) == Some(0) && LastSighting(frames, 2, 1) == Some(0);
  }

  /** A replayed old frame: the person expired at 20 s is not brought back by a frame dated 5 s. */
  lemma ReplayedFrameStaysClosed(c: Config, person: Detection, frames: seq<Frame>, states: seq<State>,
                                 outs: seq<seq<ZoneEvent>>)
    requires Demo(c, person) && IsRun(c, frames, states, outs)
    requires frames == [Frame(0, [person]), Frame(20 * SECOND, []), Frame(5 * SECOND, [])]
    ensures ShouldBeOpen(c, frames, 3, Key(1, Queue)) && Key(1, Queue) !in states[3].enter.vals
  {
    DemoInside(c, person);
    var key := Key(1, Queue);
    assert states[0 + 1] == Next(c, states[0], frames[0].dets, frames[0].ts);
    assert states[1 + 1] == Next(c, states[1], frames[1].dets, frames[1].ts);
    assert states[2 + 1] == Next(c, states[2], frames[2].dets, frames[2].ts);
    NextIs(c, states[0], [person], 0, states[1], key);
    NextIs(c, states[1], [], 20 * SECOND, states[2], key);
    NextIs(c, states[2], [], 5 * SECOND, states[3], key);
    assert !InZone(c.zones, [], key);
    assert LastSighting(frames, 1, 1) == Some(0) && LastSighting(frames, 2, 1) == Some(0);
  }

  lemma {:induction false} InStepAgrees(c: Config, frames: seq<Frame>, states: seq<State>, outs: seq<seq<ZoneEvent>>,
                                        n: nat)
    requires IsRun(c, frames, states, outs) && n <= |frames|
    requires forall k: nat, key :: k < n ==> InStep(c, frames, k, key)
    ensures Agrees(c, frames, n, states[n])
  {
    if n > 0 {
      InStepAgrees(c, frames, states, outs, n - 1);
      StepsTo(c, frames, states, outs, n - 1);
      StepAgreesIff(c, frames, n - 1, states[n - 1], states[n]);
    }
  }

  lemma StepsTo(c: Config, frames: seq<Frame>, states: seq<State>, outs: seq<seq<ZoneEvent>>, k: nat)
    requires IsRun(c, frames, states, outs) && k < |frames|
    ensures Valid(states[k]) && states[k + 1] == Next(c, states[k], frames[k].dets, frames[k].ts)
    ensures outs[k] == Events(c, states[k], frames[k].dets, frames[k].ts)
  {
  }

  /**
   For any timestamps: the engine agrees with the frame log after every frame of a run if and only if the clock never
   froze or went back on a key.
   */
  lemma RunAgreesIff(c: Config, frames: seq<Frame>, states: seq<State>, outs: seq<seq<ZoneEvent>>)
    requires IsRun(c, frames, states, outs)
    ensures (forall n: nat :: n <= |frames| ==> Agrees(c, frames, n, states[n])) <==>
            forall n: nat, key :: n < |frames| ==> InStep(c, frames, n, key)
  {
    assert |states| == |frames| + 1;
    hide Next, Events, InStep, IsRun, Agrees;
    if forall n: nat :: n <= |frames| ==> Agrees(c, frames, n, states[n]) {
      forall n: nat, key | n < |frames| ensures InStep(c, frames, n, key) {
        StepsTo(c, frames, states, outs, n);
        assert Agrees(c, frames, n + 1, states[n + 1]);
        StepAgreesIff(c, frames, n, states[n], states[n + 1]);
      }
    }
    if forall n: nat, key :: n < |frames| ==> InStep(c, frames, n, key) {
      forall n: nat | n <= |frames| ensures Agrees(c, frames, n, states[n]) {
        InStepAgrees(c, frames, states, outs, n);
      }
    }
  }

  /** With strictly increasing frame times the open stays are a pure function of the log, after any run. */
  lemma {:induction false} OpenStaysAreRecentSightings(c: Config, frames: seq<Frame>, states: seq<State>,
                                                       outs: seq<seq<ZoneEvent>>, n: nat)
    requires IsRun(c, frames, states, outs) && n <= |frames| && StrictlyOrdered(frames)
    ensures Agrees(c, frames, n, states[n])
  {
    if n > 0 {
      OpenStaysAreRecentSightings(c, frames, states, outs, n - 1);
      assert states[n - 1 + 1] == Next(c, states[n - 1], frames[n - 1].dets, frames[n - 1].ts);
      StepAgreesIff(c, frames, n - 1, states[n - 1], states[n]);
    }
  }

  ghost function TidsShown(frames: seq<Frame>, n: nat): set<int>
    requires n <= |frames|
  {
    if n == 0 then {} else
      TidsShown(frames, n - 1) + set d | d in frames[n - 1].dets && d.trackerId.Some? :: d.trackerId.value
  }

  /** How many tracks the log puts inside zones of a kind. */
  ghost function LogOccupancy(c: Config, frames: seq<Frame>, n: nat, kind: ZoneKind): nat
    requires n <= |frames|
  {
    |set tid | tid in TidsShown(frames, n) && ShouldBeOpen(c, frames, n, Key(tid, kind))|
  }

  lemma {:induction false} SightedIsShown(frames: seq<Frame>, n: nat, tid: int)
    requires n <= |frames| && LastSighting(frames, n, tid).Some?
    ensures tid in TidsShown(frames, n)
  {
    if Here(frames[n - 1].dets, tid) {
      var i :| 0 <= i < |frames[n - 1].dets| && frames[n - 1].dets[i].trackerId == Some(tid);
      assert frames[n - 1].dets[i] in frames[n - 1].dets;
    } else {
      SightedIsShown(frames, n - 1, tid);
    }
  }

  ghost function TidsOfKind(keys: seq<Key>, kind: ZoneKind): set<int> {
    set key | key in keys && key.kind == kind :: key.tid
  }

  lemma OneMoreTid(front: seq<Key>, last: Key, kind: ZoneKind)
    requires last !in front
    ensures last.kind == kind ==> TidsOfKind(front + [last], kind) == TidsOfKind(front, kind) + {last.tid}
    ensures last.kind == kind ==> last.tid !in TidsOfKind(front, kind)
    ensures last.kind != kind ==> TidsOfKind(front + [last], kind) == TidsOfKind(front, kind)
  {
    assert last == Key(last.tid, last.kind);
  }

  lemma {:induction false} CountKindIs(keys: seq<Key>, kind: ZoneKind)
    requires Distinct(keys)
    ensures CountKind(keys, kind) == |TidsOfKind(keys, kind)|
  {
    if |keys| > 0 {
      var front, last := keys[..|keys| - 1], keys[|keys| - 1];
      CountKindIs(front, kind);
      assert keys == front + [last];
      OneMoreTid(front, last, kind);
    }
  }

  lemma RunValid(c: Config, frames: seq<Frame>, states: seq<State>, outs: seq<seq<ZoneEvent>>, n: nat)
    requires IsRun(c, frames, states, outs) && n <= |frames|
    ensures Valid(states[n])
  {
    if n == |frames| && n > 0 {
      assert states[n - 1 + 1] == Next(c, states[n - 1], frames[n - 1].dets, frames[n - 1].ts);
      NextIs(c, states[n - 1], frames[n - 1].dets, frames[n - 1].ts, states[n], Key(0, Queue));
    }
  }

  lemma AgreeingOccupancy(c: Config, frames: seq<Frame>, n: nat, st: State, kind: ZoneKind)
    requires n <= |frames| && Valid(st) && Agrees(c, frames, n, st)
    ensures CountKind(st.enter.order, kind) == LogOccupancy(c, frames, n, kind)
  {
    var order := st.enter.order;
    CountKindIs(order, kind);
    forall tid ensures tid in TidsOfKind(order, kind) <==>
                       tid in TidsShown(frames, n) && ShouldBeOpen(c, frames, n, Key(tid, kind)) {
      var key := Key(tid, kind);
      assert AgreesOn(c, frames, n, st, key);
      assert key in order <==> key in st.enter.vals;
      if ShouldBeOpen(c, frames, n, key) {
        SightedIsShown(frames, n, tid);
        assert key.tid in TidsOfKind(order, kind);
      }
    }
    assert TidsOfKind(order, kind) ==
      set tid | tid in TidsShown(frames, n) && ShouldBeOpen(c, frames, n, Key(tid, kind));
  }

  /** So the engine's occupancy is the number of tracks the log puts inside. */
  lemma OccupancyIsLogOccupancy(c: Config, frames: seq<Frame>, states: seq<State>, outs: seq<seq<ZoneEvent>>, n: nat,
                                kind: ZoneKind)
    requires IsRun(c, frames, states, outs) && n <= |frames| && StrictlyOrdered(frames)
    ensures CountKind(states[n].enter.order, kind) == LogOccupancy(c, frames, n, kind)
  {
    OpenStaysAreRecentSightings(c, frames, states, outs, n);
    RunValid(c, frames, states, outs, n);
    AgreeingOccupancy(c, frames, n, states[n], kind);
  }
}
