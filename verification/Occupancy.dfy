/** What a camera's `occupancy` is in terms of the events it has emitted. */
module Occupancy {
  import opened Schemas
  import opened Dicts
  import opened Zones
  import opened ZoneRuns

  /** How many events of a type a stream holds for zones of a kind. */
  function Count(evs: seq<ZoneEvent>, eventType: ZoneEventType, kind: ZoneKind): nat {
    if |evs| == 0 then 0 else
      var last := evs[|evs| - 1];
      Count(evs[..|evs| - 1], eventType, kind) + if last.eventType == eventType && last.zone == kind then 1 else 0
  }

  /** ENTERs less EXITs. */
  function Balance(evs: seq<ZoneEvent>, kind: ZoneKind): int {
    Count(evs, Enter, kind) - Count(evs, Exit, kind)
  }

  lemma {:induction false} CountAppend(a: seq<ZoneEvent>, b: seq<ZoneEvent>, eventType: ZoneEventType, kind: ZoneKind)
    ensures Count(a + b, eventType, kind) == Count(a, eventType, kind) + Count(b, eventType, kind)
  {
    if |b| == 0 {
      assert a + b == a;
    } else {
      CountAppend(a, b[..|b| - 1], eventType, kind);
      assert (a + b)[..|a + b| - 1] == a + b[..|b| - 1];
    }
  }

  lemma BalanceAppend(a: seq<ZoneEvent>, b: seq<ZoneEvent>, kind: ZoneKind)
    ensures Balance(a + b, kind) == Balance(a, kind) + Balance(b, kind)
  {
    CountAppend(a, b, Enter, kind);
    CountAppend(a, b, Exit, kind);
  }

  lemma BalanceOne(e: ZoneEvent, kind: ZoneKind)
    ensures Balance([e], kind) == if e.zone != kind then 0 else if e.eventType == Enter then 1 else -1
  {
    CountOne(e, Enter, kind);
    CountOne(e, Exit, kind);
  }

  lemma CountOne(e: ZoneEvent, eventType: ZoneEventType, kind: ZoneKind)
    ensures Count([e], eventType, kind) == if e.eventType == eventType && e.zone == kind then 1 else 0
  {
    assert Count([e][..0], eventType, kind) == 0;
  }

  // ---------------------------------------------------------------------------
  // One frame, phase by phase
  // ---------------------------------------------------------------------------

  lemma {:induction false} EntersBalance(c: Config, enter: Dict<Key, Time>, hits: seq<Key>, ts: Time, kind: ZoneKind)
    ensures CountKind(EnterAll(enter, hits, ts).order, kind) ==
            CountKind(enter.order, kind) + Balance(EnterEvents(c, enter, hits, ts), kind)
  {
    if |hits| > 0 {
      var front, key := hits[..|hits| - 1], hits[|hits| - 1];
      EntersBalance(c, enter, front, ts, kind);
      var prev := EnterAll(enter, front, ts);
      if key !in prev.vals {
        assert (prev.order + [key])[..|prev.order|] == prev.order;
        BalanceAppend(EnterEvents(c, enter, front, ts), [EnterEvent(c, key, ts)], kind);
        BalanceOne(EnterEvent(c, key, ts), kind);
      } else {
        assert EnterEvents(c, enter, hits, ts) == EnterEvents(c, enter, front, ts);
      }
    }
  }

  lemma {:induction false} WithoutAbsent(s: seq<Key>, x: Key)
    requires x !in s
    ensures Without(s, x) == s
  {
    if |s| > 0 {
      WithoutAbsent(s[..|s| - 1], x);
    }
  }

  lemma {:induction false} WithoutCount(s: seq<Key>, x: Key, kind: ZoneKind)
    requires Distinct(s) && x in s
    ensures CountKind(Without(s, x), kind) == CountKind(s, kind) - if x.kind == kind then 1 else 0
  {
    var front, last := s[..|s| - 1], s[|s| - 1];
    assert s == front + [last];
    if last == x {
      WithoutAbsent(front, x);
    } else {
      WithoutCount(front, x, kind);
      assert (Without(front, x) + [last])[..|Without(front, x)|] == Without(front, x);
    }
  }

  /** No stay is closed twice. */
  ghost predicate Once(closings: seq<Closing>) {
    forall i, j :: 0 <= i < j < |closings| ==> closings[i].key != closings[j].key
  }

  lemma {:induction false} LeaversOnce(keys: seq<Key>, present: set<Key>, last: map<int, Time>, ts: Time)
    requires Distinct(keys)
    ensures Once(Leavers(keys, present, last, ts))
  {
    if |keys| > 0 {
      var front, key := keys[..|keys| - 1], keys[|keys| - 1];
      assert key !in front;
      LeaversOnce(front, present, last, ts);
    }
  }

  lemma {:induction false} SilentsOnce(keys: seq<Key>, last: map<int, Time>, ts: Time, maxSilence: int)
    requires Distinct(keys)
    ensures Once(Silents(keys, last, ts, maxSilence))
  {
    if |keys| > 0 {
      var front, key := keys[..|keys| - 1], keys[|keys| - 1];
      assert key !in front;
      SilentsOnce(front, last, ts, maxSilence);
    }
  }

  lemma {:induction false} ExitsBalance(c: Config, enter: Dict<Key, Time>, closings: seq<Closing>, kind: ZoneKind)
    requires enter.Valid() && Pending(closings, enter.vals) && Once(closings)
    ensures CountKind(CloseAll(enter, closings).order, kind) ==
            CountKind(enter.order, kind) + Balance(ExitEvents(c, enter.vals, closings), kind)
  {
    if |closings| > 0 {
      var front, x := closings[..|closings| - 1], closings[|closings| - 1];
      assert closings == front + [x];
      ExitsBalance(c, enter, front, kind);
      CloseAllIs(enter, front);
      var e := ExitEvent(c, x.key, x.at, enter.vals[x.key]);
      WithoutCount(CloseAll(enter, front).order, x.key, kind);
      BalanceAppend(ExitEvents(c, enter.vals, front), [e], kind);
      BalanceOne(e, kind);
    }
  }

  lemma FrameBalance(c: Config, st: State, dets: seq<Detection>, ts: Time, kind: ZoneKind)
    requires Valid(st)
    ensures CountKind(Next(c, st, dets, ts).enter.order, kind) ==
            CountKind(st.enter.order, kind) + Balance(Events(c, st, dets, ts), kind)
  {
    hide CountKind, Balance, Leavers, Silents, CloseAll, EnterAll, EnterEvents, ExitEvents, Touch, Forget, Sightings;
    var hits := Sightings(c.zones, dets, |dets|);
    var seen := AfterSightings(c, st, dets, ts);
    var left := AfterExits(seen, hits, ts);
    var leavers, silents := LeaversOf(seen, hits, ts), SilentsOf(c, left, ts);
    EntersBalance(c, st.enter, hits, ts, kind);
    LeaversOnce(seen.enter.order, (set k | k in hits), seen.last.vals, ts);
    ExitsBalance(c, seen.enter, leavers, kind);
    SilentsOnce(left.enter.order, left.last.vals, ts, c.maxSilence);
    ExitsBalance(c, left.enter, silents, kind);
    var enters, exits := EnterEvents(c, st.enter, hits, ts), ExitEvents(c, seen.enter.vals, leavers);
    BalanceAppend(enters, exits, kind);
    BalanceAppend(enters + exits, ExitEvents(c, left.enter.vals, silents), kind);
  }

  /** For any timestamps, on every run: how many stays a camera has open is its ENTERs so far less its EXITs. */
  lemma {:induction false} OccupancyIsBalance(c: Config, frames: seq<Frame>, states: seq<State>,
                                              outs: seq<seq<ZoneEvent>>, n: nat, kind: ZoneKind)
    requires IsRun(c, frames, states, outs) && n <= |frames|
    ensures CountKind(states[n].enter.order, kind) ==
            Count(Emitted(outs, n), Enter, kind) - Count(Emitted(outs, n), Exit, kind)
  {
    if n > 0 {
      OccupancyIsBalance(c, frames, states, outs, n - 1, kind);
      StepsTo(c, frames, states, outs, n - 1);
      hide CountKind, Next, Events, Count;
      FrameBalance(c, states[n - 1], frames[n - 1].dets, frames[n - 1].ts, kind);
      BalanceAppend(Emitted(outs, n - 1), outs[n - 1], kind);
    }
  }
}
