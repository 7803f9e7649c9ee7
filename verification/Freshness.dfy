/** How old the stays behind an estimate can be: zone engine and wait engine taken together. */
module Freshness {
  import opened Deques
  import opened Schemas
  import opened Zones
  import opened ZoneRuns
  import WaitTime
  import WaitRuns

  // ---------------------------------------------------------------------------
  // How late a camera reports
  // ---------------------------------------------------------------------------

  /** Frames in time order, no two neighbours more than `delta` apart. */
  ghost predicate Steady(frames: seq<Frame>, delta: int) {
    forall k :: 0 < k < |frames| ==> 0 <= frames[k].ts - frames[k - 1].ts <= delta
  }

  /** Every track remembered was seen no later than `now`, and not too long before. */
  ghost predicate SeenLately(c: Config, st: State, now: Time) {
    forall tid :: tid in st.last.vals ==> 0 <= now - st.last.vals[tid] <= c.maxSilence
  }

  lemma {:induction false} InOfKey(evs: seq<ZoneEvent>, e: ZoneEvent)
    requires e in evs
    ensures e in OfKey(evs, Key(e.trackerId, e.zone))
  {
    var front, last := evs[..|evs| - 1], evs[|evs| - 1];
    assert evs == front + [last];
    if e in front {
      InOfKey(front, e);
    }
  }

  /** No event of a frame is dated after it, nor earlier than the longest silence plus one step before it. */
  lemma FrameReportsFresh(c: Config, st: State, dets: seq<Detection>, ts: Time, prev: Time, delta: int, e: ZoneEvent)
    requires Valid(st) && SeenLately(c, st, prev) && 0 <= ts - prev <= delta && c.maxSilence >= 0
    requires e in Events(c, st, dets, ts)
    ensures ts - (c.maxSilence + delta) <= e.ts <= ts
  {
    hide Events, OfKey, KeyEvents, SeenLately;
    var key := Key(e.trackerId, e.zone);
    InOfKey(Events(c, st, dets, ts), e);
    StepKeyEvents(c, st, dets, ts, key);
    KeyReportsFresh(c, st, dets, ts, prev, delta, key, e);
  }

  lemma KeyReportsFresh(c: Config, st: State, dets: seq<Detection>, ts: Time, prev: Time, delta: int, key: Key,
                        e: ZoneEvent)
    requires Valid(st) && SeenLately(c, st, prev) && 0 <= ts - prev <= delta && c.maxSilence >= 0
    requires e in KeyEvents(c, st, dets, ts, key)
    ensures ts - (c.maxSilence + delta) <= e.ts <= ts
  {
  }

  lemma StaysSeenLately(c: Config, st: State, dets: seq<Detection>, ts: Time, prev: Time, next: State)
    requires Valid(st) && SeenLately(c, st, prev) && prev <= ts && next == Next(c, st, dets, ts)
    ensures SeenLately(c, next, ts)
  {
    forall tid | tid in next.last.vals ensures 0 <= ts - next.last.vals[tid] <= c.maxSilence {
      NextIs(c, st, dets, ts, next, Key(tid, Queue));
    }
  }

  lemma {:induction false} RunSeenLately(c: Config, frames: seq<Frame>, states: seq<State>, outs: seq<seq<ZoneEvent>>,
                                         n: nat, delta: int)
    requires IsRun(c, frames, states, outs) && n < |frames| && Steady(frames, delta)
    ensures SeenLately(c, states[n], if n == 0 then frames[n].ts else frames[n - 1].ts)
  {
    if n > 0 {
      RunSeenLately(c, frames, states, outs, n - 1, delta);
      StepsTo(c, frames, states, outs, n - 1);
      hide Next, Events;
      var prev := if n == 1 then frames[0].ts else frames[n - 2].ts;
      StaysSeenLately(c, states[n - 1], frames[n - 1].dets, frames[n - 1].ts, prev, states[n]);
    }
  }

  lemma RunReportsFresh(c: Config, frames: seq<Frame>, states: seq<State>, outs: seq<seq<ZoneEvent>>, n: nat,
                        delta: int, e: ZoneEvent)
    requires IsRun(c, frames, states, outs) && n < |frames| && Steady(frames, delta)
    requires c.maxSilence >= 0 && delta >= 0 && e in outs[n]
    ensures frames[n].ts - (c.maxSilence + delta) <= e.ts <= frames[n].ts
  {
    RunSeenLately(c, frames, states, outs, n, delta);
    assert outs[n] == Events(c, states[n], frames[n].dets, frames[n].ts) && Valid(states[n]);
    hide Next, Events;
    var prev := if n == 0 then frames[n].ts else frames[n - 1].ts;
    FrameReportsFresh(c, states[n], frames[n].dets, frames[n].ts, prev, delta, e);
  }

  /** No event is dated more than `lag` before an earlier one. */
  ghost predicate LagWithin(evs: seq<ZoneEvent>, lag: int) {
    forall i, j :: 0 <= i < j < |evs| ==> evs[i].ts <= evs[j].ts + lag
  }

  ghost predicate NoneAfter(evs: seq<ZoneEvent>, now: Time) {
    forall e :: e in evs ==> e.ts <= now
  }

  lemma LagAppend(evs: seq<ZoneEvent>, more: seq<ZoneEvent>, was: Time, now: Time, lag: int)
    requires LagWithin(evs, lag) && NoneAfter(evs, was) && was <= now
    requires forall e :: e in more ==> now - lag <= e.ts <= now
    ensures LagWithin(evs + more, lag) && NoneAfter(evs + more, now)
  {
    var all := evs + more;
    forall i, j | 0 <= i < j < |all| ensures all[i].ts <= all[j].ts + lag {
      assert if i < |evs| then evs[i] in evs else more[i - |evs|] in more;
      assert j >= |evs| ==> more[j - |evs|] in more;
    }
  }

  /** Whatever a camera reports over a run is late by at most its longest silence and one frame. */
  lemma {:induction false} ReportsLagWithin(c: Config, frames: seq<Frame>, states: seq<State>,
                                            outs: seq<seq<ZoneEvent>>, n: nat, delta: int)
    requires IsRun(c, frames, states, outs) && n <= |frames| && Steady(frames, delta) && c.maxSilence >= 0 && delta >= 0
    ensures LagWithin(Emitted(outs, n), c.maxSilence + delta)
    ensures n > 0 ==> NoneAfter(Emitted(outs, n), frames[n - 1].ts)
  {
    if n > 0 {
      ReportsLagWithin(c, frames, states, outs, n - 1, delta);
      var lag, now := c.maxSilence + delta, frames[n - 1].ts;
      forall e | e in outs[n - 1] ensures now - lag <= e.ts <= now {
        RunReportsFresh(c, frames, states, outs, n - 1, delta, e);
      }
      assert n > 1 ==> frames[n - 2].ts <= now;
      hide IsRun, Steady;
      LagAppend(Emitted(outs, n - 1), outs[n - 1], if n == 1 then now else frames[n - 2].ts, now, lag);
    }
  }

  // ---------------------------------------------------------------------------
  // What that means for an estimate
  // ---------------------------------------------------------------------------

  /** The zone events reported for a location, in order of arrival. */
  ghost function Reported(log: seq<WaitRuns.Input>): seq<ZoneEvent> {
    if |log| == 0 then [] else
      Reported(log[..|log| - 1]) + if log[|log| - 1].ZoneIn? then [log[|log| - 1].ev] else []
  }

  ghost predicate SamplesLagWithin(s: seq<WaitTime.Sample>, lag: int) {
    forall i, j :: 0 <= i < j < |s| ==> s[i].at <= s[j].at + lag
  }

  lemma {:induction false} SampleWasReported(log: seq<WaitRuns.Input>, s: WaitTime.Sample) returns (e: ZoneEvent)
    requires s in WaitRuns.AllSamples(log)
    ensures e in Reported(log) && e.ts == s.at
  {
    var front, x := log[..|log| - 1], log[|log| - 1];
    if s in WaitRuns.AllSamples(front) {
      e := SampleWasReported(front, s);
    } else {
      e := x.ev;
    }
  }

  lemma {:induction false} SamplesLag(log: seq<WaitRuns.Input>, lag: int)
    requires LagWithin(Reported(log), lag)
    ensures SamplesLagWithin(WaitRuns.AllSamples(log), lag)
  {
    if |log| > 0 {
      var front, x := log[..|log| - 1], log[|log| - 1];
      var r, s := Reported(front), WaitRuns.AllSamples(front);
      assert forall i :: 0 <= i < |r| ==> Reported(log)[i] == r[i];
      SamplesLag(front, lag);
      if x.ZoneIn? {
        forall i | 0 <= i < |s| ensures s[i].at <= x.ev.ts + lag {
          var e := SampleWasReported(front, s[i]);
          var k :| 0 <= k < |r| && r[k] == e;
          assert Reported(log)[|r|] == x.ev;
        }
      }
    }
  }

  /** Popping heads leaves nothing older than the window by more than what is late by. */
  lemma LeftIsFresh(all: seq<WaitTime.Sample>, gone: seq<WaitTime.Sample>, left: seq<WaitTime.Sample>, now: Time,
                    window: int, lag: int)
    requires all == gone + left && SamplesLagWithin(all, lag) && lag >= 0
    ensures forall s :: s in WaitTime.DropOldSamples(left, now, window) ==> now - s.at <= window + lag
  {
    var stale := OldAt(WaitTime.SampledAt, now, window);
    var popped := Split(left, stale);
    var kept := Drop(left, stale);
    hide Drop;
    var k := |gone| + |popped|;
    assert all == (gone + popped) + kept;
    forall i | 0 <= i < |kept| ensures now - kept[i].at <= window + lag {
      assert kept[0] == all[k] && kept[i] == all[k + i];
      assert !stale(kept[0]) && WaitTime.SampledAt(kept[0]) == kept[0].at;
      assert now - kept[0].at <= window;
    }
  }

  /**
   If no report is dated more than `lag` before an earlier one, then nothing behind any estimate, asked for at any
   time, is older than the window by more than `lag`.
   */
  lemma EstimateIsFresh(c: WaitTime.Config, log: seq<WaitRuns.Input>, now: Time, lag: int)
    requires LagWithin(Reported(log), lag) && lag >= 0
    ensures forall s :: s in WaitTime.Trimmed(c, WaitRuns.After(c, log), now).dwell ==> now - s.at <= c.window + lag
  {
    SamplesLag(log, lag);
    WaitRuns.StateIsLog(c, log);
    LeftIsFresh(WaitRuns.AllSamples(log), WaitRuns.GoneSamples(c, log), WaitRuns.After(c, log).dwell, now, c.window,
      lag);
  }

  /**
   A location watched by one camera whose frames come in time order at most `delta` apart: no stay behind any estimate
   ended more than the window, the camera's longest silence and `delta` ago.
   */
  lemma CameraEstimateIsFresh(zc: Config, frames: seq<Frame>, states: seq<State>, outs: seq<seq<ZoneEvent>>, n: nat,
                              delta: int, c: WaitTime.Config, log: seq<WaitRuns.Input>, now: Time)
    requires IsRun(zc, frames, states, outs) && n <= |frames| && Steady(frames, delta)
    requires zc.maxSilence >= 0 && delta >= 0 && Reported(log) == Emitted(outs, n)
    ensures forall s :: s in WaitTime.Trimmed(c, WaitRuns.After(c, log), now).dwell ==>
              now - s.at <= c.window + zc.maxSilence + delta
  {
    ReportsLagWithin(zc, frames, states, outs, n, delta);
    hide Next, Events, Reported, Emitted;
    EstimateIsFresh(c, log, now, zc.maxSilence + delta);
  }

  // ---------------------------------------------------------------------------
  // Several cameras
  // ---------------------------------------------------------------------------

  /** A camera's run. */
  datatype Feed = Feed(config: Config, frames: seq<Frame>, states: seq<State>, outs: seq<seq<ZoneEvent>>)

  /** Which frame of which camera made an event. */
  datatype Origin = Origin(feed: nat, frame: nat)

  /** Frames in time order at most `delta` apart, lost tracks waited for at most `silence`. */
  ghost predicate SteadyFeed(f: Feed, delta: int, silence: int) {
    && IsRun(f.config, f.frames, f.states, f.outs) && Steady(f.frames, delta)
    && 0 <= f.config.maxSilence <= silence
  }

  predicate IsFrame(feeds: seq<Feed>, o: Origin) {
    o.feed < |feeds| && o.frame < |feeds[o.feed].frames| && o.frame < |feeds[o.feed].outs|
  }

  ghost predicate MadeBy(feeds: seq<Feed>, evs: seq<ZoneEvent>, origins: seq<Origin>) {
    && |origins| == |evs|
    && forall i :: 0 <= i < |evs| ==>
         IsFrame(feeds, origins[i]) && evs[i] in feeds[origins[i].feed].outs[origins[i].frame]
  }

  function ClockAt(feeds: seq<Feed>, o: Origin): Time
    requires IsFrame(feeds, o)
  {
    feeds[o.feed].frames[o.frame].ts
  }

  /** No event arrives from a frame dated more than `sigma` before that of an event that arrived earlier. */
  ghost predicate ClocksWithin(feeds: seq<Feed>, origins: seq<Origin>, sigma: int)
    requires forall i :: 0 <= i < |origins| ==> IsFrame(feeds, origins[i])
  {
    forall i, j :: 0 <= i < j < |origins| ==> ClockAt(feeds, origins[i]) <= ClockAt(feeds, origins[j]) + sigma
  }

  lemma FeedReportsFresh(f: Feed, n: nat, delta: int, silence: int, e: ZoneEvent)
    requires SteadyFeed(f, delta, silence) && delta >= 0 && n < |f.frames| && e in f.outs[n]
    ensures f.frames[n].ts - (silence + delta) <= e.ts <= f.frames[n].ts
  {
    RunReportsFresh(f.config, f.frames, f.states, f.outs, n, delta, e);
  }

  /**
   A location watched by any number of such cameras, their events arriving interleaved in any way that keeps clocks
   within `sigma`: no stay behind any estimate ended more than the window, the longest silence, `delta` and `sigma` ago.
   */
  lemma CamerasEstimateIsFresh(feeds: seq<Feed>, origins: seq<Origin>, delta: int, silence: int, sigma: int,
                               c: WaitTime.Config, log: seq<WaitRuns.Input>, now: Time)
    requires forall k :: 0 <= k < |feeds| ==> SteadyFeed(feeds[k], delta, silence)
    requires delta >= 0 && silence >= 0 && sigma >= 0
    requires MadeBy(feeds, Reported(log), origins) && ClocksWithin(feeds, origins, sigma)
    ensures forall s :: s in WaitTime.Trimmed(c, WaitRuns.After(c, log), now).dwell ==>
              now - s.at <= c.window + silence + delta + sigma
  {
    hide SteadyFeed, Reported;
    var evs := Reported(log);
    forall i, j | 0 <= i < j < |evs| ensures evs[i].ts <= evs[j].ts + (silence + delta + sigma) {
      var a, b := origins[i], origins[j];
      assert IsFrame(feeds, a) && IsFrame(feeds, b) && ClockAt(feeds, a) <= ClockAt(feeds, b) + sigma;
      FeedReportsFresh(feeds[a.feed], a.frame, delta, silence, evs[i]);
      FeedReportsFresh(feeds[b.feed], b.frame, delta, silence, evs[j]);
    }
    EstimateIsFresh(c, log, now, silence + delta + sigma);
  }
}
