/** What an estimate says, in terms of the stays, orders and people it is read off. */
module Estimates {
  import opened Arithmetic
  import opened Schemas
  import opened Stats
  import opened WaitTime
  import WaitRuns

  // ---------------------------------------------------------------------------
  // Figures
  // ---------------------------------------------------------------------------

  /** The tightest multiples of five minutes around the two, of two minutes if all is under ten; never empty. */
  ghost predicate IsBand(low: int, high: int, p50: real, p90: real) {
    var step := if p90 >= 10.0 then 5 else 2;
    && low % step == 0 && low as real <= p50 < (low + step) as real
    && high % step == 0 && low < high && p90 <= high as real
    && (high as real < p90 + step as real || high == low + step)
  }

  /** These two waits are published, to one decimal and as a band. */
  ghost predicate Figures(e: WaitEstimate, p50: real, p90: real) {
    && e.p50.Some? && e.p90.Some? && e.bandLow.Some? && e.bandHigh.Some?
    && IsRounded(e.p50.value, p50) && IsRounded(e.p90.value, p90)
    && IsBand(e.bandLow.value, e.bandHigh.value, p50, p90)
  }

  ghost predicate NoFigures(e: WaitEstimate) {
    e.p50 == None && e.p90 == None && e.bandLow == None && e.bandHigh == None
  }

  lemma MultipleDivides(n: int, step: int)
    requires WaitRuns.Multiple(n, step) && (step == 2 || step == 5)
    ensures n % step == 0
  {
  }

  lemma BuildIs(loc: Name, now: Time, queueLen: nat, p50: real, p90: real, source: WaitSource, n: nat)
    requires p50 <= p90
    ensures var e := Build(loc, now, queueLen, p50, p90, source, n);
            && Figures(e, p50, p90) && e.locationId == loc && e.ts == now && e.queueLength == queueLen
            && e.source == source && e.sampleSize == n
  {
    hide Round1, IsRounded;
    var (low, high) := Band(p50, p90);
    var step := if p90 >= 10.0 then 5 else 2;
    WaitRuns.BandLaws(p50, p90, step, low, high);
    MultipleDivides(low, step);
    MultipleDivides(high, step);
    Round1IsRounded(p50);
    Round1IsRounded(p90);
  }

  // ---------------------------------------------------------------------------
  // Stays
  // ---------------------------------------------------------------------------

  /** How long the stays took, in minutes. */
  function StayMinutes(s: seq<Sample>): seq<real> {
    seq(|s|, i requires 0 <= i < |s| => s[i].dwell as real / 60_000_000.0)
  }

  /** Of the stays ranked as in `x`, half took no longer than the one figure, nine in ten no longer than the other. */
  ghost predicate FromStays(e: WaitEstimate, x: seq<real>) {
    |x| > 0 && exists v, w :: IsPercentile(v, x, 50) && IsPercentile(w, x, 90) && Figures(e, v, w)
  }

  lemma StaysRanked(c: Config, s: LocState, loc: Name, now: Time, x: seq<real>)
    requires Defined(c, s, now) && VideoLive(c, s, now) && |s.dwell| >= c.minSamples
    requires Arranges(x, StayMinutes(s.dwell))
    ensures FromStays(EstimateOf(c, s, loc, now), x)
  {
    var m := Minutes(s.dwell);
    assert m == StayMinutes(s.dwell);
    PercentileByRank(m, x, 50);
    PercentileByRank(m, x, 90);
    PercentileLaws(m, 50.0, 90.0);
    BuildIs(loc, now, |s.inQueue|, Percentile(m, 50.0), Percentile(m, 90.0), Vision, |m|);
    hide Figures, IsPercentile, Percentile, Build;
    assert 50 as real == 50.0 && 90 as real == 90.0;
  }

  // ---------------------------------------------------------------------------
  // Orders
  // ---------------------------------------------------------------------------

  /** Little's law: so many people wait as long as it takes to serve them at the rate of `orders` in `minutes`. */
  ghost predicate IsWait(w: real, people: nat, orders: nat, minutes: real) {
    w * orders as real == people as real * minutes
  }

  ghost predicate FromOrders(e: WaitEstimate, people: nat, orders: nat, minutes: real) {
    exists w :: IsWait(w, people, orders, minutes) && Figures(e, w, w * 1.5)
  }

  lemma LittlesLaw(people: nat, orders: nat, minutes: real)
    requires orders > 0 && minutes > 0.0
    ensures orders as real / minutes > 0.0
    ensures var w := people as real / (orders as real / minutes);
            w >= 0.0 && IsWait(w, people, orders, minutes)
  {
    var rate := orders as real / minutes;
    assert rate * minutes == orders as real;
    if rate <= 0.0 {
      WaitRuns.Positive(minutes, 1.0);
      NonNegative(-rate, minutes);
    }
    var w := people as real / rate;
    WaitRuns.QuotientNonNegative(people as real, rate);
    assert w * rate == people as real;
    assert w * (rate * minutes) == (w * rate) * minutes;
  }

  /** The orders of the last five minutes. */
  ghost function OfLastFiveMinutes(orders: seq<Time>, n: nat, now: Time): set<int>
    requires n <= |orders|
  {
    set i | 0 <= i < n && now - orders[i] <= 300_000_000
  }

  lemma {:induction false} RecentOrdersAre(orders: seq<Time>, n: nat, now: Time)
    requires n <= |orders|
    ensures RecentOrders(orders, n, now) == |OfLastFiveMinutes(orders, n, now)|
  {
    if n > 0 {
      RecentOrdersAre(orders, n - 1, now);
      var front, all := OfLastFiveMinutes(orders, n - 1, now), OfLastFiveMinutes(orders, n, now);
      if now - orders[n - 1] <= 300_000_000 {
        assert all == front + {n - 1};
      } else {
        assert all == front;
      }
    } else {
      assert OfLastFiveMinutes(orders, 0, now) == {};
    }
  }

  /** By how much the orders of the last five minutes exceed the average of five. */
  ghost function Excess(orders: seq<Time>, now: Time, minutes: real): real
    requires minutes != 0.0
  {
    |OfLastFiveMinutes(orders, |orders|, now)| as real - |orders| as real / minutes * 5.0
  }

  /** Without video: as many people as that, to the nearest, if any. */
  ghost predicate FromOrdersAlone(e: WaitEstimate, orders: seq<Time>, now: Time, minutes: real)
    requires minutes != 0.0
  {
    exists g ::
      && Nearest(g, Excess(orders, now, minutes))
      && FromOrders(e, if g > 0 then g else 0, |orders|, minutes)
  }

  function WindowMinutes(c: Config): real { c.posWindow as real / 60_000_000.0 }

  /** Enough orders to tell a rate. */
  predicate Ordering(c: Config, s: LocState) { |s.orders| >= 3 && c.posWindow > 0 }

  lemma BuildFromOrders(loc: Name, now: Time, queueLen: nat, people: nat, orders: nat, minutes: real,
                        source: WaitSource, n: nat)
    requires orders > 0 && minutes > 0.0 && orders as real / minutes > 0.0
    ensures var w := people as real / (orders as real / minutes);
            FromOrders(Build(loc, now, queueLen, w, w * 1.5, source, n), people, orders, minutes)
  {
    hide Build, Figures, IsWait;
    LittlesLaw(people, orders, minutes);
    var w := people as real / (orders as real / minutes);
    BuildIs(loc, now, queueLen, w, w * 1.5, source, n);
    assert IsWait(w, people, orders, minutes);
  }

  // ---------------------------------------------------------------------------
  // The whole estimate
  // ---------------------------------------------------------------------------

  /** Video was alive a moment ago. */
  predicate SeesVideo(c: Config, s: LocState, now: Time) {
    s.lastVideo.Some? && now <= s.lastVideo.value + c.videoStaleAfter
  }

  /**
   With live video: who is in the queue, and waits from the stays if there are enough of them, none at all if nobody
   queues, else from the orders. Without it: waits from the orders alone. Without enough orders: no figures.
   */
  ghost predicate IsPublished(e: WaitEstimate, c: Config, s: LocState, loc: Name, now: Time) {
    && e.locationId == loc && e.ts == now
    && if SeesVideo(c, s, now) then
         && e.source == Vision && e.queueLength == |s.inQueue| && e.sampleSize == |s.dwell|
         && (if |s.dwell| >= c.minSamples then forall x :: Arranges(x, StayMinutes(s.dwell)) ==> FromStays(e, x)
             else if s.inQueue == {} then Figures(e, 0.0, 0.0)
             else if Ordering(c, s) then FromOrders(e, |s.inQueue|, |s.orders|, WindowMinutes(c))
             else NoFigures(e))
       else if Ordering(c, s) then
         && e.source == PosOnly && e.queueLength == 0 && e.sampleSize == |s.orders|
         && FromOrdersAlone(e, s.orders, now, WindowMinutes(c))
       else
         e.source == NoData && e.queueLength == 0 && e.sampleSize == 0 && NoFigures(e)
  }

  lemma EstimateIsPublished(c: Config, s: LocState, loc: Name, now: Time)
    requires Defined(c, s, now)
    ensures IsPublished(EstimateOf(c, s, loc, now), c, s, loc, now)
  {
    hide Figures, Build, Arranges, FromStays, FromOrders, FromOrdersAlone, PosEstimate, Percentile, StayMinutes;
    if !VideoLive(c, s, now) {
      AloneIsPublished(c, s, loc, now);
    } else if |s.dwell| >= c.minSamples {
      forall x | Arranges(x, StayMinutes(s.dwell)) ensures FromStays(EstimateOf(c, s, loc, now), x) {
        StaysRanked(c, s, loc, now, x);
      }
      SampledHeader(c, s, loc, now);
    } else if s.inQueue == {} {
      BuildIs(loc, now, 0, 0.0, 0.0, Vision, |s.dwell|);
    } else {
      QueueIsPublished(c, s, loc, now);
    }
  }

  lemma SampledHeader(c: Config, s: LocState, loc: Name, now: Time)
    requires Defined(c, s, now) && VideoLive(c, s, now) && |s.dwell| >= c.minSamples
    ensures var e := EstimateOf(c, s, loc, now);
            && e.locationId == loc && e.ts == now && e.source == Vision
            && e.queueLength == |s.inQueue| && e.sampleSize == |s.dwell|
  {
    hide Percentile, Band, Round1;
  }

  lemma QueueIsPublished(c: Config, s: LocState, loc: Name, now: Time)
    requires Defined(c, s, now) && VideoLive(c, s, now) && |s.dwell| < c.minSamples && s.inQueue != {}
    ensures IsPublished(EstimateOf(c, s, loc, now), c, s, loc, now)
  {
    hide Figures, Build, FromOrders;
    if Ordering(c, s) {
      var rate := Rate(c, s.orders);
      assert WindowMinutes(c) > 0.0;
      LittlesLaw(|s.inQueue|, |s.orders|, WindowMinutes(c));
      BuildFromOrders(loc, now, |s.inQueue|, |s.inQueue|, |s.orders|, WindowMinutes(c), Vision, |s.dwell|);
      var w := |s.inQueue| as real / rate;
      BuildIs(loc, now, |s.inQueue|, w, w * 1.5, Vision, |s.dwell|);
    }
  }

  lemma AloneIsPublished(c: Config, s: LocState, loc: Name, now: Time)
    requires Defined(c, s, now) && !VideoLive(c, s, now)
    ensures IsPublished(EstimateOf(c, s, loc, now), c, s, loc, now)
  {
    hide Figures, Build, FromOrders, Round, Nearest;
    if Ordering(c, s) {
      var n, minutes := |s.orders|, WindowMinutes(c);
      assert minutes > 0.0;
      RecentOrdersAre(s.orders, n, now);
      var excess := Excess(s.orders, now, minutes);
      var g := Round(excess);
      RoundIsNearest(excess, g);
      var people := if g > 0 then g else 0;
      LittlesLaw(people, n, minutes);
      BuildFromOrders(loc, now, 0, people, n, minutes, PosOnly, n);
      var w := people as real / (n as real / minutes);
      BuildIs(loc, now, 0, w, w * 1.5, PosOnly, n);
      assert PosEstimate(c, s.orders, now, None) == Some(w);
      assert Nearest(g, excess) && FromOrders(Build(loc, now, 0, w, w * 1.5, PosOnly, n), people, n, minutes);
    }
  }

  /** On every run: an estimate asked for no earlier than any trim so far says what the whole log would have it say. */
  lemma EstimateSaysLog(c: Config, log: seq<WaitRuns.Input>, loc: Name, now: Time)
    requires ValidConfig(c) && WaitRuns.NotBefore(now, log)
    ensures IsPublished(EstimateOf(c, Trimmed(c, WaitRuns.After(c, log), now), loc, now), c,
                        WaitRuns.LogState(c, log, now), loc, now)
  {
    hide EstimateOf, IsPublished, Trimmed, WaitRuns.LogState;
    WaitRuns.EstimateFromLog(c, log, loc, now);
    EstimateIsPublished(c, WaitRuns.LogState(c, log, now), loc, now);
  }
}
