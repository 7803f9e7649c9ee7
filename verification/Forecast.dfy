/** Bucketing and the seasonal-naive forecaster (forecast/service.py, models.py, features.py), on UTC time. */
module Forecast {
  import opened Schemas
  import opened Stats
  import opened BestWindows
  import Sorting

  datatype Obs = Obs(ts: Time, v: real)

  const STEP: int := 15 * MINUTE
  const DAY: int := 24 * 60 * MINUTE
  const WEEK: int := 7 * DAY

  function MinuteOfDay(ts: Time): int { ts / MINUTE % 1440 }

  /** Monday is 0; the epoch was a Thursday. */
  function Weekday(ts: Time): int { (ts / DAY + 3) % 7 }

  // ---------------------------------------------------------------------------
  // Buckets
  // ---------------------------------------------------------------------------

  /** Whole seconds, cut off toward zero. */
  function WholeSeconds(ts: Time): int {
    if ts >= 0 then ts / SECOND else -(-ts / SECOND)
  }

  function Bucket(ts: Time): Time {
    WholeSeconds(ts) / 900 * 900 * SECOND
  }

  /** A bucket holds the times mapped to it, except in the last second before a boundary ahead of the epoch. */
  lemma BucketHoldsIff(ts: Time)
    ensures Bucket(ts) % STEP == 0
    ensures Bucket(ts) <= ts < Bucket(ts) + STEP <==> ts >= 0 || ts % STEP <= STEP - SECOND
  {
    var m, r := ts / STEP, ts % STEP;
    assert ts == m * STEP + r;
    if ts >= 0 {
      var s := r / SECOND;
      assert WholeSeconds(ts) == m * 900 + s && 0 <= s < 900;
      assert WholeSeconds(ts) / 900 == m;
    } else {
      var s := -(-r / SECOND);
      assert -ts == -m * STEP - r;
      assert WholeSeconds(ts) == m * 900 - ((-r) / SECOND) by {
        assert -ts == (-m * 900) * SECOND + (-r);
      }
      var k := -((-r) / SECOND);
      assert 0 <= k <= 900 && (k == 900 <==> r > STEP - SECOND);
      assert k < 900 ==> WholeSeconds(ts) / 900 == m;
      assert k == 900 ==> WholeSeconds(ts) / 900 == m + 1;
    }
  }

  /** Values of the first `n` observations in a bucket. */
  function InBucket(obs: seq<Obs>, n: nat, b: Time): seq<real>
    requires n <= |obs|
  {
    if n == 0 then [] else
      var front := InBucket(obs, n - 1, b);
      if Bucket(obs[n - 1].ts) == b then front + [obs[n - 1].v] else front
  }

  predicate EarlierObs(a: Obs, b: Obs) { a.ts < b.ts || (a.ts == b.ts && a.v <= b.v) }

  ghost predicate Holds(byBucket: map<Time, seq<real>>, obs: seq<Obs>, n: nat)
    requires n <= |obs|
  {
    forall b :: (b in byBucket <==> |InBucket(obs, n, b)| > 0) && (b in byBucket ==> byBucket[b] == InBucket(obs, n, b))
  }

  /** Medians per bucket, in order: every bucket that was hit once, and no other. */
  method AggregateToBuckets(obs: seq<Obs>) returns (series: seq<Obs>)
    ensures forall i, j :: 0 <= i < j < |series| ==> series[i].ts < series[j].ts
    ensures forall b :: (exists i :: 0 <= i < |series| && series[i].ts == b) <==> |InBucket(obs, |obs|, b)| > 0
    ensures forall i :: 0 <= i < |series| && |InBucket(obs, |obs|, series[i].ts)| > 0 ==>
              series[i].v == Median(InBucket(obs, |obs|, series[i].ts))
    ensures Pooled(obs, |obs|, Stamps(series)) == Observed(obs, |obs|)
  {
    hide Median;
    var byBucket, order := Collect(obs);
    var medians := Medians(byBucket, order);
    series := Sorting.Sorted(medians, EarlierObs);
    SortedMedians(medians, series);
    BucketsCovered(obs, byBucket, order, medians, series);
    EachCountedOnce(obs, series);
  }

  function Stamps(series: seq<Obs>): seq<Time> {
    seq(|series|, i requires 0 <= i < |series| => series[i].ts)
  }

  ghost function Observed(obs: seq<Obs>, n: nat): multiset<real>
    requires n <= |obs|
  {
    if n == 0 then multiset{} else Observed(obs, n - 1) + multiset{obs[n - 1].v}
  }

  /** Everything in some buckets, bucket by bucket. */
  ghost function Pooled(obs: seq<Obs>, n: nat, buckets: seq<Time>): multiset<real>
    requires n <= |obs|
  {
    if |buckets| == 0 then multiset{} else
      Pooled(obs, n, buckets[..|buckets| - 1]) + multiset(InBucket(obs, n, buckets[|buckets| - 1]))
  }

  ghost predicate NoneTwice(buckets: seq<Time>) {
    forall i, j :: 0 <= i < j < |buckets| ==> buckets[i] != buckets[j]
  }

  /** One more observation adds its value to one bucket. */
  lemma {:induction false} PooledStep(obs: seq<Obs>, n: nat, buckets: seq<Time>)
    requires 0 < n <= |obs| && NoneTwice(buckets)
    ensures Pooled(obs, n, buckets) == Pooled(obs, n - 1, buckets) +
              if Bucket(obs[n - 1].ts) in buckets then multiset{obs[n - 1].v} else multiset{}
  {
    hide Bucket;
    if |buckets| > 0 {
      var front, last := buckets[..|buckets| - 1], buckets[|buckets| - 1];
      assert buckets == front + [last] && last !in front;
      PooledStep(obs, n, front);
    }
  }

  /** Buckets that miss no observation hold each exactly once. */
  lemma {:induction false} PooledIsObserved(obs: seq<Obs>, n: nat, buckets: seq<Time>)
    requires n <= |obs| && NoneTwice(buckets) && forall k :: 0 <= k < n ==> Bucket(obs[k].ts) in buckets
    ensures Pooled(obs, n, buckets) == Observed(obs, n)
  {
    if n > 0 {
      PooledIsObserved(obs, n - 1, buckets);
      PooledStep(obs, n, buckets);
    } else {
      NothingPooled(obs, buckets);
    }
  }

  lemma {:induction false} NothingPooled(obs: seq<Obs>, buckets: seq<Time>)
    ensures Pooled(obs, 0, buckets) == multiset{}
  {
    if |buckets| > 0 {
      NothingPooled(obs, buckets[..|buckets| - 1]);
    }
  }

  lemma EachCountedOnce(obs: seq<Obs>, series: seq<Obs>)
    requires forall i, j :: 0 <= i < j < |series| ==> series[i].ts < series[j].ts
    requires forall b :: (exists i :: 0 <= i < |series| && series[i].ts == b) <==> |InBucket(obs, |obs|, b)| > 0
    ensures Pooled(obs, |obs|, Stamps(series)) == Observed(obs, |obs|)
  {
    forall k | 0 <= k < |obs| ensures Bucket(obs[k].ts) in Stamps(series) {
      HitBucket(obs, |obs|, k);
      var i :| 0 <= i < |series| && series[i].ts == Bucket(obs[k].ts);
      assert Stamps(series)[i] == Bucket(obs[k].ts);
    }
    PooledIsObserved(obs, |obs|, Stamps(series));
  }

  method Medians(byBucket: map<Time, seq<real>>, order: seq<Time>) returns (medians: seq<Obs>)
    requires forall b :: b in order ==> b in byBucket && |byBucket[b]| > 0
    ensures |medians| == |order| && forall k :: 0 <= k < |order| ==> IsMedianOf(medians[k], order[k], byBucket)
  {
    medians := [];
    for i := 0 to |order|
      invariant |medians| == i
      invariant forall k :: 0 <= k < i ==> IsMedianOf(medians[k], order[k], byBucket)
    {
      var b := order[i];
      assert b in order;
      medians := medians + [Obs(b, Median(byBucket[b]))];
    }
  }

  ghost predicate IsMedianOf(o: Obs, b: Time, byBucket: map<Time, seq<real>>) {
    o.ts == b && b in byBucket && |byBucket[b]| > 0 && o.v == Median(byBucket[b])
  }

  /** Groups the values by bucket; `order` is the order in which buckets were first hit. */
  method Collect(obs: seq<Obs>) returns (byBucket: map<Time, seq<real>>, order: seq<Time>)
    ensures Holds(byBucket, obs, |obs|)
    ensures forall x, y :: 0 <= x < y < |order| ==> order[x] != order[y]
    ensures forall b :: b in order <==> b in byBucket
  {
    byBucket, order := map[], [];
    for i := 0 to |obs|
      invariant Holds(byBucket, obs, i)
      invariant forall x, y :: 0 <= x < y < |order| ==> order[x] != order[y]
      invariant forall b :: b in order <==> b in byBucket
    {
      var b := Bucket(obs[i].ts);
      if b !in byBucket {
        order := order + [b];
      }
      ghost var was := byBucket;
      byBucket := byBucket[b := (if b in byBucket then byBucket[b] else []) + [obs[i].v]];
      HoldsStep(was, byBucket, obs, i, b);
    }
  }

  lemma HoldsStep(was: map<Time, seq<real>>, byBucket: map<Time, seq<real>>, obs: seq<Obs>, i: nat, b: Time)
    requires i < |obs| && b == Bucket(obs[i].ts) && Holds(was, obs, i)
    requires byBucket == was[b := (if b in was then was[b] else []) + [obs[i].v]]
    ensures Holds(byBucket, obs, i + 1)
  {
  }

  lemma BucketsCovered(obs: seq<Obs>, byBucket: map<Time, seq<real>>, order: seq<Time>, medians: seq<Obs>,
                       series: seq<Obs>)
    requires Holds(byBucket, obs, |obs|) && forall b :: b in order <==> b in byBucket
    requires |medians| == |order|
    requires forall k :: 0 <= k < |order| ==> IsMedianOf(medians[k], order[k], byBucket)
    requires forall x :: x in series <==> x in medians
    ensures forall b :: (exists i :: 0 <= i < |series| && series[i].ts == b) <==> |InBucket(obs, |obs|, b)| > 0
    ensures forall i :: 0 <= i < |series| && |InBucket(obs, |obs|, series[i].ts)| > 0 ==>
              series[i].v == Median(InBucket(obs, |obs|, series[i].ts))
  {
    forall i | 0 <= i < |series| ensures IsMedianOf(series[i], series[i].ts, byBucket) {
      assert series[i] in medians;
      var k :| 0 <= k < |medians| && medians[k] == series[i];
      assert IsMedianOf(medians[k], order[k], byBucket);
    }
    forall b ensures (exists i :: 0 <= i < |series| && series[i].ts == b) <==> |InBucket(obs, |obs|, b)| > 0 {
      assert b in byBucket <==> |InBucket(obs, |obs|, b)| > 0;
      if b in byBucket {
        assert b in order;
        var k :| 0 <= k < |order| && order[k] == b;
        assert IsMedianOf(medians[k], order[k], byBucket) && medians[k] in series;
      }
      if i :| 0 <= i < |series| && series[i].ts == b {
        assert IsMedianOf(series[i], b, byBucket);
      }
    }
    forall i | 0 <= i < |series| && |InBucket(obs, |obs|, series[i].ts)| > 0
      ensures series[i].v == Median(InBucket(obs, |obs|, series[i].ts))
    {
      assert IsMedianOf(series[i], series[i].ts, byBucket);
      assert byBucket[series[i].ts] == InBucket(obs, |obs|, series[i].ts);
    }
  }

  /** The bucket an observation maps to is not empty. */
  lemma {:induction false} HitBucket(obs: seq<Obs>, n: nat, k: nat)
    requires k < n <= |obs|
    ensures |InBucket(obs, n, Bucket(obs[k].ts))| > 0
  {
    if k < n - 1 {
      HitBucket(obs, n - 1, k);
    }
  }

  lemma SortedMedians(medians: seq<Obs>, series: seq<Obs>)
    requires forall x, y :: 0 <= x < y < |medians| ==> medians[x].ts != medians[y].ts
    requires series == Sorting.Sorted(medians, EarlierObs)
    ensures forall x :: x in series <==> x in medians
    ensures forall i, j :: 0 <= i < j < |series| ==> series[i].ts < series[j].ts
  {
    var apart := (a: Obs, b: Obs) => a.ts != b.ts;
    Sorting.SortedIsSorted(medians, EarlierObs);
    Sorting.SortedMembers(medians, EarlierObs);
    Sorting.SortedPairwise(medians, EarlierObs, apart);
    forall i, j | 0 <= i < j < |series| ensures series[i].ts < series[j].ts {
      assert EarlierObs(series[i], series[j]) && apart(series[i], series[j]);
    }
  }

  // ---------------------------------------------------------------------------
  // The seasonal-naive forecaster
  // ---------------------------------------------------------------------------

  datatype Slot = Slot(weekday: int, minute: int)

  function SlotOf(ts: Time): Slot { Slot(Weekday(ts), MinuteOfDay(ts)) }

  /** The indexes built by `fit`. */
  datatype Index = Index(weekly: map<Slot, seq<real>>, daily: map<int, seq<real>>, all: seq<real>)

  function Values<K>(m: map<K, seq<real>>, k: K): seq<real> {
    if k in m then m[k] else []
  }

  /** A plain scan of the first `n` observations for one weekly slot, one daily slot, and all. */
  function ScanWeekly(series: seq<Obs>, n: nat, slot: Slot): seq<real>
    requires n <= |series|
  {
    if n == 0 then [] else
      var front := ScanWeekly(series, n - 1, slot);
      if SlotOf(series[n - 1].ts) == slot then front + [series[n - 1].v] else front
  }

  function ScanDaily(series: seq<Obs>, n: nat, minute: int): seq<real>
    requires n <= |series|
  {
    if n == 0 then [] else
      var front := ScanDaily(series, n - 1, minute);
      if MinuteOfDay(series[n - 1].ts) == minute then front + [series[n - 1].v] else front
  }

  function ScanAll(series: seq<Obs>, n: nat): seq<real>
    requires n <= |series|
  {
    if n == 0 then [] else ScanAll(series, n - 1) + [series[n - 1].v]
  }

  /** The indexes answer every lookup as a scan of the series would. */
  ghost predicate Indexes(ix: Index, series: seq<Obs>, n: nat)
    requires n <= |series|
  {
    && (forall slot :: Values(ix.weekly, slot) == ScanWeekly(series, n, slot))
    && (forall minute :: Values(ix.daily, minute) == ScanDaily(series, n, minute))
    && ix.all == ScanAll(series, n)
  }

  /** What a forecast for `ts` is based on: the weekly slot, else the daily slot, else everything. */
  function Basis(weekly: seq<real>, daily: seq<real>, all: seq<real>, minObs: int): (r: seq<real>)
    ensures minObs > 0 || |weekly| > 0 ==> |r| > 0
  {
    if |weekly| >= minObs then weekly
    else if |daily| >= minObs then daily
    else if |all| > 0 then all else [0.0]
  }

  function PointFrom(basis: seq<real>, ts: Time): ForecastPoint
    requires |basis| > 0
  {
    var q50, q90 := Percentile(basis, 50.0), Percentile(basis, 90.0);
    ForecastPoint(ts, Percentile(basis, 10.0), q50, if q90 >= q50 then q90 else q50)
  }

  /** There is something to forecast from: with a slot minimum of zero, only an observation in the weekly slot. */
  predicate Based(ix: Index, minObs: int, ts: Time) {
    minObs > 0 || |Values(ix.weekly, SlotOf(ts))| > 0
  }

  function PointAt(ix: Index, minObs: int, ts: Time): ForecastPoint
    requires Based(ix, minObs, ts)
  {
    PointFrom(Basis(Values(ix.weekly, SlotOf(ts)), Values(ix.daily, MinuteOfDay(ts)), ix.all, minObs), ts)
  }

  /** The forecasts at `n` times, `step` apart. */
  ghost predicate Forecasts(points: seq<ForecastPoint>, ix: Index, minObs: int, start: Time, step: int, n: nat) {
    |points| == n && forall i :: 0 <= i < n ==>
      Based(ix, minObs, start + i * step) && points[i] == PointAt(ix, minObs, start + i * step)
  }

  class SeasonalNaiveForecaster {
    const minSlotObs: int
    var index: Option<Index>

    constructor (minSlotObs: int := 3)
      ensures this.minSlotObs == minSlotObs && index == None
    {
      this.minSlotObs := minSlotObs;
      index := None;
    }

    method Fit(series: seq<Obs>)
      modifies this
      ensures index.Some? && Indexes(index.value, series, |series|)
    {
      var weekly: map<Slot, seq<real>>, daily: map<int, seq<real>>, all: seq<real> := map[], map[], [];
      for i := 0 to |series|
        invariant Indexes(Index(weekly, daily, all), series, i)
      {
        var ts, v := series[i].ts, series[i].v;
        var slot, minute := SlotOf(ts), MinuteOfDay(ts);
        weekly := weekly[slot := Values(weekly, slot) + [v]];
        daily := daily[minute := Values(daily, minute) + [v]];
        all := all + [v];
      }
      index := Some(Index(weekly, daily, all));
    }

    /** Predicting before fitting is an error, and so is forecasting from nothing. */
    method Predict(start: Time, steps: nat, step: int) returns (out: seq<ForecastPoint>)
      requires index.Some? && forall i :: 0 <= i < steps ==> Based(index.value, minSlotObs, start + i * step)
      ensures Forecasts(out, index.value, minSlotObs, start, step, steps)
    {
      hide PointAt;
      out := [];
      for i := 0 to steps
        invariant Forecasts(out, index.value, minSlotObs, start, step, i)
      {
        var p := PredictOne(start + i * step);
        out := out + [p];
      }
    }

    method PredictOne(ts: Time) returns (p: ForecastPoint)
      requires index.Some? && Based(index.value, minSlotObs, ts)
      ensures p == PointAt(index.value, minSlotObs, ts)
    {
      var obs := Values(index.value.weekly, SlotOf(ts));
      if |obs| < minSlotObs {
        obs := Values(index.value.daily, MinuteOfDay(ts));
      }
      if |obs| < minSlotObs {
        obs := if |index.value.all| > 0 then index.value.all else [0.0];
      }
      p := PointFrom(obs, ts);
    }
  }

  /** The forecast for `ts` straight from the series, with no index. */
  function ScanPoint(series: seq<Obs>, minObs: int, ts: Time): ForecastPoint
    requires minObs > 0 || |ScanWeekly(series, |series|, SlotOf(ts))| > 0
  {
    var n := |series|;
    PointFrom(Basis(ScanWeekly(series, n, SlotOf(ts)), ScanDaily(series, n, MinuteOfDay(ts)), ScanAll(series, n),
      minObs), ts)
  }

  /** Looking up the fitted indexes is scanning the series. */
  lemma IndexedIsScanned(ix: Index, series: seq<Obs>, minObs: int, ts: Time)
    requires Indexes(ix, series, |series|) && Based(ix, minObs, ts)
    ensures PointAt(ix, minObs, ts) == ScanPoint(series, minObs, ts)
  {
  }

  lemma {:induction false} SlotsNest(series: seq<Obs>, n: nat, ts: Time)
    requires n <= |series|
    ensures multiset(ScanWeekly(series, n, SlotOf(ts))) <= multiset(ScanDaily(series, n, MinuteOfDay(ts)))
    ensures multiset(ScanDaily(series, n, MinuteOfDay(ts))) <= multiset(ScanAll(series, n))
  {
    if n > 0 {
      SlotsNest(series, n - 1, ts);
    }
  }

  /** Quantiles come in order and within the range of the values they are based on. */
  lemma PointOrdered(basis: seq<real>, ts: Time, lo: real, hi: real)
    requires |basis| > 0 && forall x :: x in basis ==> lo <= x <= hi
    ensures var p := PointFrom(basis, ts); p.ts == ts && lo <= p.q10 <= p.q50 <= p.q90 <= hi
  {
    PercentileLaws(basis, 10.0, 50.0);
    PercentileLaws(basis, 50.0, 90.0);
  }

  lemma {:induction false} ScanAllValues(series: seq<Obs>, n: nat, lo: real, hi: real)
    requires n <= |series| && forall i :: 0 <= i < |series| ==> lo <= series[i].v <= hi
    ensures forall x :: x in ScanAll(series, n) ==> lo <= x <= hi
  {
    if n > 0 {
      ScanAllValues(series, n - 1, lo, hi);
    }
  }

  lemma BasisWithin(weekly: seq<real>, daily: seq<real>, all: seq<real>, minObs: int, lo: real, hi: real)
    requires multiset(weekly) <= multiset(daily) <= multiset(all) && lo <= 0.0 <= hi
    requires forall x :: x in all ==> lo <= x <= hi
    ensures forall x :: x in Basis(weekly, daily, all, minObs) ==> lo <= x <= hi
  {
    forall x | x in weekly ensures x in daily { assert x in multiset(weekly); }
    forall x | x in daily ensures x in all { assert x in multiset(daily); }
  }

  /** Forecasts of a fitted series: quantiles in order, and within the range of zero and the observed values. */
  lemma ForecastWithinRange(ix: Index, series: seq<Obs>, minObs: int, ts: Time, lo: real, hi: real)
    requires Indexes(ix, series, |series|) && Based(ix, minObs, ts)
    requires lo <= 0.0 <= hi && forall i :: 0 <= i < |series| ==> lo <= series[i].v <= hi
    ensures var p := PointAt(ix, minObs, ts); p.ts == ts && lo <= p.q10 <= p.q50 <= p.q90 <= hi
  {
    var n := |series|;
    var weekly, daily, all := ScanWeekly(series, n, SlotOf(ts)), ScanDaily(series, n, MinuteOfDay(ts)),
      ScanAll(series, n);
    SlotsNest(series, n, ts);
    ScanAllValues(series, n, lo, hi);
    BasisWithin(weekly, daily, all, minObs, lo, hi);
    PointOrdered(Basis(weekly, daily, all, minObs), ts, lo, hi);
  }

  lemma WeekLater(ts: Time)
    ensures SlotOf(ts + WEEK) == SlotOf(ts)
  {
    assert (ts + WEEK) / MINUTE == ts / MINUTE + 7 * 1440;
    assert (ts + WEEK) / DAY == ts / DAY + 7;
  }

  /** A forecast repeats exactly a week later. */
  lemma RepeatsWeekly(ix: Index, minObs: int, ts: Time)
    requires Based(ix, minObs, ts)
    ensures Based(ix, minObs, ts + WEEK)
    ensures PointAt(ix, minObs, ts + WEEK) == PointAt(ix, minObs, ts).(ts := ts + WEEK)
  {
    WeekLater(ts);
  }

  lemma ForecastsAreGrid(points: seq<ForecastPoint>, ix: Index, minObs: int, start: Time, step: int, n: nat)
    requires Forecasts(points, ix, minObs, start, step, n)
    ensures |points| == n && Grid(points, step)
  {
    forall i | 0 <= i < n ensures points[i].ts == points[0].ts + i * step {
      assert points[i].ts == start + i * step && points[0].ts == start + 0 * step;
    }
  }

  /** The service's points form a uniform grid, so a week of them always offers the three default windows. */
  lemma ServiceOffersThreeWindows(ix: Index, minObs: int, now: Time, points: seq<ForecastPoint>,
                                  best: seq<ForecastPoint>)
    requires Forecasts(points, ix, minObs, Bucket(now) + STEP, STEP, 7 * 96)
    requires best == Best(points, 15, 3, 4)
    ensures |points| == 7 * 96 && Grid(points, STEP) && |best| == 3
  {
    hide Forecasts, Best;
    ForecastsAreGrid(points, ix, minObs, Bucket(now) + STEP, STEP, 7 * 96);
    EnoughWindows(points, 15, 3, 4, best);
    BestGuarantees(points, 15, 3, 4, best);
  }
}
