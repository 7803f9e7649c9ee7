/** Which observations a forecast rests on: those whole weeks away from it, else whole days, else all. */
module Seasons {
  import opened Schemas
  import opened Stats
  import opened BestWindows
  import opened Forecast

  // ---------------------------------------------------------------------------
  // Slots
  // ---------------------------------------------------------------------------

  /** The minute a time lies in, counted from the epoch. */
  function MinuteNumber(ts: Time): int { ts / 60_000_000 }

  predicate DaysApart(s: Time, t: Time) { (MinuteNumber(s) - MinuteNumber(t)) % 1440 == 0 }

  predicate WeeksApart(s: Time, t: Time) { (MinuteNumber(s) - MinuteNumber(t)) % 10080 == 0 }

  lemma SameRemainder(a: int, b: int, m: int)
    requires m > 0
    ensures a % m == b % m <==> (a - b) % m == 0
  {
    var q, r := a / m, b / m;
    assert a - b == (q - r) * m + (a % m - b % m);
    if a % m == b % m {
      MultipleRemainder(q - r, m);
    } else if (a - b) % m == 0 {
      var k := (a - b) / m;
      assert a - b == k * m;
      assert a % m - b % m == (k - (q - r)) * m;
      SmallMultiple(k - (q - r), m, a % m - b % m);
    }
  }

  lemma MultipleRemainder(k: int, m: int)
    requires m > 0
    ensures (k * m) % m == 0
  {
    var r := (k * m) % m;
    var q := (k * m) / m;
    assert (k - q) * m == r;
    SmallMultiple(k - q, m, r);
  }

  lemma SmallMultiple(k: int, m: int, r: int)
    requires m > 0 && k * m == r && -m < r < m
    ensures r == 0
  {
    assert k >= 1 ==> (k - 1) * m >= 0;
    assert k <= -1 ==> (-k - 1) * m >= 0;
  }

  /** Two times share the minute of the day exactly if they are whole days apart. */
  lemma SameMinuteIff(s: Time, t: Time)
    ensures MinuteOfDay(s) == MinuteOfDay(t) <==> DaysApart(s, t)
  {
    SameRemainder(MinuteNumber(s), MinuteNumber(t), 1440);
  }

  lemma DayOfMinute(ts: Time)
    ensures ts / DAY == MinuteNumber(ts) / 1440
  {
  }

  /** They share weekday and minute exactly if they are whole weeks apart. */
  lemma SameSlotIff(s: Time, t: Time)
    ensures SlotOf(s) == SlotOf(t) <==> WeeksApart(s, t)
  {
    var a, b := MinuteNumber(s), MinuteNumber(t);
    DayOfMinute(s);
    DayOfMinute(t);
    SlotOfMinutes(a, b);
    SameRemainder(a, b, 10080);
  }

  lemma SlotOfMinutes(a: int, b: int)
    ensures (a / 1440 + 3) % 7 == (b / 1440 + 3) % 7 && a % 1440 == b % 1440 <==> a % 10080 == b % 10080
  {
    InWeek(a);
    InWeek(b);
    DigitsAgree(a / 1440 % 7, a % 1440, b / 1440 % 7, b % 1440);
  }

  lemma DigitsAgree(d: int, r: int, e: int, s: int)
    requires 0 <= d < 7 && 0 <= e < 7 && 0 <= r < 1440 && 0 <= s < 1440
    ensures (d + 3) % 7 == (e + 3) % 7 && r == s <==> d * 1440 + r == e * 1440 + s
  {
  }

  /** Where a minute lies in its week: day and minute of the day. */
  lemma InWeek(m: int)
    ensures m % 10080 == m / 1440 % 7 * 1440 + m % 1440
    ensures (m / 1440 + 3) % 7 == (m / 1440 % 7 + 3) % 7
  {
    var d, r := m / 1440, m % 1440;
    var w, k := d / 7, d % 7;
    assert m == w * 10080 + (k * 1440 + r);
    assert 0 <= k * 1440 + r < 10080;
  }

  // ---------------------------------------------------------------------------
  // What a forecast rests on
  // ---------------------------------------------------------------------------

  /** The values observed whole weeks from `ts`, in order. */
  ghost function WeeksFrom(series: seq<Obs>, n: nat, ts: Time): seq<real>
    requires n <= |series|
  {
    if n == 0 then [] else
      WeeksFrom(series, n - 1, ts) + if WeeksApart(series[n - 1].ts, ts) then [series[n - 1].v] else []
  }

  ghost function DaysFrom(series: seq<Obs>, n: nat, ts: Time): seq<real>
    requires n <= |series|
  {
    if n == 0 then [] else
      DaysFrom(series, n - 1, ts) + if DaysApart(series[n - 1].ts, ts) then [series[n - 1].v] else []
  }

  ghost function AllOf(series: seq<Obs>): seq<real> {
    seq(|series|, i requires 0 <= i < |series| => series[i].v)
  }

  lemma {:induction false} ScansAre(series: seq<Obs>, n: nat, ts: Time)
    requires n <= |series|
    ensures ScanWeekly(series, n, SlotOf(ts)) == WeeksFrom(series, n, ts)
    ensures ScanDaily(series, n, MinuteOfDay(ts)) == DaysFrom(series, n, ts)
  {
    hide SlotOf, MinuteOfDay, WeeksApart, DaysApart;
    if n > 0 {
      ScansAre(series, n - 1, ts);
      SameSlotIff(series[n - 1].ts, ts);
      SameMinuteIff(series[n - 1].ts, ts);
    }
  }

  lemma {:induction false} ScanAllIs(series: seq<Obs>, n: nat)
    requires n <= |series|
    ensures |ScanAll(series, n)| == n && forall i :: 0 <= i < n ==> ScanAll(series, n)[i] == series[i].v
  {
    if n > 0 {
      ScanAllIs(series, n - 1);
    }
  }

  /** Whole weeks away if there are enough such observations, else whole days, else everything, else zero. */
  ghost function Grounds(series: seq<Obs>, minObs: int, ts: Time): seq<real> {
    var n := |series|;
    if |WeeksFrom(series, n, ts)| >= minObs then WeeksFrom(series, n, ts)
    else if |DaysFrom(series, n, ts)| >= minObs then DaysFrom(series, n, ts)
    else if n > 0 then AllOf(series) else [0.0]
  }

  /** The published quantiles are the 10th, 50th and 90th percentile of those values, ranked as in `x`. */
  ghost predicate IsForecast(p: ForecastPoint, ts: Time, x: seq<real>) {
    && p.ts == ts && |x| > 0
    && IsPercentile(p.q10, x, 10) && IsPercentile(p.q50, x, 50) && IsPercentile(p.q90, x, 90)
  }

  lemma PointIsForecast(basis: seq<real>, ts: Time, x: seq<real>)
    requires |basis| > 0 && Arranges(x, basis)
    ensures IsForecast(PointFrom(basis, ts), ts, x)
  {
    hide IsPercentile, Percentile;
    PercentileByRank(basis, x, 10);
    PercentileByRank(basis, x, 50);
    PercentileByRank(basis, x, 90);
    PercentileLaws(basis, 50.0, 90.0);
    assert 10 as real == 10.0 && 50 as real == 50.0 && 90 as real == 90.0;
  }

  lemma GroundsAreBasis(ix: Index, series: seq<Obs>, minObs: int, ts: Time)
    requires Indexes(ix, series, |series|)
    ensures Basis(Values(ix.weekly, SlotOf(ts)), Values(ix.daily, MinuteOfDay(ts)), ix.all, minObs) ==
            Grounds(series, minObs, ts)
    ensures Based(ix, minObs, ts) ==> |Grounds(series, minObs, ts)| > 0
  {
    hide SlotOf, MinuteOfDay;
    ScansAre(series, |series|, ts);
    ScanAllIs(series, |series|);
    assert ScanAll(series, |series|) == AllOf(series);
  }

  /** A fitted forecaster's forecast for `ts`, in terms of the observations. */
  lemma ForecastIs(ix: Index, series: seq<Obs>, minObs: int, ts: Time, x: seq<real>)
    requires Indexes(ix, series, |series|) && Based(ix, minObs, ts) && Arranges(x, Grounds(series, minObs, ts))
    ensures IsForecast(PointAt(ix, minObs, ts), ts, x)
  {
    hide IsForecast, Arranges, Grounds, Basis, PointFrom;
    GroundsAreBasis(ix, series, minObs, ts);
    PointIsForecast(Grounds(series, minObs, ts), ts, x);
  }

  // ---------------------------------------------------------------------------
  // What a forecast does not depend on
  // ---------------------------------------------------------------------------

  /** The same times observed, and the same values whole weeks from `ts` (`weeks`), or whole days from it. */
  ghost predicate SameGrounds(a: seq<Obs>, b: seq<Obs>, ts: Time, weeks: bool) {
    && |a| == |b|
    && forall i :: 0 <= i < |a| ==>
      && a[i].ts == b[i].ts
      && ((if weeks then WeeksApart(a[i].ts, ts) else DaysApart(a[i].ts, ts)) ==> a[i].v == b[i].v)
  }

  lemma WeeksAreDays(s: Time, t: Time)
    ensures WeeksApart(s, t) ==> DaysApart(s, t)
  {
    SameSlotIff(s, t);
    SameMinuteIff(s, t);
  }

  lemma {:induction false} SameWeeks(a: seq<Obs>, b: seq<Obs>, n: nat, ts: Time, weeks: bool)
    requires SameGrounds(a, b, ts, weeks) && n <= |a|
    ensures WeeksFrom(a, n, ts) == WeeksFrom(b, n, ts)
    ensures !weeks ==> DaysFrom(a, n, ts) == DaysFrom(b, n, ts)
  {
    hide WeeksApart, DaysApart;
    if n > 0 {
      SameWeeks(a, b, n - 1, ts, weeks);
      WeeksAreDays(a[n - 1].ts, ts);
    }
  }

  /**
   With at least the minimum of observations whole weeks from `ts`, the values of all others do not matter to the
   forecast for `ts`; with at least the minimum whole days from it, those of all that are not whole days away.
   */
  lemma OthersDoNotMatter(a: seq<Obs>, b: seq<Obs>, ixA: Index, ixB: Index, minObs: int, ts: Time, weeks: bool)
    requires Indexes(ixA, a, |a|) && Indexes(ixB, b, |b|) && Based(ixA, minObs, ts) && Based(ixB, minObs, ts)
    requires SameGrounds(a, b, ts, weeks)
    requires |if weeks then WeeksFrom(a, |a|, ts) else DaysFrom(a, |a|, ts)| >= minObs
    ensures PointAt(ixA, minObs, ts) == PointAt(ixB, minObs, ts)
  {
    hide WeeksFrom, DaysFrom, SameGrounds, Basis, PointFrom;
    GroundsAreBasis(ixA, a, minObs, ts);
    GroundsAreBasis(ixB, b, minObs, ts);
    SameLength(a, b, ts, weeks);
    SameWeeks(a, b, |a|, ts, weeks);
  }

  lemma SameLength(a: seq<Obs>, b: seq<Obs>, ts: Time, weeks: bool)
    requires SameGrounds(a, b, ts, weeks)
    ensures |a| == |b|
  {
  }
}
