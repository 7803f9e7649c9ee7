/** What wait estimates mean: sound bands, and a pure function of everything that was reported to a location. */
module WaitRuns {
  import opened Arithmetic
  import opened Deques
  import opened Schemas
  import opened Stats
  import opened WaitTime

  // ---------------------------------------------------------------------------
  // Bands
  // ---------------------------------------------------------------------------

  lemma FloorStep(x: real, step: int)
    requires step > 0
    ensures ((x / step as real).Floor * step) as real <= x
    ensures x < ((x / step as real).Floor * step) as real + step as real
  {
    var y := x / step as real;
    FloorGap(x, y, y.Floor as real, step as real);
    assert (y.Floor * step) as real == y.Floor as real * step as real;
  }

  lemma FloorGap(x: real, y: real, f: real, d: real)
    requires d > 0.0 && y * d == x && f <= y < f + 1.0
    ensures f * d <= x < f * d + d
  {
    var g := y - f;
    var fd, gd := f * d, g * d;
    assert x == fd + gd;
    NonNegative(g, d);
    Below(g, d);
    assert x < fd + d;
  }

  lemma Below(g: real, d: real)
    requires d > 0.0 && g < 1.0
    ensures g * d < d
  {
    Positive(1.0 - g, d);
    assert (1.0 - g) * d == d - g * d;
  }

  lemma Positive(a: real, b: real)
    requires a > 0.0 && b > 0.0
    ensures a * b > 0.0
  {
  }

  lemma CeilingStep(x: real, step: int)
    requires step > 0
    ensures x <= (Ceiling(x / step as real) * step) as real < x + step as real
  {
    FloorStep(-x, step);
    assert (-x) / step as real == -(x / step as real);
    assert Ceiling(x / step as real) * step == -(((-x) / step as real).Floor * step);
  }

  ghost predicate Multiple(n: int, step: int) {
    exists k :: n == k * step
  }

  /** The band is the tightest one of its step around [p50, p90], one step wide where that would be empty. */
  lemma BandLaws(p50: real, p90: real, step: int, low: int, high: int)
    requires p50 <= p90 && step == (if p90 >= 10.0 then 5 else 2) && (low, high) == Band(p50, p90)
    ensures low as real <= p50 < (low + step) as real
    ensures p90 <= high as real && (high as real < p90 + step as real || high == low + step)
    ensures low < high && Multiple(low, step) && Multiple(high, step)
  {
    FloorStep(p50, step);
    CeilingStep(p90, step);
    var f, g := (p50 / step as real).Floor, Ceiling(p90 / step as real);
    assert low == f * step;
    assert high == g * step || high == (f + 1) * step;
  }

  ghost predicate NoNumbers(e: WaitEstimate) {
    e.p50.None? && e.p90.None? && e.bandLow.None? && e.bandHigh.None?
  }

  /** Published figures in order, band never empty and on the grid of its step. */
  ghost predicate Ordered(e: WaitEstimate) {
    && e.p50.Some? && e.p90.Some? && e.bandLow.Some? && e.bandHigh.Some?
    && 0 <= e.bandLow.value < e.bandHigh.value
    && e.bandLow.value as real <= e.p50.value <= e.p90.value <= e.bandHigh.value as real
    && exists step :: (step == 2 || step == 5) && Multiple(e.bandLow.value, step) && Multiple(e.bandHigh.value, step)
  }

  lemma BuildOrdered(loc: Name, now: Time, queueLen: nat, p50: real, p90: real, source: WaitSource, n: nat)
    requires 0.0 <= p50 <= p90
    ensures Ordered(Build(loc, now, queueLen, p50, p90, source, n))
  {
    var (low, high) := Band(p50, p90);
    var step := if p90 >= 10.0 then 5 else 2;
    BandLaws(p50, p90, step, low, high);
    Round1Laws(p50, p90, low);
    Round1Laws(p90, p90, high);
    FloorStep(p50, step);
    assert low >= 0 by {
      if low < 0 {
        LowMultiple((p50 / step as real).Floor, step, low);
      }
    }
  }

  lemma LowMultiple(f: int, step: int, low: int)
    requires low == f * step && low < 0 && step > 0
    ensures low + step <= 0
  {
    assert f <= -1;
    assert (f + 1) * step <= 0;
  }

  /** What a customer reads. */
  datatype Label = NotAvailable | NoWait | Range(low: int, high: int)

  function LabelOf(e: WaitEstimate): Label {
    if e.bandLow.None? || e.bandHigh.None? then NotAvailable
    else if e.bandLow.value == 0 && e.bandHigh.value <= 2 then NoWait
    else Range(e.bandLow.value, e.bandHigh.value)
  }

  /** Customers are told there is no wait exactly when half wait less than, and nine in ten at most, two minutes. */
  lemma NoWaitIff(loc: Name, now: Time, queueLen: nat, p50: real, p90: real, source: WaitSource, n: nat)
    requires 0.0 <= p50 <= p90
    ensures LabelOf(Build(loc, now, queueLen, p50, p90, source, n)) == NoWait <==> p50 < 2.0 && p90 <= 2.0
  {
  }

  ghost predicate LongStays(s: seq<Sample>) {
    forall i :: 0 <= i < |s| ==> s[i].dwell >= 3 * SECOND
  }

  lemma SampleMinutes(s: seq<Sample>)
    requires LongStays(s)
    ensures forall x :: x in Minutes(s) ==> x >= 0.0
  {
  }

  lemma QuotientNonNegative(a: real, b: real)
    requires a >= 0.0 && b > 0.0
    ensures a / b >= 0.0
  {
  }

  lemma PosEstimateNonNegative(c: Config, orders: seq<Time>, now: Time, queueLen: Option<nat>)
    requires RateDefined(c, orders)
    ensures var w := PosEstimate(c, orders, now, queueLen); w.Some? ==> w.value >= 0.0
  {
  }

  /** Every estimate has no numbers at all, or all of them in order. */
  lemma EstimateSound(c: Config, s: LocState, loc: Name, now: Time)
    requires Defined(c, s, now) && LongStays(s.dwell)
    ensures NoNumbers(EstimateOf(c, s, loc, now)) || Ordered(EstimateOf(c, s, loc, now))
  {
    if VideoLive(c, s, now) {
      var samples := Minutes(s.dwell);
      if |samples| >= c.minSamples {
        SampleMinutes(s.dwell);
        PercentileAbove(samples, 50.0, 0.0);
        PercentileLaws(samples, 50.0, 90.0);
        BuildOrdered(loc, now, |s.inQueue|, Percentile(samples, 50.0), Percentile(samples, 90.0), Vision, |samples|);
      } else if |s.inQueue| == 0 {
        BuildOrdered(loc, now, 0, 0.0, 0.0, Vision, |samples|);
      } else {
        var w := PosEstimate(c, s.orders, now, Some(|s.inQueue|));
        PosEstimateNonNegative(c, s.orders, now, Some(|s.inQueue|));
        if w.Some? {
          BuildOrdered(loc, now, |s.inQueue|, w.value, w.value * 1.5, Vision, |samples|);
        }
      }
    } else {
      var w := PosEstimate(c, s.orders, now, None);
      PosEstimateNonNegative(c, s.orders, now, None);
      if w.Some? {
        BuildOrdered(loc, now, 0, w.value, w.value * 1.5, PosOnly, |s.orders|);
      }
    }
  }

  // ---------------------------------------------------------------------------
  // POS only
  // ---------------------------------------------------------------------------

  lemma GuessBound(n: nat, recent: nat)
    requires n >= 3 && recent <= n
    ensures 3 * Round(recent as real - n as real / 3.0) <= 2 * n + 1
  {
    var x := recent as real - n as real / 3.0;
    var r := Round(x);
    assert 3.0 * x <= 2.0 * n as real;
    assert r as real <= x + 0.5;
    assert 3.0 * r as real <= 2.0 * n as real + 1.5;
    assert (3 * r) as real <= (2 * n) as real + 1.5;
  }

  lemma RatioBound(g: nat, n: nat)
    requires n >= 3 && 3 * g <= 2 * n + 1
    ensures 4 * g <= 3 * n
  {
    // n = 3 allows g = 2, and from n = 4 on (8 n + 4) / 3 <= 3 n
  }

  /** With the default 15-minute window the fallback never says more than 11.25 minutes, however orders came in. */
  lemma PosOnlyBound(c: Config, orders: seq<Time>, now: Time)
    requires c.posWindow == 15 * MINUTE
    ensures PosEstimate(c, orders, now, None).Some? <==> |orders| >= 3
    ensures |orders| >= 3 ==> 0.0 <= PosEstimate(c, orders, now, None).value <= 11.25
  {
    if |orders| >= 3 {
      var n, rate := |orders|, Rate(c, orders);
      var recent := RecentOrders(orders, n, now);
      assert c.posWindow as real / MINUTE as real == 15.0;
      GuessBound(n, recent);
      var guess := Round(recent as real - rate * 5.0);
      RatioBound(if guess > 0 then guess else 0, n);
      LittlesLaw(if guess > 0 then guess else 0, n, rate);
    }
  }

  lemma LittlesLaw(g: nat, n: nat, rate: real)
    requires n > 0 && rate == n as real / 15.0 && 4 * g <= 3 * n
    ensures 0.0 <= g as real / rate <= 11.25
  {
    var w := g as real / rate;
    QuotientNonNegative(g as real, rate);
    assert w * rate == g as real;
    assert (11.25 - w) * rate == 11.25 * rate - g as real;
    if w > 11.25 {
      Positive(w - 11.25, rate);
    }
  }

  /** So a POS-only band ends at 20 minutes at the latest. */
  lemma PosOnlyBand(c: Config, s: LocState, loc: Name, now: Time)
    requires c.posWindow == 15 * MINUTE && !VideoLive(c, s, now)
    ensures var e := EstimateOf(c, s, loc, now);
            if |s.orders| < 3 then e.source == NoData && NoNumbers(e)
            else e.source == PosOnly && e.bandHigh.Some? && e.bandHigh.value <= 20
  {
    PosOnlyBound(c, s.orders, now);
    if |s.orders| >= 3 {
      var w := PosEstimate(c, s.orders, now, None).value;
      var (low, high) := Band(w, w * 1.5);
      var step := if w * 1.5 >= 10.0 then 5 else 2;
      BandLaws(w, w * 1.5, step, low, high);
      assert w * 1.5 <= 16.875;
      assert high as real < 16.875 + step as real || high == low + step;
      if step == 5 {
        var k :| high == k * 5;
      }
    }
  }

  // ---------------------------------------------------------------------------
  // The log of a location
  // ---------------------------------------------------------------------------

  /** What reaches the engine for one location, estimates asked for included. */
  datatype Input = ZoneIn(ev: ZoneEvent) | PosIn(pos: PosEvent) | HeartbeatIn(ts: Time) | Ask(now: Time)

  function Next(c: Config, s: LocState, x: Input): LocState {
    match x
    case ZoneIn(ev) => AfterZoneEvent(c, s, ev)
    case PosIn(pos) => AfterPosEvent(c, s, pos)
    case HeartbeatIn(ts) => AfterHeartbeat(s, ts)
    case Ask(now) => Trimmed(c, s, now)
  }

  function After(c: Config, log: seq<Input>): LocState {
    if |log| == 0 then NEW_LOCATION else Next(c, After(c, log[..|log| - 1]), log[|log| - 1])
  }

  /** The stays in the queue of at least three seconds, in the order their exits were reported. */
  function AllSamples(log: seq<Input>): seq<Sample> {
    if |log| == 0 then [] else
      var front, x := AllSamples(log[..|log| - 1]), log[|log| - 1];
      if x.ZoneIn? && x.ev.zone == Queue && x.ev.eventType == Exit && x.ev.dwell.Some? && x.ev.dwell.value >= 3_000_000
      then front + [Sample(x.ev.ts, x.ev.dwell.value)] else front
  }

  /** When the orders created and checks opened were received. */
  function AllOrders(log: seq<Input>): seq<Time> {
    if |log| == 0 then [] else
      var front, x := AllOrders(log[..|log| - 1]), log[|log| - 1];
      if x.PosIn? && (x.pos.eventType == OrderCreated || x.pos.eventType == CheckOpen)
      then front + [x.pos.receivedAt] else front
  }

  function Waiting(log: seq<Input>): set<Waiter> {
    if |log| == 0 then {} else
      var front, x := Waiting(log[..|log| - 1]), log[|log| - 1];
      if x.ZoneIn? && x.ev.zone == Queue then
        var who := Waiter(x.ev.cameraId, x.ev.trackerId);
        if x.ev.eventType == Enter then front + {who} else front - {who}
      else front
  }

  function LastVideo(log: seq<Input>): Option<Time> {
    if |log| == 0 then None else
      var front, x := LastVideo(log[..|log| - 1]), log[|log| - 1];
      match x
      case ZoneIn(ev) => Latest(ev.ts, front)
      case HeartbeatIn(ts) => Latest(ts, front)
      case _ => front
  }

  ghost predicate QueueEventOf(x: Input, who: Waiter) {
    x.ZoneIn? && x.ev.zone == Queue && Waiter(x.ev.cameraId, x.ev.trackerId) == who
  }

  /** Waiting are exactly those whose last queue event is an ENTER. */
  lemma {:induction false} WaitingAreEntered(log: seq<Input>, who: Waiter)
    ensures who in Waiting(log) <==>
            exists i :: 0 <= i < |log| && QueueEventOf(log[i], who) && log[i].ev.eventType == Enter &&
                        forall j :: i < j < |log| ==> !QueueEventOf(log[j], who)
  {
    if |log| > 0 {
      var n := |log| - 1;
      var front := log[..n];
      WaitingAreEntered(front, who);
      if QueueEventOf(log[n], who) {
        assert who in Waiting(log) <==> log[n].ev.eventType == Enter;
      } else {
        assert who in Waiting(log) <==> who in Waiting(front);
        if who in Waiting(front) {
          var i :| 0 <= i < n && QueueEventOf(front[i], who) && front[i].ev.eventType == Enter &&
                   forall j :: i < j < n ==> !QueueEventOf(front[j], who);
          forall j | i < j < |log| ensures !QueueEventOf(log[j], who) {
            assert j < n ==> front[j] == log[j];
          }
          assert QueueEventOf(log[i], who);
        }
        if i :| 0 <= i < |log| && QueueEventOf(log[i], who) && log[i].ev.eventType == Enter &&
                forall j :: i < j < |log| ==> !QueueEventOf(log[j], who) {
          assert front[i] == log[i];
        }
      }
    }
  }

  /** The time an input trims the deques at. */
  function TrimTime(x: Input): Option<Time> {
    match x
    case ZoneIn(ev) => if ev.zone == Queue then Some(ev.ts) else None
    case PosIn(pos) => Some(pos.receivedAt)
    case HeartbeatIn(_) => None
    case Ask(now) => Some(now)
  }

  ghost predicate NotBefore(now: Time, log: seq<Input>) {
    forall i :: 0 <= i < |log| && TrimTime(log[i]).Some? ==> TrimTime(log[i]).value <= now
  }

  /** The input's effect before any trimming. */
  function Moved(s: LocState, x: Input): LocState {
    match x
    case ZoneIn(ev) => Noted(s, ev)
    case PosIn(pos) => OrderNoted(s, pos)
    case HeartbeatIn(ts) => AfterHeartbeat(s, ts)
    case Ask(_) => s
  }

  lemma NextIs(c: Config, s: LocState, x: Input)
    ensures Next(c, s, x) == match TrimTime(x) case None => Moved(s, x) case Some(now) => Trimmed(c, Moved(s, x), now)
  {
  }

  function NewSamples(x: Input): seq<Sample> {
    if x.ZoneIn? && CountsAsWait(x.ev) then [Sample(x.ev.ts, x.ev.dwell.value)] else []
  }

  function NewOrders(x: Input): seq<Time> {
    if x.PosIn? && IsOrder(x.pos) then [x.pos.receivedAt] else []
  }

  lemma MovedIs(s: LocState, x: Input)
    ensures Moved(s, x).dwell == s.dwell + NewSamples(x) && Moved(s, x).orders == s.orders + NewOrders(x)
    ensures TrimTime(x).None? ==> NewSamples(x) == [] && NewOrders(x) == []
  {
  }

  // ---------------------------------------------------------------------------
  // The state as a function of the log
  // ---------------------------------------------------------------------------

  /** Every sample reported, with the latest time asked about or reported for the location since. */
  ghost function SampleHistory(log: seq<Input>): seq<Aged<Sample>> {
    if |log| == 0 then [] else
      var front, x := SampleHistory(log[..|log| - 1]), log[|log| - 1];
      if TrimTime(x).None? then front else TrimmedAt(front, NewSamples(x), TrimTime(x).value)
  }

  ghost function OrderHistory(log: seq<Input>): seq<Aged<Time>> {
    if |log| == 0 then [] else
      var front, x := OrderHistory(log[..|log| - 1]), log[|log| - 1];
      if TrimTime(x).None? then front else TrimmedAt(front, NewOrders(x), TrimTime(x).value)
  }

  /** The samples no longer kept: the leading run of those that some trim since they came found too old. */
  ghost function GoneSamples(c: Config, log: seq<Input>): seq<Sample> {
    var h := SampleHistory(log);
    Items(h[..Leading(h, |h|, Overdue(SampledAt, c.window))])
  }

  ghost function GoneOrders(c: Config, log: seq<Input>): seq<Time> {
    var h := OrderHistory(log);
    Items(h[..Leading(h, |h|, Overdue(OrderedAt, c.posWindow))])
  }

  lemma {:induction false} HistoryIs(log: seq<Input>)
    ensures Falling(SampleHistory(log)) && Items(SampleHistory(log)) == AllSamples(log)
    ensures Falling(OrderHistory(log)) && Items(OrderHistory(log)) == AllOrders(log)
  {
    if |log| > 0 {
      var front, x := log[..|log| - 1], log[|log| - 1];
      HistoryIs(front);
      if TrimTime(x).Some? {
        TrimmedAtIs(SampleHistory(front), NewSamples(x), TrimTime(x).value, SampleHistory(log));
        TrimmedAtIs(OrderHistory(front), NewOrders(x), TrimTime(x).value, OrderHistory(log));
      }
    }
  }

  /** What the deques hold is one pass over the log's history, at any trim times. */
  ghost predicate DequesAre(c: Config, log: seq<Input>, s: LocState) {
    && s.dwell == Items(Drop(SampleHistory(log), Overdue(SampledAt, c.window)))
    && s.orders == Items(Drop(OrderHistory(log), Overdue(OrderedAt, c.posWindow)))
  }

  lemma DequesStep(c: Config, log: seq<Input>, x: Input, s: LocState, next: LocState)
    requires DequesAre(c, log, s) && next == Next(c, s, x)
    requires Falling(SampleHistory(log)) && Falling(OrderHistory(log))
    ensures DequesAre(c, log + [x], next)
  {
    hide Drop, Items, Overdue, OldAt, TrimmedAt, Falling;
    assert (log + [x])[..|log|] == log;
    NextIs(c, s, x);
    MovedIs(s, x);
    if TrimTime(x).Some? {
      var now := TrimTime(x).value;
      TrimIsOnePass(SampleHistory(log), NewSamples(x), SampledAt, now, c.window, SampleHistory(log + [x]));
      TrimIsOnePass(OrderHistory(log), NewOrders(x), OrderedAt, now, c.posWindow, OrderHistory(log + [x]));
    } else {
      assert s.dwell + [] == s.dwell && s.orders + [] == s.orders;
    }
  }

  lemma PresenceStep(c: Config, log: seq<Input>, x: Input, s: LocState)
    requires s.inQueue == Waiting(log) && s.lastVideo == LastVideo(log)
    ensures Next(c, s, x).inQueue == Waiting(log + [x]) && Next(c, s, x).lastVideo == LastVideo(log + [x])
  {
    hide Drop;
    assert (log + [x])[..|log|] == log;
  }

  /**
   For any timestamps the state of a location is a function of its log: each deque is the log's list without the
   leading run of elements that some trim since they came found too old; waiting is who entered last.
   */
  lemma {:induction false} StateIsLog(c: Config, log: seq<Input>)
    ensures DequesAre(c, log, After(c, log))
    ensures AllSamples(log) == GoneSamples(c, log) + After(c, log).dwell
    ensures AllOrders(log) == GoneOrders(c, log) + After(c, log).orders
    ensures After(c, log).inQueue == Waiting(log) && After(c, log).lastVideo == LastVideo(log)
  {
    if |log| > 0 {
      var front, x := log[..|log| - 1], log[|log| - 1];
      assert log == front + [x];
      StateIsLog(c, front);
      HistoryIs(front);
      DequesStep(c, front, x, After(c, front), After(c, log));
      PresenceStep(c, front, x, After(c, front));
    }
    HistoryIs(log);
    ItemsSplit(SampleHistory(log), Overdue(SampledAt, c.window));
    ItemsSplit(OrderHistory(log), Overdue(OrderedAt, c.posWindow));
  }

  lemma ItemsSplit<T>(h: seq<Aged<T>>, stale: Aged<T> -> bool)
    ensures Items(h) == Items(h[..Leading(h, |h|, stale)]) + Items(Drop(h, stale))
  {
    var k := Leading(h, |h|, stale);
    ItemsLeft(h, stale, k);
    hide Drop, Leading;
    SplitItems(h, k, Items(Drop(h, stale)));
  }

  lemma SplitItems<T>(h: seq<Aged<T>>, k: nat, left: seq<T>)
    requires k <= |h| && |left| == |h| - k && forall i :: 0 <= i < |left| ==> left[i] == h[k + i].item
    ensures Items(h) == Items(h[..k]) + left
  {
    var all := Items(h[..k]) + left;
    forall i | 0 <= i < |h| ensures Items(h)[i] == all[i] {
      assert i >= k ==> left[i - k] == h[k + (i - k)].item;
    }
  }

  /** The state a location would have at `now` if everything ever reported had been kept until then. */
  function LogState(c: Config, log: seq<Input>, now: Time): LocState {
    LocState(DropOldSamples(AllSamples(log), now, c.window), Waiting(log),
             DropOldOrders(AllOrders(log), now, c.posWindow), LastVideo(log))
  }

  ghost predicate AllOld<T>(gone: seq<T>, at: T -> Time, now: Time, window: int) {
    forall i :: 0 <= i < |gone| ==> now - at(gone[i]) > window
  }

  lemma LeftIsLogIff<T>(all: seq<T>, gone: seq<T>, left: seq<T>, at: T -> Time, now: Time, window: int)
    requires all == gone + left
    ensures Drop(left, OldAt(at, now, window)) == Drop(all, OldAt(at, now, window)) <==> AllOld(gone, at, now, window)
  {
    hide Drop;
    DropPrefixIff(gone, left, OldAt(at, now, window));
  }

  /**
   At any time at all, what an estimate is read off is what the whole log would give if and only if all that earlier
   trims discarded is too old now as well.
   */
  lemma StateFromLogIff(c: Config, log: seq<Input>, now: Time)
    ensures Trimmed(c, After(c, log), now) == LogState(c, log, now) <==>
            && AllOld(GoneSamples(c, log), SampledAt, now, c.window)
            && AllOld(GoneOrders(c, log), OrderedAt, now, c.posWindow)
  {
    hide Drop, GoneSamples, GoneOrders, After, AllSamples, AllOrders, Waiting, LastVideo, DequesAre;
    StateIsLog(c, log);
    LeftIsLogIff(AllSamples(log), GoneSamples(c, log), After(c, log).dwell, SampledAt, now, c.window);
    LeftIsLogIff(AllOrders(log), GoneOrders(c, log), After(c, log).orders, OrderedAt, now, c.posWindow);
  }

  /** No trim has been later than `now`. */
  ghost predicate TrimmedBy<T>(h: seq<Aged<T>>, now: Time) {
    forall i :: 0 <= i < |h| ==> h[i].latest <= now
  }

  lemma {:induction false} HistoryBefore(log: seq<Input>, now: Time)
    requires NotBefore(now, log)
    ensures TrimmedBy(SampleHistory(log), now) && TrimmedBy(OrderHistory(log), now)
  {
    if |log| > 0 {
      HistoryBefore(log[..|log| - 1], now);
      assert TrimTime(log[|log| - 1]).Some? ==> TrimTime(log[|log| - 1]).value <= now;
    }
  }

  lemma GoneIsOld<T>(h: seq<Aged<T>>, at: T -> Time, now: Time, window: int)
    requires TrimmedBy(h, now)
    ensures AllOld(Items(h[..Leading(h, |h|, Overdue(at, window))]), at, now, window)
  {
    forall i | 0 <= i < Leading(h, |h|, Overdue(at, window)) ensures now - at(h[i].item) > window {
      assert Overdue(at, window)(h[i]);
    }
  }

  /** An estimate asked for no earlier than any trim so far is a pure function of the full log. */
  lemma EstimateFromLog(c: Config, log: seq<Input>, loc: Name, now: Time)
    requires ValidConfig(c) && NotBefore(now, log)
    ensures Trimmed(c, After(c, log), now) == LogState(c, log, now)
    ensures EstimateOf(c, Trimmed(c, After(c, log), now), loc, now) == EstimateOf(c, LogState(c, log, now), loc, now)
  {
    hide EstimateOf, Trimmed, LogState, After, AllOld;
    HistoryBefore(log, now);
    GoneIsOld(SampleHistory(log), SampledAt, now, c.window);
    GoneIsOld(OrderHistory(log), OrderedAt, now, c.posWindow);
    StateFromLogIff(c, log, now);
  }

  /** The log without the estimates asked for. */
  function Facts(log: seq<Input>): seq<Input> {
    if |log| == 0 then [] else
      Facts(log[..|log| - 1]) + if log[|log| - 1].Ask? then [] else [log[|log| - 1]]
  }

  lemma {:induction false} OnlyFactsMatter(log: seq<Input>)
    ensures AllSamples(log) == AllSamples(Facts(log)) && AllOrders(log) == AllOrders(Facts(log))
    ensures Waiting(log) == Waiting(Facts(log)) && LastVideo(log) == LastVideo(Facts(log))
  {
    if |log| > 0 {
      var front, x := log[..|log| - 1], log[|log| - 1];
      OnlyFactsMatter(front);
      if x.Ask? {
        assert Facts(log) == Facts(front);
      } else {
        assert Facts(log)[..|Facts(front)|] == Facts(front);
      }
    }
  }

  /** Asking for estimates never changes a later answer. */
  lemma EstimatesDoNotInterfere(c: Config, log: seq<Input>, other: seq<Input>, loc: Name, now: Time)
    requires ValidConfig(c) && NotBefore(now, log) && NotBefore(now, other) && Facts(log) == Facts(other)
    ensures EstimateOf(c, Trimmed(c, After(c, log), now), loc, now) ==
            EstimateOf(c, Trimmed(c, After(c, other), now), loc, now)
  {
    EstimateFromLog(c, log, loc, now);
    EstimateFromLog(c, other, loc, now);
    OnlyFactsMatter(log);
    OnlyFactsMatter(other);
  }

  /** Every estimate on every run is sound: stays kept are long enough, whatever the timestamps. */
  lemma EveryEstimateSound(c: Config, log: seq<Input>, loc: Name, now: Time)
    requires ValidConfig(c)
    ensures var e := EstimateOf(c, Trimmed(c, After(c, log), now), loc, now); NoNumbers(e) || Ordered(e)
  {
    StateIsLog(c, log);
    SamplesLong(log);
    var dwell := After(c, log).dwell;
    var gone := GoneSamples(c, log);
    var more := Split(dwell, OldAt(SampledAt, now, c.window));
    KeptLong(AllSamples(log), gone + more, DropOldSamples(dwell, now, c.window));
    EstimateSound(c, Trimmed(c, After(c, log), now), loc, now);
  }

  lemma KeptLong(all: seq<Sample>, gone: seq<Sample>, kept: seq<Sample>)
    requires all == gone + kept && LongStays(all)
    ensures LongStays(kept)
  {
    forall i | 0 <= i < |kept| ensures kept[i].dwell >= 3 * SECOND {
      assert kept[i] == all[|gone| + i];
    }
  }

  lemma {:induction false} SamplesLong(log: seq<Input>)
    ensures LongStays(AllSamples(log))
  {
    if |log| > 0 {
      SamplesLong(log[..|log| - 1]);
    }
  }

  // ---------------------------------------------------------------------------
  // The window
  // ---------------------------------------------------------------------------

  function InWindow(s: seq<Sample>, now: Time, window: int): seq<Sample> {
    Keep(s, OldAt(SampledAt, now, window))
  }

  /** No sample in the window precedes one that is not. */
  ghost predicate OldFirst(s: seq<Sample>, now: Time, window: int) {
    forall i, j :: 0 <= i < j < |s| && now - s[i].at <= window ==> now - s[j].at <= window
  }

  /**
   At any time at all, a replayed frame's included: the samples behind an estimate are exactly those of the log in the
   window if and only if all that earlier trims discarded is too old now as well, and no sample in the window was
   reported before an older one outside it.
   */
  lemma WindowExactIff(c: Config, log: seq<Input>, now: Time)
    ensures Trimmed(c, After(c, log), now).dwell == InWindow(AllSamples(log), now, c.window) <==>
            && AllOld(GoneSamples(c, log), SampledAt, now, c.window)
            && OldFirst(AllSamples(log), now, c.window)
  {
    hide Drop, Keep, After, AllSamples, GoneSamples, AllOrders, GoneOrders, DequesAre, Waiting, LastVideo;
    hide AllOld, OldFirst, StaleFirst;
    var gone, left, stale := GoneSamples(c, log), After(c, log).dwell, OldAt(SampledAt, now, c.window);
    StateIsLog(c, log);
    DropLeftIsKeepIff(gone, left, stale);
    OldIsStale(gone, now, c.window);
    OldIsStale(gone + left, now, c.window);
    assert Trimmed(c, After(c, log), now).dwell == Drop(left, stale);
  }

  lemma OldIsStale(s: seq<Sample>, now: Time, window: int)
    ensures AllOld(s, SampledAt, now, window) <==> forall i :: 0 <= i < |s| ==> OldAt(SampledAt, now, window)(s[i])
    ensures OldFirst(s, now, window) <==> StaleFirst(s, OldAt(SampledAt, now, window))
  {
    forall i | 0 <= i < |s| ensures OldAt(SampledAt, now, window)(s[i]) <==> now - s[i].at > window {
      assert SampledAt(s[i]) == s[i].at;
    }
  }

  lemma SamplesFromLog(c: Config, log: seq<Input>, now: Time)
    requires NotBefore(now, log)
    ensures Trimmed(c, After(c, log), now).dwell == DropOldSamples(AllSamples(log), now, c.window)
  {
    hide After, AllSamples, DropOldSamples, DropOldOrders, AllOld;
    HistoryBefore(log, now);
    GoneIsOld(SampleHistory(log), SampledAt, now, c.window);
    GoneIsOld(OrderHistory(log), OrderedAt, now, c.posWindow);
    StateFromLogIff(c, log, now);
  }

  /** Asked for no earlier than any trim so far, only the second condition is left. */
  lemma WindowInLogIff(c: Config, log: seq<Input>, now: Time)
    requires NotBefore(now, log)
    ensures Trimmed(c, After(c, log), now).dwell == InWindow(AllSamples(log), now, c.window) <==>
            OldFirst(AllSamples(log), now, c.window)
  {
    hide After, InWindow, OldFirst, AllSamples, DropOldSamples, DropOldOrders, AllOld;
    HistoryBefore(log, now);
    GoneIsOld(SampleHistory(log), SampledAt, now, c.window);
    WindowExactIff(c, log, now);
  }

  /** In particular when exits are reported in time order. */
  lemma WindowExactInOrder(c: Config, log: seq<Input>, now: Time)
    requires NotBefore(now, log)
    requires forall i, j :: 0 <= i < j < |AllSamples(log)| ==> AllSamples(log)[i].at <= AllSamples(log)[j].at
    ensures Trimmed(c, After(c, log), now).dwell == InWindow(AllSamples(log), now, c.window)
  {
    hide After, InWindow, DropOldSamples, DropOldOrders;
    WindowInLogIff(c, log, now);
  }

  /** Two exits, the second reported as of an earlier time: half an hour on, the older one still counts. */
  lemma LateExitOverstays(c: Config, log: seq<Input>, first: ZoneEvent, second: ZoneEvent)
    requires c.window == 30 * MINUTE && CountsAsWait(first) && CountsAsWait(second)
    requires first.ts == 100 * SECOND && second.ts == 80 * SECOND && log == [ZoneIn(first), ZoneIn(second)]
    ensures NotBefore(1890 * SECOND, log)
    ensures Sample(second.ts, second.dwell.value) in Trimmed(c, After(c, log), 1890 * SECOND).dwell
    ensures Sample(second.ts, second.dwell.value) !in InWindow(AllSamples(log), 1890 * SECOND, c.window)
  {
    hide Drop, Keep, After, Trimmed, AllSamples;
    var now, a, b := 1890 * SECOND, Sample(first.ts, first.dwell.value), Sample(second.ts, second.dwell.value);
    SamplesFromLog(c, log, now);
    TwoSamples(first, second, log);
    PoppedIs([a, b], SampledAt, now, c.window, 0);
    KeepFresh([a, b], OldAt(SampledAt, now, c.window));
  }

  /** Asked at 2000 s, an exit of 100 s is discarded; asked at 1000 s after that, it is in the window and missing. */
  lemma OlderQuestionMisses(c: Config, log: seq<Input>, exit: ZoneEvent)
    requires c.window == 30 * MINUTE && CountsAsWait(exit) && exit.ts == 100 * SECOND
    requires log == [ZoneIn(exit), Ask(2000 * SECOND)]
    ensures InWindow(AllSamples(log), 1000 * SECOND, c.window) == [Sample(exit.ts, exit.dwell.value)]
    ensures OldFirst(AllSamples(log), 1000 * SECOND, c.window)
    ensures Trimmed(c, After(c, log), 1000 * SECOND).dwell == []
  {
    hide Drop, Keep;
    var one, s := [ZoneIn(exit)], [Sample(exit.ts, exit.dwell.value)];
    assert log[..1] == one;
    OneSample(c, one, exit);
    assert AllSamples(log) == s;
    PoppedIs(s, SampledAt, 2000 * SECOND, c.window, 1);
    assert After(c, log).dwell == [];
    PoppedIs<Sample>([], SampledAt, 1000 * SECOND, c.window, 0);
    KeepAll(s, OldAt(SampledAt, 1000 * SECOND, c.window));
  }

  lemma OneSample(c: Config, one: seq<Input>, exit: ZoneEvent)
    requires c.window >= 0 && CountsAsWait(exit) && one == [ZoneIn(exit)]
    ensures AllSamples(one) == After(c, one).dwell == [Sample(exit.ts, exit.dwell.value)]
  {
    hide Drop, Keep;
    var s := [Sample(exit.ts, exit.dwell.value)];
    assert one[..0] == [] && AllSamples([]) == [] && After(c, []) == NEW_LOCATION;
    assert Noted(NEW_LOCATION, exit).dwell == s && AllSamples(one) == [] + NewSamples(one[0]);
    PoppedIs(s, SampledAt, exit.ts, c.window, 0);
  }

  lemma TwoSamples(first: ZoneEvent, second: ZoneEvent, log: seq<Input>)
    requires CountsAsWait(first) && CountsAsWait(second) && log == [ZoneIn(first), ZoneIn(second)]
    ensures AllSamples(log) == [Sample(first.ts, first.dwell.value), Sample(second.ts, second.dwell.value)]
  {
    assert log[..1] == [ZoneIn(first)] && log[..1][..0] == [];
    assert AllSamples([]) == [] && AllSamples(log[..1]) == [Sample(first.ts, first.dwell.value)];
  }
}
