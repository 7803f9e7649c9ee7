/** What the application's handlers pass on, in terms of the stays, events and orders themselves. */
module Handlers {
  import opened Schemas
  import opened Dicts
  import opened Application
  import Estimates
  import Idempotency
  import Matcher
  import Triggers
  import WaitTime
  import Zones

  // ---------------------------------------------------------------------------
  // The snapshot of a camera
  // ---------------------------------------------------------------------------

  /** The stays of a kind that an engine has open. */
  ghost function OpenOfKind(st: Zones.State, kind: ZoneKind): set<Zones.Key> {
    set key | key in st.enter.vals && key.kind == kind
  }

  ghost function KeysOfKind(keys: seq<Zones.Key>, kind: ZoneKind): set<Zones.Key> {
    set key | key in keys && key.kind == kind
  }

  lemma OneMoreOfKind(front: seq<Zones.Key>, last: Zones.Key, kind: ZoneKind)
    requires last !in front
    ensures |KeysOfKind(front + [last], kind)| == |KeysOfKind(front, kind)| + if last.kind == kind then 1 else 0
  {
    assert KeysOfKind(front + [last], kind) ==
      if last.kind == kind then KeysOfKind(front, kind) + {last} else KeysOfKind(front, kind);
  }

  lemma {:induction false} KindCount(keys: seq<Zones.Key>, kind: ZoneKind)
    requires Distinct(keys)
    ensures Zones.CountKind(keys, kind) == |KeysOfKind(keys, kind)|
  {
    if |keys| > 0 {
      var front, last := keys[..|keys| - 1], keys[|keys| - 1];
      assert keys == front + [last];
      KindCount(front, kind);
      OneMoreOfKind(front, last, kind);
    } else {
      assert KeysOfKind(keys, kind) == {};
    }
  }

  lemma {:induction false} RecentCount(orders: seq<Time>, n: nat, now: Time)
    requires n <= |orders|
    ensures |RecentOnly(orders, n, now)| == |Estimates.OfLastFiveMinutes(orders, n, now)|
  {
    var all := Estimates.OfLastFiveMinutes(orders, n, now);
    if n > 0 {
      var front := Estimates.OfLastFiveMinutes(orders, n - 1, now);
      RecentCount(orders, n - 1, now);
      assert all == if now - orders[n - 1] <= 300_000_000 then front + {n - 1} else front;
    } else {
      assert all == {};
    }
  }

  /** How long the queue exits among the events had lasted, in seconds, in order; stays of no time are left out. */
  ghost function QueueStays(evs: seq<ZoneEvent>, n: nat): seq<real>
    requires n <= |evs|
  {
    if n == 0 then [] else
      var e := evs[n - 1];
      QueueStays(evs, n - 1) +
      if e.zone == Queue && e.eventType == Exit && e.dwell.Some? && e.dwell.value != 0
      then [e.dwell.value as real / 1_000_000.0] else []
  }

  lemma {:induction false} DwellsAreStays(evs: seq<ZoneEvent>, n: nat)
    requires n <= |evs|
    ensures Dwells(evs, n) == QueueStays(evs, n)
  {
    if n > 0 {
      DwellsAreStays(evs, n - 1);
    }
  }

  ghost function Total(s: seq<real>): real {
    if |s| == 0 then 0.0 else s[0] + Total(s[1..])
  }

  lemma {:induction false} TotalAppend(s: seq<real>, x: real)
    ensures Total(s + [x]) == Total(s) + x
  {
    if |s| > 0 {
      TotalAppend(s[1..], x);
      assert (s + [x])[1..] == s[1..] + [x];
    } else {
      assert s + [x] == [x] && [x][1..] == [];
    }
  }

  lemma {:induction false} SumIsTotal(s: seq<real>)
    ensures Sum(s) == Total(s)
  {
    if |s| > 0 {
      var front, last := s[..|s| - 1], s[|s| - 1];
      SumIsTotal(front);
      TotalAppend(front, last);
      assert s == front + [last];
    }
  }

  /**
   What the trigger policy is shown after a frame: how many QUEUE and SERVICE stays the camera has open, the mean of the
   queue stays the frame ended, and how many orders came in the last five minutes.
   */
  lemma SnapshotIs(st: Zones.State, evs: seq<ZoneEvent>, orders: seq<Time>, ts: Time)
    requires Zones.Valid(st)
    ensures var snap, stays := Seen(st, evs, orders, ts), QueueStays(evs, |evs|);
            && snap.ts == ts
            && snap.queueLen == |OpenOfKind(st, Queue)| && snap.serviceLen == |OpenOfKind(st, Service)|
            && snap.posOrders == |Estimates.OfLastFiveMinutes(orders, |orders|, ts)|
            && (snap.avgDwell.None? <==> stays == [])
            && (snap.avgDwell.Some? ==> snap.avgDwell.value * |stays| as real == Total(stays))
  {
    hide Zones.CountKind, Dwells, QueueStays, Sum, Total, RecentOnly;
    KindCount(st.enter.order, Queue);
    KindCount(st.enter.order, Service);
    assert KeysOfKind(st.enter.order, Queue) == OpenOfKind(st, Queue);
    assert KeysOfKind(st.enter.order, Service) == OpenOfKind(st, Service);
    RecentCount(orders, |orders|, ts);
    DwellsAreStays(evs, |evs|);
    SumIsTotal(QueueStays(evs, |evs|));
    if QueueStays(evs, |evs|) != [] {
      MeanTimesCount(Total(QueueStays(evs, |evs|)), |QueueStays(evs, |evs|)|);
    }
  }

  lemma MeanTimesCount(total: real, n: nat)
    requires n > 0
    ensures total / n as real * n as real == total
  {
  }

  // ---------------------------------------------------------------------------
  // The dwell baseline
  // ---------------------------------------------------------------------------

  /** The last `bound` elements. */
  ghost function LastOf<T>(s: seq<T>, bound: nat): seq<T> {
    if |s| <= bound then s else s[|s| - bound..]
  }

  lemma PushIsLast<T>(q: seq<T>, x: T, bound: nat)
    requires |q| <= bound
    ensures Triggers.Push(q, x, bound) == LastOf(q + [x], bound)
  {
  }

  lemma LastOfMore<T>(s: seq<T>, x: T, bound: nat)
    ensures LastOf(LastOf(s, bound) + [x], bound) == LastOf(s + [x], bound)
  {
  }

  lemma {:induction false} PushAllIsLast(q: seq<real>, more: seq<real>, bound: nat)
    requires |q| <= bound
    ensures PushAll(q, more, bound) == LastOf(q + more, bound)
  {
    hide LastOf, Triggers.Push;
    if |more| > 0 {
      var front, last := more[..|more| - 1], more[|more| - 1];
      PushAllIsLast(q, front, bound);
      PushOneMore(q + front, last, bound);
      assert q + more == (q + front) + [last];
    } else {
      LastOfShort(q, bound);
      assert q + more == q;
    }
  }

  lemma LastOfShort<T>(s: seq<T>, bound: nat)
    requires |s| <= bound
    ensures LastOf(s, bound) == s
  {
  }

  lemma PushOneMore<T>(s: seq<T>, x: T, bound: nat)
    ensures Triggers.Push(LastOf(s, bound), x, bound) == LastOf(s + [x], bound)
  {
    PushIsLast(LastOf(s, bound), x, bound);
    LastOfMore(s, x, bound);
  }

  /** After a frame a camera's baseline is the last of its recorded dwells, the frame's queue stays included. */
  lemma BaselineIs(c: Triggers.Config, s: Triggers.CamState, evs: seq<ZoneEvent>)
    requires |s.baseline| <= c.baselineMax
    ensures WithDwells(c, s, evs) == s.(baseline := LastOf(s.baseline + QueueStays(evs, |evs|), c.baselineMax))
  {
    hide Dwells, QueueStays, PushAll, LastOf;
    DwellsAreStays(evs, |evs|);
    PushAllIsLast(s.baseline, QueueStays(evs, |evs|), c.baselineMax);
  }

  // ---------------------------------------------------------------------------
  // A webhook nobody has sent before
  // ---------------------------------------------------------------------------

  function IdOf(ev: Incoming): string {
    match ev
    case Pos(pos) => pos.eventId.text
    case Booking(_, _, eventId, _, _) => eventId.text
  }

  /** When the orders created and checks opened among the first `n` events were received. */
  function OrderTimes(evs: seq<Incoming>, n: nat): seq<Time>
    requires n <= |evs|
  {
    if n == 0 then [] else
      OrderTimes(evs, n - 1) +
      match evs[n - 1]
      case Pos(pos) => if pos.eventType == OrderCreated || pos.eventType == CheckOpen then [pos.receivedAt] else []
      case Booking(_, _, _, _, _) => []
  }

  /** The provider's event is not remembered, or no longer. */
  ghost predicate Forgotten(d: Dict<Idempotency.Key, Time>, provider: string, id: string, now: Time) {
    var key := Idempotency.KeyOf(provider, id);
    key in d.vals ==> d.vals[key] <= now
  }

  /** The events have ids of their own, none remembered when it is its turn. */
  ghost predicate AllNew(d: Dict<Idempotency.Key, Time>, provider: string, evs: seq<Incoming>, clock: nat -> Time) {
    && (forall i, j :: 0 <= i < j < |evs| ==> IdOf(evs[i]) != IdOf(evs[j]))
    && forall i :: 0 <= i < |evs| ==> Forgotten(d, provider, IdOf(evs[i]), clock(i))
  }

  lemma OtherId(provider: string, a: string, b: string)
    requires a != b
    ensures Idempotency.KeyOf(provider, a) != Idempotency.KeyOf(provider, b)
  {
    var s, t := provider + ":" + a, provider + ":" + b;
    assert a == s[|provider| + 1..] && b == t[|provider| + 1..];
  }

  lemma {:induction false} EvictKeeps(d: Dict<Idempotency.Key, Time>, maxSize: nat, key: Idempotency.Key)
    ensures key in Idempotency.Evict(d, maxSize).vals ==>
              key in d.vals && Idempotency.Evict(d, maxSize).vals[key] == d.vals[key]
    decreases |d.order|
  {
    if |d.order| > maxSize {
      EvictKeeps(d.PopFirst(), maxSize, key);
    }
  }

  /** Handling one event does not make the store remember another. */
  lemma OthersStayForgotten(ic: Idempotency.Config, d: Dict<Idempotency.Key, Time>, provider: string, a: string,
                            b: string, now: Time, later: Time)
    requires a != b && Forgotten(d, provider, b, later)
    ensures Forgotten(Idempotency.Next(ic, d, Idempotency.KeyOf(provider, a), now), provider, b, later)
  {
    var key := Idempotency.KeyOf(provider, a);
    OtherId(provider, a, b);
    EvictKeeps(d.Put(key, now + ic.ttl).MoveToEnd(key), ic.maxSize, Idempotency.KeyOf(provider, b));
  }

  lemma OfferRemembers(c: WaitTime.Config, mc: Matcher.Config, ic: Idempotency.Config, s: Desk, ev: Incoming,
                       key: Idempotency.Key, now: Time)
    requires WaitTime.ValidConfig(c)
    ensures Offered(c, mc, ic, s, ev, key, now).dedupe == Idempotency.Next(ic, s.dedupe, key, now)
    ensures ev.EventId() == IdOf(ev)
  {
    hide WaitTime.EstimateOf, Matcher.PosNext, Idempotency.Next, WaitTime.AfterPosEvent, WaitTime.Trimmed;
  }

  lemma {:induction false} StayForgotten(c: WaitTime.Config, mc: Matcher.Config, ic: Idempotency.Config, s: Desk,
                                         provider: string, evs: seq<Incoming>, clock: nat -> Time, n: nat, k: nat)
    requires WaitTime.ValidConfig(c) && n <= k < |evs| && AllNew(s.dedupe, provider, evs, clock)
    ensures Forgotten(Webhook(c, mc, ic, s, provider, evs, clock, n).dedupe, provider, IdOf(evs[k]), clock(k))
  {
    hide Webhook, Offered, Idempotency.Next, Idempotency.KeyOf, Forgotten, AllNew, IdOf;
    NewAmong(s.dedupe, provider, evs, clock, n, k);
    if n > 0 {
      StayForgotten(c, mc, ic, s, provider, evs, clock, n - 1, k);
      WebhookStep(c, mc, ic, s, provider, evs, clock, n);
      OthersStayForgotten(ic, Webhook(c, mc, ic, s, provider, evs, clock, n - 1).dedupe, provider, IdOf(evs[n - 1]),
                          IdOf(evs[k]), clock(n - 1), clock(k));
    } else {
      WebhookNone(c, mc, ic, s, provider, evs, clock);
    }
  }

  lemma NewAmong(d: Dict<Idempotency.Key, Time>, provider: string, evs: seq<Incoming>, clock: nat -> Time, n: nat,
                 k: nat)
    requires AllNew(d, provider, evs, clock) && n <= k < |evs|
    ensures Forgotten(d, provider, IdOf(evs[k]), clock(k)) && (n > 0 ==> IdOf(evs[n - 1]) != IdOf(evs[k]))
  {
  }

  lemma WebhookNone(c: WaitTime.Config, mc: Matcher.Config, ic: Idempotency.Config, s: Desk, provider: string,
                    evs: seq<Incoming>, clock: nat -> Time)
    requires WaitTime.ValidConfig(c)
    ensures Webhook(c, mc, ic, s, provider, evs, clock, 0) == s
  {
  }

  lemma WebhookStep(c: WaitTime.Config, mc: Matcher.Config, ic: Idempotency.Config, s: Desk, provider: string,
                    evs: seq<Incoming>, clock: nat -> Time, n: nat)
    requires WaitTime.ValidConfig(c) && 0 < n <= |evs|
    ensures Webhook(c, mc, ic, s, provider, evs, clock, n).dedupe ==
            Idempotency.Next(ic, Webhook(c, mc, ic, s, provider, evs, clock, n - 1).dedupe,
                             Idempotency.KeyOf(provider, IdOf(evs[n - 1])), clock(n - 1))
  {
    hide Offered, Idempotency.Next, Idempotency.KeyOf;
    OfferRemembers(c, mc, ic, Webhook(c, mc, ic, s, provider, evs, clock, n - 1), evs[n - 1],
                   Idempotency.KeyOf(provider, IdOf(evs[n - 1])), clock(n - 1));
  }

  /** One event nobody remembers is counted, and its order, if it is one, kept. */
  lemma NewEventHandled(c: WaitTime.Config, mc: Matcher.Config, ic: Idempotency.Config, s: Desk, provider: string,
                        ev: Incoming, now: Time)
    requires WaitTime.ValidConfig(c) && Forgotten(s.dedupe, provider, IdOf(ev), now)
    ensures var r := Offered(c, mc, ic, s, ev, Idempotency.KeyOf(provider, ev.EventId()), now);
            && r.accepted == s.accepted + 1 && r.orders == s.orders + OrderTimes([ev], 1)
  {
    hide WaitTime.EstimateOf, Matcher.PosNext, Idempotency.Next, WaitTime.AfterPosEvent, WaitTime.Trimmed;
    assert OrderTimes([ev], 0) == [];
  }

  /**
   A webhook of events all new accepts every one of them, and keeps for the trigger policy exactly the times of its
   orders, in order.
   */
  lemma {:induction false} NewWebhookHandled(c: WaitTime.Config, mc: Matcher.Config, ic: Idempotency.Config, s: Desk,
                                             provider: string, evs: seq<Incoming>, clock: nat -> Time, n: nat)
    requires WaitTime.ValidConfig(c) && n <= |evs| && AllNew(s.dedupe, provider, evs, clock)
    ensures var r := Webhook(c, mc, ic, s, provider, evs, clock, n);
            r.accepted == s.accepted + n && r.orders == s.orders + OrderTimes(evs, n)
  {
    hide Offered, Forgotten, Idempotency.KeyOf;
    if n > 0 {
      var was := Webhook(c, mc, ic, s, provider, evs, clock, n - 1);
      NewWebhookHandled(c, mc, ic, s, provider, evs, clock, n - 1);
      StayForgotten(c, mc, ic, s, provider, evs, clock, n - 1, n - 1);
      NewEventHandled(c, mc, ic, was, provider, evs[n - 1], clock(n - 1));
      assert OrderTimes(evs, n) == OrderTimes(evs, n - 1) + OrderTimes([evs[n - 1]], 1) by {
        assert OrderTimes([evs[n - 1]], 0) == [];
      }
    }
  }

  /** An order, a check or a seated guest; other bookings say nothing about waiting. */
  ghost predicate Publishes(ev: Incoming) { ev.Pos? || ev.seated }

  function LocationOf(ev: Incoming): Name {
    match ev
    case Pos(pos) => pos.locationId
    case Booking(_, loc, _, _, _) => loc
  }

  function ArrivalOf(ev: Incoming): Time {
    match ev
    case Pos(pos) => pos.receivedAt
    case Booking(_, _, _, _, receivedAt) => receivedAt
  }

  /** A new POS event or seated reservation publishes an estimate as of its arrival; other bookings change nothing. */
  lemma NewEventPublishes(c: WaitTime.Config, mc: Matcher.Config, ic: Idempotency.Config, s: Desk, provider: string,
                          ev: Incoming, now: Time)
    requires WaitTime.ValidConfig(c) && Forgotten(s.dedupe, provider, IdOf(ev), now)
    ensures var r := Offered(c, mc, ic, s, ev, Idempotency.KeyOf(provider, ev.EventId()), now);
            if Publishes(ev) then
              && r.published.Some?
              && Estimates.IsPublished(r.published.value, c, r.wait, LocationOf(ev), ArrivalOf(ev))
            else
              r == s.(dedupe := r.dedupe, accepted := s.accepted + 1)
  {
    hide WaitTime.EstimateOf, Matcher.PosNext, Idempotency.Next, WaitTime.AfterPosEvent, WaitTime.Trimmed,
      Estimates.IsPublished;
    var r := Offered(c, mc, ic, s, ev, Idempotency.KeyOf(provider, ev.EventId()), now);
    if Publishes(ev) {
      Estimates.EstimateIsPublished(c, r.wait, LocationOf(ev), ArrivalOf(ev));
    }
  }
}
