/**
 Whole runs of the matcher at one location. Locations do not interact: each event touches
 only the store of its own location.
 */
module MatcherRuns {
  import opened Deques
  import opened Schemas
  import opened Matcher

  datatype Input = ZoneIn(ex: Stamped) | PosIn(pos: PosEvent)

  /** Queue exits and check_opens; everything else is ignored. */
  predicate Relevant(x: Input) {
    match x
    case ZoneIn(ex) => IsQueueExit(ex.ev)
    case PosIn(pos) => pos.eventType == CheckOpen
  }

  /** The time the matcher goes by: the exit's, or the server-arrival time of the POS event. */
  function TimeOf(x: Input): Time {
    match x
    case ZoneIn(ex) => ex.ev.ts
    case PosIn(pos) => pos.receivedAt
  }

  function PairMade(c: Config, s: Store, x: Input): Option<Pair> {
    match x
    case ZoneIn(ex) => ZonePair(c, s, ex)
    case PosIn(pos) => PosPair(c, s, pos)
  }

  function Next(c: Config, s: Store, x: Input): Store {
    match x
    case ZoneIn(ex) => ZoneNext(c, s, ex)
    case PosIn(pos) => PosNext(c, s, pos)
  }

  ghost predicate IsRun(c: Config, inputs: seq<Input>, stores: seq<Store>, pairs: seq<Option<Pair>>) {
    && |stores| == |inputs| + 1 && |pairs| == |inputs| && stores[0] == Store([], [])
    && forall k :: 0 <= k < |inputs| ==>
      stores[k + 1] == Next(c, stores[k], inputs[k]) && pairs[k] == PairMade(c, stores[k], inputs[k])
  }

  // ---------------------------------------------------------------------------
  // The scans
  // ---------------------------------------------------------------------------

  ghost predicate Near(ex: Stamped, pos: PosEvent, tolerance: int) {
    Distance(ex, pos) <= tolerance
  }

  /** The scan stops at the first check within tolerance. */
  lemma {:induction false} FirstWithinIs(pending: seq<PosEvent>, n: nat, ex: Stamped, tolerance: int)
    requires n <= |pending|
    ensures FirstWithin(pending, n, ex, tolerance).None? ==> forall i :: 0 <= i < n ==> !Near(ex, pending[i], tolerance)
    ensures FirstWithin(pending, n, ex, tolerance).Some? ==>
              exists i :: 0 <= i < n && pending[i] == FirstWithin(pending, n, ex, tolerance).value &&
                          Near(ex, pending[i], tolerance) && forall j :: 0 <= j < i ==> !Near(ex, pending[j], tolerance)
  {
    if n > 0 {
      FirstWithinIs(pending, n - 1, ex, tolerance);
    }
  }

  /** Position `i` holds an exit no other is closer than; earlier ones are strictly farther. */
  ghost predicate ClosestAt(exits: seq<Stamped>, n: nat, pos: PosEvent, tolerance: int, i: nat)
    requires n <= |exits|
  {
    && i < n && Near(exits[i], pos, tolerance)
    && (forall j :: 0 <= j < n ==> Distance(exits[i], pos) <= Distance(exits[j], pos))
    && (forall j :: 0 <= j < i ==> Distance(exits[i], pos) < Distance(exits[j], pos))
  }

  lemma {:induction false} ClosestNone(exits: seq<Stamped>, n: nat, pos: PosEvent, tolerance: int)
    requires n <= |exits|
    ensures Closest(exits, n, pos, tolerance).None? <==> forall i :: 0 <= i < n ==> !Near(exits[i], pos, tolerance)
  {
    if n > 0 {
      ClosestNone(exits, n - 1, pos, tolerance);
    }
  }

  /** The scan finds an exit of minimal distance, the first such. */
  lemma {:induction false} ClosestIs(exits: seq<Stamped>, n: nat, pos: PosEvent, tolerance: int) returns (i: nat)
    requires n <= |exits| && Closest(exits, n, pos, tolerance).Some?
    ensures ClosestAt(exits, n, pos, tolerance, i) && exits[i] == Closest(exits, n, pos, tolerance).value
  {
    var best := Closest(exits, n - 1, pos, tolerance);
    if best.None? {
      ClosestNone(exits, n - 1, pos, tolerance);
      i := n - 1;
    } else {
      i := ClosestIs(exits, n - 1, pos, tolerance);
      if Distance(exits[n - 1], pos) < Distance(exits[i], pos) {
        i := n - 1;
      }
    }
  }

  lemma {:induction false} FirstWithinSkip(a: seq<PosEvent>, b: seq<PosEvent>, n: nat, ex: Stamped, tolerance: int)
    requires n <= |b| && forall p :: p in a ==> !Near(ex, p, tolerance)
    ensures FirstWithin(a + b, |a| + n, ex, tolerance) == FirstWithin(b, n, ex, tolerance)
  {
    if n == 0 {
      FirstWithinIs(a + b, |a|, ex, tolerance);
      forall i | 0 <= i < |a| ensures !Near(ex, (a + b)[i], tolerance) {
        assert a[i] in a;
      }
    } else {
      FirstWithinSkip(a, b, n - 1, ex, tolerance);
    }
  }

  lemma {:induction false} ClosestSkip(a: seq<Stamped>, b: seq<Stamped>, n: nat, pos: PosEvent, tolerance: int)
    requires n <= |b| && forall e :: e in a ==> !Near(e, pos, tolerance)
    ensures Closest(a + b, |a| + n, pos, tolerance) == Closest(b, n, pos, tolerance)
  {
    if n == 0 {
      ClosestNone(a + b, |a|, pos, tolerance);
      forall i | 0 <= i < |a| ensures !Near((a + b)[i], pos, tolerance) {
        assert a[i] in a;
      }
    } else {
      ClosestSkip(a, b, n - 1, pos, tolerance);
    }
  }

  lemma {:induction false} RemoveIs<T>(q: seq<T>, x: T)
    requires x in q
    ensures multiset(q) == multiset(Remove(q, x)) + multiset{x}
    ensures forall y :: y in Remove(q, x) ==> y in q
  {
    assert q == [q[0]] + q[1..];
    if q[0] != x {
      RemoveIs(q[1..], x);
    }
  }

  lemma {:induction false} RemoveSkip<T>(a: seq<T>, b: seq<T>, x: T)
    requires x !in a
    ensures Remove(a + b, x) == a + Remove(b, x)
  {
    if |a| == 0 {
      assert a + b == b;
    } else {
      RemoveSkip(a[1..], b, x);
      assert (a + b)[1..] == a[1..] + b;
      assert [a[0]] + (a[1..] + Remove(b, x)) == a + Remove(b, x);
    }
  }

  /** What trimming pops. */
  function Dropped<T>(q: seq<T>, at: T -> Time, now: Time, keep: Option<int>): seq<T> {
    q[..Leading(q, |q|, Overstayed(at, now, keep))]
  }

  lemma TrimSplits<T>(q: seq<T>, at: T -> Time, now: Time, keep: Option<int>)
    ensures q == Dropped(q, at, now, keep) + Drop(q, Overstayed(at, now, keep))
    ensures forall x :: x in Dropped(q, at, now, keep) ==> Stale(at(x), now, keep)
  {
    var gone := Split(q, Overstayed(at, now, keep));
    forall x | x in gone ensures Stale(at(x), now, keep) {
      var i :| 0 <= i < |gone| && gone[i] == x;
      assert Overstayed(at, now, keep)(gone[i]);
    }
  }

  // ---------------------------------------------------------------------------
  // Forgetting is invisible
  // ---------------------------------------------------------------------------

  /** No relevant event lags an earlier one by more than `keep - tolerance`. */
  ghost predicate LagBounded(inputs: seq<Input>, tolerance: int, keep: int) {
    forall i, j :: 0 <= i < j < |inputs| && Relevant(inputs[i]) && Relevant(inputs[j]) ==>
      TimeOf(inputs[j]) >= TimeOf(inputs[i]) - (keep - tolerance)
  }

  /** More than `keep` before some relevant event among the first `n`. */
  ghost predicate Dead(inputs: seq<Input>, n: nat, t: Time, keep: int)
    requires n <= |inputs|
  {
    exists i :: 0 <= i < n && Relevant(inputs[i]) && TimeOf(inputs[i]) - t > keep
  }

  /** `big` holds what `small` holds, preceded only by dead entries. */
  ghost predicate Extends(inputs: seq<Input>, n: nat, keep: int, big: Store, small: Store,
                          de: seq<Stamped>, dp: seq<PosEvent>)
    requires n <= |inputs|
  {
    && big.exits == de + small.exits && big.pending == dp + small.pending
    && (forall e :: e in de ==> Dead(inputs, n, e.ev.ts, keep))
    && (forall p :: p in dp ==> Dead(inputs, n, p.receivedAt, keep))
  }

  lemma DeadIsFar(inputs: seq<Input>, n: nat, tolerance: int, keep: int, t: Time)
    requires n < |inputs| && Relevant(inputs[n]) && LagBounded(inputs, tolerance, keep) && tolerance <= keep
    requires Dead(inputs, n, t, keep) || TimeOf(inputs[n]) - t > keep
    ensures TimeOf(inputs[n]) - t > tolerance && Dead(inputs, n + 1, t, keep)
  {
  }

  /** What the forgetful matcher has dropped once event `n` has trimmed it. */
  lemma TrimKeepsExtending(inputs: seq<Input>, n: nat, tolerance: int, keep: int, big: Store, small: Store,
                           de: seq<Stamped>, dp: seq<PosEvent>, trimmed: Store)
    returns (de': seq<Stamped>, dp': seq<PosEvent>)
    requires n < |inputs| && Relevant(inputs[n]) && LagBounded(inputs, tolerance, keep) && tolerance <= keep
    requires Extends(inputs, n, keep, big, small, de, dp)
    requires trimmed == Trimmed(small, TimeOf(inputs[n]), Some(keep))
    ensures Extends(inputs, n + 1, keep, big, trimmed, de', dp')
    ensures forall e :: e in de' ==> TimeOf(inputs[n]) - e.ev.ts > tolerance
    ensures forall p :: p in dp' ==> TimeOf(inputs[n]) - p.receivedAt > tolerance
  {
    var now := TimeOf(inputs[n]);
    TrimSplits(small.exits, ExitTime, now, Some(keep));
    TrimSplits(small.pending, CheckTime, now, Some(keep));
    de' := de + Dropped(small.exits, ExitTime, now, Some(keep));
    dp' := dp + Dropped(small.pending, CheckTime, now, Some(keep));
    assert big.exits == de' + trimmed.exits && big.pending == dp' + trimmed.pending;
    forall e | e in de' ensures now - e.ev.ts > tolerance && Dead(inputs, n + 1, e.ev.ts, keep) {
      DeadIsFar(inputs, n, tolerance, keep, e.ev.ts);
    }
    forall p | p in dp' ensures now - p.receivedAt > tolerance && Dead(inputs, n + 1, p.receivedAt, keep) {
      DeadIsFar(inputs, n, tolerance, keep, p.receivedAt);
    }
  }

  lemma NothingStale(s: Store, now: Time)
    ensures Trimmed(s, now, None) == s
  {
    LeftIs(s.exits, ExitTime, now, None, 0);
    LeftIs(s.pending, CheckTime, now, None, 0);
  }

  lemma ZoneStepExtends(inputs: seq<Input>, n: nat, tolerance: int, keep: int, big: Store, small: Store,
                        de: seq<Stamped>, dp: seq<PosEvent>, ex: Stamped)
    returns (de': seq<Stamped>, dp': seq<PosEvent>)
    requires n < |inputs| && inputs[n] == ZoneIn(ex) && IsQueueExit(ex.ev)
    requires LagBounded(inputs, tolerance, keep) && tolerance <= keep
    requires Extends(inputs, n, keep, big, small, de, dp)
    ensures ZonePair(Config(tolerance, None), big, ex) == ZonePair(Config(tolerance, Some(keep)), small, ex)
    ensures Extends(inputs, n + 1, keep, ZoneNext(Config(tolerance, None), big, ex),
                    ZoneNext(Config(tolerance, Some(keep)), small, ex), de', dp')
  {
    var bigger, smaller := Store(big.exits + [ex], big.pending), Store(small.exits + [ex], small.pending);
    assert bigger.exits == de + smaller.exits;
    var t := Trimmed(smaller, ex.ev.ts, Some(keep));
    NothingStale(bigger, ex.ev.ts);
    de', dp' := TrimKeepsExtending(inputs, n, tolerance, keep, bigger, smaller, de, dp, t);
    FirstWithinSkip(dp', t.pending, |t.pending|, ex, tolerance);
    var found := FirstWithin(t.pending, |t.pending|, ex, tolerance);
    ZoneCases(Config(tolerance, None), big, ex, bigger, found);
    ZoneCases(Config(tolerance, Some(keep)), small, ex, t, found);
    if found.Some? {
      FirstWithinIs(t.pending, |t.pending|, ex, tolerance);
      RemoveSkip(de', t.exits, ex);
      RemoveSkip(dp', t.pending, found.value);
    }
  }

  lemma PosCases(c: Config, s: Store, pos: PosEvent, t: Store, found: Option<Stamped>)
    requires pos.eventType == CheckOpen && t == Trimmed(s, pos.receivedAt, c.keep)
    requires found == Closest(t.exits, |t.exits|, pos, c.tolerance)
    ensures found.None? ==> PosPair(c, s, pos) == None && PosNext(c, s, pos) == Store(t.exits, t.pending + [pos])
    ensures found.Some? ==> PosPair(c, s, pos) == Some(Pair(pos, found.value)) &&
                            PosNext(c, s, pos) == Store(Remove(t.exits, found.value), t.pending)
  {
  }

  lemma PosStepExtends(inputs: seq<Input>, n: nat, tolerance: int, keep: int, big: Store, small: Store,
                       de: seq<Stamped>, dp: seq<PosEvent>, pos: PosEvent)
    returns (de': seq<Stamped>, dp': seq<PosEvent>)
    requires n < |inputs| && inputs[n] == PosIn(pos) && pos.eventType == CheckOpen
    requires LagBounded(inputs, tolerance, keep) && tolerance <= keep
    requires Extends(inputs, n, keep, big, small, de, dp)
    ensures PosPair(Config(tolerance, None), big, pos) == PosPair(Config(tolerance, Some(keep)), small, pos)
    ensures Extends(inputs, n + 1, keep, PosNext(Config(tolerance, None), big, pos),
                    PosNext(Config(tolerance, Some(keep)), small, pos), de', dp')
  {
    var t := Trimmed(small, pos.receivedAt, Some(keep));
    NothingStale(big, pos.receivedAt);
    de', dp' := TrimKeepsExtending(inputs, n, tolerance, keep, big, small, de, dp, t);
    ClosestSkip(de', t.exits, |t.exits|, pos, tolerance);
    var found := Closest(t.exits, |t.exits|, pos, tolerance);
    PosCases(Config(tolerance, None), big, pos, big, found);
    PosCases(Config(tolerance, Some(keep)), small, pos, t, found);
    if found.Some? {
      var i := ClosestIs(t.exits, |t.exits|, pos, tolerance);
      RemoveSkip(de', t.exits, found.value);
    } else {
      assert dp' + (t.pending + [pos]) == dp' + t.pending + [pos];
    }
  }

  lemma StepExtends(inputs: seq<Input>, k: nat, tolerance: int, keep: int, big: Store, small: Store,
                    nextBig: Store, nextSmall: Store, de: seq<Stamped>, dp: seq<PosEvent>)
    returns (de': seq<Stamped>, dp': seq<PosEvent>)
    requires k < |inputs| && LagBounded(inputs, tolerance, keep) && tolerance <= keep
    requires Extends(inputs, k, keep, big, small, de, dp)
    requires nextBig == Next(Config(tolerance, None), big, inputs[k])
    requires nextSmall == Next(Config(tolerance, Some(keep)), small, inputs[k])
    ensures Extends(inputs, k + 1, keep, nextBig, nextSmall, de', dp')
    ensures PairMade(Config(tolerance, None), big, inputs[k]) ==
              PairMade(Config(tolerance, Some(keep)), small, inputs[k])
  {
    de', dp' := de, dp;
    match inputs[k] {
      case ZoneIn(ex) =>
        if IsQueueExit(ex.ev) {
          de', dp' := ZoneStepExtends(inputs, k, tolerance, keep, big, small, de, dp, ex);
        } else {
          StillDead(inputs, k, keep, big, small, de, dp);
        }
      case PosIn(pos) =>
        if pos.eventType == CheckOpen {
          de', dp' := PosStepExtends(inputs, k, tolerance, keep, big, small, de, dp, pos);
        } else {
          StillDead(inputs, k, keep, big, small, de, dp);
        }
    }
  }

  lemma {:induction false} RunsExtend(inputs: seq<Input>, tolerance: int, keep: int,
                                      big: seq<Store>, bigPairs: seq<Option<Pair>>,
                                      small: seq<Store>, smallPairs: seq<Option<Pair>>, n: nat)
    returns (de: seq<Stamped>, dp: seq<PosEvent>)
    requires IsRun(Config(tolerance, None), inputs, big, bigPairs) && n <= |inputs|
    requires IsRun(Config(tolerance, Some(keep)), inputs, small, smallPairs)
    requires LagBounded(inputs, tolerance, keep) && tolerance <= keep
    ensures Extends(inputs, n, keep, big[n], small[n], de, dp)
    ensures forall k :: 0 <= k < n ==> bigPairs[k] == smallPairs[k]
  {
    hide Next, PairMade;
    if n == 0 {
      de, dp := [], [];
    } else {
      var k := n - 1;
      de, dp := RunsExtend(inputs, tolerance, keep, big, bigPairs, small, smallPairs, k);
      assert big[k + 1] == Next(Config(tolerance, None), big[k], inputs[k]);
      assert small[k + 1] == Next(Config(tolerance, Some(keep)), small[k], inputs[k]);
      de, dp := StepExtends(inputs, k, tolerance, keep, big[k], small[k], big[n], small[n], de, dp);
    }
  }

  lemma StillDead(inputs: seq<Input>, k: nat, keep: int, big: Store, small: Store, de: seq<Stamped>, dp: seq<PosEvent>)
    requires k < |inputs| && Extends(inputs, k, keep, big, small, de, dp)
    ensures Extends(inputs, k + 1, keep, big, small, de, dp)
  {
    forall e | e in de ensures Dead(inputs, k + 1, e.ev.ts, keep) {
      assert Dead(inputs, k, e.ev.ts, keep);
    }
    forall p | p in dp ensures Dead(inputs, k + 1, p.receivedAt, keep) {
      assert Dead(inputs, k, p.receivedAt, keep);
    }
  }

  /** The trimmed matcher makes exactly the pairings of one that never forgets, as long as lateness is bounded. */
  lemma TrimmingIsInvisible(inputs: seq<Input>, tolerance: int, keep: int,
                            big: seq<Store>, bigPairs: seq<Option<Pair>>,
                            small: seq<Store>, smallPairs: seq<Option<Pair>>)
    requires IsRun(Config(tolerance, None), inputs, big, bigPairs)
    requires IsRun(Config(tolerance, Some(keep)), inputs, small, smallPairs)
    requires LagBounded(inputs, tolerance, keep) && tolerance <= keep
    ensures bigPairs == smallPairs
  {
    var _, _ := RunsExtend(inputs, tolerance, keep, big, bigPairs, small, smallPairs, |inputs|);
  }

  lemma FreshStay(s: Store, now: Time, keep: int)
    requires |s.exits| > 0 ==> now - s.exits[0].ev.ts <= keep
    requires |s.pending| > 0 ==> now - s.pending[0].receivedAt <= keep
    ensures Trimmed(s, now, Some(keep)) == s
  {
    LeftIs(s.exits, ExitTime, now, Some(keep), 0);
    LeftIs(s.pending, CheckTime, now, Some(keep), 0);
  }

  lemma LoneExitForgotten(ex: Stamped, now: Time, keep: int)
    requires now - ex.ev.ts > keep
    ensures Trimmed(Store([ex], []), now, Some(keep)) == Store([], [])
  {
    LeftIs([ex], ExitTime, now, Some(keep), 1);
    LeftIs([], CheckTime, now, Some(keep), 0);
  }

  /** One more microsecond of lateness and forgetting shows: the bound is the best possible, for every configuration. */
  lemma LagBoundIsTight(tolerance: int, keep: int, ex: Stamped, early: PosEvent, late: PosEvent, inputs: seq<Input>,
                        big: seq<Store>, bigPairs: seq<Option<Pair>>, small: seq<Store>, smallPairs: seq<Option<Pair>>)
    requires 0 <= tolerance <= keep && IsQueueExit(ex.ev) && early.eventType == CheckOpen && late.eventType == CheckOpen
    requires ex.ev.ts == 0 && early.receivedAt == keep + 1 && late.receivedAt == tolerance
    requires inputs == [ZoneIn(ex), PosIn(early), PosIn(late)]
    requires IsRun(Config(tolerance, None), inputs, big, bigPairs)
    requires IsRun(Config(tolerance, Some(keep)), inputs, small, smallPairs)
    ensures TimeOf(inputs[2]) == TimeOf(inputs[1]) - (keep - tolerance) - 1
    ensures bigPairs[2] == Some(Pair(late, ex)) && smallPairs[2] == None
  {
    hide Drop, Trimmed;
    var b, s := Config(tolerance, None), Config(tolerance, Some(keep));
    assert big[0 + 1] == Next(b, big[0], inputs[0]) && big[1 + 1] == Next(b, big[1], inputs[1]);
    assert small[0 + 1] == Next(s, small[0], inputs[0]) && small[1 + 1] == Next(s, small[1], inputs[1]);
    var one := Store([ex], []);
    NothingStale(one, 0);
    FreshStay(one, 0, keep);
    assert [] + [ex] == [ex];
    ZoneCases(b, big[0], ex, one, None);
    ZoneCases(s, small[0], ex, one, None);
    NothingStale(one, keep + 1);
    PosCases(b, one, early, one, None) by { assert !Near(ex, early, tolerance); }
    LoneExitForgotten(ex, keep + 1, keep);
    PosCases(s, one, early, Store([], []), None);
    assert [] + [early] == [early];
    var held, empty := Store([ex], [early]), Store([], [early]);
    NothingStale(held, tolerance);
    FreshStay(empty, tolerance, keep);
    PosCases(b, held, late, held, Some(ex)) by { assert Closest([ex], 1, late, tolerance) == Some(ex); }
    PosCases(s, empty, late, empty, None);
  }

  // ---------------------------------------------------------------------------
  // Nothing that could be paired is left waiting
  // ---------------------------------------------------------------------------

  ghost predicate Apart(s: Store, tolerance: int) {
    forall e, p :: e in s.exits && p in s.pending ==> !Near(e, p, tolerance)
  }

  lemma TrimSubset(s: Store, now: Time, keep: Option<int>)
    ensures forall e :: e in Trimmed(s, now, keep).exits ==> e in s.exits
    ensures forall p :: p in Trimmed(s, now, keep).pending ==> p in s.pending
  {
  }

  lemma RemoveSubset<T>(q: seq<T>, x: T)
    ensures forall y :: y in Remove(q, x) ==> y in q
  {
  }

  lemma StepApart(c: Config, s: Store, x: Input)
    requires Apart(s, c.tolerance)
    ensures Apart(Next(c, s, x), c.tolerance)
  {
    match x {
      case ZoneIn(ex) =>
        if IsQueueExit(ex.ev) {
          var longer := Store(s.exits + [ex], s.pending);
          var t := Trimmed(longer, ex.ev.ts, c.keep);
          var found := FirstWithin(t.pending, |t.pending|, ex, c.tolerance);
          TrimSubset(longer, ex.ev.ts, c.keep);
          ZoneCases(c, s, ex, t, found);
          FirstWithinIs(t.pending, |t.pending|, ex, c.tolerance);
          if found.Some? {
            ZoneMatchApart(c, s, ex, t, found.value);
          }
        }
      case PosIn(pos) =>
        if pos.eventType == CheckOpen {
          var t := Trimmed(s, pos.receivedAt, c.keep);
          var found := Closest(t.exits, |t.exits|, pos, c.tolerance);
          TrimSubset(s, pos.receivedAt, c.keep);
          PosCases(c, s, pos, t, found);
          ClosestNone(t.exits, |t.exits|, pos, c.tolerance);
          if found.Some? {
            RemoveSubset(t.exits, found.value);
          }
        }
    }
  }

  /** A matched exit is the last one in; taking it out leaves only exits that were apart already. */
  lemma ZoneMatchApart(c: Config, s: Store, ex: Stamped, t: Store, pos: PosEvent)
    requires Apart(s, c.tolerance) && t == Trimmed(Store(s.exits + [ex], s.pending), ex.ev.ts, c.keep)
    ensures Apart(Store(Remove(t.exits, ex), Remove(t.pending, pos)), c.tolerance)
  {
    TrimSubset(Store(s.exits + [ex], s.pending), ex.ev.ts, c.keep);
    TrimSplits(s.exits + [ex], ExitTime, ex.ev.ts, c.keep);
    var k := |t.exits|;
    if k > 0 {
      assert t.exits[k - 1] == (s.exits + [ex])[|s.exits|] == ex;
      assert forall e :: e in t.exits[..k - 1] ==> e in s.exits;
      RemoveLast(t.exits[..k - 1], ex);
      assert t.exits == t.exits[..k - 1] + [ex];
    }
    RemoveSubset(t.pending, pos);
  }

  /** Removing a last element by value removes it or an equal earlier one. */
  lemma {:induction false} RemoveLast<T>(q: seq<T>, x: T)
    ensures forall y :: y in Remove(q + [x], x) ==> y in q
  {
    if |q| > 0 && q[0] != x {
      RemoveLast(q[1..], x);
      assert (q + [x])[1..] == q[1..] + [x];
    } else if |q| > 0 {
      assert (q + [x])[1..] == q[1..] + [x];
    }
  }

  /** For any order of events, late or not: no stored exit and waiting check are ever within tolerance. */
  lemma {:induction false} NothingMatchableWaits(c: Config, inputs: seq<Input>, stores: seq<Store>,
                                                 pairs: seq<Option<Pair>>, n: nat)
    requires IsRun(c, inputs, stores, pairs) && n <= |inputs|
    ensures Apart(stores[n], c.tolerance)
  {
    if n > 0 {
      NothingMatchableWaits(c, inputs, stores, pairs, n - 1);
      assert stores[n - 1 + 1] == Next(c, stores[n - 1], inputs[n - 1]);
      StepApart(c, stores[n - 1], inputs[n - 1]);
    }
  }

  /** Every pairing is within tolerance, and no stored exit is closer to its check than the one it gets. */
  lemma PairsAreClosest(c: Config, inputs: seq<Input>, stores: seq<Store>, pairs: seq<Option<Pair>>, k: nat, e: Stamped)
    requires IsRun(c, inputs, stores, pairs) && k < |inputs| && pairs[k].Some?
    requires e in Trimmed(stores[k], TimeOf(inputs[k]), c.keep).exits
    ensures var p := pairs[k].value;
            Distance(p.exit, p.pos) <= c.tolerance && Distance(p.exit, p.pos) <= Distance(e, p.pos)
  {
    NothingMatchableWaits(c, inputs, stores, pairs, k);
    var s := stores[k];
    TrimSubset(s, TimeOf(inputs[k]), c.keep);
    match inputs[k] {
      case ZoneIn(ex) =>
        var t := Trimmed(s, ex.ev.ts, c.keep);
        FirstWithinIs(t.pending, |t.pending|, ex, c.tolerance);
        assert pairs[k] == ZonePair(c, s, ex);
        assert pairs[k].value.pos in s.pending && e in s.exits;
      case PosIn(pos) =>
        var t := Trimmed(s, pos.receivedAt, c.keep);
        assert pairs[k] == PosPair(c, s, pos);
        var i := ClosestIs(t.exits, |t.exits|, pos, c.tolerance);
    }
  }

  // ---------------------------------------------------------------------------
  // Every event is paired once, stored, or trimmed
  // ---------------------------------------------------------------------------

  ghost function ExitsIn(x: Input): multiset<Stamped> {
    if x.ZoneIn? && Relevant(x) then multiset{x.ex} else multiset{}
  }

  ghost function ChecksIn(x: Input): multiset<PosEvent> {
    if x.PosIn? && Relevant(x) then multiset{x.pos} else multiset{}
  }

  ghost function ExitsPaired(p: Option<Pair>): multiset<Stamped> {
    if p.Some? then multiset{p.value.exit} else multiset{}
  }

  ghost function ChecksPaired(p: Option<Pair>): multiset<PosEvent> {
    if p.Some? then multiset{p.value.pos} else multiset{}
  }

  ghost function ExitsTrimmed(c: Config, s: Store, x: Input): multiset<Stamped> {
    if !Relevant(x) then multiset{} else
      multiset(Dropped(s.exits + (if x.ZoneIn? then [x.ex] else []), ExitTime, TimeOf(x), c.keep))
  }

  ghost function ChecksTrimmed(c: Config, s: Store, x: Input): multiset<PosEvent> {
    if !Relevant(x) then multiset{} else multiset(Dropped(s.pending, CheckTime, TimeOf(x), c.keep))
  }

  lemma NewExitStays(s: Store, ex: Stamped, keep: Option<int>, t: Store)
    requires keep.Some? ==> keep.value >= 0
    requires t == Trimmed(Store(s.exits + [ex], s.pending), ex.ev.ts, keep)
    ensures ex in t.exits
  {
    var q := s.exits + [ex];
    TrimSplits(q, ExitTime, ex.ev.ts, keep);
    assert q[|s.exits|] == ex;
    assert ex in Dropped(q, ExitTime, ex.ev.ts, keep) + t.exits;
  }

  lemma ZoneConservesExits(all: seq<Stamped>, now: Time, keep: Option<int>, ex: Stamped, t: seq<Stamped>,
                           p: Option<Pair>, next: seq<Stamped>)
    requires t == TrimExits(all, now, keep) && ex in t && (p.Some? ==> p.value.exit == ex)
    requires next == if p.Some? then Remove(t, ex) else t
    ensures multiset(all) == multiset(next) + ExitsPaired(p) + multiset(Dropped(all, ExitTime, now, keep))
  {
    TrimSplits(all, ExitTime, now, keep);
    assert multiset(all) == multiset(Dropped(all, ExitTime, now, keep)) + multiset(t);
    if p.Some? {
      RemoveIs(t, ex);
    }
  }

  lemma ZoneConservesChecks(all: seq<PosEvent>, now: Time, keep: Option<int>, t: seq<PosEvent>, p: Option<Pair>,
                            next: seq<PosEvent>)
    requires t == TrimPending(all, now, keep) && (p.Some? ==> p.value.pos in t)
    requires next == if p.Some? then Remove(t, p.value.pos) else t
    ensures multiset(all) == multiset(next) + ChecksPaired(p) + multiset(Dropped(all, CheckTime, now, keep))
  {
    TrimSplits(all, CheckTime, now, keep);
    assert multiset(all) == multiset(Dropped(all, CheckTime, now, keep)) + multiset(t);
    if p.Some? {
      RemoveIs(t, p.value.pos);
    }
  }

  lemma ZoneConserves(c: Config, s: Store, ex: Stamped, next: Store, p: Option<Pair>)
    requires (c.keep.Some? ==> c.keep.value >= 0) && IsQueueExit(ex.ev)
    requires next == ZoneNext(c, s, ex) && p == ZonePair(c, s, ex)
    ensures multiset(s.exits) + multiset{ex} ==
            multiset(next.exits) + ExitsPaired(p) + multiset(Dropped(s.exits + [ex], ExitTime, ex.ev.ts, c.keep))
    ensures multiset(s.pending) ==
            multiset(next.pending) + ChecksPaired(p) + multiset(Dropped(s.pending, CheckTime, ex.ev.ts, c.keep))
  {
    var t := Trimmed(Store(s.exits + [ex], s.pending), ex.ev.ts, c.keep);
    var found := FirstWithin(t.pending, |t.pending|, ex, c.tolerance);
    ZoneCases(c, s, ex, t, found);
    NewExitStays(s, ex, c.keep, t);
    FirstWithinIs(t.pending, |t.pending|, ex, c.tolerance);
    ZoneConservesExits(s.exits + [ex], ex.ev.ts, c.keep, ex, t.exits, p, next.exits);
    ZoneConservesChecks(s.pending, ex.ev.ts, c.keep, t.pending, p, next.pending);
    assert multiset(s.exits + [ex]) == multiset(s.exits) + multiset{ex};
  }

  lemma PosConserves(c: Config, s: Store, pos: PosEvent, next: Store, p: Option<Pair>)
    requires pos.eventType == CheckOpen && next == PosNext(c, s, pos) && p == PosPair(c, s, pos)
    ensures multiset(s.exits) ==
            multiset(next.exits) + ExitsPaired(p) + multiset(Dropped(s.exits, ExitTime, pos.receivedAt, c.keep))
    ensures multiset(s.pending) + multiset{pos} ==
            multiset(next.pending) + ChecksPaired(p) + multiset(Dropped(s.pending, CheckTime, pos.receivedAt, c.keep))
  {
    var t := Trimmed(s, pos.receivedAt, c.keep);
    TrimSplits(s.exits, ExitTime, pos.receivedAt, c.keep);
    TrimSplits(s.pending, CheckTime, pos.receivedAt, c.keep);
    assert multiset(s.exits) == multiset(Dropped(s.exits, ExitTime, pos.receivedAt, c.keep)) + multiset(t.exits);
    assert multiset(s.pending) == multiset(Dropped(s.pending, CheckTime, pos.receivedAt, c.keep)) + multiset(t.pending);
    var found := Closest(t.exits, |t.exits|, pos, c.tolerance);
    PosCases(c, s, pos, t, found);
    if found.Some? {
      ClosestIn(t.exits, |t.exits|, pos, c.tolerance);
      RemoveIs(t.exits, found.value);
      assert multiset(next.pending) == multiset(t.pending);
    } else {
      assert multiset(t.pending + [pos]) == multiset(t.pending) + multiset{pos};
    }
  }

  lemma ClosestIn(exits: seq<Stamped>, n: nat, pos: PosEvent, tolerance: int)
    requires n <= |exits|
    ensures Closest(exits, n, pos, tolerance).Some? ==> Closest(exits, n, pos, tolerance).value in exits
  {
  }

  lemma StepConserves(c: Config, s: Store, x: Input, next: Store, p: Option<Pair>)
    requires c.keep.Some? ==> c.keep.value >= 0
    requires next == Next(c, s, x) && p == PairMade(c, s, x)
    ensures multiset(s.exits) + ExitsIn(x) == multiset(next.exits) + ExitsPaired(p) + ExitsTrimmed(c, s, x)
    ensures multiset(s.pending) + ChecksIn(x) == multiset(next.pending) + ChecksPaired(p) + ChecksTrimmed(c, s, x)
  {
    if Relevant(x) {
      match x {
        case ZoneIn(ex) =>
          ZoneConserves(c, s, ex, next, p);
        case PosIn(pos) =>
          assert s.exits + [] == s.exits;
          PosConserves(c, s, pos, next, p);
      }
    }
  }

  /** Totals over the first `n` events of a run. */
  datatype Ledger = Ledger(exitsIn: multiset<Stamped>, checksIn: multiset<PosEvent>,
                           exitsPaired: multiset<Stamped>, checksPaired: multiset<PosEvent>,
                           exitsTrimmed: multiset<Stamped>, checksTrimmed: multiset<PosEvent>)

  ghost function Tally(c: Config, inputs: seq<Input>, stores: seq<Store>, pairs: seq<Option<Pair>>, n: nat): Ledger
    requires n <= |inputs| && n <= |stores| && n <= |pairs|
  {
    if n == 0 then Ledger(multiset{}, multiset{}, multiset{}, multiset{}, multiset{}, multiset{}) else
      var l, x, p := Tally(c, inputs, stores, pairs, n - 1), inputs[n - 1], pairs[n - 1];
      Ledger(l.exitsIn + ExitsIn(x), l.checksIn + ChecksIn(x),
             l.exitsPaired + ExitsPaired(p), l.checksPaired + ChecksPaired(p),
             l.exitsTrimmed + ExitsTrimmed(c, stores[n - 1], x), l.checksTrimmed + ChecksTrimmed(c, stores[n - 1], x))
  }

  /** Each queue exit and each check_open is exactly one of: paired once, still stored, trimmed. */
  lemma {:induction false} EveryEventAccountedFor(c: Config, inputs: seq<Input>, stores: seq<Store>,
                                                  pairs: seq<Option<Pair>>, n: nat)
    requires IsRun(c, inputs, stores, pairs) && n <= |inputs| && (c.keep.Some? ==> c.keep.value >= 0)
    ensures Balanced(Tally(c, inputs, stores, pairs, n), stores[n])
  {
    if n > 0 {
      EveryEventAccountedFor(c, inputs, stores, pairs, n - 1);
      assert stores[n - 1 + 1] == Next(c, stores[n - 1], inputs[n - 1]);
      StepConserves(c, stores[n - 1], inputs[n - 1], stores[n], pairs[n - 1]);
      var l, p, s := Tally(c, inputs, stores, pairs, n - 1), pairs[n - 1], stores[n - 1];
      Carry(l.exitsIn, l.exitsPaired, multiset(s.exits), l.exitsTrimmed, ExitsIn(inputs[n - 1]), ExitsPaired(p),
            multiset(stores[n].exits), ExitsTrimmed(c, s, inputs[n - 1]));
      Carry(l.checksIn, l.checksPaired, multiset(s.pending), l.checksTrimmed, ChecksIn(inputs[n - 1]), ChecksPaired(p),
            multiset(stores[n].pending), ChecksTrimmed(c, s, inputs[n - 1]));
    }
  }

  ghost predicate Balanced(l: Ledger, s: Store) {
    && l.exitsIn == l.exitsPaired + multiset(s.exits) + l.exitsTrimmed
    && l.checksIn == l.checksPaired + multiset(s.pending) + l.checksTrimmed
  }

  /** Moving one step's worth of events across the three piles. */
  lemma Carry<T>(arrived: multiset<T>, paired: multiset<T>, stored: multiset<T>, trimmed: multiset<T>,
                 into: multiset<T>, nowPaired: multiset<T>, left: multiset<T>, nowTrimmed: multiset<T>)
    requires arrived == paired + stored + trimmed && stored + into == left + nowPaired + nowTrimmed
    ensures arrived + into == (paired + nowPaired) + left + (trimmed + nowTrimmed)
  {
    assert arrived + into == paired + (stored + into) + trimmed;
  }

  // ---------------------------------------------------------------------------
  // The answer, in terms of the events
  // ---------------------------------------------------------------------------

  /** No further apart than that. */
  ghost predicate WithinOf(t: Time, u: Time, d: int) { t - d <= u <= t + d }

  /** At least as far apart as that. */
  ghost predicate ApartBy(t: Time, u: Time, d: int) { u <= t - d || t + d <= u }

  /** The match names the check, the person who left, how far apart the two were, and how long the stay was. */
  ghost predicate Reports(m: Match, pos: PosEvent, exit: ZoneEvent) {
    && m.posEventId == pos.eventId && m.trackerId == exit.trackerId && m.cameraId == exit.cameraId
    && (m.delta == exit.ts - pos.receivedAt || m.delta == pos.receivedAt - exit.ts) && m.dwell == exit.dwell
  }

  /** Exit `i` is the closest to the check and within tolerance, the first stored of several. */
  ghost predicate BestExit(exits: seq<Stamped>, pos: PosEvent, tolerance: int, m: Match, i: nat) {
    && i < |exits| && Reports(m, pos, exits[i].ev) && m.delta <= tolerance
    && (forall j :: 0 <= j < |exits| ==> ApartBy(exits[j].ev.ts, pos.receivedAt, m.delta))
    && forall j :: 0 <= j < i ==> ApartBy(exits[j].ev.ts, pos.receivedAt, m.delta + 1)
  }

  /** A check is answered exactly if it opens one and an exit is near, with the closest. */
  lemma CheckAnswer(c: Config, s: Store, pos: PosEvent, exits: seq<Stamped>, m: Option<Match>)
    requires exits == Trimmed(s, pos.receivedAt, c.keep).exits && m == Answer(PosPair(c, s, pos))
    ensures m.Some? <==> && pos.eventType == CheckOpen
                         && exists i :: 0 <= i < |exits| && WithinOf(exits[i].ev.ts, pos.receivedAt, c.tolerance)
    ensures m.Some? ==> exists i: nat :: BestExit(exits, pos, c.tolerance, m.value, i)
  {
    var best := Closest(exits, |exits|, pos, c.tolerance);
    if best.Some? {
      var i := ClosestIs(exits, |exits|, pos, c.tolerance);
      assert WithinOf(exits[i].ev.ts, pos.receivedAt, c.tolerance);
      if pos.eventType == CheckOpen {
        assert BestExit(exits, pos, c.tolerance, m.value, i);
      }
    } else {
      ClosestNone(exits, |exits|, pos, c.tolerance);
      forall i | 0 <= i < |exits| ensures !WithinOf(exits[i].ev.ts, pos.receivedAt, c.tolerance) {
        assert Distance(exits[i], pos) > c.tolerance;
      }
    }
  }

  /** Check `i` is the first waiting one within tolerance of the exit. */
  ghost predicate FirstCheck(waiting: seq<PosEvent>, ex: ZoneEvent, tolerance: int, m: Match, i: nat) {
    && i < |waiting| && Reports(m, waiting[i], ex) && m.delta <= tolerance
    && forall j :: 0 <= j < i ==> !WithinOf(ex.ts, waiting[j].receivedAt, tolerance)
  }

  /** A zone event is answered exactly if it leaves the queue and a waiting check is near, with the first. */
  lemma ExitAnswer(c: Config, s: Store, ex: Stamped, waiting: seq<PosEvent>, m: Option<Match>)
    requires waiting == Trimmed(s, ex.ev.ts, c.keep).pending && m == Answer(ZonePair(c, s, ex))
    ensures m.Some? <==> && ex.ev.zone == Queue && ex.ev.eventType == Exit
                         && exists i :: 0 <= i < |waiting| && WithinOf(ex.ev.ts, waiting[i].receivedAt, c.tolerance)
    ensures m.Some? ==> exists i: nat :: FirstCheck(waiting, ex.ev, c.tolerance, m.value, i)
  {
    FirstWithinIs(waiting, |waiting|, ex, c.tolerance);
    forall i | 0 <= i < |waiting|
      ensures Near(ex, waiting[i], c.tolerance) <==> WithinOf(ex.ev.ts, waiting[i].receivedAt, c.tolerance) {}
    if m.Some? {
      var i :| 0 <= i < |waiting| && waiting[i] == FirstWithin(waiting, |waiting|, ex, c.tolerance).value &&
        Near(ex, waiting[i], c.tolerance) && forall j :: 0 <= j < i ==> !Near(ex, waiting[j], c.tolerance);
      assert FirstCheck(waiting, ex.ev, c.tolerance, m.value, i);
    }
  }
}
