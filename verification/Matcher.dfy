/** Vision-POS reconciliation (connectors/matcher.py): pairs check_opens with queue exits. */
module Matcher {
  import opened Deques
  import opened Schemas

  /** A zone event with the random id it was given when it was created. */
  datatype Stamped = Stamped(eventId: int, ev: ZoneEvent)

  datatype Match = Match(posEventId: Name, trackerId: int, cameraId: Name, delta: nat, dwell: Option<int>)

  /** `keep` is None for a matcher that never forgets. */
  datatype Config = Config(tolerance: int, keep: Option<int>)

  /** What is stored for one location: unmatched exits and unmatched checks, oldest arrival first. */
  datatype Store = Store(exits: seq<Stamped>, pending: seq<PosEvent>)

  predicate IsQueueExit(ev: ZoneEvent) {
    ev.zone == Queue && ev.eventType == Exit
  }

  predicate Stale(t: Time, now: Time, keep: Option<int>) {
    keep.Some? && now - t > keep.value
  }

  function ExitTime(e: Stamped): Time { e.ev.ts }

  function CheckTime(p: PosEvent): Time { p.receivedAt }

  function Overstayed<T>(at: T -> Time, now: Time, keep: Option<int>): T -> bool {
    x => Stale(at(x), now, keep)
  }

  function TrimExits(q: seq<Stamped>, now: Time, keep: Option<int>): seq<Stamped> {
    Drop(q, Overstayed(ExitTime, now, keep))
  }

  function TrimPending(q: seq<PosEvent>, now: Time, keep: Option<int>): seq<PosEvent> {
    Drop(q, Overstayed(CheckTime, now, keep))
  }

  function Trimmed(s: Store, now: Time, keep: Option<int>): Store {
    Store(TrimExits(s.exits, now, keep), TrimPending(s.pending, now, keep))
  }

  /** Python's `remove`: drops the first element equal to `x`. */
  function Remove<T(==)>(q: seq<T>, x: T): seq<T> {
    if |q| == 0 then [] else if q[0] == x then q[1..] else [q[0]] + Remove(q[1..], x)
  }

  function Distance(ex: Stamped, pos: PosEvent): nat {
    AbsInt(ex.ev.ts - pos.receivedAt)
  }

  /** The first of the first `n` checks within tolerance of an exit. */
  function FirstWithin(pending: seq<PosEvent>, n: nat, ex: Stamped, tolerance: int): Option<PosEvent>
    requires n <= |pending|
  {
    if n == 0 then None else
      var found := FirstWithin(pending, n - 1, ex, tolerance);
      if found.None? && Distance(ex, pending[n - 1]) <= tolerance then Some(pending[n - 1]) else found
  }

  lemma {:induction false} FirstWithinStable(pending: seq<PosEvent>, n: nat, m: nat, ex: Stamped, tolerance: int)
    requires n <= m <= |pending| && FirstWithin(pending, n, ex, tolerance).Some?
    ensures FirstWithin(pending, m, ex, tolerance) == FirstWithin(pending, n, ex, tolerance)
  {
    if n < m {
      FirstWithinStable(pending, n, m - 1, ex, tolerance);
    }
  }

  /** The closest of the first `n` exits within tolerance of a check; the earliest stored wins a tie. */
  function Closest(exits: seq<Stamped>, n: nat, pos: PosEvent, tolerance: int): Option<Stamped>
    requires n <= |exits|
  {
    if n == 0 then None else
      var best := Closest(exits, n - 1, pos, tolerance);
      var ex := exits[n - 1];
      if Distance(ex, pos) <= tolerance && (best.None? || Distance(ex, pos) < Distance(best.value, pos)) then Some(ex)
      else best
  }

  function MatchOf(pos: PosEvent, ex: Stamped): Match {
    Match(pos.eventId, ex.ev.trackerId, ex.ev.cameraId, Distance(ex, pos), ex.ev.dwell)
  }

  /** A pairing made by one event: which check with which exit. */
  datatype Pair = Pair(pos: PosEvent, exit: Stamped)

  function ZonePair(c: Config, s: Store, ex: Stamped): Option<Pair> {
    var waiting := Trimmed(s, ex.ev.ts, c.keep).pending;
    var p := FirstWithin(waiting, |waiting|, ex, c.tolerance);
    if IsQueueExit(ex.ev) && p.Some? then Some(Pair(p.value, ex)) else None
  }

  function ZoneNext(c: Config, s: Store, ex: Stamped): Store {
    if !IsQueueExit(ex.ev) then s else
      var t := Trimmed(Store(s.exits + [ex], s.pending), ex.ev.ts, c.keep);
      match ZonePair(c, s, ex)
      case None => t
      case Some(pair) => Store(Remove(t.exits, ex), Remove(t.pending, pair.pos))
  }

  function PosPair(c: Config, s: Store, pos: PosEvent): Option<Pair> {
    var stored := Trimmed(s, pos.receivedAt, c.keep).exits;
    var ex := Closest(stored, |stored|, pos, c.tolerance);
    if pos.eventType == CheckOpen && ex.Some? then Some(Pair(pos, ex.value)) else None
  }

  function PosNext(c: Config, s: Store, pos: PosEvent): Store {
    if pos.eventType != CheckOpen then s else
      var t := Trimmed(s, pos.receivedAt, c.keep);
      match PosPair(c, s, pos)
      case None => Store(t.exits, t.pending + [pos])
      case Some(pair) => Store(Remove(t.exits, pair.exit), t.pending)
  }

  lemma Ignored(c: Config, s: Store, ex: Stamped)
    requires !IsQueueExit(ex.ev)
    ensures ZonePair(c, s, ex) == None && ZoneNext(c, s, ex) == s
  {
  }

  lemma ZoneCases(c: Config, s: Store, ex: Stamped, t: Store, found: Option<PosEvent>)
    requires IsQueueExit(ex.ev) && t == Trimmed(Store(s.exits + [ex], s.pending), ex.ev.ts, c.keep)
    requires found == FirstWithin(t.pending, |t.pending|, ex, c.tolerance)
    ensures found.None? ==> ZonePair(c, s, ex) == None && ZoneNext(c, s, ex) == t
    ensures found.Some? ==> ZonePair(c, s, ex) == Some(Pair(found.value, ex)) &&
                            ZoneNext(c, s, ex) == Store(Remove(t.exits, ex), Remove(t.pending, found.value))
  {
  }

  function Answer(pair: Option<Pair>): Option<Match> {
    match pair
    case None => None
    case Some(p) => Some(MatchOf(p.pos, p.exit))
  }

  /** What the two dictionaries hold for a location. */
  function View(exits: map<Name, seq<Stamped>>, pending: map<Name, seq<PosEvent>>, loc: Name): Store {
    Store(if loc in exits then exits[loc] else [], if loc in pending then pending[loc] else [])
  }

  lemma LeftIs<T>(q: seq<T>, at: T -> Time, now: Time, keep: Option<int>, k: nat)
    requires k <= |q| && forall i :: 0 <= i < k ==> Stale(at(q[i]), now, keep)
    requires k < |q| ==> !Stale(at(q[k]), now, keep)
    ensures Drop(q, Overstayed(at, now, keep)) == if k == 0 then q else q[k..]
  {
    LeadingIs(q, Overstayed(at, now, keep), k);
  }

  // ---------------------------------------------------------------------------
  // The matcher
  // ---------------------------------------------------------------------------

  class VisionPosMatcher {
    const tolerance: int
    const keep: int
    var exits: map<Name, seq<Stamped>>
    var pendingPos: map<Name, seq<PosEvent>>

    constructor (tolerance: int := 60 * SECOND, keep: int := 10 * MINUTE)
      requires keep >= 0
      ensures this.tolerance == tolerance && this.keep == keep
      ensures forall loc :: View(exits, pendingPos, loc) == Store([], [])
    {
      this.tolerance, this.keep := tolerance, keep;
      exits, pendingPos := map[], map[];
    }

    method OnZoneEvent(ev: Stamped) returns (m: Option<Match>)
      requires keep >= 0
      modifies this
      ensures m == Answer(ZonePair(Config(tolerance, Some(keep)), old(View(exits, pendingPos, ev.ev.locationId)), ev))
      ensures View(exits, pendingPos, ev.ev.locationId) ==
                ZoneNext(Config(tolerance, Some(keep)), old(View(exits, pendingPos, ev.ev.locationId)), ev)
      ensures forall loc :: loc != ev.ev.locationId ==>
                View(exits, pendingPos, loc) == old(View(exits, pendingPos, loc))
    {
      hide ZoneNext, ZonePair, Trimmed, FirstWithin, MatchOf;
      if ev.ev.zone != Queue || ev.ev.eventType != Exit {
        Ignored(Config(tolerance, Some(keep)), View(exits, pendingPos, ev.ev.locationId), ev);
        return None;
      }
      var loc := ev.ev.locationId;
      ghost var was := View(exits, pendingPos, loc);
      exits := exits[loc := (if loc in exits then exits[loc] else []) + [ev]];
      Trim(loc, ev.ev.ts);
      ghost var t := Trimmed(Store(was.exits + [ev], was.pending), ev.ev.ts, Some(keep));
      var waiting := if loc in pendingPos then pendingPos[loc] else [];
      assert waiting == t.pending && exits[loc] == t.exits;
      var pos := FindPending(waiting, ev);
      ZoneCases(Config(tolerance, Some(keep)), was, ev, t, pos);
      if pos.None? {
        return None;
      }
      ghost var exits1, pending1 := exits, pendingPos;
      pendingPos := pendingPos[loc := Remove(waiting, pos.value)];
      exits := exits[loc := Remove(exits[loc], ev)];
      assert forall l :: l != loc ==> View(exits, pendingPos, l) == View(exits1, pending1, l);
      return Some(MatchOf(pos.value, ev));
    }

    /** The scan over waiting checks. */
    method FindPending(waiting: seq<PosEvent>, ev: Stamped) returns (found: Option<PosEvent>)
      ensures found == FirstWithin(waiting, |waiting|, ev, tolerance)
      ensures found.Some? ==> |waiting| > 0
    {
      for i := 0 to |waiting|
        invariant FirstWithin(waiting, i, ev, tolerance) == None
      {
        var d := AbsInt(ev.ev.ts - waiting[i].receivedAt);
        if d <= tolerance {
          FirstWithinStable(waiting, i + 1, |waiting|, ev, tolerance);
          return Some(waiting[i]);
        }
      }
      return None;
    }

    method OnPosEvent(ev: PosEvent) returns (m: Option<Match>)
      modifies this
      ensures m == Answer(PosPair(Config(tolerance, Some(keep)), old(View(exits, pendingPos, ev.locationId)), ev))
      ensures View(exits, pendingPos, ev.locationId) ==
                PosNext(Config(tolerance, Some(keep)), old(View(exits, pendingPos, ev.locationId)), ev)
      ensures forall loc :: loc != ev.locationId ==> View(exits, pendingPos, loc) == old(View(exits, pendingPos, loc))
    {
      if ev.eventType != CheckOpen {
        return None;
      }
      var loc := ev.locationId;
      ghost var t := Trimmed(View(exits, pendingPos, loc), ev.receivedAt, Some(keep));
      Trim(loc, ev.receivedAt);
      assert View(exits, pendingPos, loc) == t;
      var stored := if loc in exits then exits[loc] else [];
      var best := FindClosest(stored, ev);
      if best.None? {
        pendingPos := pendingPos[loc := (if loc in pendingPos then pendingPos[loc] else []) + [ev]];
        return None;
      }
      exits := exits[loc := Remove(stored, best.value)];
      return Some(MatchOf(ev, best.value));
    }

    /** The best-so-far scan. */
    method FindClosest(stored: seq<Stamped>, ev: PosEvent) returns (best: Option<Stamped>)
      ensures best == Closest(stored, |stored|, ev, tolerance)
    {
      best := None;
      for i := 0 to |stored|
        invariant best == Closest(stored, i, ev, tolerance)
      {
        var ex := stored[i];
        var d := AbsInt(ex.ev.ts - ev.receivedAt);
        if d <= tolerance && (best.None? || d < AbsInt(best.value.ev.ts - ev.receivedAt)) {
          best := Some(ex);
        }
      }
    }

    method Trim(loc: Name, now: Time)
      modifies this
      ensures View(exits, pendingPos, loc) == Trimmed(old(View(exits, pendingPos, loc)), now, Some(keep))
      ensures exits.Keys == old(exits.Keys) && pendingPos.Keys == old(pendingPos.Keys)
      ensures forall l :: l != loc ==> View(exits, pendingPos, l) == old(View(exits, pendingPos, l))
    {
      if loc in exits {
        TrimExitsAt(loc, now);
      }
      if loc in pendingPos {
        TrimPendingAt(loc, now);
      }
    }

    method TrimExitsAt(loc: Name, now: Time)
      requires loc in exits
      modifies this`exits
      ensures exits == old(exits)[loc := TrimExits(old(exits)[loc], now, Some(keep))]
    {
      ghost var all := exits[loc];
      ghost var n := 0;
      while exits[loc] != [] && now - exits[loc][0].ev.ts > keep
        invariant 0 <= n <= |all| && exits == old(exits)[loc := if n == 0 then all else all[n..]]
        invariant forall i :: 0 <= i < n ==> Stale(all[i].ev.ts, now, Some(keep))
        decreases |all| - n
      {
        exits := exits[loc := exits[loc][1..]];
        n := n + 1;
      }
      LeftIs(all, ExitTime, now, Some(keep), n);
    }

    method TrimPendingAt(loc: Name, now: Time)
      requires loc in pendingPos
      modifies this`pendingPos
      ensures pendingPos == old(pendingPos)[loc := TrimPending(old(pendingPos)[loc], now, Some(keep))]
    {
      ghost var all := pendingPos[loc];
      ghost var n := 0;
      while pendingPos[loc] != [] && now - pendingPos[loc][0].receivedAt > keep
        invariant 0 <= n <= |all| && pendingPos == old(pendingPos)[loc := if n == 0 then all else all[n..]]
        invariant forall i :: 0 <= i < n ==> Stale(all[i].receivedAt, now, Some(keep))
        decreases |all| - n
      {
        pendingPos := pendingPos[loc := pendingPos[loc][1..]];
        n := n + 1;
      }
      LeftIs(all, CheckTime, now, Some(keep), n);
    }
  }
}
