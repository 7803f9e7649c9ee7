/** The in-memory idempotency store (connectors/base.py): an LRU with expiry, deduplicating webhook retries. */
module Idempotency {
  import opened Arithmetic
  import opened Schemas
  import opened Dicts

  datatype Key = Key(text: string)

  function KeyOf(provider: string, eventId: string): Key {
    Key(provider + ":" + eventId)
  }

  /** Events of different providers never share a key, as long as no provider name holds the separator. */
  lemma KeysPerProvider(p: string, e: string, q: string, f: string)
    requires ':' !in p && ':' !in q && KeyOf(p, e) == KeyOf(q, f)
    ensures p == q && e == f
  {
    var s := p + ":" + e;
    assert s == q + ":" + f;
    assert s[|p|] == ':' && s[|q|] == ':';
    assert forall i :: 0 <= i < |p| ==> s[i] == p[i] && p[i] in p;
    assert forall i :: 0 <= i < |q| ==> s[i] == q[i] && q[i] in q;
    assert p == s[..|p|] && q == s[..|q|];
    assert e == s[|p| + 1..] && f == s[|q| + 1..];
  }

  datatype Config = Config(maxSize: nat, ttl: int)

  /** Oldest entries go until the store fits. */
  function Evict(d: Dict<Key, Time>, maxSize: nat): Dict<Key, Time>
    decreases |d.order|
  {
    if |d.order| > maxSize then Evict(d.PopFirst(), maxSize) else d
  }

  function Known(d: Dict<Key, Time>, key: Key, now: Time): bool {
    key in d.vals && d.vals[key] > now
  }

  function Next(c: Config, d: Dict<Key, Time>, key: Key, now: Time): Dict<Key, Time> {
    if Known(d, key, now) then d.MoveToEnd(key)
    else Evict(d.Put(key, now + c.ttl).MoveToEnd(key), c.maxSize)
  }

  class MemoryIdempotencyStore {
    const config: Config
    var d: Dict<Key, Time>

    constructor (maxSize: nat := 100_000, ttl: int := 7 * 24 * 3600 * SECOND)
      ensures config == Config(maxSize, ttl) && d == Dict([], map[])
    {
      config := Config(maxSize, ttl);
      d := Dict([], map[]);
    }

    /** Was this event accepted before? Remembers it if not. */
    method Seen(provider: string, eventId: string, now: Time) returns (seen: bool)
      modifies this
      ensures seen == Known(old(d), KeyOf(provider, eventId), now)
      ensures d == Next(config, old(d), KeyOf(provider, eventId), now)
    {
      var key := KeyOf(provider, eventId);
      if key in d.vals && d.vals[key] > now {
        d := d.MoveToEnd(key);
        return true;
      }
      d := d.Put(key, now + config.ttl);
      d := d.MoveToEnd(key);
      ghost var start := d;
      while |d.order| > config.maxSize
        invariant Evict(start, config.maxSize) == Evict(d, config.maxSize)
        decreases |d.order|
      {
        d := d.PopFirst();
      }
      return false;
    }
  }

  // ---------------------------------------------------------------------------
  // Runs
  // ---------------------------------------------------------------------------

  datatype Call = Call(key: Key, now: Time)

  ghost predicate IsRun(c: Config, calls: seq<Call>, stores: seq<Dict<Key, Time>>, answers: seq<bool>) {
    && |stores| == |calls| + 1 && |answers| == |calls| && stores[0] == Dict([], map[])
    && forall k :: 0 <= k < |calls| ==>
      && answers[k] == Known(stores[k], calls[k].key, calls[k].now)
      && stores[k + 1] == Next(c, stores[k], calls[k].key, calls[k].now)
  }

  /** When the key was last accepted, that is, last answered "not seen". */
  ghost function LastAccepted(calls: seq<Call>, answers: seq<bool>, n: nat, key: Key): Option<Time>
    requires n <= |calls| == |answers|
  {
    if n == 0 then None
    else if calls[n - 1].key == key && !answers[n - 1] then Some(calls[n - 1].now)
    else LastAccepted(calls, answers, n - 1, key)
  }

  /** The other keys called since the last call of `key`. */
  ghost function OthersSince(calls: seq<Call>, n: nat, key: Key): set<Key>
    requires n <= |calls|
  {
    if n == 0 || calls[n - 1].key == key then {} else OthersSince(calls, n - 1, key) + {calls[n - 1].key}
  }

  ghost predicate Called(calls: seq<Call>, n: nat, key: Key)
    requires n <= |calls|
  {
    exists i :: 0 <= i < n && calls[i].key == key
  }

  /** The keys stored after `key`, that is, called more recently. */
  ghost function Later(s: seq<Key>, key: Key): seq<Key> {
    if |s| == 0 || s[|s| - 1] == key then [] else Later(s[..|s| - 1], key) + [s[|s| - 1]]
  }

  lemma LaterAppend(s: seq<Key>, x: Key, key: Key)
    ensures Later(s + [x], key) == if x == key then [] else Later(s, key) + [x]
  {
    assert (s + [x])[..|s|] == s;
  }

  lemma {:induction false} LaterWithout(s: seq<Key>, key: Key, x: Key)
    requires x != key
    ensures Later(Without(s, x), key) == Without(Later(s, key), x)
  {
    if |s| > 0 {
      var front, last := s[..|s| - 1], s[|s| - 1];
      LaterWithout(front, key, x);
      LaterAppend(Without(front, x), last, key);
      if last != key {
        var l := Later(front, key);
        assert (l + [last])[..|l|] == l;
      }
    }
  }

  lemma {:induction false} LaterTail(s: seq<Key>, key: Key)
    requires Distinct(s) && |s| > 0
    ensures key in s[1..] ==> Later(s[1..], key) == Later(s, key)
    ensures Later(s, s[0]) == s[1..]
  {
    if |s| > 1 {
      var front, last := s[..|s| - 1], s[|s| - 1];
      LaterTail(front, key);
      assert s[1..][..|s| - 2] == front[1..];
      assert s[1..] == front[1..] + [last];
    }
  }

  lemma {:induction false} LaterDistinct(s: seq<Key>, key: Key)
    requires Distinct(s)
    ensures Distinct(Later(s, key)) && forall k :: k in Later(s, key) ==> k in s
  {
    if |s| > 0 {
      var front, last := s[..|s| - 1], s[|s| - 1];
      LaterDistinct(front, key);
      assert last !in front;
    }
  }

  lemma {:induction false} DistinctCount<T>(s: seq<T>, t: set<T>)
    requires Distinct(s) && forall x :: x in s <==> x in t
    ensures |s| == |t|
  {
    if |s| > 0 {
      var front, last := s[..|s| - 1], s[|s| - 1];
      assert s == front + [last];
      assert last !in front;
      DistinctCount(front, t - {last});
    }
  }

  /** The store agrees with the first `n` calls on `key`: what is kept after it, or why it is gone. */
  ghost predicate Tracks(maxSize: nat, calls: seq<Call>, n: nat, order: seq<Key>, key: Key)
    requires n <= |calls|
  {
    if key in order then
      Called(calls, n, key) && forall k :: k in Later(order, key) <==> k in OthersSince(calls, n, key)
    else
      Called(calls, n, key) ==> |OthersSince(calls, n, key)| >= maxSize
  }

  lemma CalledStep(calls: seq<Call>, n: nat, key: Key)
    requires 0 < n <= |calls|
    ensures Called(calls, n, key) <==> Called(calls, n - 1, key) || calls[n - 1].key == key
  {
  }

  /** Moving the key called to the end keeps the store in agreement. */
  lemma TouchTracks(maxSize: nat, calls: seq<Call>, n: nat, order: seq<Key>, touched: seq<Key>, key: Key)
    requires 0 < n <= |calls| && Distinct(order)
    requires Tracks(maxSize, calls, n - 1, order, key)
    requires touched == Without(order, calls[n - 1].key) + [calls[n - 1].key]
    ensures Tracks(maxSize, calls, n, touched, key)
  {
    hide Without, Later;
    var x := calls[n - 1].key;
    CalledStep(calls, n, key);
    WithoutIs(order, x);
    LaterAppend(Without(order, x), x, key);
    if key != x {
      LaterWithout(order, key, x);
      WithoutIs(Later(order, key), x);
      assert key in touched <==> key in order;
      if key !in order && Called(calls, n, key) {
        SubsetCount(OthersSince(calls, n - 1, key), OthersSince(calls, n, key));
      }
    }
  }

  /** So does dropping the oldest key of a store one over its size. */
  lemma DropTracks(maxSize: nat, calls: seq<Call>, n: nat, order: seq<Key>, key: Key)
    requires n <= |calls| && Distinct(order) && |order| == maxSize + 1
    requires Tracks(maxSize, calls, n, order, key)
    ensures Tracks(maxSize, calls, n, order[1..], key)
  {
    LaterTail(order, key);
    assert order == [order[0]] + order[1..];
    if key == order[0] {
      LaterDistinct(order, key);
      DistinctCount(order[1..], OthersSince(calls, n, key));
      assert key !in order[1..];
    } else {
      assert key in order[1..] <==> key in order;
    }
  }

  /** Every remembered key expires `ttl` after it was last accepted. */
  ghost predicate Expires(c: Config, calls: seq<Call>, answers: seq<bool>, n: nat, vals: map<Key, Time>, key: Key)
    requires n <= |calls| == |answers|
  {
    key in vals ==>
      && LastAccepted(calls, answers, n, key).Some?
      && vals[key] == LastAccepted(calls, answers, n, key).value + c.ttl
  }

  lemma Stored(d: Dict<Key, Time>, key: Key, expiry: Time, moved: Dict<Key, Time>)
    requires d.Valid() && moved == d.Put(key, expiry).MoveToEnd(key)
    ensures moved.Valid() && moved.vals == d.vals[key := expiry]
    ensures moved.order == Without(d.order, key) + [key] && |moved.order| <= |d.order| + 1
  {
    d.PutValid(key, expiry);
    d.Put(key, expiry).MoveToEndValid(key);
    WithoutIs(d.order, key);
    assert key !in d.vals ==> (d.order + [key])[..|d.order|] == d.order;
  }

  lemma Evicted(d: Dict<Key, Time>, maxSize: nat, next: Dict<Key, Time>)
    requires d.Valid() && |d.order| <= maxSize + 1 && next == Evict(d, maxSize)
    ensures next.order == (if |d.order| > maxSize then d.order[1..] else d.order)
    ensures next.Valid() && |next.order| <= maxSize
    ensures forall k :: k in next.vals ==> k in d.vals && next.vals[k] == d.vals[k]
  {
    if |d.order| > maxSize {
      d.PopFirstValid();
    }
  }

  /** In agreement with the first `n` calls on every key. */
  ghost predicate Agrees(c: Config, calls: seq<Call>, answers: seq<bool>, n: nat, d: Dict<Key, Time>)
    requires n <= |calls| == |answers|
  {
    && d.Valid() && |d.order| <= c.maxSize
    && forall key :: Tracks(c.maxSize, calls, n, d.order, key) && Expires(c, calls, answers, n, d.vals, key)
  }

  lemma StepKnown(c: Config, calls: seq<Call>, answers: seq<bool>, n: nat, d: Dict<Key, Time>, next: Dict<Key, Time>)
    requires 0 < n <= |calls| == |answers| && Agrees(c, calls, answers, n - 1, d)
    requires answers[n - 1] && Known(d, calls[n - 1].key, calls[n - 1].now) && next == d.MoveToEnd(calls[n - 1].key)
    ensures Agrees(c, calls, answers, n, next)
  {
    var x := calls[n - 1].key;
    d.MoveToEndValid(x);
    WithoutIs(d.order, x);
    forall key ensures Tracks(c.maxSize, calls, n, next.order, key) && Expires(c, calls, answers, n, next.vals, key) {
      assert Tracks(c.maxSize, calls, n - 1, d.order, key) && Expires(c, calls, answers, n - 1, d.vals, key);
      TouchTracks(c.maxSize, calls, n, d.order, next.order, key);
    }
  }

  lemma AcceptedTracks(c: Config, calls: seq<Call>, n: nat, order: seq<Key>, moved: seq<Key>, key: Key)
    requires 0 < n <= |calls| && Distinct(order) && Distinct(moved) && |moved| <= c.maxSize + 1
    requires moved == Without(order, calls[n - 1].key) + [calls[n - 1].key]
    requires Tracks(c.maxSize, calls, n - 1, order, key)
    ensures Tracks(c.maxSize, calls, n, if |moved| > c.maxSize then moved[1..] else moved, key)
  {
    TouchTracks(c.maxSize, calls, n, order, moved, key);
    if |moved| > c.maxSize {
      DropTracks(c.maxSize, calls, n, moved, key);
    }
  }

  lemma AcceptedExpires(c: Config, calls: seq<Call>, answers: seq<bool>, n: nat, vals: map<Key, Time>,
                        next: map<Key, Time>, key: Key)
    requires 0 < n <= |calls| == |answers| && !answers[n - 1] && Expires(c, calls, answers, n - 1, vals, key)
    requires key in next ==> key in vals[calls[n - 1].key := calls[n - 1].now + c.ttl] &&
                             next[key] == vals[calls[n - 1].key := calls[n - 1].now + c.ttl][key]
    ensures Expires(c, calls, answers, n, next, key)
  {
  }

  lemma StepAccepted(c: Config, calls: seq<Call>, answers: seq<bool>, n: nat, d: Dict<Key, Time>,
                     moved: Dict<Key, Time>, next: Dict<Key, Time>)
    requires 0 < n <= |calls| == |answers| && Agrees(c, calls, answers, n - 1, d) && !answers[n - 1]
    requires moved == d.Put(calls[n - 1].key, calls[n - 1].now + c.ttl).MoveToEnd(calls[n - 1].key)
    requires next == Evict(moved, c.maxSize)
    ensures Agrees(c, calls, answers, n, next)
  {
    var x := calls[n - 1].key;
    Stored(d, x, calls[n - 1].now + c.ttl, moved);
    Evicted(moved, c.maxSize, next);
    forall key ensures Tracks(c.maxSize, calls, n, next.order, key) && Expires(c, calls, answers, n, next.vals, key) {
      assert Tracks(c.maxSize, calls, n - 1, d.order, key) && Expires(c, calls, answers, n - 1, d.vals, key);
      AcceptedTracks(c, calls, n, d.order, moved.order, key);
      AcceptedExpires(c, calls, answers, n, d.vals, next.vals, key);
    }
  }

  /**
   After any run the store is a pure function of the calls: a key is kept, with exactly the keys called since
   behind it, unless `maxSize` others were; and it expires `ttl` after it was last accepted.
   */
  lemma {:induction false} StoreIsRecentCalls(c: Config, calls: seq<Call>, stores: seq<Dict<Key, Time>>,
                                              answers: seq<bool>, n: nat)
    requires IsRun(c, calls, stores, answers) && n <= |calls|
    ensures Agrees(c, calls, answers, n, stores[n])
  {
    if n > 0 {
      StoreIsRecentCalls(c, calls, stores, answers, n - 1);
      var d, x, now := stores[n - 1], calls[n - 1].key, calls[n - 1].now;
      assert answers[n - 1] == Known(d, x, now) && stores[n - 1 + 1] == Next(c, d, x, now);
      if answers[n - 1] {
        StepKnown(c, calls, answers, n, d, stores[n]);
      } else {
        StepAccepted(c, calls, answers, n, d, d.Put(x, now + c.ttl).MoveToEnd(x), stores[n]);
      }
    }
  }

  /**
   A call is answered "seen" exactly when its key was called before with fewer than `maxSize` other keys since,
   and its last acceptance is less than `ttl` ago.
   */
  lemma SeenIff(c: Config, calls: seq<Call>, stores: seq<Dict<Key, Time>>, answers: seq<bool>, n: nat, key: Key)
    requires IsRun(c, calls, stores, answers) && n < |calls| && key == calls[n].key
    ensures answers[n] <==>
            && Called(calls, n, key) && |OthersSince(calls, n, key)| < c.maxSize
            && LastAccepted(calls, answers, n, key).Some?
            && calls[n].now < LastAccepted(calls, answers, n, key).value + c.ttl
  {
    StoreIsRecentCalls(c, calls, stores, answers, n);
    var d := stores[n];
    assert Tracks(c.maxSize, calls, n, d.order, key) && Expires(c, calls, answers, n, d.vals, key);
    assert answers[n] == Known(d, key, calls[n].now);
    if key in d.order {
      LaterDistinct(d.order, key);
      DistinctCount(Later(d.order, key), OthersSince(calls, n, key));
      LaterShorter(d.order, key);
    }
  }

  lemma {:induction false} LaterShorter(s: seq<Key>, key: Key)
    requires key in s
    ensures |Later(s, key)| < |s|
  {
    if s[|s| - 1] != key {
      assert s == s[..|s| - 1] + [s[|s| - 1]];
      LaterShorter(s[..|s| - 1], key);
    }
  }

  /** Two acceptances of one event are `ttl` apart, or `maxSize` other events were called since its call before. */
  lemma AcceptedTwice(c: Config, calls: seq<Call>, stores: seq<Dict<Key, Time>>, answers: seq<bool>, i: nat, j: nat)
    requires IsRun(c, calls, stores, answers) && i < j < |calls| && calls[i].key == calls[j].key
    requires !answers[i] && !answers[j]
    ensures LastAccepted(calls, answers, j, calls[j].key).Some?
    ensures |OthersSince(calls, j, calls[j].key)| >= c.maxSize ||
            calls[j].now >= LastAccepted(calls, answers, j, calls[j].key).value + c.ttl
  {
    SeenIff(c, calls, stores, answers, j, calls[j].key);
    AcceptedBefore(calls, answers, i, j);
  }

  lemma {:induction false} AcceptedBefore(calls: seq<Call>, answers: seq<bool>, i: nat, j: nat)
    requires i < j <= |calls| == |answers| && !answers[i]
    ensures LastAccepted(calls, answers, j, calls[i].key).Some?
  {
    if i < j - 1 {
      AcceptedBefore(calls, answers, i, j - 1);
    }
  }
}
