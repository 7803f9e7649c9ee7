/**
 Deques that are trimmed by popping stale heads: what such trimming keeps, and what it comes to over a run of trims
 at any times whatever.
 */
module Deques {
  import opened Schemas

  /** How many of the first `n` elements form the leading run of stale ones. */
  function Leading<T>(s: seq<T>, n: nat, stale: T -> bool): (k: nat)
    requires n <= |s|
    ensures k <= n
    ensures forall i :: 0 <= i < k ==> stale(s[i])
    ensures k < n ==> !stale(s[k])
  {
    if n == 0 then 0 else
      var k := Leading(s, n - 1, stale);
      if k == n - 1 && stale(s[n - 1]) then n else k
  }

  /** What popping stale heads leaves. */
  function Drop<T>(s: seq<T>, stale: T -> bool): seq<T> {
    var k := Leading(s, |s|, stale);
    if k == 0 then s else s[k..]
  }

  lemma LeadingIs<T>(s: seq<T>, stale: T -> bool, k: nat)
    requires k <= |s| && (forall i :: 0 <= i < k ==> stale(s[i])) && (k < |s| ==> !stale(s[k]))
    ensures Leading(s, |s|, stale) == k
    ensures Drop(s, stale) == if k == 0 then s else s[k..]
  {
  }

  lemma Split<T>(s: seq<T>, stale: T -> bool) returns (gone: seq<T>)
    ensures s == gone + Drop(s, stale) && gone == s[..Leading(s, |s|, stale)]
    ensures forall i :: 0 <= i < |gone| ==> stale(gone[i])
    ensures |Drop(s, stale)| > 0 ==> !stale(Drop(s, stale)[0])
  {
    gone := s[..Leading(s, |s|, stale)];
  }

  /** Trimming the whole list and trimming what is left of it agree exactly when all that is gone is stale. */
  lemma DropPrefixIff<T>(gone: seq<T>, s: seq<T>, stale: T -> bool)
    ensures Drop(gone + s, stale) == Drop(s, stale) <==> forall i :: 0 <= i < |gone| ==> stale(gone[i])
  {
    var all := gone + s;
    var k := Leading(s, |s|, stale);
    assert forall i :: 0 <= i < |gone| ==> all[i] == gone[i];
    assert forall i :: |gone| <= i < |all| ==> all[i] == s[i - |gone|];
    if forall i :: 0 <= i < |gone| ==> stale(gone[i]) {
      LeadingIs(all, stale, |gone| + k);
    } else {
      var i :| 0 <= i < |gone| && !stale(gone[i]);
      assert Leading(all, |all|, stale) <= i;
      assert |Drop(all, stale)| > |s|;
    }
  }

  // ---------------------------------------------------------------------------
  // Popping heads against filtering
  // ---------------------------------------------------------------------------

  /** Exactly the elements that are not stale, in order. */
  function Keep<T>(s: seq<T>, stale: T -> bool): seq<T> {
    if |s| == 0 then [] else
      Keep(s[..|s| - 1], stale) + if stale(s[|s| - 1]) then [] else [s[|s| - 1]]
  }

  /** Nothing stale comes after something that is not. */
  ghost predicate StaleFirst<T>(s: seq<T>, stale: T -> bool) {
    forall i, j :: 0 <= i < j < |s| && !stale(s[i]) ==> !stale(s[j])
  }

  lemma {:induction false} KeepAll<T>(s: seq<T>, stale: T -> bool)
    requires forall i :: 0 <= i < |s| ==> !stale(s[i])
    ensures |Keep(s, stale)| == |s| && forall i :: 0 <= i < |s| ==> Keep(s, stale)[i] == s[i]
  {
    if |s| > 0 {
      KeepAll(s[..|s| - 1], stale);
    }
  }

  lemma {:induction false} KeepSkips<T>(gone: seq<T>, s: seq<T>, stale: T -> bool)
    requires forall i :: 0 <= i < |gone| ==> stale(gone[i])
    ensures Keep(gone + s, stale) == Keep(s, stale)
  {
    if |s| > 0 {
      KeepSkips(gone, s[..|s| - 1], stale);
      assert (gone + s)[..|gone + s| - 1] == gone + s[..|s| - 1];
    } else if |gone| > 0 {
      assert gone + s == gone;
      KeepSkips(gone[..|gone| - 1], [], stale);
      assert gone[..|gone| - 1] + [] == gone[..|gone| - 1];
    }
  }

  lemma {:induction false} KeepFresh<T>(s: seq<T>, stale: T -> bool)
    ensures forall i :: 0 <= i < |Keep(s, stale)| ==> !stale(Keep(s, stale)[i])
  {
    if |s| > 0 {
      KeepFresh(s[..|s| - 1], stale);
    }
  }

  lemma SplitIsKeepIff<T>(gone: seq<T>, kept: seq<T>, stale: T -> bool)
    requires forall i :: 0 <= i < |gone| ==> stale(gone[i])
    requires |kept| > 0 ==> !stale(kept[0])
    ensures kept == Keep(gone + kept, stale) <==> StaleFirst(gone + kept, stale)
  {
    hide Keep;
    var s := gone + kept;
    KeepSkips(gone, kept, stale);
    assert forall i :: 0 <= i < |gone| ==> s[i] == gone[i];
    if StaleFirst(s, stale) {
      forall i | 0 <= i < |kept| ensures !stale(kept[i]) {
        assert s[|gone|] == kept[0] && s[|gone| + i] == kept[i];
      }
      KeepAll(kept, stale);
    }
    if kept == Keep(s, stale) {
      KeepFresh(s, stale);
      forall i, j | 0 <= i < j < |s| && !stale(s[i]) ensures !stale(s[j]) {
        assert s[j] == kept[j - |gone|];
      }
    }
  }

  lemma {:induction false} KeepAppend<T>(a: seq<T>, b: seq<T>, stale: T -> bool)
    ensures Keep(a + b, stale) == Keep(a, stale) + Keep(b, stale)
  {
    if |b| == 0 {
      assert a + b == a;
    } else {
      KeepAppend(a, b[..|b| - 1], stale);
      assert (a + b)[..|a + b| - 1] == a + b[..|b| - 1];
    }
  }

  lemma {:induction false} KeepSome<T>(s: seq<T>, stale: T -> bool, i: nat)
    requires i < |s| && !stale(s[i])
    ensures |Keep(s, stale)| > 0
  {
    if i < |s| - 1 {
      KeepSome(s[..|s| - 1], stale, i);
    }
  }

  /**
   Part of the list is gone: popping stale heads of what is left filters the whole list if and only if all that is
   gone is stale, and what is stale comes first.
   */
  lemma DropLeftIsKeepIff<T>(gone: seq<T>, left: seq<T>, stale: T -> bool)
    ensures Drop(left, stale) == Keep(gone + left, stale) <==>
            (forall i :: 0 <= i < |gone| ==> stale(gone[i])) && StaleFirst(gone + left, stale)
  {
    hide Drop, Keep, StaleFirst, Leading;
    var popped := Split(left, stale);
    var kept := Drop(left, stale);
    assert gone + left == (gone + popped) + kept;
    if kept == Keep(gone + left, stale) {
      KeepFresh(gone + left, stale);
      KeepAll(kept, stale);
      KeepAppend(gone, left, stale);
      KeepAppend(popped, kept, stale);
      assert |Keep(gone, stale)| == 0;
      forall i | 0 <= i < |gone| ensures stale(gone[i]) {
        if !stale(gone[i]) {
          KeepSome(gone, stale, i);
        }
      }
    }
    if forall i :: 0 <= i < |gone| ==> stale(gone[i]) {
      SplitIsKeepIff(gone + popped, kept, stale);
    }
  }

  // ---------------------------------------------------------------------------
  // A run of trims
  // ---------------------------------------------------------------------------

  /** Too old at `now` for the window. */
  function OldAt<T>(at: T -> Time, now: Time, window: int): T -> bool {
    x => now - at(x) > window
  }

  lemma PoppedIs<T>(s: seq<T>, at: T -> Time, now: Time, window: int, k: nat)
    requires k <= |s| && (forall i :: 0 <= i < k ==> now - at(s[i]) > window)
    requires k < |s| ==> now - at(s[k]) <= window
    ensures Drop(s, OldAt(at, now, window)) == if k == 0 then s else s[k..]
  {
    LeadingIs(s, OldAt(at, now, window), k);
  }

  /** An element with the latest time the deque was trimmed at since it came. */
  datatype Aged<T> = Aged(item: T, latest: Time)

  function Items<T>(h: seq<Aged<T>>): seq<T> {
    seq(|h|, i requires 0 <= i < |h| => h[i].item)
  }

  /** Some trim since it came found the element too old. */
  function Overdue<T>(at: T -> Time, window: int): Aged<T> -> bool {
    (x: Aged<T>) => x.latest - at(x.item) > window
  }

  /** The history after new elements came and the deque was trimmed at `now`. */
  function TrimmedAt<T>(h: seq<Aged<T>>, more: seq<T>, now: Time): seq<Aged<T>> {
    seq(|h|, i requires 0 <= i < |h| => Aged(h[i].item, if h[i].latest < now then now else h[i].latest)) +
    seq(|more|, i requires 0 <= i < |more| => Aged(more[i], now))
  }

  /** Whoever came later has seen no later trim. */
  ghost predicate Falling<T>(h: seq<Aged<T>>) {
    forall i, j :: 0 <= i < j < |h| ==> h[i].latest >= h[j].latest
  }

  lemma DropIs<T>(s: seq<T>, stale: T -> bool, k: nat)
    requires k == Leading(s, |s|, stale)
    ensures |Drop(s, stale)| == |s| - k && forall i :: 0 <= i < |s| - k ==> Drop(s, stale)[i] == s[k + i]
  {
  }

  lemma ItemsLeft<T>(h: seq<Aged<T>>, stale: Aged<T> -> bool, k: nat)
    requires k == Leading(h, |h|, stale)
    ensures |Items(Drop(h, stale))| == |h| - k
    ensures forall i :: 0 <= i < |h| - k ==> Items(Drop(h, stale))[i] == h[k + i].item
  {
    DropIs(h, stale, k);
  }

  lemma TrimmedAtIs<T>(h: seq<Aged<T>>, more: seq<T>, now: Time, next: seq<Aged<T>>)
    requires Falling(h) && next == TrimmedAt(h, more, now)
    ensures Falling(next) && |next| == |h| + |more|
    ensures forall i :: 0 <= i < |next| ==> next[i].item == if i < |h| then h[i].item else more[i - |h|]
    ensures Items(next) == Items(h) + more
  {
  }

  /**
   Whatever the times of the trims: popping stale heads at each leaves what one pass over the history leaves, the
   elements after the leading run of overdue ones.
   */
  lemma TrimIsOnePass<T>(h: seq<Aged<T>>, more: seq<T>, at: T -> Time, now: Time, window: int, next: seq<Aged<T>>)
    requires Falling(h) && next == TrimmedAt(h, more, now)
    ensures Falling(next) && Items(next) == Items(h) + more
    ensures Drop(Items(Drop(h, Overdue(at, window))) + more, OldAt(at, now, window)) ==
            Items(Drop(next, Overdue(at, window)))
  {
    hide Drop, Items, TrimmedAt, Falling, Leading;
    var overdue, stale := Overdue(at, window), OldAt(at, now, window);
    var g := Leading(h, |h|, overdue);
    var left := Items(Drop(h, overdue)) + more;
    var k := Leading(left, |left|, stale);
    TrimmedAtIs(h, more, now, next);
    ItemsLeft(h, overdue, g);
    assert forall i :: 0 <= i < |left| ==> left[i] == next[g + i].item;
    forall i | g <= i < g + k ensures now - at(next[i].item) > window {
      assert stale(left[i - g]) && left[i - g] == next[i].item;
    }
    GoneByThen(h, more, at, now, window, g, k);
    if k < |left| {
      assert !stale(left[k]) && left[k] == next[g + k].item;
      StaysDue(h, more, at, now, window, g, k);
    }
    LeadingIs(next, overdue, g + k);
    ItemsLeft(next, overdue, g + k);
    DropIs(left, stale, k);
  }

  lemma GoneByThen<T>(h: seq<Aged<T>>, more: seq<T>, at: T -> Time, now: Time, window: int, g: nat, k: nat)
    requires g == Leading(h, |h|, Overdue(at, window)) && g + k <= |TrimmedAt(h, more, now)|
    requires forall i :: g <= i < g + k ==> now - at(TrimmedAt(h, more, now)[i].item) > window
    ensures forall i :: 0 <= i < g + k ==> Overdue(at, window)(TrimmedAt(h, more, now)[i])
  {
    forall i | 0 <= i < g + k ensures Overdue(at, window)(TrimmedAt(h, more, now)[i]) {
      if i < g {
        assert Overdue(at, window)(h[i]);
      }
    }
  }

  /** The first element kept at `now` was not overdue before either: older trims that spared a head spared it too. */
  lemma StaysDue<T>(h: seq<Aged<T>>, more: seq<T>, at: T -> Time, now: Time, window: int, g: nat, k: nat)
    requires Falling(h) && g == Leading(h, |h|, Overdue(at, window)) && g + k < |TrimmedAt(h, more, now)|
    requires forall i :: g <= i < g + k ==> now - at(TrimmedAt(h, more, now)[i].item) > window
    requires now - at(TrimmedAt(h, more, now)[g + k].item) <= window
    ensures !Overdue(at, window)(TrimmedAt(h, more, now)[g + k])
  {
    var next := TrimmedAt(h, more, now);
    if g + k < |h| && k > 0 {
      assert !Overdue(at, window)(h[g]) && next[g].item == h[g].item;
      assert h[g].latest >= h[g + k].latest;
    }
  }
}
