/** Python's built-in `sorted`: a stable sort, given as insertion from the right. */
module Sorting {

  ghost predicate TotalPreorder<T(!new)>(leq: (T, T) -> bool) {
    && (forall x, y :: leq(x, y) || leq(y, x))
    && (forall x, y, z :: leq(x, y) && leq(y, z) ==> leq(x, z))
  }

  ghost predicate SortedBy<T>(s: seq<T>, leq: (T, T) -> bool) {
    forall i, j :: 0 <= i < j < |s| ==> leq(s[i], s[j])
  }

  function Insert<T>(x: T, s: seq<T>, leq: (T, T) -> bool): (r: seq<T>)
    ensures multiset(r) == multiset(s) + multiset{x}
    ensures |r| == |s| + 1
  {
    if |s| == 0 || leq(x, s[0]) then
      [x] + s
    else
      assert s == [s[0]] + s[1..];
      [s[0]] + Insert(x, s[1..], leq)
  }

  function Sorted<T>(s: seq<T>, leq: (T, T) -> bool): (r: seq<T>)
    ensures multiset(r) == multiset(s)
    ensures |r| == |s|
  {
    if |s| == 0 then
      []
    else
      assert s == [s[0]] + s[1..];
      Insert(s[0], Sorted(s[1..], leq), leq)
  }

  lemma {:induction false} InsertSorted<T(!new)>(x: T, s: seq<T>, leq: (T, T) -> bool)
    requires TotalPreorder(leq) && SortedBy(s, leq)
    ensures SortedBy(Insert(x, s, leq), leq)
  {
    if |s| == 0 || leq(x, s[0]) {
    } else {
      InsertSorted(x, s[1..], leq);
      var rest := Insert(x, s[1..], leq);
      forall k | 0 <= k < |rest| ensures leq(s[0], rest[k]) {
        assert rest[k] in multiset(rest);
        assert rest[k] == x || rest[k] in s[1..];
      }
    }
  }

  lemma {:induction false} SortedIsSorted<T(!new)>(s: seq<T>, leq: (T, T) -> bool)
    requires TotalPreorder(leq)
    ensures SortedBy(Sorted(s, leq), leq)
  {
    if |s| > 0 {
      SortedIsSorted(s[1..], leq);
      InsertSorted(s[0], Sorted(s[1..], leq), leq);
    }
  }

  lemma SortedMembers<T>(s: seq<T>, leq: (T, T) -> bool)
    ensures forall x :: x in Sorted(s, leq) <==> x in s
  {
    forall x ensures x in Sorted(s, leq) <==> x in s {
      assert x in Sorted(s, leq) <==> x in multiset(Sorted(s, leq));
      assert x in s <==> x in multiset(s);
    }
  }

  lemma SortedHeadLeast<T>(s: seq<T>, x: T, leq: (T, T) -> bool)
    requires SortedBy(s, leq) && x in s && leq(x, x)
    ensures leq(s[0], x)
  {
    var i :| 0 <= i < |s| && s[i] == x;
    assert i == 0 || leq(s[0], s[i]);
  }

  lemma MultisetTail<T>(s: seq<T>)
    requires |s| > 0
    ensures multiset(s[1..]) == multiset(s) - multiset{s[0]}
  {
    assert s == [s[0]] + s[1..];
  }

  /** A multiset has only one arrangement sorted by an antisymmetric order. */
  lemma {:induction false} SortedUnique<T(!new)>(s: seq<T>, t: seq<T>, leq: (T, T) -> bool)
    requires forall x :: leq(x, x)
    requires forall x, y :: leq(x, y) && leq(y, x) ==> x == y
    requires SortedBy(s, leq) && SortedBy(t, leq) && multiset(s) == multiset(t)
    ensures s == t
    decreases |s|
  {
    assert |s| == |multiset(s)| == |multiset(t)| == |t|;
    if |s| > 0 {
      assert s[0] in multiset(t) && t[0] in multiset(s);
      SortedHeadLeast(s, t[0], leq);
      SortedHeadLeast(t, s[0], leq);
      MultisetTail(s);
      MultisetTail(t);
      SortedUnique(s[1..], t[1..], leq);
      assert s == [s[0]] + s[1..] && t == [t[0]] + t[1..];
    }
  }

  function Those<T>(s: seq<T>, p: T -> bool): seq<T> {
    if |s| == 0 then [] else (if p(s[0]) then [s[0]] else []) + Those(s[1..], p)
  }

  /** Ordered both ways: neither before the other. */
  function Tied<T>(x: T, leq: (T, T) -> bool): T -> bool {
    z => leq(z, x) && leq(x, z)
  }

  lemma NotBothTied<T(!new)>(x: T, y: T, z: T, leq: (T, T) -> bool)
    requires TotalPreorder(leq) && !leq(y, z)
    ensures !(Tied(x, leq)(y) && Tied(x, leq)(z))
  {
  }

  lemma {:induction false} InsertStable<T(!new)>(x: T, y: T, s: seq<T>, leq: (T, T) -> bool)
    requires TotalPreorder(leq)
    ensures Those(Insert(y, s, leq), Tied(x, leq)) == Those([y] + s, Tied(x, leq))
  {
    hide TotalPreorder, Tied;
    if |s| == 0 || leq(y, s[0]) {
    } else {
      InsertStable(x, y, s[1..], leq);
      assert ([s[0]] + Insert(y, s[1..], leq))[1..] == Insert(y, s[1..], leq);
      assert ([y] + s)[1..] == s;
      assert ([y] + s[1..])[1..] == s[1..];
      NotBothTied(x, y, s[0], leq);
    }
  }

  /** Stability: elements tied with `x` keep the order they came in. */
  lemma {:induction false} SortedStable<T(!new)>(x: T, s: seq<T>, leq: (T, T) -> bool)
    requires TotalPreorder(leq)
    ensures Those(Sorted(s, leq), Tied(x, leq)) == Those(s, Tied(x, leq))
  {
    if |s| > 0 {
      var p := Tied(x, leq);
      SortedStable(x, s[1..], leq);
      InsertStable(x, s[0], Sorted(s[1..], leq), leq);
      var r := Sorted(s[1..], leq);
      assert ([s[0]] + r)[1..] == r;
    }
  }

  ghost predicate Pairwise<T>(s: seq<T>, r: (T, T) -> bool) {
    forall i, j :: 0 <= i < j < |s| ==> r(s[i], s[j]) && r(s[j], s[i])
  }

  lemma {:induction false} InsertPairwise<T>(x: T, s: seq<T>, leq: (T, T) -> bool, r: (T, T) -> bool)
    requires Pairwise(s, r) && forall k :: 0 <= k < |s| ==> r(x, s[k]) && r(s[k], x)
    ensures Pairwise(Insert(x, s, leq), r)
  {
    if |s| > 0 && !leq(x, s[0]) {
      InsertPairwise(x, s[1..], leq, r);
      var rest := Insert(x, s[1..], leq);
      forall k | 0 <= k < |rest| ensures r(s[0], rest[k]) && r(rest[k], s[0]) {
        assert rest[k] in multiset(rest);
        assert rest[k] == x || rest[k] in s[1..];
      }
    }
  }

  /** A relation between all pairs survives sorting. */
  lemma {:induction false} SortedPairwise<T>(s: seq<T>, leq: (T, T) -> bool, r: (T, T) -> bool)
    requires Pairwise(s, r)
    ensures Pairwise(Sorted(s, leq), r)
  {
    if |s| > 0 {
      SortedPairwise(s[1..], leq, r);
      var rest := Sorted(s[1..], leq);
      forall k | 0 <= k < |rest| ensures r(s[0], rest[k]) && r(rest[k], s[0]) {
        assert rest[k] in multiset(rest);
        assert rest[k] in s[1..];
      }
      InsertPairwise(s[0], rest, leq, r);
    }
  }
}
