/** Order statistics and rounding, as the numeric library and the language define them, over exact reals. */
module Stats {
  import opened Arithmetic
  import Sorting

  predicate AtMost(a: real, b: real) { a <= b }

  function Ranked(s: seq<real>): seq<real> {
    Sorting.Sorted(s, AtMost)
  }

  /** Linear interpolation at fractional position `h` of a ranked list. */
  function Interpolate(t: seq<real>, h: real): real
    requires |t| > 0 && 0.0 <= h <= (|t| - 1) as real
  {
    var lo := h.Floor;
    if lo + 1 < |t| then t[lo] + (h - lo as real) * (t[lo + 1] - t[lo]) else t[lo]
  }

  function Position(n: nat, q: real): (h: real)
    requires n > 0 && 0.0 <= q <= 100.0
    ensures 0.0 <= h <= (n - 1) as real
  {
    var h := (n - 1) as real * (q / 100.0);
    NonNegative((n - 1) as real, q / 100.0);
    NonNegative((n - 1) as real, 1.0 - q / 100.0);
    h
  }

  /** The q-th percentile with linear interpolation. */
  function Percentile(s: seq<real>, q: real): real
    requires |s| > 0 && 0.0 <= q <= 100.0
  {
    Interpolate(Ranked(s), Position(|s|, q))
  }

  /** The middle element, or the mean of the middle two. */
  function Median(s: seq<real>): real
    requires |s| > 0
  {
    var t, n := Ranked(s), |s|;
    if n % 2 == 1 then t[n / 2] else (t[n / 2 - 1] + t[n / 2]) / 2.0
  }

  ghost predicate Ascending(t: seq<real>) {
    forall i, j :: 0 <= i < j < |t| ==> t[i] <= t[j]
  }

  lemma RankedAscending(s: seq<real>)
    ensures Ascending(Ranked(s))
  {
    Sorting.SortedIsSorted(s, AtMost);
  }

  lemma InterpolateBetween(t: seq<real>, h: real)
    requires |t| > 0 && 0.0 <= h <= (|t| - 1) as real && Ascending(t)
    ensures t[h.Floor] <= Interpolate(t, h)
    ensures h.Floor + 1 < |t| ==> Interpolate(t, h) <= t[h.Floor + 1]
    ensures Interpolate(t, h) <= t[|t| - 1]
  {
    var lo := h.Floor;
    if lo + 1 < |t| {
      Convex(h - lo as real, t[lo + 1] - t[lo]);
      assert t[lo + 1] <= t[|t| - 1];
    }
  }

  lemma Convex(f: real, d: real)
    requires 0.0 <= f <= 1.0 && d >= 0.0
    ensures 0.0 <= f * d <= d
  {
    assert (1.0 - f) * d >= 0.0;
  }

  lemma InterpolateMonotone(t: seq<real>, g: real, h: real)
    requires |t| > 0 && 0.0 <= g <= h <= (|t| - 1) as real && Ascending(t)
    ensures Interpolate(t, g) <= Interpolate(t, h)
  {
    InterpolateBetween(t, g);
    InterpolateBetween(t, h);
    var i, j := g.Floor, h.Floor;
    if i == j && i + 1 < |t| {
      NonNegative(h - g, t[i + 1] - t[i]);
    } else if i < j {
      assert t[i + 1] <= t[j];
    }
  }

  /** Percentiles are monotone in q and lie between the smallest and the largest sample. */
  lemma PercentileLaws(s: seq<real>, p: real, q: real)
    requires |s| > 0 && 0.0 <= p <= q <= 100.0
    ensures Percentile(s, p) <= Percentile(s, q)
    ensures exists x :: x in s && x <= Percentile(s, p)
    ensures exists x :: x in s && Percentile(s, q) <= x
  {
    RankedAscending(s);
    var t := Ranked(s);
    var g, h := Position(|s|, p), Position(|s|, q);
    NonNegative((|s| - 1) as real, q / 100.0 - p / 100.0);
    InterpolateMonotone(t, g, h);
    InterpolateBetween(t, g);
    InterpolateBetween(t, h);
    Sorting.SortedMembers(s, AtMost);
    assert t[0] in t && t[|t| - 1] in t;
    assert t[0] <= t[g.Floor];
  }

  /** So a lower bound of the samples bounds every percentile. */
  lemma PercentileAbove(s: seq<real>, q: real, bound: real)
    requires |s| > 0 && 0.0 <= q <= 100.0 && forall x :: x in s ==> x >= bound
    ensures Percentile(s, q) >= bound
  {
    PercentileLaws(s, q, q);
  }

  /** The order samples arrive in does not matter. */
  lemma PercentilePermutation(s: seq<real>, t: seq<real>, q: real)
    requires |s| > 0 && multiset(s) == multiset(t) && 0.0 <= q <= 100.0
    ensures |t| == |s| && Percentile(s, q) == Percentile(t, q)
  {
    assert |s| == |multiset(s)| == |multiset(t)| == |t|;
    Sorting.SortedIsSorted(s, AtMost);
    Sorting.SortedIsSorted(t, AtMost);
    Sorting.SortedUnique(Ranked(s), Ranked(t), AtMost);
  }

  /** The median is the 50th percentile. */
  lemma MedianIsP50(s: seq<real>)
    requires |s| > 0
    ensures Median(s) == Percentile(s, 50.0)
  {
    var n := |s|;
    var h := Position(n, 50.0);
    assert h == (n - 1) as real * 0.5;
    if n % 2 == 1 {
      assert h == (n / 2) as real;
    } else {
      assert h == (n / 2 - 1) as real + 0.5;
      assert h.Floor == n / 2 - 1;
    }
  }

  // ---------------------------------------------------------------------------
  // Percentiles by rank
  // ---------------------------------------------------------------------------

  /** The values of `s`, smallest first. */
  ghost predicate Arranges(t: seq<real>, s: seq<real>) {
    multiset(t) == multiset(s) && Ascending(t)
  }

  /**
   Of `n` ranked values, the `p`-th percentile is `p (n - 1) / 100` steps up from the smallest, a part of a step
   weighing the values at its two ends.
   */
  ghost predicate IsPercentile(v: real, t: seq<real>, p: nat)
    requires |t| > 0 && p <= 100
  {
    var i, k := p * (|t| - 1) / 100, p * (|t| - 1) % 100;
    if k == 0 then 0 <= i < |t| && v == t[i]
    else 0 <= i < |t| - 1 && 100.0 * v == (100 - k) as real * t[i] + k as real * t[i + 1]
  }

  lemma RankOf(n: nat, p: nat, i: nat, k: nat)
    requires n > 0 && p <= 100 && i == p * (n - 1) / 100 && k == p * (n - 1) % 100
    ensures Position(n, p as real) == i as real + k as real / 100.0
    ensures i < n && (k > 0 ==> i < n - 1)
  {
    assert p * (n - 1) == 100 * i + k;
    RankBelow(n, p, i, k);
    RealProduct(n - 1, p);
    assert (n - 1) as real * (p as real / 100.0) == ((n - 1) as real * p as real) / 100.0;
    assert (100 * i + k) as real == 100.0 * i as real + k as real;
  }

  lemma RealProduct(a: int, b: int)
    ensures a as real * b as real == (a * b) as real
  {
  }

  lemma RankBelow(n: nat, p: nat, i: nat, k: nat)
    requires n > 0 && p <= 100 && p * (n - 1) == 100 * i + k
    ensures i < n && (k > 0 ==> i < n - 1)
  {
    MulMonotone(p, 100, n - 1);
  }

  /** The interpolated percentile is the one by rank, in any arrangement. */
  lemma PercentileByRank(s: seq<real>, t: seq<real>, p: nat)
    requires |s| > 0 && p <= 100 && Arranges(t, s)
    ensures |t| == |s| && IsPercentile(Percentile(s, p as real), t, p)
  {
    ArrangementIsRanked(s, t);
    hide Interpolate, Position, Ranked, Arranges;
    var n := |s|;
    var i, k := p * (n - 1) / 100, p * (n - 1) % 100;
    RankOf(n, p, i, k);
    InterpolateByRank(t, i, k);
  }

  lemma ArrangementIsRanked(s: seq<real>, t: seq<real>)
    requires Arranges(t, s)
    ensures t == Ranked(s) && |t| == |s|
  {
    RankedAscending(s);
    Sorting.SortedUnique(Ranked(s), t, AtMost);
  }

  lemma OnePercentile(v: real, w: real, t: seq<real>, p: nat)
    requires |t| > 0 && p <= 100 && IsPercentile(v, t, p) && IsPercentile(w, t, p)
    ensures v == w
  {
  }

  lemma RankedArranges(s: seq<real>)
    ensures Arranges(Ranked(s), s)
  {
    RankedAscending(s);
  }

  lemma InterpolateByRank(t: seq<real>, i: nat, k: nat)
    requires i < |t| && k < 100 && (k > 0 ==> i < |t| - 1)
    ensures var v := Interpolate(t, i as real + k as real / 100.0);
            if k == 0 then v == t[i]
            else 100.0 * v == (100 - k) as real * t[i] + k as real * t[i + 1]
  {
    var f := k as real / 100.0;
    assert (i as real + f).Floor == i;
    if k > 0 {
      assert 100.0 * (t[i] + f * (t[i + 1] - t[i])) == 100.0 * t[i] + (100.0 * f) * (t[i + 1] - t[i]);
    }
  }

  // ---------------------------------------------------------------------------
  // Rounding
  // ---------------------------------------------------------------------------

  function Ceiling(x: real): int { -((-x).Floor) }

  /** Round half to even. */
  function Round(x: real): int {
    var f := x.Floor;
    var frac := x - f as real;
    if frac < 0.5 || (frac == 0.5 && f % 2 == 0) then f else f + 1
  }

  /** One decimal place. */
  function Round1(x: real): real {
    Round(x * 10.0) as real / 10.0
  }

  /** The whole number nearest to `x`, the even one of two. */
  ghost predicate Nearest(m: int, x: real) {
    && m as real - 0.5 <= x <= m as real + 0.5
    && (x == m as real - 0.5 || x == m as real + 0.5 ==> m % 2 == 0)
  }

  lemma RoundIsNearest(x: real, m: int)
    ensures m == Round(x) <==> Nearest(m, x)
  {
  }

  /** `r` is `x` to one decimal. */
  ghost predicate IsRounded(r: real, x: real) {
    Nearest((r * 10.0).Floor, x * 10.0) && r == (r * 10.0).Floor as real / 10.0
  }

  lemma Round1IsRounded(x: real)
    ensures IsRounded(Round1(x), x)
  {
    hide Round, Nearest;
    var m := Round(x * 10.0);
    RoundIsNearest(x * 10.0, m);
    Tenths(m);
  }

  lemma Tenths(m: int)
    ensures (m as real / 10.0 * 10.0).Floor == m
  {
    assert m as real / 10.0 * 10.0 == m as real;
  }

  lemma RoundMonotone(x: real, y: real)
    requires x <= y
    ensures Round(x) <= Round(y)
  {
  }

  lemma Round1Laws(x: real, y: real, n: int)
    ensures x <= y ==> Round1(x) <= Round1(y)
    ensures n as real <= x ==> n as real <= Round1(x)
    ensures x <= n as real ==> Round1(x) <= n as real
  {
    assert (n as real * 10.0).Floor == n * 10;
    assert Round(n as real * 10.0) == n * 10;
    if x <= y { RoundMonotone(x * 10.0, y * 10.0); }
    if n as real <= x { RoundMonotone(n as real * 10.0, x * 10.0); }
    if x <= n as real { RoundMonotone(x * 10.0, n as real * 10.0); }
  }
}
