/** `Forecast.best_windows` (core/schemas.py): the quietest forecast points, spaced apart. */
module BestWindows {
  import opened Arithmetic
  import opened Schemas
  import Sorting

  datatype ForecastPoint = ForecastPoint(ts: Time, q10: real, q50: real, q90: real)

  predicate Quieter(a: ForecastPoint, b: ForecastPoint) { a.q50 <= b.q50 }

  predicate Earlier(a: ForecastPoint, b: ForecastPoint) { a.ts <= b.ts }

  predicate Clash(a: ForecastPoint, b: ForecastPoint, gap: int) {
    AbsInt(a.ts - b.ts) < gap
  }

  /** Clear of the first `n` of those chosen. */
  predicate Clear(p: ForecastPoint, chosen: seq<ForecastPoint>, gap: int) {
    forall k :: 0 <= k < |chosen| ==> !Clash(p, chosen[k], gap)
  }

  /** Goes through the ranked points from number `i` on, until `n` are chosen. */
  function Pick(ranked: seq<ForecastPoint>, i: nat, chosen: seq<ForecastPoint>, n: nat, gap: int): seq<ForecastPoint>
    requires i <= |ranked|
    decreases |ranked| - i
  {
    if i == |ranked| then chosen else
      var more := if Clear(ranked[i], chosen, gap) then chosen + [ranked[i]] else chosen;
      if |more| >= n then more else Pick(ranked, i + 1, more, n, gap)
  }

  function Gap(stepMinutes: int, minGapSteps: int): int {
    minGapSteps * stepMinutes * MINUTE
  }

  function Chosen(points: seq<ForecastPoint>, stepMinutes: int, n: nat, minGapSteps: int): seq<ForecastPoint> {
    Pick(Sorting.Sorted(points, Quieter), 0, [], n, Gap(stepMinutes, minGapSteps))
  }

  function Best(points: seq<ForecastPoint>, stepMinutes: int, n: nat, minGapSteps: int): seq<ForecastPoint> {
    Sorting.Sorted(Chosen(points, stepMinutes, n, minGapSteps), Earlier)
  }

  method BestWindows(points: seq<ForecastPoint>, stepMinutes: int, n: nat := 3, minGapSteps: int := 4)
    returns (best: seq<ForecastPoint>)
    ensures best == Best(points, stepMinutes, n, minGapSteps)
  {
    var ranked := Sorting.Sorted(points, Quieter);
    var chosen := PickSpaced(ranked, n, minGapSteps * stepMinutes * MINUTE);
    best := Sorting.Sorted(chosen, Earlier);
  }

  /** The greedy loop, with its early exit. */
  method PickSpaced(ranked: seq<ForecastPoint>, n: nat, gap: int) returns (chosen: seq<ForecastPoint>)
    ensures chosen == Pick(ranked, 0, [], n, gap)
  {
    chosen := [];
    for i := 0 to |ranked|
      invariant Pick(ranked, 0, [], n, gap) == Pick(ranked, i, chosen, n, gap)
    {
      var p := ranked[i];
      if forall k :: 0 <= k < |chosen| ==> AbsInt(p.ts - chosen[k].ts) >= gap {
        chosen := chosen + [p];
      }
      if |chosen| >= n {
        return;
      }
    }
  }

  // ---------------------------------------------------------------------------
  // What greedy choice guarantees
  // ---------------------------------------------------------------------------

  ghost predicate Spaced(s: seq<ForecastPoint>, gap: int) {
    forall i, j :: 0 <= i < j < |s| ==> !Clash(s[i], s[j], gap)
  }

  /** Not chosen because something at least as quiet is too close. */
  ghost predicate Beaten(p: ForecastPoint, chosen: seq<ForecastPoint>, gap: int) {
    exists c :: c in chosen && -gap < p.ts - c.ts < gap && c.q50 <= p.q50
  }

  ghost predicate Ranked(s: seq<ForecastPoint>) {
    forall i, j :: 0 <= i < j < |s| ==> s[i].q50 <= s[j].q50
  }

  /** The state of the choice after the first `i` ranked points. */
  ghost predicate Progress(ranked: seq<ForecastPoint>, i: nat, chosen: seq<ForecastPoint>, gap: int)
    requires i <= |ranked|
  {
    && Spaced(chosen, gap)
    && (forall c :: c in chosen ==> Picked(c, ranked, i))
    && (forall j :: 0 <= j < i ==> ranked[j] in chosen || Beaten(ranked[j], chosen, gap))
  }

  lemma SpacedMore(p: ForecastPoint, chosen: seq<ForecastPoint>, more: seq<ForecastPoint>, gap: int)
    requires Spaced(chosen, gap) && more == if Clear(p, chosen, gap) then chosen + [p] else chosen
    ensures Spaced(more, gap)
  {
  }

  /** Each of those chosen is among the first `i` ranked. */
  ghost predicate Picked(c: ForecastPoint, ranked: seq<ForecastPoint>, i: nat)
    requires i <= |ranked|
  {
    exists j :: 0 <= j < i && ranked[j] == c
  }

  lemma BeatenStays(p: ForecastPoint, chosen: seq<ForecastPoint>, more: seq<ForecastPoint>, gap: int)
    requires (forall c :: c in chosen ==> c in more) && Beaten(p, chosen, gap)
    ensures Beaten(p, more, gap)
  {
  }

  lemma NotClearIsBeaten(p: ForecastPoint, chosen: seq<ForecastPoint>, gap: int)
    requires !Clear(p, chosen, gap) && forall c :: c in chosen ==> c.q50 <= p.q50
    ensures Beaten(p, chosen, gap)
  {
    var k :| 0 <= k < |chosen| && Clash(p, chosen[k], gap);
    assert chosen[k] in chosen;
  }

  lemma StepProgress(ranked: seq<ForecastPoint>, i: nat, chosen: seq<ForecastPoint>, more: seq<ForecastPoint>, gap: int)
    requires i < |ranked| && Ranked(ranked) && Progress(ranked, i, chosen, gap)
    requires more == if Clear(ranked[i], chosen, gap) then chosen + [ranked[i]] else chosen
    ensures Progress(ranked, i + 1, more, gap)
  {
    var p := ranked[i];
    SpacedMore(p, chosen, more, gap);
    hide Clash, Beaten, Clear, Spaced;
    forall c | c in more ensures Picked(c, ranked, i + 1) {
      assert c in chosen ==> Picked(c, ranked, i);
    }
    forall j | 0 <= j < i + 1 ensures ranked[j] in more || Beaten(ranked[j], more, gap) {
      if j < i {
        if ranked[j] !in chosen {
          BeatenStays(ranked[j], chosen, more, gap);
        }
      } else if !Clear(p, chosen, gap) {
        forall c | c in chosen ensures c.q50 <= p.q50 {
          assert Picked(c, ranked, i);
        }
        NotClearIsBeaten(p, chosen, gap);
      }
    }
  }

  lemma {:induction false} PickGuarantees(ranked: seq<ForecastPoint>, i: nat, chosen: seq<ForecastPoint>, n: nat,
                                          gap: int)
    returns (last: nat)
    requires i <= |ranked| && Ranked(ranked) && Progress(ranked, i, chosen, gap) && |chosen| < n
    ensures last <= |ranked| && Progress(ranked, last, Pick(ranked, i, chosen, n, gap), gap)
    ensures |Pick(ranked, i, chosen, n, gap)| <= n
    ensures last < |ranked| ==> |Pick(ranked, i, chosen, n, gap)| == n
    decreases |ranked| - i
  {
    hide Progress, Ranked, Clear;
    last := i;
    if i < |ranked| {
      var more := if Clear(ranked[i], chosen, gap) then chosen + [ranked[i]] else chosen;
      StepProgress(ranked, i, chosen, more, gap);
      if |more| >= n {
        last := i + 1;
      } else {
        last := PickGuarantees(ranked, i + 1, more, n, gap);
      }
    }
  }

  /** At most `n` forecast points, pairwise at least the gap apart; one left out is beaten or too late. */
  lemma ChosenGuarantees(points: seq<ForecastPoint>, stepMinutes: int, n: nat, minGapSteps: int, gap: int,
                         chosen: seq<ForecastPoint>)
    requires n >= 1 && gap == Gap(stepMinutes, minGapSteps) && chosen == Chosen(points, stepMinutes, n, minGapSteps)
    ensures |chosen| <= n && Spaced(chosen, gap)
    ensures forall c :: c in chosen ==> c in points
    ensures forall p :: p in points && p !in chosen ==>
              Beaten(p, chosen, gap) || (|chosen| == n && forall c :: c in chosen ==> c.q50 <= p.q50)
  {
    var ranked := Sorting.Sorted(points, Quieter);
    Sorting.SortedIsSorted(points, Quieter);
    Sorting.SortedMembers(points, Quieter);
    var last := PickGuarantees(ranked, 0, [], n, gap);
    forall p | p in points && p !in chosen && !Beaten(p, chosen, gap)
      ensures |chosen| == n && forall c :: c in chosen ==> c.q50 <= p.q50
    {
      var j :| 0 <= j < |ranked| && ranked[j] == p;
      assert j >= last;
      forall c | c in chosen ensures c.q50 <= p.q50 {
        assert Picked(c, ranked, last);
      }
    }
  }

  /** The answer: the chosen points in time order. */
  lemma BestGuarantees(points: seq<ForecastPoint>, stepMinutes: int, n: nat, minGapSteps: int, best: seq<ForecastPoint>)
    requires n >= 1 && best == Best(points, stepMinutes, n, minGapSteps)
    ensures |best| <= n && forall c :: c in best ==> c in points
    ensures forall i, j :: 0 <= i < j < |best| ==>
              best[j].ts - best[i].ts >= minGapSteps * stepMinutes * 60_000_000 && best[i].ts <= best[j].ts
    ensures forall p :: p in points && p !in best ==>
              || Beaten(p, best, minGapSteps * stepMinutes * 60_000_000)
              || (|best| == n && forall c :: c in best ==> c.q50 <= p.q50)
  {
    var chosen, gap := Chosen(points, stepMinutes, n, minGapSteps), Gap(stepMinutes, minGapSteps);
    ChosenGuarantees(points, stepMinutes, n, minGapSteps, gap, chosen);
    Sorting.SortedIsSorted(chosen, Earlier);
    Sorting.SortedMembers(chosen, Earlier);
    SpacedSorted(chosen, best, gap);
    forall p | p in points && p !in best && Beaten(p, chosen, gap) ensures Beaten(p, best, gap) {
      var c :| c in chosen && -gap < p.ts - c.ts < gap && c.q50 <= p.q50;
      assert c in best;
    }
  }

  lemma SpacedSorted(chosen: seq<ForecastPoint>, best: seq<ForecastPoint>, gap: int)
    requires Spaced(chosen, gap) && best == Sorting.Sorted(chosen, Earlier)
    ensures forall i, j :: 0 <= i < j < |best| ==> best[j].ts - best[i].ts >= gap && best[i].ts <= best[j].ts
  {
    var apart := (a: ForecastPoint, b: ForecastPoint) => !Clash(a, b, gap);
    Sorting.SortedPairwise(chosen, Earlier, apart);
    Sorting.SortedIsSorted(chosen, Earlier);
    forall i, j | 0 <= i < j < |best| ensures best[j].ts - best[i].ts >= gap && best[i].ts <= best[j].ts {
      assert Earlier(best[i], best[j]) && apart(best[i], best[j]);
    }
  }

  lemma {:induction false} PickKeepsFirst(ranked: seq<ForecastPoint>, i: nat, chosen: seq<ForecastPoint>, n: nat,
                                          gap: int)
    requires i <= |ranked| && |chosen| > 0
    ensures |Pick(ranked, i, chosen, n, gap)| > 0 && Pick(ranked, i, chosen, n, gap)[0] == chosen[0]
    decreases |ranked| - i
  {
    if i < |ranked| {
      var more := if Clear(ranked[i], chosen, gap) then chosen + [ranked[i]] else chosen;
      PickKeepsFirst(ranked, i + 1, more, n, gap);
    }
  }

  lemma PickStarts(ranked: seq<ForecastPoint>, n: nat, gap: int)
    requires |ranked| > 0
    ensures |Pick(ranked, 0, [], n, gap)| > 0 && Pick(ranked, 0, [], n, gap)[0] == ranked[0]
  {
    assert Clear(ranked[0], [], gap) && [] + [ranked[0]] == [ranked[0]];
    PickKeepsFirst(ranked, 1, [ranked[0]], n, gap);
  }

  lemma {:induction false} FirstOfThose<T>(s: seq<T>, p: T -> bool) returns (i: nat)
    requires |Sorting.Those(s, p)| > 0
    ensures i < |s| && s[i] == Sorting.Those(s, p)[0] && p(s[i]) && forall j :: 0 <= j < i ==> !p(s[j])
  {
    if p(s[0]) {
      i := 0;
    } else {
      var k := FirstOfThose(s[1..], p);
      i := k + 1;
      forall j | 0 <= j < i ensures !p(s[j]) {
        assert j > 0 ==> s[j] == s[1..][j - 1];
      }
    }
  }

  /** The quietest point is always offered; of several the first listed. */
  lemma QuietestOffered(points: seq<ForecastPoint>, stepMinutes: int, n: nat, minGapSteps: int,
                        best: seq<ForecastPoint>)
    returns (i: nat)
    requires |points| > 0 && best == Best(points, stepMinutes, n, minGapSteps)
    ensures i < |points| && points[i] in best
    ensures forall j :: 0 <= j < |points| ==> points[i].q50 <= points[j].q50
    ensures forall j :: 0 <= j < i ==> points[i].q50 < points[j].q50
  {
    hide Sorting.Sorted, Pick, Sorting.Those;
    var ranked, gap := Sorting.Sorted(points, Quieter), Gap(stepMinutes, minGapSteps);
    Sorting.SortedIsSorted(points, Quieter);
    Sorting.SortedMembers(points, Quieter);
    assert points[0] in ranked;
    var x := ranked[0];
    i := FirstTied(points, ranked, x);
    forall j | 0 <= j < |points| ensures x.q50 <= points[j].q50 {
      assert points[j] in ranked;
      var k :| 0 <= k < |ranked| && ranked[k] == points[j];
    }
    PickStarts(ranked, n, gap);
    var chosen := Chosen(points, stepMinutes, n, minGapSteps);
    assert chosen[0] == x;
    Sorting.SortedMembers(chosen, Earlier);
  }

  lemma FirstTied(points: seq<ForecastPoint>, ranked: seq<ForecastPoint>, x: ForecastPoint) returns (i: nat)
    requires ranked == Sorting.Sorted(points, Quieter) && |ranked| > 0 && x == ranked[0]
    ensures i < |points| && points[i] == x && forall j :: 0 <= j < i ==> points[j].q50 != x.q50
  {
    var tied := Sorting.Tied(x, Quieter);
    Sorting.SortedStable(x, points, Quieter);
    assert Sorting.Those(ranked, tied)[0] == x;
    i := FirstOfThose(points, tied);
    assert forall j :: 0 <= j < i ==> !tied(points[j]);
  }

  // ---------------------------------------------------------------------------
  // How many windows there are
  // ---------------------------------------------------------------------------

  ghost predicate Grid(points: seq<ForecastPoint>, step: int) {
    forall i :: 0 <= i < |points| ==> points[i].ts == points[0].ts + i * step
  }

  /** Indexes of the grid too close to a chosen point. */
  ghost function Covered(points: seq<ForecastPoint>, chosen: seq<ForecastPoint>, gap: int): set<int> {
    set i | 0 <= i < |points| && exists c :: c in chosen && Clash(points[i], c, gap)
  }

  ghost function Interval(lo: int, hi: int): (r: set<int>)
    requires lo <= hi
    ensures forall i :: i in r <==> lo <= i < hi
    ensures |r| == hi - lo
    decreases hi - lo
  {
    if lo == hi then {} else Interval(lo, hi - 1) + {hi - 1}
  }

  lemma StepDistance(d: int, g: int, step: nat)
    requires step > 0 && AbsInt(d * step) < g * step
    ensures -g < d < g
  {
    if d >= g { MulMonotone(g, d, step); }
    assert (-g) * step == -(g * step);
    if d <= -g { MulMonotone(d, -g, step); }
  }

  /** One chosen grid point covers at most 2g - 1 indexes. */
  lemma CoverOne(points: seq<ForecastPoint>, k: nat, g: nat, step: int)
    requires Grid(points, step) && step > 0 && g >= 1 && k < |points|
    ensures |Covered(points, [points[k]], g * step)| <= 2 * g - 1
  {
    forall i | i in Covered(points, [points[k]], g * step) ensures i in Interval(k - g + 1, k + g) {
      assert points[i].ts - points[k].ts == (i - k) * step;
      StepDistance(i - k, g, step);
    }
    SubsetCount(Covered(points, [points[k]], g * step), Interval(k - g + 1, k + g));
  }

  lemma CoverSplit(points: seq<ForecastPoint>, front: seq<ForecastPoint>, last: ForecastPoint, gap: int)
    ensures |Covered(points, front + [last], gap)| <= |Covered(points, front, gap)| + |Covered(points, [last], gap)|
  {
    var a, b := Covered(points, front, gap), Covered(points, [last], gap);
    assert Covered(points, front + [last], gap) <= a + b;
    SubsetCount(Covered(points, front + [last], gap), a + b);
    assert |a + b| <= |a| + |b|;
  }

  lemma {:induction false} CoverCount(points: seq<ForecastPoint>, chosen: seq<ForecastPoint>, g: nat, step: int)
    requires Grid(points, step) && step > 0 && g >= 1 && forall c :: c in chosen ==> c in points
    ensures |Covered(points, chosen, g * step)| <= |chosen| * (2 * g - 1)
  {
    if |chosen| == 0 {
      assert Covered(points, chosen, g * step) == {};
    } else {
      var front, last := chosen[..|chosen| - 1], chosen[|chosen| - 1];
      assert chosen == front + [last] && last in chosen;
      CoverCount(points, front, g, step);
      var k :| 0 <= k < |points| && points[k] == last;
      CoverOne(points, k, g, step);
      CoverSplit(points, front, last, g * step);
      OneMore(|front|, 2 * g - 1);
    }
  }

  lemma OneMore(n: nat, w: int)
    ensures n * w + w == (n + 1) * w
  {
  }

  function CeilDiv(a: nat, b: int): nat
    requires b > 0
  {
    (a + b - 1) / b
  }

  lemma CeilDivBound(a: nat, b: int, m: nat)
    requires b > 0 && a <= m * b
    ensures CeilDiv(a, b) <= m
  {
    var q := (a + b - 1) / b;
    assert q * b <= a + b - 1;
    assert (m + 1) * b == m * b + b;
    if q >= m + 1 { MulMonotone(m + 1, q, b); }
  }

  lemma AllCovered(points: seq<ForecastPoint>, chosen: seq<ForecastPoint>, gap: int)
    requires gap > 0 && forall p :: p in points ==> p in chosen || Beaten(p, chosen, gap)
    ensures |Covered(points, chosen, gap)| == |points|
  {
    forall i | 0 <= i < |points| ensures i in Covered(points, chosen, gap) {
      var p := points[i];
      if p in chosen {
        assert Clash(p, p, gap);
      } else {
        var c :| c in chosen && Clash(p, c, gap) && c.q50 <= p.q50;
      }
    }
    assert Covered(points, chosen, gap) == Interval(0, |points|);
  }

  lemma EnoughChosen(points: seq<ForecastPoint>, chosen: seq<ForecastPoint>, g: nat, step: int)
    requires g >= 1 && step > 0 && g * step > 0 && Grid(points, step) && forall c :: c in chosen ==> c in points
    requires forall p :: p in points ==> p in chosen || Beaten(p, chosen, g * step)
    ensures |chosen| >= CeilDiv(|points|, 2 * g - 1)
  {
    AllCovered(points, chosen, g * step);
    CoverCount(points, chosen, g, step);
    CeilDivBound(|points|, 2 * g - 1, |chosen|);
  }

  lemma ChosenOnGrid(points: seq<ForecastPoint>, chosen: seq<ForecastPoint>, n: nat, g: nat, step: int, gap: int)
    requires g >= 1 && step > 0 && gap == g * step > 0 && Grid(points, step)
    requires forall c :: c in chosen ==> c in points
    requires forall p :: p in points && p !in chosen ==>
               Beaten(p, chosen, gap) || (|chosen| == n && forall c :: c in chosen ==> c.q50 <= p.q50)
    ensures |chosen| == n || |chosen| >= CeilDiv(|points|, 2 * g - 1)
  {
    if |chosen| != n {
      EnoughChosen(points, chosen, g, step);
    }
  }

  /** On a uniform grid of N points with a gap of g steps there are at least min(n, ceil(N / (2g - 1))) windows. */
  lemma EnoughWindows(points: seq<ForecastPoint>, stepMinutes: int, n: nat, g: nat, best: seq<ForecastPoint>)
    requires n >= 1 && g >= 1 && stepMinutes > 0 && Grid(points, stepMinutes * MINUTE)
    requires best == Best(points, stepMinutes, n, g)
    ensures |best| >= n || |best| >= CeilDiv(|points|, 2 * g - 1)
  {
    hide Chosen, Gap, Grid, Beaten, Sorting.Sorted, CeilDiv;
    var chosen, step, gap := Chosen(points, stepMinutes, n, g), stepMinutes * MINUTE, Gap(stepMinutes, g);
    GapIs(stepMinutes, g);
    ChosenGuarantees(points, stepMinutes, n, g, gap, chosen);
    ChosenOnGrid(points, chosen, n, g, step, gap);
  }

  lemma GapIs(stepMinutes: int, g: nat)
    requires stepMinutes > 0 && g >= 1
    ensures Gap(stepMinutes, g) == g * (stepMinutes * MINUTE) > 0
  {
    MulMonotone(1, g, stepMinutes * MINUTE);
  }
}
