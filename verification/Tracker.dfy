/**
 The dependency-free tracker of vision/tracker.py: greedy IoU association with a
 lost-track buffer and fresh ids.
 */
module Tracker {
  import opened Arithmetic
  import opened Schemas
  import Sorting

  function Intersection(a: BBox, b: BBox): real {
    Max(0.0, Min(a.x2, b.x2) - Max(a.x1, b.x1)) * Max(0.0, Min(a.y2, b.y2) - Max(a.y1, b.y1))
  }

  function Iou(a: BBox, b: BBox): real {
    var inter := Intersection(a, b);
    var union := a.Area() + b.Area() - inter;
    if union > 0.0 then inter / union else 0.0
  }

  lemma MulLeft(a: real, c: real, b: real)
    requires a <= c && 0.0 <= b
    ensures a * b <= c * b
  {
    assert (c - a) * b >= 0.0;
  }

  lemma ProductMonotone(a: real, b: real, c: real, d: real)
    requires 0.0 <= a <= c && 0.0 <= b <= d
    ensures 0.0 <= a * b <= c * d
    ensures a * b == c * d > 0.0 ==> a == c && b == d
  {
    assert c * d - a * b == c * (d - b) + (c - a) * b;
    assert c * (d - b) >= 0.0 && (c - a) * b >= 0.0 && a * b >= 0.0;
    if a * b == c * d > 0.0 {
      ZeroProduct(c, d - b);
      ZeroProduct(b, c - a);
    }
  }

  lemma ZeroProduct(a: real, b: real)
    requires a * b == 0.0 || b * a == 0.0
    ensures a == 0.0 || b == 0.0
  {
  }

  lemma IntersectionBounded(a: BBox, b: BBox)
    ensures 0.0 <= Intersection(a, b) <= a.Area()
    ensures Intersection(a, b) == a.Area() > 0.0 ==> b.x1 <= a.x1 && a.x2 <= b.x2 && b.y1 <= a.y1 && a.y2 <= b.y2
  {
    ProductMonotone(Max(0.0, Min(a.x2, b.x2) - Max(a.x1, b.x1)), Max(0.0, Min(a.y2, b.y2) - Max(a.y1, b.y1)),
                    Max(0.0, a.x2 - a.x1), Max(0.0, a.y2 - a.y1));
  }

  lemma IntersectionSymmetric(a: BBox, b: BBox)
    ensures Intersection(a, b) == Intersection(b, a)
  {
  }

  /** IoU is symmetric, lies in [0, 1], and is 1 exactly for a box of positive area against itself. */
  lemma IouLaws(a: BBox, b: BBox)
    ensures Iou(a, b) == Iou(b, a)
    ensures 0.0 <= Iou(a, b) <= 1.0
    ensures Iou(a, b) == 1.0 <==> a == b && a.Area() > 0.0
  {
    IntersectionSymmetric(a, b);
    IntersectionBounded(a, b);
    IntersectionBounded(b, a);
    IouRatio(a, b, a.Area(), b.Area(), Intersection(a, b));
    if a == b { IntersectionSelf(a); }
  }

  lemma IntersectionSelf(a: BBox)
    ensures Intersection(a, a) == a.Area()
  {
  }

  lemma IouRatio(a: BBox, b: BBox, area1: real, area2: real, inter: real)
    requires area1 == a.Area() && area2 == b.Area() && inter == Intersection(a, b)
    requires 0.0 <= inter <= area1 && inter <= area2
    ensures 0.0 <= Iou(a, b) <= 1.0
    ensures Iou(a, b) == 1.0 <==> area1 == area2 == inter > 0.0
  {
    if area1 + area2 - inter > 0.0 {
      QuotientLaws(inter, area1 + area2 - inter);
    }
  }

  lemma QuotientLaws(p: real, q: real)
    requires 0.0 <= p <= q && q > 0.0
    ensures 0.0 <= p / q <= 1.0
    ensures p / q == 1.0 <==> p == q
  {
    var r := p / q;
    assert r * q == p;
    assert (1.0 - r) * q == q - p;
    if r < 0.0 || r > 1.0 {
      MulLeft(if r < 0.0 then r else 1.0 - r, 0.0, q);
      ZeroProduct(if r < 0.0 then r else 1.0 - r, q);
    }
  }

  // ---------------------------------------------------------------------------
  // Greedy association
  // ---------------------------------------------------------------------------

  datatype Track = Track(tid: int, bbox: BBox, misses: int)

  /** A scored candidate: track number `ti` against detection number `di`. */
  datatype Pair = Pair(score: real, ti: nat, di: nat)

  /** Tuple order, largest first. */
  predicate Above(a: Pair, b: Pair) {
    || a.score > b.score
    || (a.score == b.score && (a.ti > b.ti || (a.ti == b.ti && a.di >= b.di)))
  }

  predicate Conflict(a: Pair, b: Pair) {
    a.ti == b.ti || a.di == b.di
  }

  function Row(track: Track, ti: nat, dets: seq<Detection>): seq<Pair> {
    seq(|dets|, di requires 0 <= di < |dets| => Pair(Iou(track.bbox, dets[di].bbox), ti, di))
  }

  function AllPairs(tracks: seq<Track>, dets: seq<Detection>): seq<Pair> {
    if |tracks| == 0 then [] else
      var n := |tracks| - 1;
      AllPairs(tracks[..n], dets) + Row(tracks[n], n, dets)
  }

  ghost predicate Candidate(p: Pair, tracks: seq<Track>, dets: seq<Detection>) {
    p.ti < |tracks| && p.di < |dets| && p.score == Iou(tracks[p.ti].bbox, dets[p.di].bbox)
  }

  lemma {:induction false} AllPairsAre(tracks: seq<Track>, dets: seq<Detection>, p: Pair)
    ensures p in AllPairs(tracks, dets) <==> Candidate(p, tracks, dets)
  {
    if |tracks| > 0 {
      var n := |tracks| - 1;
      AllPairsAre(tracks[..n], dets, p);
      var row := Row(tracks[n], n, dets);
      assert p in row ==> p.ti == n;
      if p.ti == n && Candidate(p, tracks, dets) {
        assert row[p.di] == p;
      }
    }
  }

  function RankedPairs(tracks: seq<Track>, dets: seq<Detection>): seq<Pair> {
    Sorting.Sorted(AllPairs(tracks, dets), Above)
  }

  lemma RankedPairsAre(tracks: seq<Track>, dets: seq<Detection>)
    ensures Ranked(RankedPairs(tracks, dets))
    ensures forall p :: p in RankedPairs(tracks, dets) <==> Candidate(p, tracks, dets)
  {
    var all := AllPairs(tracks, dets);
    Sorting.SortedIsSorted(all, Above);
    Sorting.SortedMembers(all, Above);
    forall p ensures p in all <==> Candidate(p, tracks, dets) {
      AllPairsAre(tracks, dets, p);
    }
  }

  ghost predicate Ranked(s: seq<Pair>) {
    forall i, j :: 0 <= i < j < |s| ==> Above(s[i], s[j])
  }

  /** The pairs taken from a ranked list when tracks `mt` and detections `md` are spoken for. */
  function Greedy(pairs: seq<Pair>, threshold: real, mt: set<nat>, md: set<nat>): seq<Pair> {
    if |pairs| == 0 || pairs[0].score < threshold then
      []
    else if pairs[0].ti in mt || pairs[0].di in md then
      Greedy(pairs[1..], threshold, mt, md)
    else
      [pairs[0]] + Greedy(pairs[1..], threshold, mt + {pairs[0].ti}, md + {pairs[0].di})
  }

  ghost predicate OneToOne(m: seq<Pair>) {
    forall i, j :: 0 <= i < j < |m| ==> !Conflict(m[i], m[j])
  }

  lemma {:induction false} GreedyMembers(pairs: seq<Pair>, threshold: real, mt: set<nat>, md: set<nat>)
    requires Ranked(pairs)
    ensures var g := Greedy(pairs, threshold, mt, md);
            && OneToOne(g) && Ranked(g)
            && forall p :: p in g ==> p in pairs && p.score >= threshold && p.ti !in mt && p.di !in md
  {
    if |pairs| == 0 || pairs[0].score < threshold {
    } else if pairs[0].ti in mt || pairs[0].di in md {
      GreedyMembers(pairs[1..], threshold, mt, md);
    } else {
      GreedyMembers(pairs[1..], threshold, mt + {pairs[0].ti}, md + {pairs[0].di});
    }
  }

  /** A pair that nothing blocks: at least the threshold, and losing to no pair of `m`. */
  ghost predicate Blocks(p: Pair, m: seq<Pair>, threshold: real) {
    p.score >= threshold && forall q :: q in m && Conflict(p, q) ==> !Above(q, p)
  }

  lemma {:induction false} GreedyDominates(pairs: seq<Pair>, threshold: real, mt: set<nat>, md: set<nat>, p: Pair)
    requires Ranked(pairs) && p in pairs && p.score >= threshold
    ensures p.ti in mt || p.di in md ||
            exists q :: q in Greedy(pairs, threshold, mt, md) && Conflict(p, q) && Above(q, p)
  {
    var head := pairs[0];
    assert Above(head, p);
    if p.ti in mt || p.di in md {
    } else if head.ti in mt || head.di in md {
      GreedyDominates(pairs[1..], threshold, mt, md, p);
    } else if Conflict(p, head) {
      assert head in Greedy(pairs, threshold, mt, md);
    } else {
      GreedyDominates(pairs[1..], threshold, mt + {head.ti}, md + {head.di}, p);
    }
  }

  lemma RankedInRange(tracks: seq<Track>, dets: seq<Detection>)
    ensures InRange(RankedPairs(tracks, dets), |tracks|, |dets|)
  {
    RankedPairsAre(tracks, dets);
  }

  lemma GreedyFrom(done: seq<Pair>, pairs: seq<Pair>, k: nat, threshold: real, mt: set<nat>, md: set<nat>)
    requires k < |pairs| && pairs[k].score >= threshold
    ensures var p := pairs[k];
            done + Greedy(pairs[k..], threshold, mt, md) ==
            if p.ti in mt || p.di in md then done + Greedy(pairs[k + 1..], threshold, mt, md)
            else (done + [p]) + Greedy(pairs[k + 1..], threshold, mt + {p.ti}, md + {p.di})
  {
    assert pairs[k..][1..] == pairs[k + 1..];
  }

  predicate InRange(m: seq<Pair>, tracks: nat, dets: nat) {
    forall p :: p in m ==> p.ti < tracks && p.di < dets
  }

  function Association(tracks: seq<Track>, dets: seq<Detection>, threshold: real): (m: seq<Pair>)
    ensures InRange(m, |tracks|, |dets|)
  {
    RankedPairsAre(tracks, dets);
    GreedyMembers(RankedPairs(tracks, dets), threshold, {}, {});
    Greedy(RankedPairs(tracks, dets), threshold, {}, {})
  }

  /** The greedy association is one-to-one, over candidates at or above the threshold, and has no blocking pair. */
  lemma NoBlockingPair(tracks: seq<Track>, dets: seq<Detection>, threshold: real)
    ensures var m := Association(tracks, dets, threshold);
            && OneToOne(m) && Ranked(m)
            && (forall p :: p in m ==> Candidate(p, tracks, dets) && p.score >= threshold)
            && forall p :: Candidate(p, tracks, dets) ==> !Blocks(p, m, threshold)
  {
    RankedPairsAre(tracks, dets);
    var pairs := RankedPairs(tracks, dets);
    GreedyMembers(pairs, threshold, {}, {});
    forall p | Candidate(p, tracks, dets) && p.score >= threshold
      ensures exists q :: q in Association(tracks, dets, threshold) && Conflict(p, q) && Above(q, p)
    {
      GreedyDominates(pairs, threshold, {}, {}, p);
    }
  }

  ghost predicate Stable(m: seq<Pair>, pairs: seq<Pair>, threshold: real) {
    && OneToOne(m)
    && (forall q :: q in m ==> q in pairs && q.score >= threshold)
    && forall q :: q in pairs ==> !Blocks(q, m, threshold)
  }

  /** Those conditions leave no choice: any association meeting them pairs exactly the same boxes. */
  lemma OnlyStableAssociation(tracks: seq<Track>, dets: seq<Detection>, threshold: real, m: seq<Pair>, p: Pair)
    requires OneToOne(m)
    requires forall q :: q in m ==> Candidate(q, tracks, dets) && q.score >= threshold
    requires forall q :: Candidate(q, tracks, dets) ==> !Blocks(q, m, threshold)
    ensures p in m <==> p in Association(tracks, dets, threshold)
  {
    NoBlockingPair(tracks, dets, threshold);
    var pairs := RankedPairs(tracks, dets);
    RankedPairsAre(tracks, dets);
    if p in pairs {
      var k :| 0 <= k < |pairs| && pairs[k] == p;
      StableAgree(pairs, Association(tracks, dets, threshold), m, threshold, k);
    }
  }

  /** Two stable associations agree on the pairs ranked first, hence on the next one, and so on. */
  lemma {:induction false} StableAgree(pairs: seq<Pair>, a: seq<Pair>, b: seq<Pair>, threshold: real, k: nat)
    requires Ranked(pairs) && k < |pairs|
    requires Stable(a, pairs, threshold) && Stable(b, pairs, threshold)
    ensures pairs[k] in a <==> pairs[k] in b
    decreases k
  {
    forall i | 0 <= i < k ensures pairs[i] in a <==> pairs[i] in b {
      StableAgree(pairs, a, b, threshold, i);
    }
    StableStep(pairs, a, b, threshold, k);
    StableStep(pairs, b, a, threshold, k);
  }

  lemma StableStep(pairs: seq<Pair>, a: seq<Pair>, b: seq<Pair>, threshold: real, k: nat)
    requires Ranked(pairs) && k < |pairs|
    requires forall i :: 0 <= i < k ==> (pairs[i] in a <==> pairs[i] in b)
    requires Stable(a, pairs, threshold) && Stable(b, pairs, threshold)
    ensures pairs[k] in a ==> pairs[k] in b
  {
    var p := pairs[k];
    if p in a {
      assert !Blocks(p, b, threshold);
      var q :| q in b && Conflict(p, q) && Above(q, p);
      assert q in pairs;
      var i :| 0 <= i < |pairs| && pairs[i] == q;
      if i < k {
        OneToOneIn(a, p, q);
      } else {
        assert q == p;
      }
    }
  }

  lemma OneToOneIn(m: seq<Pair>, p: Pair, q: Pair)
    requires OneToOne(m) && p in m && q in m && Conflict(p, q)
    ensures p == q
  {
    var x :| 0 <= x < |m| && m[x] == p;
    var y :| 0 <= y < |m| && m[y] == q;
  }

  // ---------------------------------------------------------------------------
  // At least half of the best total IoU
  // ---------------------------------------------------------------------------

  ghost function Total(m: seq<Pair>): real {
    if |m| == 0 then 0.0 else m[0].score + Total(m[1..])
  }

  /** `m` without the pairs that are charged. */
  ghost function Without(m: seq<Pair>, charged: Pair -> bool): seq<Pair> {
    if |m| == 0 then [] else
      var rest := Without(m[1..], charged);
      if charged(m[0]) then rest else [m[0]] + rest
  }

  lemma WithoutIn(m: seq<Pair>, charged: Pair -> bool, p: Pair)
    ensures p in Without(m, charged) <==> p in m && !charged(p)
  {
  }

  lemma {:induction false} WithoutOneToOne(m: seq<Pair>, charged: Pair -> bool)
    requires OneToOne(m)
    ensures OneToOne(Without(m, charged))
  {
    if |m| > 0 {
      WithoutOneToOne(m[1..], charged);
      var rest := Without(m[1..], charged);
      forall k | 0 <= k < |rest| ensures !Conflict(m[0], rest[k]) {
        WithoutIn(m[1..], charged, rest[k]);
      }
    }
  }

  lemma {:induction false} WithoutNone(m: seq<Pair>, charged: Pair -> bool)
    requires forall k :: 0 <= k < |m| ==> !charged(m[k])
    ensures Without(m, charged) == m
  {
    if |m| > 0 {
      WithoutNone(m[1..], charged);
    }
  }

  /** Pairs that would all conflict with one another occur at most once in a one-to-one association. */
  lemma {:induction false} WithoutCost(m: seq<Pair>, charged: Pair -> bool, bound: real)
    requires OneToOne(m) && bound >= 0.0
    requires forall p, q :: charged(p) && charged(q) ==> Conflict(p, q)
    requires forall k :: 0 <= k < |m| && charged(m[k]) ==> m[k].score <= bound
    ensures Total(m) <= bound + Total(Without(m, charged))
  {
    if |m| > 0 {
      if charged(m[0]) {
        assert forall k :: 0 < k < |m| ==> !Conflict(m[0], m[k]);
        WithoutNone(m[1..], charged);
      } else {
        WithoutCost(m[1..], charged, bound);
      }
    }
  }

  /** Charge every rival pair to the first greedy pair it conflicts with: two charges each at most. */
  lemma {:induction false} GreedyCharges(g: seq<Pair>, m: seq<Pair>)
    requires Ranked(g) && OneToOne(m)
    requires forall q :: q in g ==> q.score >= 0.0
    requires forall p :: p in m ==> exists q :: q in g && Conflict(p, q) && q.score >= p.score
    ensures Total(m) <= 2.0 * Total(g)
    decreases |g|
  {
    if |m| > 0 {
      var q0 :| q0 in g && Conflict(m[0], q0) && q0.score >= m[0].score;
      var head := g[0];
      forall k | 0 <= k < |m| ensures m[k].score <= head.score {
        var q :| q in g && Conflict(m[k], q) && q.score >= m[k].score;
      }
      var onTrack, onDetection := (p: Pair) => p.ti == head.ti, (p: Pair) => p.di == head.di;
      WithoutCost(m, onTrack, head.score);
      WithoutOneToOne(m, onTrack);
      var m1 := Without(m, onTrack);
      forall k | 0 <= k < |m1| ensures m1[k] in m && m1[k].ti != head.ti {
        WithoutIn(m, onTrack, m1[k]);
      }
      WithoutCost(m1, onDetection, head.score);
      WithoutOneToOne(m1, onDetection);
      var m2 := Without(m1, onDetection);
      forall p | p in m2 ensures exists q :: q in g[1..] && Conflict(p, q) && q.score >= p.score {
        WithoutIn(m1, onDetection, p);
        var q :| q in g && Conflict(p, q) && q.score >= p.score;
        assert q in g[1..];
      }
      GreedyCharges(g[1..], m2);
    } else {
      TotalNonNegative(g);
    }
  }

  lemma TotalNonNegative(m: seq<Pair>)
    requires forall q :: q in m ==> q.score >= 0.0
    ensures Total(m) >= 0.0
  {
  }

  /** Whatever one-to-one association at or above the threshold is tried, greedy has at least half its total IoU. */
  lemma GreedyIsHalfOptimal(tracks: seq<Track>, dets: seq<Detection>, threshold: real, m: seq<Pair>)
    requires OneToOne(m)
    requires forall p :: p in m ==> Candidate(p, tracks, dets) && p.score >= threshold
    ensures Total(m) <= 2.0 * Total(Association(tracks, dets, threshold))
  {
    NoBlockingPair(tracks, dets, threshold);
    var g := Association(tracks, dets, threshold);
    forall q | q in g ensures q.score >= 0.0 {
      IouLaws(tracks[q.ti].bbox, dets[q.di].bbox);
    }
    forall p | p in m ensures exists q :: q in g && Conflict(p, q) && q.score >= p.score {
      assert !Blocks(p, g, threshold);
      var q :| q in g && Conflict(p, q) && Above(q, p);
    }
    GreedyCharges(g, m);
  }

  // ---------------------------------------------------------------------------
  // One update
  // ---------------------------------------------------------------------------

  datatype State = State(tracks: seq<Track>, nextId: int)

  datatype Config = Config(iouThreshold: real, lostTrackBuffer: int)

  function DetectionOf(m: seq<Pair>, ti: nat): Option<nat> {
    if |m| == 0 then None
    else if m[|m| - 1].ti == ti then Some(m[|m| - 1].di)
    else DetectionOf(m[..|m| - 1], ti)
  }

  function TrackOf(m: seq<Pair>, di: nat): Option<nat> {
    if |m| == 0 then None
    else if m[|m| - 1].di == di then Some(m[|m| - 1].ti)
    else TrackOf(m[..|m| - 1], di)
  }

  /** Track `ti` after association: moved onto its detection, or one miss older. */
  function Followed(tracks: seq<Track>, ti: nat, dets: seq<Detection>, m: seq<Pair>): Track
    requires ti < |tracks| && InRange(m, |tracks|, |dets|)
  {
    DetectionOfIn(m, ti);
    match DetectionOf(m, ti)
    case Some(di) => Track(tracks[ti].tid, dets[di].bbox, 0)
    case None => tracks[ti].(misses := tracks[ti].misses + 1)
  }

  ghost function TrackSet(m: seq<Pair>): set<nat> { set p | p in m :: p.ti }

  ghost function DetectionSet(m: seq<Pair>): set<nat> { set p | p in m :: p.di }

  lemma DetectionOfIn(m: seq<Pair>, ti: nat)
    ensures DetectionOf(m, ti).Some? ==> exists p :: p in m && p.ti == ti && p.di == DetectionOf(m, ti).value
    ensures DetectionOf(m, ti).None? ==> forall p :: p in m ==> p.ti != ti
  {
    if |m| > 0 {
      DetectionOfIn(m[..|m| - 1], ti);
      assert m == m[..|m| - 1] + [m[|m| - 1]];
    }
  }

  lemma TrackOfIn(m: seq<Pair>, di: nat)
    ensures TrackOf(m, di).Some? ==> exists p :: p in m && p.di == di && p.ti == TrackOf(m, di).value
    ensures TrackOf(m, di).None? ==> forall p :: p in m ==> p.di != di
  {
    if |m| > 0 {
      TrackOfIn(m[..|m| - 1], di);
      assert m == m[..|m| - 1] + [m[|m| - 1]];
    }
  }

  function Survivors(tracks: seq<Track>, n: nat, dets: seq<Detection>, m: seq<Pair>, buffer: int): seq<Track>
    requires n <= |tracks| && InRange(m, |tracks|, |dets|)
  {
    if n == 0 then [] else
      var t := Followed(tracks, n - 1, dets, m);
      Survivors(tracks, n - 1, dets, m, buffer) + if t.misses <= buffer then [t] else []
  }

  /** Tracks born from the first `n` detections, numbered in detection order. */
  function Newborn(dets: seq<Detection>, n: nat, m: seq<Pair>, nextId: int): seq<Track>
    requires n <= |dets|
  {
    if n == 0 then [] else
      var prev := Newborn(dets, n - 1, m, nextId);
      prev + if TrackOf(m, n - 1).None? then [Track(nextId + |prev|, dets[n - 1].bbox, 0)] else []
  }

  function Labelled(tracks: seq<Track>, dets: seq<Detection>, di: nat, m: seq<Pair>, nextId: int): Detection
    requires di < |dets| && InRange(m, |tracks|, |dets|)
  {
    TrackOfIn(m, di);
    match TrackOf(m, di)
    case Some(ti) => dets[di].(trackerId := Some(tracks[ti].tid))
    case None => dets[di].(trackerId := Some(nextId + |Newborn(dets, di, m, nextId)|))
  }

  function Step(c: Config, st: State, dets: seq<Detection>): (r: (State, seq<Detection>))
    ensures |r.1| == |dets|
  {
    var m := Association(st.tracks, dets, c.iouThreshold);
    var born := Newborn(dets, |dets|, m, st.nextId);
    (State(Survivors(st.tracks, |st.tracks|, dets, m, c.lostTrackBuffer) + born, st.nextId + |born|),
     seq(|dets|, di requires 0 <= di < |dets| => Labelled(st.tracks, dets, di, m, st.nextId)))
  }

  class IouTracker {
    const config: Config
    var tracks: seq<Track>
    var nextId: int

    constructor (iouThreshold: real := 0.3, lostTrackBuffer: int := 30)
      ensures config == Config(iouThreshold, lostTrackBuffer)
      ensures Current() == State([], 1)
    {
      config := Config(iouThreshold, lostTrackBuffer);
      tracks, nextId := [], 1;
    }

    function Current(): State
      reads this
    {
      State(tracks, nextId)
    }

    /** Matches greedily, ages the rest, drops the long lost, then starts a track per unmatched detection. */
    method Update(detections: seq<Detection>) returns (out: seq<Detection>)
      modifies this
      ensures Current() == Step(config, old(Current()), detections).0
      ensures out == Step(config, old(Current()), detections).1
    {
      ghost var was := tracks;
      ghost var m := Association(tracks, detections, config.iouThreshold);
      var matchedT, matchedD;
      RankedInRange(tracks, detections);
      matchedT, matchedD, out := MatchPairs(RankedPairs(tracks, detections), detections);
      MoveAllIs(was, m, detections);
      LabelAllIs(was, m, detections, nextId);
      AgeTracks(was, detections, matchedT, m);
      out := StartTracks(was, detections, out, matchedD, m);
      StepIs(config, old(Current()), detections, Current(), out);
    }

    method AgeTracks(ghost was: seq<Track>, detections: seq<Detection>, matchedT: set<nat>, ghost m: seq<Pair>)
      requires Moved(m, was, tracks, detections)
      requires matchedT == TrackSet(m)
      modifies this`tracks
      ensures tracks == Survivors(was, |was|, detections, m, config.lostTrackBuffer)
    {
      var survivors: seq<Track> := [];
      for ti := 0 to |tracks|
        invariant tracks == old(tracks)
        invariant survivors == Survivors(was, ti, detections, m, config.lostTrackBuffer)
      {
        DetectionOfIn(m, ti);
        var t := tracks[ti];
        if ti !in matchedT {
          t := t.(misses := t.misses + 1);
        }
        if t.misses <= config.lostTrackBuffer {
          survivors := survivors + [t];
        }
      }
      tracks := survivors;
    }

    method StartTracks(ghost was: seq<Track>, detections: seq<Detection>, labelled: seq<Detection>,
                       matchedD: set<nat>, ghost m: seq<Pair>)
      returns (out: seq<Detection>)
      requires MarkedTo(0, m, was, labelled, detections, nextId)
      requires matchedD == DetectionSet(m)
      modifies this
      ensures var born := Newborn(detections, |detections|, m, old(nextId));
              tracks == old(tracks) + born && nextId == old(nextId) + |born|
      ensures MarkedTo(|detections|, m, was, out, detections, old(nextId))
    {
      out := labelled;
      for di := 0 to |detections|
        invariant tracks == old(tracks) + Newborn(detections, di, m, old(nextId))
        invariant nextId == old(nextId) + |Newborn(detections, di, m, old(nextId))|
        invariant MarkedTo(di, m, was, out, detections, old(nextId))
      {
        TrackOfIn(m, di);
        if di !in matchedD {
          var track := Track(nextId, detections[di].bbox, 0);
          nextId := nextId + 1;
          tracks := tracks + [track];
          out := out[di := out[di].(trackerId := Some(track.tid))];
        }
      }
    }

    /** The association loop: moves matched tracks and labels their detections. */
    method MatchPairs(pairs: seq<Pair>, detections: seq<Detection>)
      returns (matchedT: set<nat>, matchedD: set<nat>, out: seq<Detection>)
      requires InRange(pairs, |tracks|, |detections|)
      modifies this`tracks
      ensures var m := Greedy(pairs, config.iouThreshold, {}, {});
              && InRange(m, |old(tracks)|, |detections|) && OneToOne(m)
              && tracks == MoveAll(old(tracks), m, detections)
              && out == LabelAll(old(tracks), m, detections)
              && matchedT == TrackSet(m) && matchedD == DetectionSet(m)
    {
      hide Matched, MoveAll, LabelAll, TrackSet, DetectionSet, OneToOne, Greedy;
      ghost var was := tracks;
      ghost var done: seq<Pair> := [];
      matchedT, matchedD, out := {}, {}, detections;
      MatchedNone(pairs, config.iouThreshold, was, detections);

      var k := 0;
      while k < |pairs| && pairs[k].score >= config.iouThreshold
        invariant 0 <= k <= |pairs| && InRange(done, |was|, |detections|)
        invariant Matched(pairs, k, config.iouThreshold, done, was, detections, tracks, out, matchedT, matchedD)
      {
        var p := pairs[k];
        MatchedOneMore(pairs, k, config.iouThreshold, done, was, detections, tracks, out, matchedT, matchedD);
        if p.ti !in matchedT && p.di !in matchedD {
          matchedT, matchedD := matchedT + {p.ti}, matchedD + {p.di};
          var track := tracks[p.ti];
          tracks := tracks[p.ti := Track(track.tid, detections[p.di].bbox, 0)];
          out := out[p.di := out[p.di].(trackerId := Some(track.tid))];
          done := done + [p];
        }
        k := k + 1;
      }
      MatchedAll(pairs, k, config.iouThreshold, done, was, detections, tracks, out, matchedT, matchedD);
    }
  }

  /** `tracks` after handling the pairs of `m` one by one. */
  ghost function MoveAll(was: seq<Track>, m: seq<Pair>, dets: seq<Detection>): (r: seq<Track>)
    requires InRange(m, |was|, |dets|)
    ensures |r| == |was| && forall i :: 0 <= i < |r| ==> r[i].tid == was[i].tid
  {
    if |m| == 0 then was else
      var p := m[|m| - 1];
      MoveAll(was, m[..|m| - 1], dets)[p.ti := Track(was[p.ti].tid, dets[p.di].bbox, 0)]
  }

  ghost function LabelAll(was: seq<Track>, m: seq<Pair>, dets: seq<Detection>): (r: seq<Detection>)
    requires InRange(m, |was|, |dets|)
    ensures |r| == |dets|
  {
    if |m| == 0 then dets else
      var p := m[|m| - 1];
      var prev := LabelAll(was, m[..|m| - 1], dets);
      prev[p.di := prev[p.di].(trackerId := Some(was[p.ti].tid))]
  }

  /** `now` is `was` with the tracks paired by `m` moved onto their detections. */
  ghost predicate Moved(m: seq<Pair>, was: seq<Track>, now: seq<Track>, dets: seq<Detection>) {
    && InRange(m, |was|, |dets|) && |now| == |was|
    && forall ti :: 0 <= ti < |was| ==>
      now[ti] == if DetectionOf(m, ti).Some? then Followed(was, ti, dets, m) else was[ti]
  }

  /** `out` labels the first `n` detections and every one paired by `m`. */
  ghost predicate MarkedTo(n: nat, m: seq<Pair>, was: seq<Track>, out: seq<Detection>, dets: seq<Detection>,
                           nextId: int) {
    && InRange(m, |was|, |dets|) && |out| == |dets|
    && forall di :: 0 <= di < |dets| ==>
      out[di] == if di < n || TrackOf(m, di).Some? then Labelled(was, dets, di, m, nextId) else dets[di]
  }

  lemma {:induction false} MoveAllIs(was: seq<Track>, m: seq<Pair>, dets: seq<Detection>)
    requires InRange(m, |was|, |dets|)
    ensures Moved(m, was, MoveAll(was, m, dets), dets)
  {
    if |m| > 0 {
      MoveAllIs(was, m[..|m| - 1], dets);
    }
  }

  lemma {:induction false} LabelAllIs(was: seq<Track>, m: seq<Pair>, dets: seq<Detection>, nextId: int)
    requires InRange(m, |was|, |dets|) && OneToOne(m)
    ensures MarkedTo(0, m, was, LabelAll(was, m, dets), dets, nextId)
  {
    if |m| > 0 {
      var p, rest := m[|m| - 1], m[..|m| - 1];
      LabelAllIs(was, rest, dets, nextId);
      TrackOfIn(rest, p.di);
      assert TrackOf(rest, p.di).None?;
    }
  }

  lemma AssociatedExtend(m: seq<Pair>, p: Pair, was: seq<Track>, dets: seq<Detection>)
    requires InRange(m, |was|, |dets|) && p.ti < |was| && p.di < |dets|
    requires OneToOne(m) && p.ti !in TrackSet(m) && p.di !in DetectionSet(m)
    ensures TrackSet(m + [p]) == TrackSet(m) + {p.ti} && DetectionSet(m + [p]) == DetectionSet(m) + {p.di}
    ensures InRange(m + [p], |was|, |dets|) && OneToOne(m + [p])
    ensures var moved := MoveAll(was, m, dets);
            MoveAll(was, m + [p], dets) == moved[p.ti := Track(moved[p.ti].tid, dets[p.di].bbox, 0)]
    ensures var out := LabelAll(was, m, dets);
            LabelAll(was, m + [p], dets) == out[p.di := out[p.di].(trackerId := Some(MoveAll(was, m, dets)[p.ti].tid))]
  {
    assert forall q :: q in m + [p] <==> q in m || q == p;
    assert (m + [p])[..|m|] == m;
  }

  /** The association loop after `k` pairs: `done` are the greedy pairs among them, moved and labelled. */
  ghost predicate Matched(pairs: seq<Pair>, k: nat, threshold: real, done: seq<Pair>, was: seq<Track>,
                          dets: seq<Detection>, tracks: seq<Track>, out: seq<Detection>, mt: set<nat>, md: set<nat>)
    requires k <= |pairs| && InRange(done, |was|, |dets|)
  {
    && OneToOne(done) && mt == TrackSet(done) && md == DetectionSet(done)
    && tracks == MoveAll(was, done, dets) && out == LabelAll(was, done, dets)
    && Greedy(pairs, threshold, {}, {}) == done + Greedy(pairs[k..], threshold, mt, md)
  }

  lemma MatchedNone(pairs: seq<Pair>, threshold: real, was: seq<Track>, dets: seq<Detection>)
    ensures Matched(pairs, 0, threshold, [], was, dets, was, dets, {}, {})
  {
    assert pairs[0..] == pairs;
  }

  lemma MatchedOneMore(pairs: seq<Pair>, k: nat, threshold: real, done: seq<Pair>, was: seq<Track>,
                       dets: seq<Detection>, tracks: seq<Track>, out: seq<Detection>, mt: set<nat>, md: set<nat>)
    requires InRange(pairs, |was|, |dets|) && InRange(done, |was|, |dets|)
    requires k < |pairs| && pairs[k].score >= threshold
    requires Matched(pairs, k, threshold, done, was, dets, tracks, out, mt, md)
    ensures |tracks| == |was| && |out| == |dets| && InRange(done + [pairs[k]], |was|, |dets|)
    ensures var p := pairs[k];
            if p.ti in mt || p.di in md
            then Matched(pairs, k + 1, threshold, done, was, dets, tracks, out, mt, md)
            else Matched(pairs, k + 1, threshold, done + [p], was, dets,
                         tracks[p.ti := Track(tracks[p.ti].tid, dets[p.di].bbox, 0)],
                         out[p.di := out[p.di].(trackerId := Some(tracks[p.ti].tid))], mt + {p.ti}, md + {p.di})
  {
    hide MoveAll, LabelAll, TrackSet, DetectionSet, OneToOne, Greedy;
    var p := pairs[k];
    assert p in pairs;
    GreedyFrom(done, pairs, k, threshold, mt, md);
    if p.ti !in mt && p.di !in md {
      AssociatedExtend(done, p, was, dets);
    }
  }

  lemma MatchedAll(pairs: seq<Pair>, k: nat, threshold: real, done: seq<Pair>, was: seq<Track>,
                   dets: seq<Detection>, tracks: seq<Track>, out: seq<Detection>, mt: set<nat>, md: set<nat>)
    requires InRange(done, |was|, |dets|) && k <= |pairs| && (k < |pairs| ==> pairs[k].score < threshold)
    requires Matched(pairs, k, threshold, done, was, dets, tracks, out, mt, md)
    ensures Greedy(pairs, threshold, {}, {}) == done && OneToOne(done)
    ensures tracks == MoveAll(was, done, dets) && out == LabelAll(was, done, dets)
    ensures mt == TrackSet(done) && md == DetectionSet(done)
  {
  }

  lemma StepIs(c: Config, st: State, dets: seq<Detection>, next: State, out: seq<Detection>)
    requires var m := Association(st.tracks, dets, c.iouThreshold);
             var born := Newborn(dets, |dets|, m, st.nextId);
             && next.tracks == Survivors(st.tracks, |st.tracks|, dets, m, c.lostTrackBuffer) + born
             && next.nextId == st.nextId + |born|
             && MarkedTo(|dets|, m, st.tracks, out, dets, st.nextId)
    ensures next == Step(c, st, dets).0 && out == Step(c, st, dets).1
  {
    assert out == Step(c, st, dets).1;
  }

  // ---------------------------------------------------------------------------
  // What one update does to ids and live tracks
  // ---------------------------------------------------------------------------

  ghost predicate Valid(st: State) {
    && (forall i :: 0 <= i < |st.tracks| ==> 0 <= st.tracks[i].misses && st.tracks[i].tid < st.nextId)
    && forall i, j :: 0 <= i < j < |st.tracks| ==> st.tracks[i].tid != st.tracks[j].tid
  }

  ghost predicate SeenAt(out: seq<Detection>, di: nat, tid: int, bbox: BBox) {
    di < |out| && out[di].trackerId == Some(tid) && out[di].bbox == bbox
  }

  ghost predicate SeenBox(out: seq<Detection>, tid: int, bbox: BBox) {
    exists di :: SeenAt(out, di, tid, bbox)
  }

  ghost predicate Seen(out: seq<Detection>, tid: int) {
    exists di :: 0 <= di < |out| && out[di].trackerId == Some(tid)
  }

  lemma LookupsInverse(m: seq<Pair>, ti: nat, di: nat)
    requires OneToOne(m)
    ensures DetectionOf(m, ti) == Some(di) <==> TrackOf(m, di) == Some(ti)
  {
    DetectionOfIn(m, ti);
    TrackOfIn(m, di);
    forall p, q | p in m && q in m && Conflict(p, q) ensures p == q {
      OneToOneIn(m, p, q);
    }
  }

  lemma {:induction false} SurvivorsAre(tracks: seq<Track>, n: nat, dets: seq<Detection>, m: seq<Pair>, buffer: int,
                                        t: Track)
    requires n <= |tracks| && InRange(m, |tracks|, |dets|)
    ensures t in Survivors(tracks, n, dets, m, buffer) <==>
            t.misses <= buffer && exists ti :: 0 <= ti < n && t == Followed(tracks, ti, dets, m)
  {
    if n > 0 {
      SurvivorsAre(tracks, n - 1, dets, m, buffer, t);
    }
  }

  lemma {:induction false} SurvivorIds(tracks: seq<Track>, n: nat, dets: seq<Detection>, m: seq<Pair>, buffer: int)
    requires n <= |tracks| && InRange(m, |tracks|, |dets|)
    requires forall i, j :: 0 <= i < j < |tracks| ==> tracks[i].tid != tracks[j].tid
    ensures var s := Survivors(tracks, n, dets, m, buffer);
            forall i, j :: 0 <= i < j < |s| ==> s[i].tid != s[j].tid
  {
    if n > 0 {
      SurvivorIds(tracks, n - 1, dets, m, buffer);
      var s := Survivors(tracks, n - 1, dets, m, buffer);
      forall i | 0 <= i < |s| ensures s[i].tid != tracks[n - 1].tid {
        SurvivorsAre(tracks, n - 1, dets, m, buffer, s[i]);
        var ti :| 0 <= ti < n - 1 && s[i] == Followed(tracks, ti, dets, m);
      }
    }
  }

  ghost predicate Born(dets: seq<Detection>, di: nat, m: seq<Pair>, nextId: int, t: Track) {
    && di < |dets| && TrackOf(m, di).None?
    && t == Track(nextId + |Newborn(dets, di, m, nextId)|, dets[di].bbox, 0)
  }

  lemma {:induction false} NewbornAre(dets: seq<Detection>, n: nat, m: seq<Pair>, nextId: int, t: Track)
    requires n <= |dets|
    ensures t in Newborn(dets, n, m, nextId) <==> exists di :: 0 <= di < n && Born(dets, di, m, nextId, t)
  {
    if n > 0 {
      NewbornAre(dets, n - 1, m, nextId, t);
      assert t in Newborn(dets, n, m, nextId) <==>
        t in Newborn(dets, n - 1, m, nextId) || Born(dets, n - 1, m, nextId, t);
    }
  }

  lemma {:induction false} NewbornIds(dets: seq<Detection>, n: nat, m: seq<Pair>, nextId: int)
    requires n <= |dets|
    ensures forall k :: 0 <= k < |Newborn(dets, n, m, nextId)| ==>
              Newborn(dets, n, m, nextId)[k].tid == nextId + k && Newborn(dets, n, m, nextId)[k].misses == 0
  {
    if n > 0 {
      NewbornIds(dets, n - 1, m, nextId);
      var prev, born := Newborn(dets, n - 1, m, nextId), Newborn(dets, n, m, nextId);
      forall k | 0 <= k < |born| ensures born[k].tid == nextId + k && born[k].misses == 0 {
        if k < |prev| {
          assert born[k] == prev[k];
          assert prev[k].tid == nextId + k && prev[k].misses == 0;
        }
      }
    }
  }

  lemma {:induction false} NewbornGrows(dets: seq<Detection>, i: nat, j: nat, m: seq<Pair>, nextId: int)
    requires i < j <= |dets| && TrackOf(m, i).None?
    ensures |Newborn(dets, i, m, nextId)| < |Newborn(dets, j, m, nextId)|
  {
    if i < j - 1 {
      NewbornGrows(dets, i, j - 1, m, nextId);
    }
  }

  /** Who is live after an update: those just seen, and those missed once more within the buffer. */
  ghost predicate LiveNext(c: Config, st: State, out: seq<Detection>, t: Track) {
    if t.misses == 0 then SeenBox(out, t.tid, t.bbox)
    else 0 < t.misses <= c.lostTrackBuffer && Track(t.tid, t.bbox, t.misses - 1) in st.tracks && !Seen(out, t.tid)
  }

  lemma StepIs1(c: Config, st: State, dets: seq<Detection>, di: nat)
    requires di < |dets|
    ensures var m := Association(st.tracks, dets, c.iouThreshold);
            Step(c, st, dets).1[di] == Labelled(st.tracks, dets, di, m, st.nextId)
  {
  }

  lemma MatchedAre(tracks: seq<Track>, dets: seq<Detection>, threshold: real, di: nat)
    requires di < |dets|
    ensures var m := Association(tracks, dets, threshold);
            TrackOf(m, di).Some? ==>
            && TrackOf(m, di).value < |tracks|
            && DetectionOf(m, TrackOf(m, di).value) == Some(di)
            && Iou(tracks[TrackOf(m, di).value].bbox, dets[di].bbox) >= threshold
  {
    var m := Association(tracks, dets, threshold);
    NoBlockingPair(tracks, dets, threshold);
    TrackOfIn(m, di);
    if TrackOf(m, di).Some? {
      LookupsInverse(m, TrackOf(m, di).value, di);
    }
  }

  lemma LabelledIs(tracks: seq<Track>, dets: seq<Detection>, di: nat, m: seq<Pair>, nextId: int)
    requires di < |dets| && InRange(m, |tracks|, |dets|)
    ensures var d := Labelled(tracks, dets, di, m, nextId);
            && d.bbox == dets[di].bbox && d.confidence == dets[di].confidence
            && (TrackOf(m, di).Some? ==>
                  TrackOf(m, di).value < |tracks| && d.trackerId == Some(tracks[TrackOf(m, di).value].tid))
            && (TrackOf(m, di).None? ==> d.trackerId == Some(nextId + |Newborn(dets, di, m, nextId)|))
  {
    TrackOfIn(m, di);
  }

  /** How the ids handed out relate to the association and to the tracks before it. */
  lemma StepLabels(c: Config, st: State, dets: seq<Detection>, m: seq<Pair>, out: seq<Detection>, di: nat)
    requires di < |dets| && m == Association(st.tracks, dets, c.iouThreshold) && out == Step(c, st, dets).1
    ensures out[di].bbox == dets[di].bbox && out[di].confidence == dets[di].confidence
    ensures TrackOf(m, di).Some? ==>
              var ti := TrackOf(m, di).value;
              && ti < |st.tracks| && out[di].trackerId == Some(st.tracks[ti].tid)
              && DetectionOf(m, ti) == Some(di)
              && Iou(st.tracks[ti].bbox, dets[di].bbox) >= c.iouThreshold
    ensures TrackOf(m, di).None? ==> out[di].trackerId == Some(st.nextId + |Newborn(dets, di, m, st.nextId)|)
  {
    StepIs1(c, st, dets, di);
    LabelledIs(st.tracks, dets, di, m, st.nextId);
    MatchedAre(st.tracks, dets, c.iouThreshold, di);
  }

  /** Every detection gets an id, two detections of a frame never share one, and only overlap earns an old one. */
  lemma StepIds(c: Config, st: State, dets: seq<Detection>)
    requires Valid(st)
    ensures var (next, out) := Step(c, st, dets);
            && |out| == |dets|
            && (forall i :: 0 <= i < |out| ==> out[i].trackerId.Some? && out[i].trackerId.value < next.nextId)
            && (forall i, j :: 0 <= i < j < |out| ==> out[i].trackerId != out[j].trackerId)
            && (forall i :: 0 <= i < |out| && out[i].trackerId.value < st.nextId ==>
                  exists t :: t in st.tracks && t.tid == out[i].trackerId.value &&
                    Iou(t.bbox, dets[i].bbox) >= c.iouThreshold)
  {
    hide Association, Iou;
    var m := Association(st.tracks, dets, c.iouThreshold);
    var (next, out) := Step(c, st, dets);
    forall i | 0 <= i < |out|
      ensures out[i].trackerId.Some? && out[i].trackerId.value < next.nextId
      ensures out[i].trackerId.value < st.nextId ==>
        exists t :: t in st.tracks && t.tid == out[i].trackerId.value && Iou(t.bbox, dets[i].bbox) >= c.iouThreshold
    {
      StepLabels(c, st, dets, m, out, i);
      if TrackOf(m, i).None? {
        NewbornGrows(dets, i, |dets|, m, st.nextId);
      } else {
        assert st.tracks[TrackOf(m, i).value] in st.tracks;
      }
    }
    forall i, j | 0 <= i < j < |out| ensures out[i].trackerId != out[j].trackerId {
      StepLabels(c, st, dets, m, out, i);
      StepLabels(c, st, dets, m, out, j);
      if TrackOf(m, i).None? {
        NewbornGrows(dets, i, j, m, st.nextId);
      }
    }
  }

  /** A matched track is seen at its new box; an unmatched one is a miss older and not seen. */
  lemma StepSurvivor(c: Config, st: State, dets: seq<Detection>, m: seq<Pair>, out: seq<Detection>, ti: nat, t: Track)
    requires Valid(st) && ti < |st.tracks|
    requires m == Association(st.tracks, dets, c.iouThreshold) && out == Step(c, st, dets).1
    requires t == Followed(st.tracks, ti, dets, m)
    ensures DetectionOf(m, ti).Some? ==> t.misses == 0 && SeenBox(out, t.tid, t.bbox)
    ensures DetectionOf(m, ti).None? ==>
              t == Track(st.tracks[ti].tid, st.tracks[ti].bbox, st.tracks[ti].misses + 1) && !Seen(out, t.tid)
  {
    if DetectionOf(m, ti).Some? {
      SurvivorSeen(c, st, dets, m, out, ti, DetectionOf(m, ti).value);
    } else {
      forall di | 0 <= di < |out| ensures out[di].trackerId != Some(st.tracks[ti].tid) {
        SurvivorUnseen(c, st, dets, m, out, ti, di);
      }
    }
  }

  lemma SurvivorSeen(c: Config, st: State, dets: seq<Detection>, m: seq<Pair>, out: seq<Detection>, ti: nat, di: nat)
    requires ti < |st.tracks| && DetectionOf(m, ti) == Some(di)
    requires m == Association(st.tracks, dets, c.iouThreshold) && out == Step(c, st, dets).1
    ensures di < |dets| && SeenAt(out, di, st.tracks[ti].tid, dets[di].bbox)
  {
    NoBlockingPair(st.tracks, dets, c.iouThreshold);
    LookupsInverse(m, ti, di);
    DetectionOfIn(m, ti);
    StepLabels(c, st, dets, m, out, di);
  }

  lemma SurvivorUnseen(c: Config, st: State, dets: seq<Detection>, m: seq<Pair>, out: seq<Detection>, ti: nat, di: nat)
    requires Valid(st) && ti < |st.tracks| && DetectionOf(m, ti).None? && di < |dets|
    requires m == Association(st.tracks, dets, c.iouThreshold) && out == Step(c, st, dets).1
    ensures out[di].trackerId != Some(st.tracks[ti].tid)
  {
    StepLabels(c, st, dets, m, out, di);
  }

  lemma StepTracks(c: Config, st: State, dets: seq<Detection>, next: State, out: seq<Detection>, t: Track)
    requires Valid(st) && c.lostTrackBuffer >= 0 && (next, out) == Step(c, st, dets)
    ensures t in next.tracks <==> LiveNext(c, st, out, t)
  {
    var m := Association(st.tracks, dets, c.iouThreshold);
    StepIs0(c, st, dets);
    NewbornAre(dets, |dets|, m, st.nextId, t);
    if t in Newborn(dets, |dets|, m, st.nextId) {
      var di :| 0 <= di < |dets| && Born(dets, di, m, st.nextId, t);
      StepLabels(c, st, dets, m, out, di);
      assert SeenAt(out, di, t.tid, t.bbox);
    } else if t in next.tracks {
      SurvivorLive(c, st, dets, m, out, t);
    } else if LiveNext(c, st, out, t) {
      LiveNextIn(c, st, dets, m, out, t);
    }
  }

  lemma SurvivorLive(c: Config, st: State, dets: seq<Detection>, m: seq<Pair>, out: seq<Detection>, t: Track)
    requires Valid(st)
    requires m == Association(st.tracks, dets, c.iouThreshold) && out == Step(c, st, dets).1
    requires t in Survivors(st.tracks, |st.tracks|, dets, m, c.lostTrackBuffer)
    ensures LiveNext(c, st, out, t)
  {
    SurvivorsAre(st.tracks, |st.tracks|, dets, m, c.lostTrackBuffer, t);
    var ti :| 0 <= ti < |st.tracks| && t == Followed(st.tracks, ti, dets, m);
    StepSurvivor(c, st, dets, m, out, ti, t);
    assert DetectionOf(m, ti).None? ==> Track(t.tid, t.bbox, t.misses - 1) == st.tracks[ti];
  }

  lemma LiveNextIn(c: Config, st: State, dets: seq<Detection>, m: seq<Pair>, out: seq<Detection>, t: Track)
    requires Valid(st) && c.lostTrackBuffer >= 0 && LiveNext(c, st, out, t)
    requires m == Association(st.tracks, dets, c.iouThreshold) && out == Step(c, st, dets).1
    ensures t in Survivors(st.tracks, |st.tracks|, dets, m, c.lostTrackBuffer) + Newborn(dets, |dets|, m, st.nextId)
  {
    SurvivorsAre(st.tracks, |st.tracks|, dets, m, c.lostTrackBuffer, t);
    if t.misses == 0 {
      var di :| SeenAt(out, di, t.tid, t.bbox);
      StepLabels(c, st, dets, m, out, di);
      if TrackOf(m, di).Some? {
        assert t == Followed(st.tracks, TrackOf(m, di).value, dets, m);
      } else {
        NewbornAre(dets, |dets|, m, st.nextId, t);
        assert Born(dets, di, m, st.nextId, t);
      }
    } else {
      var ti :| 0 <= ti < |st.tracks| && st.tracks[ti] == Track(t.tid, t.bbox, t.misses - 1);
      var followed := Followed(st.tracks, ti, dets, m);
      StepSurvivor(c, st, dets, m, out, ti, followed);
      assert SeenBox(out, followed.tid, followed.bbox) ==> Seen(out, t.tid);
    }
  }

  lemma StepValid(c: Config, st: State, dets: seq<Detection>)
    requires Valid(st)
    ensures Valid(Step(c, st, dets).0)
  {
    var m := Association(st.tracks, dets, c.iouThreshold);
    var next := Step(c, st, dets).0;
    var s := Survivors(st.tracks, |st.tracks|, dets, m, c.lostTrackBuffer);
    var born := Newborn(dets, |dets|, m, st.nextId);
    SurvivorIds(st.tracks, |st.tracks|, dets, m, c.lostTrackBuffer);
    NewbornIds(dets, |dets|, m, st.nextId);
    forall i | 0 <= i < |s| ensures 0 <= s[i].misses && s[i].tid < st.nextId {
      SurvivorsAre(st.tracks, |st.tracks|, dets, m, c.lostTrackBuffer, s[i]);
      var ti :| 0 <= ti < |st.tracks| && s[i] == Followed(st.tracks, ti, dets, m);
    }
    StepIs0(c, st, dets);
    ValidAppend(s, born, st.nextId);
  }

  lemma StepIs0(c: Config, st: State, dets: seq<Detection>)
    ensures var m := Association(st.tracks, dets, c.iouThreshold);
            var born := Newborn(dets, |dets|, m, st.nextId);
            Step(c, st, dets).0 == State(Survivors(st.tracks, |st.tracks|, dets, m, c.lostTrackBuffer) + born,
                                         st.nextId + |born|)
  {
  }

  lemma ValidAppend(s: seq<Track>, born: seq<Track>, nextId: int)
    requires Valid(State(s, nextId))
    requires forall k :: 0 <= k < |born| ==> born[k].tid == nextId + k && born[k].misses == 0
    ensures Valid(State(s + born, nextId + |born|))
  {
  }

  lemma StepDropped(c: Config, st: State, dets: seq<Detection>, t: Track)
    requires Valid(st) && t in Step(c, st, dets).0.tracks && t.tid < st.nextId
    ensures Live(st, t.tid)
  {
    var m := Association(st.tracks, dets, c.iouThreshold);
    SurvivorsAre(st.tracks, |st.tracks|, dets, m, c.lostTrackBuffer, t);
    NewbornAre(dets, |dets|, m, st.nextId, t);
    StepIs0(c, st, dets);
    var ti :| 0 <= ti < |st.tracks| && t == Followed(st.tracks, ti, dets, m);
    assert st.tracks[ti] in st.tracks;
  }

  // ---------------------------------------------------------------------------
  // Whole runs
  // ---------------------------------------------------------------------------

  /** The tracker's states and answers over a run of frames, from the empty tracker on. */
  ghost predicate IsRun(c: Config, frames: seq<seq<Detection>>, states: seq<State>, outs: seq<seq<Detection>>) {
    && |states| == |frames| + 1 && |outs| == |frames| && states[0] == State([], 1)
    && forall k :: 0 <= k < |frames| ==> (states[k + 1], outs[k]) == Step(c, states[k], frames[k])
  }

  ghost predicate Live(st: State, tid: int) {
    exists t :: t in st.tracks && t.tid == tid
  }

  ghost predicate IdLaws(c: Config, st: State, dets: seq<Detection>, next: State, out: seq<Detection>) {
    && |out| == |dets| && st.nextId <= next.nextId
    && (forall i :: 0 <= i < |out| ==> out[i].trackerId.Some? && out[i].trackerId.value < next.nextId)
    && (forall i, j :: 0 <= i < j < |out| ==> out[i].trackerId != out[j].trackerId)
    && (forall i :: 0 <= i < |out| && out[i].trackerId.value < st.nextId ==>
          exists t :: t in st.tracks && t.tid == out[i].trackerId.value && Iou(t.bbox, dets[i].bbox) >= c.iouThreshold)
    && (forall t :: t in next.tracks && t.tid < st.nextId ==> Live(st, t.tid))
  }

  ghost predicate LiveLaw(c: Config, st: State, next: State, out: seq<Detection>) {
    forall t :: t in next.tracks <==> LiveNext(c, st, out, t)
  }

  ghost predicate LawfulRun(c: Config, frames: seq<seq<Detection>>, states: seq<State>, outs: seq<seq<Detection>>) {
    && |states| == |frames| + 1 && |outs| == |frames| && states[0] == State([], 1)
    && (forall k :: 0 <= k < |states| ==> Valid(states[k]))
    && (forall k :: 0 <= k < |frames| ==> IdLaws(c, states[k], frames[k], states[k + 1], outs[k]))
    && (c.lostTrackBuffer >= 0 ==> forall k :: 0 <= k < |frames| ==> LiveLaw(c, states[k], states[k + 1], outs[k]))
  }

  lemma StepLawful(c: Config, st: State, dets: seq<Detection>)
    requires Valid(st)
    ensures var (next, out) := Step(c, st, dets);
            Valid(next) && IdLaws(c, st, dets, next, out) && (c.lostTrackBuffer >= 0 ==> LiveLaw(c, st, next, out))
  {
    StepValid(c, st, dets);
    StepIds(c, st, dets);
    forall t | t in Step(c, st, dets).0.tracks && t.tid < st.nextId ensures Live(st, t.tid) {
      StepDropped(c, st, dets, t);
    }
    if c.lostTrackBuffer >= 0 {
      forall t ensures t in Step(c, st, dets).0.tracks <==> LiveNext(c, st, Step(c, st, dets).1, t) {
        StepTracks(c, st, dets, Step(c, st, dets).0, Step(c, st, dets).1, t);
      }
    }
  }

  lemma {:induction false} RunValid(c: Config, frames: seq<seq<Detection>>, states: seq<State>,
                                    outs: seq<seq<Detection>>, k: nat)
    requires IsRun(c, frames, states, outs) && k <= |frames|
    ensures Valid(states[k])
  {
    if k > 0 {
      RunValid(c, frames, states, outs, k - 1);
      StepValid(c, states[k - 1], frames[k - 1]);
      assert (states[k - 1 + 1], outs[k - 1]) == Step(c, states[k - 1], frames[k - 1]);
    }
  }

  lemma RunIsLawful(c: Config, frames: seq<seq<Detection>>, states: seq<State>, outs: seq<seq<Detection>>)
    requires IsRun(c, frames, states, outs)
    ensures LawfulRun(c, frames, states, outs)
  {
    forall k | 0 <= k < |states| ensures Valid(states[k]) {
      RunValid(c, frames, states, outs, k);
    }
    forall k | 0 <= k < |frames|
      ensures IdLaws(c, states[k], frames[k], states[k + 1], outs[k])
      ensures c.lostTrackBuffer >= 0 ==> LiveLaw(c, states[k], states[k + 1], outs[k])
    {
      StepLawful(c, states[k], frames[k]);
      assert (states[k + 1], outs[k]) == Step(c, states[k], frames[k]);
    }
  }

  /** Within a frame every detection gets its own id. */
  lemma FrameIdsDistinct(c: Config, frames: seq<seq<Detection>>, states: seq<State>, outs: seq<seq<Detection>>,
                         k: nat, i: nat, j: nat)
    requires IsRun(c, frames, states, outs) && k < |frames| && i < j < |frames[k]|
    ensures |outs[k]| == |frames[k]| && outs[k][i].trackerId.Some? && outs[k][i].trackerId != outs[k][j].trackerId
  {
    RunIsLawful(c, frames, states, outs);
    assert IdLaws(c, states[k], frames[k], states[k + 1], outs[k]);
  }

  /** Whatever an update reported is below every later `nextId`. */
  lemma {:induction false} ReportedBelow(c: Config, frames: seq<seq<Detection>>, states: seq<State>,
                                         outs: seq<seq<Detection>>, j: nat, k: nat, tid: int)
    requires LawfulRun(c, frames, states, outs) && j < k <= |frames| && Seen(outs[j], tid)
    ensures tid < states[k].nextId
    decreases k
  {
    assert IdLaws(c, states[k - 1], frames[k - 1], states[k - 1 + 1], outs[k - 1]);
    if j < k - 1 {
      ReportedBelow(c, frames, states, outs, j, k - 1, tid);
    }
  }

  /** Every id reported again was carried over by a live track that overlaps its new detection enough. */
  lemma ReusedIdsOverlap(c: Config, frames: seq<seq<Detection>>, states: seq<State>, outs: seq<seq<Detection>>,
                         j: nat, k: nat, i: nat, tid: int)
    requires IsRun(c, frames, states, outs) && j < k < |frames| && i < |outs[k]| && |outs[k]| == |frames[k]|
    requires outs[k][i].trackerId == Some(tid) && Seen(outs[j], tid)
    ensures exists t :: t in states[k].tracks && t.tid == tid && Iou(t.bbox, frames[k][i].bbox) >= c.iouThreshold
  {
    RunIsLawful(c, frames, states, outs);
    ReportedBelow(c, frames, states, outs, j, k, tid);
    assert IdLaws(c, states[k], frames[k], states[k + 1], outs[k]);
  }

  /** An id reported before update `k` but then on no live track is never live or reported again. */
  lemma {:induction false} DroppedIdsStayDropped(c: Config, frames: seq<seq<Detection>>, states: seq<State>,
                                                 outs: seq<seq<Detection>>, j: nat, k: nat, l: nat, tid: int)
    requires IsRun(c, frames, states, outs) && j < k <= l <= |frames|
    requires Seen(outs[j], tid) && !Live(states[k], tid)
    ensures !Live(states[l], tid) && (l < |frames| ==> !Seen(outs[l], tid))
  {
    RunIsLawful(c, frames, states, outs);
    DroppedStay(c, frames, states, outs, j, k, l, tid);
  }

  lemma {:induction false} DroppedStay(c: Config, frames: seq<seq<Detection>>, states: seq<State>,
                                       outs: seq<seq<Detection>>, j: nat, k: nat, l: nat, tid: int)
    requires LawfulRun(c, frames, states, outs) && j < k <= l <= |frames|
    requires Seen(outs[j], tid) && !Live(states[k], tid)
    ensures !Live(states[l], tid) && (l < |frames| ==> !Seen(outs[l], tid))
    decreases l
  {
    if k < l {
      DroppedStay(c, frames, states, outs, j, k, l - 1, tid);
      ReportedBelow(c, frames, states, outs, j, l - 1, tid);
      assert IdLaws(c, states[l - 1], frames[l - 1], states[l - 1 + 1], outs[l - 1]);
    }
    if l < |frames| {
      ReportedBelow(c, frames, states, outs, j, l, tid);
      assert IdLaws(c, states[l], frames[l], states[l + 1], outs[l]);
    }
  }

  /** Reported at `t`'s box by the update `t.misses` before number `n`, and by none of those since. */
  ghost predicate LastSighting(outs: seq<seq<Detection>>, n: nat, t: Track) {
    && 0 <= t.misses < n <= |outs|
    && SeenBox(outs[n - 1 - t.misses], t.tid, t.bbox)
    && forall k :: n - t.misses <= k < n ==> !Seen(outs[k], t.tid)
  }

  lemma LastSightingAges(outs: seq<seq<Detection>>, n: nat, t: Track)
    requires 0 < n <= |outs| && t.misses > 0
    ensures LastSighting(outs, n, t) <==>
            LastSighting(outs, n - 1, Track(t.tid, t.bbox, t.misses - 1)) && !Seen(outs[n - 1], t.tid)
  {
    var older := Track(t.tid, t.bbox, t.misses - 1);
    assert n - 1 - t.misses == n - 1 - 1 - older.misses;
    assert n - t.misses == n - 1 - older.misses;
  }

  /**
   The live tracks are a pure function of what was reported: a track with `misses` m is exactly an id
   reported m updates ago, at that box, not reported since, with m within the buffer.
   */
  lemma LiveTracksAreRecentSightings(c: Config, frames: seq<seq<Detection>>, states: seq<State>,
                                     outs: seq<seq<Detection>>, n: nat, t: Track)
    requires IsRun(c, frames, states, outs) && n <= |frames| && c.lostTrackBuffer >= 0
    ensures t in states[n].tracks <==> LastSighting(outs, n, t) && t.misses <= c.lostTrackBuffer
  {
    RunIsLawful(c, frames, states, outs);
    LiveAreRecent(c, frames, states, outs, n, t);
  }

  lemma {:induction false} LiveAreRecent(c: Config, frames: seq<seq<Detection>>, states: seq<State>,
                                         outs: seq<seq<Detection>>, n: nat, t: Track)
    requires LawfulRun(c, frames, states, outs) && n <= |frames| && c.lostTrackBuffer >= 0
    ensures t in states[n].tracks <==> LastSighting(outs, n, t) && t.misses <= c.lostTrackBuffer
    decreases n
  {
    if n > 0 {
      assert LiveLaw(c, states[n - 1], states[n - 1 + 1], outs[n - 1]);
      assert t in states[n].tracks <==> LiveNext(c, states[n - 1], outs[n - 1], t);
      var older := Track(t.tid, t.bbox, t.misses - 1);
      if t.misses > 0 {
        LiveAreRecent(c, frames, states, outs, n - 1, older);
        LastSightingAges(outs, n, t);
      }
    }
  }

  // ---------------------------------------------------------------------------
  // How many tracks can be alive
  // ---------------------------------------------------------------------------

  ghost function Ids(tracks: seq<Track>): set<int> { set t | t in tracks :: t.tid }

  ghost function Reported(out: seq<Detection>): set<int> {
    set d | d in out && d.trackerId.Some? :: d.trackerId.value
  }

  /** Number of detections in the `b` frames ending before frame `n`. */
  ghost function RecentDetections(frames: seq<seq<Detection>>, n: nat, b: nat): nat
    requires n <= |frames|
  {
    if n == 0 || b == 0 then 0 else |frames[n - 1]| + RecentDetections(frames, n - 1, b - 1)
  }

  ghost function RecentIds(outs: seq<seq<Detection>>, n: nat, b: nat): set<int>
    requires n <= |outs|
  {
    if n == 0 || b == 0 then {} else Reported(outs[n - 1]) + RecentIds(outs, n - 1, b - 1)
  }

  lemma {:induction false} IdsCount(tracks: seq<Track>)
    requires forall i, j :: 0 <= i < j < |tracks| ==> tracks[i].tid != tracks[j].tid
    ensures |Ids(tracks)| == |tracks|
  {
    if |tracks| > 0 {
      var n := |tracks| - 1;
      IdsCount(tracks[..n]);
      assert tracks == tracks[..n] + [tracks[n]];
      assert Ids(tracks) == Ids(tracks[..n]) + {tracks[n].tid};
      assert tracks[n].tid !in Ids(tracks[..n]);
    }
  }

  lemma {:induction false} ReportedCount(out: seq<Detection>)
    ensures |Reported(out)| <= |out|
  {
    if |out| > 0 {
      var n := |out| - 1;
      ReportedCount(out[..n]);
      assert out == out[..n] + [out[n]];
      assert Reported(out) == Reported(out[..n]) + if out[n].trackerId.Some? then {out[n].trackerId.value} else {};
    }
  }

  lemma {:induction false} RecentIdsCount(frames: seq<seq<Detection>>, outs: seq<seq<Detection>>, n: nat, b: nat)
    requires n <= |outs| == |frames| && forall k :: 0 <= k < |outs| ==> |outs[k]| == |frames[k]|
    ensures |RecentIds(outs, n, b)| <= RecentDetections(frames, n, b)
  {
    if n > 0 && b > 0 {
      ReportedCount(outs[n - 1]);
      RecentIdsCount(frames, outs, n - 1, b - 1);
    }
  }

  lemma {:induction false} RecentIdsIn(outs: seq<seq<Detection>>, n: nat, b: nat, t: Track)
    requires LastSighting(outs, n, t) && t.misses < b
    ensures t.tid in RecentIds(outs, n, b)
  {
    if t.misses > 0 {
      LastSightingAges(outs, n, t);
      RecentIdsIn(outs, n - 1, b - 1, Track(t.tid, t.bbox, t.misses - 1));
    } else {
      var di: nat :| SeenAt(outs[n - 1], di, t.tid, t.bbox);
      assert outs[n - 1][di] in outs[n - 1];
    }
  }

  /** Live tracks never outnumber the detections of the last `lostTrackBuffer + 1` frames. */
  lemma PopulationBound(c: Config, frames: seq<seq<Detection>>, states: seq<State>, outs: seq<seq<Detection>>, n: nat)
    requires IsRun(c, frames, states, outs) && n <= |frames| && c.lostTrackBuffer >= 0
    ensures |states[n].tracks| <= RecentDetections(frames, n, c.lostTrackBuffer + 1)
  {
    RunIsLawful(c, frames, states, outs);
    Population(c, frames, states, outs, n);
  }

  lemma Population(c: Config, frames: seq<seq<Detection>>, states: seq<State>, outs: seq<seq<Detection>>, n: nat)
    requires LawfulRun(c, frames, states, outs) && n <= |frames| && c.lostTrackBuffer >= 0
    ensures |states[n].tracks| <= RecentDetections(frames, n, c.lostTrackBuffer + 1)
  {
    hide LiveNext, LastSighting, RecentDetections;
    var tracks, b := states[n].tracks, c.lostTrackBuffer + 1;
    assert Valid(states[n]);
    IdsCount(tracks);
    forall k | 0 <= k < |outs| ensures |outs[k]| == |frames[k]| {
      assert IdLaws(c, states[k], frames[k], states[k + 1], outs[k]);
    }
    RecentIdsCount(frames, outs, n, b);
    forall tid | tid in Ids(tracks) ensures tid in RecentIds(outs, n, b) {
      var t :| t in tracks && t.tid == tid;
      LiveAreRecent(c, frames, states, outs, n, t);
      RecentIdsIn(outs, n, b, t);
    }
    SubsetCount(Ids(tracks), RecentIds(outs, n, b));
  }
}
