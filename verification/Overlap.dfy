/** What intersection over union is, counted in pixels, and how it changes as boxes move. */
module Overlap {
  import opened Arithmetic
  import opened Schemas
  import opened Tracker

  // ---------------------------------------------------------------------------
  // Blocks of pixels
  // ---------------------------------------------------------------------------

  /** A column and a row of the grid. */
  datatype Pixel = Pixel(column: int, row: int)

  ghost function Block(l: int, t: int, r: int, b: int): set<Pixel> {
    set i, j | l <= i < r && t <= j < b :: Pixel(i, j)
  }

  function Width(l: int, r: int): nat { if l <= r then r - l else 0 }

  lemma {:induction false} RowCount(l: int, r: int, row: int)
    requires l <= r
    ensures |Block(l, row, r, row + 1)| == r - l
    decreases r - l
  {
    if l < r {
      RowCount(l, r - 1, row);
      assert Block(l, row, r, row + 1) == Block(l, row, r - 1, row + 1) + {Pixel(r - 1, row)};
    } else {
      assert Block(l, row, r, row + 1) == {};
    }
  }

  lemma {:induction false} BlockCount(l: int, t: int, r: int, b: int)
    ensures |Block(l, t, r, b)| == Width(l, r) * Width(t, b)
    decreases Width(t, b)
  {
    if l >= r || t >= b {
      assert Block(l, t, r, b) == {};
    } else {
      hide Block;
      BlockCount(l, t, r, b - 1);
      RowCount(l, r, b - 1);
      RowAbove(l, t, r, b);
      assert (r - l) * (b - t) == (r - l) * (b - 1 - t) + (r - l);
    }
  }

  lemma RowAbove(l: int, t: int, r: int, b: int)
    requires t < b
    ensures |Block(l, t, r, b)| == |Block(l, t, r, b - 1)| + |Block(l, b - 1, r, b)|
  {
    var rest, row := Block(l, t, r, b - 1), Block(l, b - 1, r, b);
    assert rest !! row && Block(l, t, r, b) == rest + row;
  }

  lemma BlocksMeet(l: int, t: int, r: int, b: int, l': int, t': int, r': int, b': int)
    ensures Block(l, t, r, b) * Block(l', t', r', b') ==
            Block(if l >= l' then l else l', if t >= t' then t else t', if r <= r' then r else r',
                  if b <= b' then b else b')
  {
  }

  lemma UnionCount<T>(x: set<T>, y: set<T>)
    ensures |x + y| == |x| + |y| - |x * y|
  {
    assert x + y == x + (y - x) && y == (y - x) + x * y;
  }

  // ---------------------------------------------------------------------------
  // Boxes on a grid
  // ---------------------------------------------------------------------------

  /** The grid line of pixels of side 1/`k` that a coordinate lies on, or else the one before it. */
  function Line(u: real, k: nat): int { (u * k as real).Floor }

  predicate OnLine(u: real, k: nat) {
    k > 0 && u * k as real == Line(u, k) as real
  }

  /** The corners lie on the grid. */
  predicate OnGrid(b: BBox, k: nat) {
    OnLine(b.x1, k) && OnLine(b.y1, k) && OnLine(b.x2, k) && OnLine(b.y2, k)
  }

  /** The pixels of side 1/`k` in the box. */
  ghost function Pixels(b: BBox, k: nat): set<Pixel> {
    Block(Line(b.x1, k), Line(b.y1, k), Line(b.x2, k), Line(b.y2, k))
  }

  lemma OrderOnGrid(u: real, v: real, k: nat)
    requires OnLine(u, k) && OnLine(v, k)
    ensures u <= v <==> Line(u, k) <= Line(v, k)
  {
    hide Line;
    if u <= v {
      MulLeft(u, v, k as real);
    } else {
      Less(v, u, k as real);
    }
  }

  lemma Less(u: real, v: real, k: real)
    requires u < v && k > 0.0
    ensures u * k < v * k
  {
    ProductPositive(v - u, k);
    assert (v - u) * k == v * k - u * k;
  }

  /** Lengths on the grid, in sides of a pixel. */
  lemma SideOnGrid(u: real, v: real, k: nat)
    requires OnLine(u, k) && OnLine(v, k)
    ensures Max(0.0, v - u) * k as real == Width(Line(u, k), Line(v, k)) as real
  {
    OrderOnGrid(u, v, k);
    assert (v - u) * k as real == v * k as real - u * k as real;
  }

  lemma AreaOnGrid(b: BBox, k: nat)
    requires OnGrid(b, k)
    ensures b.Area() * (k as real * k as real) == |Pixels(b, k)| as real
  {
    hide OnLine, Line, Max, Width, Block;
    SideOnGrid(b.x1, b.x2, k);
    SideOnGrid(b.y1, b.y2, k);
    BlockCount(Line(b.x1, k), Line(b.y1, k), Line(b.x2, k), Line(b.y2, k));
    Products(Max(0.0, b.x2 - b.x1), Max(0.0, b.y2 - b.y1), k as real,
             Width(Line(b.x1, k), Line(b.x2, k)), Width(Line(b.y1, k), Line(b.y2, k)));
  }

  lemma Products(w: real, h: real, k: real, m: nat, n: nat)
    requires w * k == m as real && h * k == n as real
    ensures (w * h) * (k * k) == (m * n) as real
  {
    assert (w * h) * (k * k) == (w * k) * (h * k);
    assert m as real * n as real == (m * n) as real;
  }

  /** The box two boxes have in common; its corners may be the wrong way round. */
  function Common(a: BBox, b: BBox): BBox {
    BBox(Max(a.x1, b.x1), Max(a.y1, b.y1), Min(a.x2, b.x2), Min(a.y2, b.y2))
  }

  lemma CommonOnGrid(a: BBox, b: BBox, k: nat)
    requires OnGrid(a, k) && OnGrid(b, k)
    ensures OnGrid(Common(a, b), k) && Pixels(Common(a, b), k) == Pixels(a, k) * Pixels(b, k)
  {
    hide OnLine, Line, Block;
    OrderOnGrid(b.x1, a.x1, k);
    OrderOnGrid(b.y1, a.y1, k);
    OrderOnGrid(a.x2, b.x2, k);
    OrderOnGrid(a.y2, b.y2, k);
    BlocksMeet(Line(a.x1, k), Line(a.y1, k), Line(a.x2, k), Line(a.y2, k),
               Line(b.x1, k), Line(b.y1, k), Line(b.x2, k), Line(b.y2, k));
  }

  /** On any grid that both boxes fit, IoU is the share of their pixels that they have in common. */
  lemma IouCountsPixels(a: BBox, b: BBox, k: nat)
    requires OnGrid(a, k) && OnGrid(b, k)
    ensures Iou(a, b) * |Pixels(a, k) + Pixels(b, k)| as real == |Pixels(a, k) * Pixels(b, k)| as real
  {
    hide *;
    var p, q := Pixels(a, k), Pixels(b, k);
    GridFine(a, k);
    AreaOnGrid(a, k);
    AreaOnGrid(b, k);
    CommonOnGrid(a, b, k);
    AreaOnGrid(Common(a, b), k);
    UnionCount(p, q);
    SubsetCount(p * q, p);
    SubsetCount(p * q, q);
    CommonArea(a, b);
    IouIs(a, b);
    ShareOfCounts(Intersection(a, b), a.Area(), b.Area(), k, |p|, |q|, |p * q|);
  }

  lemma GridFine(b: BBox, k: nat)
    requires OnGrid(b, k)
    ensures k > 0
  {
  }

  lemma IouIs(a: BBox, b: BBox)
    ensures var union := a.Area() + b.Area() - Intersection(a, b);
            Iou(a, b) == if union > 0.0 then Intersection(a, b) / union else 0.0
  {
  }

  lemma CommonArea(a: BBox, b: BBox)
    ensures Common(a, b).Area() == Intersection(a, b)
  {
  }

  lemma ShareOfCounts(inter: real, area1: real, area2: real, k: nat, m: nat, n: nat, both: nat)
    requires k > 0 && both <= m && both <= n && inter * (k as real * k as real) == both as real
    requires area1 * (k as real * k as real) == m as real && area2 * (k as real * k as real) == n as real
    ensures var union := area1 + area2 - inter;
            (if union > 0.0 then inter / union else 0.0) * (m + n - both) as real == both as real
  {
    var kk, union := k as real * k as real, area1 + area2 - inter;
    ProductPositive(k as real, k as real);
    assert union * kk == area1 * kk + area2 * kk - inter * kk == (m + n - both) as real;
    if union > 0.0 {
      Regroup(inter, union, kk);
    } else {
      MulLeft(union, 0.0, kk);
    }
  }

  lemma Regroup(inter: real, union: real, kk: real)
    requires union > 0.0
    ensures inter / union * (union * kk) == inter * kk
  {
    var r := inter / union;
    assert r * union == inter;
    assert r * (union * kk) == (r * union) * kk;
  }

  // ---------------------------------------------------------------------------
  // Boxes in motion, with any corners
  // ---------------------------------------------------------------------------

  function Moved(b: BBox, dx: real, dy: real): BBox {
    BBox(b.x1 + dx, b.y1 + dy, b.x2 + dx, b.y2 + dy)
  }

  /** Moving both boxes together changes nothing. */
  lemma IouMoved(a: BBox, b: BBox, dx: real, dy: real)
    ensures Iou(Moved(a, dx, dy), Moved(b, dx, dy)) == Iou(a, b)
  {
    assert Moved(a, dx, dy).Area() == a.Area() && Moved(b, dx, dy).Area() == b.Area();
    assert Intersection(Moved(a, dx, dy), Moved(b, dx, dy)) == Intersection(a, b);
  }

  /** A box of width `w` that moves sideways by part of it keeps (w - d) / (w + d) of itself. */
  lemma IouOfStep(b: BBox, d: real)
    requires b.x1 < b.x2 && b.y1 < b.y2 && 0.0 <= d <= b.x2 - b.x1
    ensures var w := b.x2 - b.x1;
            Iou(b, Moved(b, d, 0.0)) * (w + d) == w - d
  {
    var w, h := b.x2 - b.x1, b.y2 - b.y1;
    StepAreas(b, d, w, h);
    hide Intersection;
    StepRatio(w, h, d);
  }

  lemma StepAreas(b: BBox, d: real, w: real, h: real)
    requires w == b.x2 - b.x1 > 0.0 && h == b.y2 - b.y1 > 0.0 && 0.0 <= d <= w
    ensures Intersection(b, Moved(b, d, 0.0)) == (w - d) * h
    ensures b.Area() == w * h && Moved(b, d, 0.0).Area() == w * h
  {
  }

  lemma StepRatio(w: real, h: real, d: real)
    requires w > 0.0 && h > 0.0 && 0.0 <= d <= w
    ensures var union := w * h + w * h - (w - d) * h;
            union > 0.0 && (w - d) * h / union * (w + d) == w - d
  {
    var inter, union := (w - d) * h, w * h + w * h - (w - d) * h;
    assert union == (w + d) * h;
    ProductPositive(w + d, h);
    var r := inter / union;
    assert r * union == inter;
    assert (r * (w + d) - (w - d)) * h == r * ((w + d) * h) - (w - d) * h;
    ZeroProduct(r * (w + d) - (w - d), h);
  }

  lemma ProductPositive(a: real, b: real)
    requires a > 0.0 && b > 0.0
    ensures a * b > 0.0
  {
  }

  // ---------------------------------------------------------------------------
  // What the tracker does with it
  // ---------------------------------------------------------------------------

  /** On every run, an id reported again was held by a live track that shares enough pixels with the new detection. */
  lemma ReusedIdsSharePixels(c: Config, frames: seq<seq<Detection>>, states: seq<State>, outs: seq<seq<Detection>>,
                             j: nat, k: nat, i: nat, tid: int, grid: nat)
    requires IsRun(c, frames, states, outs) && j < k < |frames| && i < |outs[k]| && |outs[k]| == |frames[k]|
    requires outs[k][i].trackerId == Some(tid) && Seen(outs[j], tid)
    requires OnGrid(frames[k][i].bbox, grid) && forall t :: t in states[k].tracks ==> OnGrid(t.bbox, grid)
    ensures exists t :: t in states[k].tracks && t.tid == tid &&
              SharePixels(t.bbox, frames[k][i].bbox, grid, c.iouThreshold)
  {
    hide OnGrid, Iou, SharePixels;
    ReusedIdsOverlap(c, frames, states, outs, j, k, i, tid);
    var t :| t in states[k].tracks && t.tid == tid && Iou(t.bbox, frames[k][i].bbox) >= c.iouThreshold;
    EnoughPixels(t.bbox, frames[k][i].bbox, grid, c.iouThreshold);
  }

  /** At least this share of the pixels of the two boxes is common to both. */
  ghost predicate SharePixels(a: BBox, b: BBox, k: nat, share: real) {
    |Pixels(a, k) * Pixels(b, k)| as real >= share * |Pixels(a, k) + Pixels(b, k)| as real
  }

  lemma EnoughPixels(a: BBox, b: BBox, k: nat, threshold: real)
    requires OnGrid(a, k) && OnGrid(b, k) && Iou(a, b) >= threshold
    ensures SharePixels(a, b, k, threshold)
  {
    hide Pixels, OnGrid, Iou;
    IouCountsPixels(a, b, k);
    MulLeft(threshold, Iou(a, b), |Pixels(a, k) + Pixels(b, k)| as real);
  }
}
