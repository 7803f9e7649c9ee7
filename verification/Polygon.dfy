/** Point-in-polygon by ray casting (vision/zones.py). */
module Polygon {
  import opened Arithmetic
  import opened Schemas

  /** The horizontal ray going right from `p` crosses the edge `a`-`b` (upper end excluded). */
  predicate Crosses(p: Point, a: Point, b: Point) {
    Straddles(p, a, b) && p.x < CrossingX(p, a, b)
  }

  predicate Straddles(p: Point, a: Point, b: Point) {
    (b.y > p.y) != (a.y > p.y)
  }

  /** Where the edge from `a` to `b` is at the height of `p`. */
  function CrossingX(p: Point, a: Point, b: Point): real
    requires Straddles(p, a, b)
  {
    (a.x - b.x) * (p.y - b.y) / (a.y - b.y) + b.x
  }

  /** Parity of the crossings along an open polyline. */
  function Parity(p: Point, path: seq<Point>): bool {
    if |path| < 2 then false else
      var n := |path|;
      Parity(p, path[..n - 1]) != Crosses(p, path[n - 2], path[n - 1])
  }

  /** A polygon is its vertex list closed up by the edge from the last vertex back to the first. */
  function Inside(p: Point, polygon: seq<Point>): bool {
    if |polygon| == 0 then false else Parity(p, [polygon[|polygon| - 1]] + polygon)
  }

  lemma ParityStep(p: Point, path: seq<Point>, k: nat)
    requires k + 1 < |path|
    ensures Parity(p, path[..k + 2]) == (Parity(p, path[..k + 1]) != Crosses(p, path[k], path[k + 1]))
  {
    assert path[..k + 2][..k + 1] == path[..k + 1];
  }

  method PointInPolygon(pt: Point, polygon: seq<Point>) returns (inside: bool)
    ensures inside == Inside(pt, polygon)
  {
    inside := false;
    var n := |polygon|;
    var j := n - 1;
    ghost var closed := if n == 0 then [] else [polygon[n - 1]] + polygon;
    for i := 0 to n
      invariant j == if i == 0 then n - 1 else i - 1
      invariant n > 0 ==> inside == Parity(pt, closed[..i + 1])
      invariant n == 0 ==> !inside
    {
      var pi, pj := polygon[i], polygon[j];
      var intersects := Straddles(pt, pj, pi);
      assert closed[i] == pj && closed[i + 1] == pi;
      ParityStep(pt, closed, i);
      if intersects {
        var xAtY := CrossingX(pt, pj, pi);
        if pt.x < xAtY {
          inside := !inside;
        }
      }
      j := i;
    }
    assert n > 0 ==> closed[..n + 1] == closed;
  }

  // ---------------------------------------------------------------------------
  // Edges
  // ---------------------------------------------------------------------------

  /** Fraction of the way from `b` to `a` at which the edge reaches the height of `p`. */
  lemma CrossingFraction(p: Point, a: Point, b: Point) returns (s: real)
    requires Straddles(p, a, b)
    ensures 0.0 <= s <= 1.0 && s * (a.y - b.y) == p.y - b.y
    ensures CrossingX(p, a, b) == (a.x - b.x) * s + b.x
  {
    s := (p.y - b.y) / (a.y - b.y);
    assert s * (a.y - b.y) == p.y - b.y;
    assert (1.0 - s) * (a.y - b.y) == a.y - p.y;
    SameSign(s, a.y - b.y, p.y - b.y);
    SameSign(1.0 - s, a.y - b.y, a.y - p.y);
    assert (a.x - b.x) * (p.y - b.y) / (a.y - b.y) == (a.x - b.x) * s;
  }

  lemma SameSign(s: real, d: real, e: real)
    requires s * d == e && d != 0.0
    requires (d > 0.0 && e >= 0.0) || (d < 0.0 && e <= 0.0)
    ensures s >= 0.0
  {
    if s < 0.0 {
      if d > 0.0 { Negative(s, d); } else { Negative(s, -d); }
    }
  }

  lemma Negative(s: real, d: real)
    requires s < 0.0 < d
    ensures s * d < 0.0
  {
  }

  lemma CrossesSymmetric(p: Point, a: Point, b: Point)
    ensures Crosses(p, a, b) == Crosses(p, b, a)
  {
    if Straddles(p, a, b) {
      var s := CrossingFraction(p, a, b);
      var t := CrossingFraction(p, b, a);
      assert (s + t - 1.0) * (a.y - b.y) == 0.0;
      assert s + t == 1.0;
      assert (a.x - b.x) * s + (a.x - b.x) * t == (a.x - b.x) * (s + t);
    }
  }

  /** The crossing lies between the ends of the edge. */
  lemma CrossingBetween(p: Point, a: Point, b: Point)
    requires Straddles(p, a, b)
    ensures a.x <= p.x && b.x <= p.x ==> CrossingX(p, a, b) <= p.x
    ensures a.x > p.x && b.x > p.x ==> CrossingX(p, a, b) > p.x
  {
    var s := CrossingFraction(p, a, b);
    assert CrossingX(p, a, b) - p.x == s * (a.x - p.x) + (1.0 - s) * (b.x - p.x);
    if a.x <= p.x && b.x <= p.x {
      NonNegative(s, p.x - a.x);
      NonNegative(1.0 - s, p.x - b.x);
    }
    if a.x > p.x && b.x > p.x {
      MeanPositive(s, a.x - p.x, b.x - p.x);
    }
  }

  lemma MeanPositive(s: real, u: real, v: real)
    requires 0.0 <= s <= 1.0 && u > 0.0 && v > 0.0
    ensures s * u + (1.0 - s) * v > 0.0
  {
    if u >= v {
      NonNegative(s, u - v);
      assert s * u + (1.0 - s) * v == v + s * (u - v);
    } else {
      NonNegative(1.0 - s, v - u);
      assert s * u + (1.0 - s) * v == u + (1.0 - s) * (v - u);
    }
  }

  // ---------------------------------------------------------------------------
  // Polylines
  // ---------------------------------------------------------------------------

  lemma {:induction false} ParitySplit(p: Point, path: seq<Point>, k: nat)
    requires k < |path|
    ensures Parity(p, path) == (Parity(p, path[..k + 1]) != Parity(p, path[k..]))
  {
    var n := |path|;
    if k == n - 1 {
      assert path[..k + 1] == path;
    } else {
      ParitySplit(p, path[..n - 1], k);
      assert path[..n - 1][..k + 1] == path[..k + 1];
      assert path[..n - 1][k..] == path[k..][..n - 1 - k];
      assert path[k..][n - 2 - k] == path[n - 2] && path[k..][n - 1 - k] == path[n - 1];
    }
  }

  lemma ParityJoin(p: Point, s: seq<Point>, v: Point, t: seq<Point>)
    ensures Parity(p, s + [v] + t) == (Parity(p, s + [v]) != Parity(p, [v] + t))
  {
    var path := s + [v] + t;
    ParitySplit(p, path, |s|);
    assert path[..|s| + 1] == s + [v];
    assert path[|s|..] == [v] + t;
  }

  lemma ParityEdge(p: Point, a: Point, b: Point, t: seq<Point>)
    ensures Parity(p, [a, b] + t) == (Crosses(p, a, b) != Parity(p, [b] + t))
  {
    ParityJoin(p, [a], b, t);
    assert [a] + [b] + t == [a, b] + t && [a] + [b] == [a, b];
    assert Parity(p, [a, b][..1]) == false;
    assert Parity(p, [a, b]) == Crosses(p, a, b);
  }

  function Reversed(s: seq<Point>): seq<Point> {
    if |s| == 0 then [] else [s[|s| - 1]] + Reversed(s[..|s| - 1])
  }

  lemma {:induction false} ParityReversed(p: Point, s: seq<Point>)
    ensures Parity(p, Reversed(s)) == Parity(p, s)
  {
    if |s| >= 2 {
      var n := |s|;
      var rest := Reversed(s[..n - 1]);
      ParityReversed(p, s[..n - 1]);
      assert rest == [s[n - 2]] + rest[1..];
      ParityEdge(p, s[n - 1], s[n - 2], rest[1..]);
      assert Reversed(s) == [s[n - 1], s[n - 2]] + rest[1..];
      CrossesSymmetric(p, s[n - 1], s[n - 2]);
    }
  }

  // ---------------------------------------------------------------------------
  // Polygons
  // ---------------------------------------------------------------------------

  /** Closing the vertex list at the front or at the back makes no difference. */
  lemma InsideClosedAtEnd(p: Point, polygon: seq<Point>)
    requires |polygon| > 0
    ensures Inside(p, polygon) == Parity(p, polygon + [polygon[0]])
  {
    var n := |polygon|;
    ParityEdge(p, polygon[n - 1], polygon[0], polygon[1..]);
    assert [polygon[n - 1], polygon[0]] + polygon[1..] == [polygon[n - 1]] + polygon;
    assert [polygon[0]] + polygon[1..] == polygon;
    assert (polygon + [polygon[0]])[..n] == polygon;
  }

  /** Where the vertex list starts does not matter. */
  lemma InsideRotated(p: Point, polygon: seq<Point>, k: nat)
    requires k <= |polygon|
    ensures Inside(p, polygon[k..] + polygon[..k]) == Inside(p, polygon)
  {
    hide *;
    var n := |polygon|;
    if k == 0 || k == n {
      assert polygon[k..] + polygon[..k] == polygon;
    } else {
      var a, first, b, last := polygon[..k - 1], polygon[k - 1], polygon[k..n - 1], polygon[n - 1];
      assert polygon[..k] == a + [first] && polygon[k..] == b + [last];
      assert polygon == polygon[..k] + polygon[k..];
      assert polygon == a + [first] + b + [last];
      assert polygon[k..] + polygon[..k] == b + [last] + a + [first];
      RotateParts(p, a, first, b, last);
    }
  }

  lemma RotateParts(p: Point, a: seq<Point>, first: Point, b: seq<Point>, last: Point)
    ensures Inside(p, a + [first] + b + [last]) == Inside(p, b + [last] + a + [first])
  {
    var u, v := [last] + a + [first], [first] + b + [last];
    ParityConcat(p, u, v);
    ParityConcat(p, v, u);
    assert [last] + (a + [first] + b + [last]) == u + v[1..];
    assert [first] + (b + [last] + a + [first]) == v + u[1..];
  }

  lemma ParityConcat(p: Point, u: seq<Point>, v: seq<Point>)
    requires |u| > 0 && |v| > 0 && u[|u| - 1] == v[0]
    ensures Parity(p, u + v[1..]) == (Parity(p, u) != Parity(p, v))
  {
    ParitySplit(p, u + v[1..], |u| - 1);
    assert (u + v[1..])[..|u|] == u;
    assert (u + v[1..])[|u| - 1..] == v;
  }

  /** Nor does the winding. */
  lemma InsideReversed(p: Point, polygon: seq<Point>)
    ensures Inside(p, Reversed(polygon)) == Inside(p, polygon)
  {
    if |polygon| > 0 {
      var n := |polygon|;
      InsideClosedAtEnd(p, polygon);
      ParityReversed(p, polygon + [polygon[0]]);
      assert (polygon + [polygon[0]])[..n] == polygon;
      assert Reversed(polygon + [polygon[0]]) == [polygon[0]] + Reversed(polygon);
      ReversedLast(polygon);
    }
  }

  lemma {:induction false} ReversedLast(s: seq<Point>)
    requires |s| > 0
    ensures |Reversed(s)| == |s| && Reversed(s)[|s| - 1] == s[0]
  {
    if |s| > 1 {
      ReversedLast(s[..|s| - 1]);
    }
  }

  /** Cutting a polygon along the chord between vertices `i` and `j`: a point is in exactly one part or in neither. */
  lemma InsideChord(p: Point, polygon: seq<Point>, i: nat, j: nat)
    requires i < j < |polygon|
    ensures Inside(p, polygon) ==
            (Inside(p, polygon[i..j + 1]) != Inside(p, polygon[j..] + polygon[..i + 1]))
  {
    hide *;
    var a, ab, b, ba := polygon[i], polygon[i + 1..j], polygon[j], polygon[j + 1..] + polygon[..i];
    InsideRotated(p, polygon, i);
    ChordLists(polygon, i, j);
    ChordParts(p, a, ab, b, ba);
  }

  lemma ChordLists(polygon: seq<Point>, i: nat, j: nat)
    requires i < j < |polygon|
    ensures polygon[i..j + 1] == [polygon[i]] + polygon[i + 1..j] + [polygon[j]]
    ensures polygon[i..] + polygon[..i]
         == [polygon[i]] + polygon[i + 1..j] + [polygon[j]] + (polygon[j + 1..] + polygon[..i])
    ensures polygon[j..] + polygon[..i + 1] == [polygon[j]] + (polygon[j + 1..] + polygon[..i]) + [polygon[i]]
  {
    assert polygon[i..j + 1] == [polygon[i]] + polygon[i + 1..j] + [polygon[j]];
    assert polygon[i..] == polygon[i..j + 1] + polygon[j + 1..];
    assert polygon[j..] == [polygon[j]] + polygon[j + 1..];
    assert polygon[..i + 1] == polygon[..i] + [polygon[i]];
  }

  lemma ChordParts(p: Point, a: Point, ab: seq<Point>, b: Point, ba: seq<Point>)
    ensures Inside(p, [a] + ab + [b] + ba) == (Inside(p, [a] + ab + [b]) != Inside(p, [b] + ba + [a]))
  {
    var whole, one, two := [a] + ab + [b] + ba, [a] + ab + [b], [b] + ba + [a];
    InsideClosedAtEnd(p, whole);
    assert whole + [a] == [a] + ab + [b] + (ba + [a]);
    ParityJoin(p, [a] + ab, b, ba + [a]);
    assert [b] + (ba + [a]) == two;
    ClosedByEdge(p, b, a, ab);
    ClosedByEdge(p, a, b, ba);
    CrossesSymmetric(p, a, b);
  }

  lemma ClosedByEdge(p: Point, b: Point, a: Point, ab: seq<Point>)
    ensures Inside(p, [a] + ab + [b]) == (Crosses(p, b, a) != Parity(p, [a] + ab + [b]))
  {
    ParityEdge(p, b, a, ab + [b]);
    assert [b, a] + (ab + [b]) == [b] + ([a] + ab + [b]);
    assert [a] + (ab + [b]) == [a] + ab + [b];
  }

  /** Parity of the triangles of the fan at vertex 0, up to vertex `n` of the list. */
  ghost function Fan(p: Point, polygon: seq<Point>, n: nat): bool
    requires n < |polygon|
  {
    if n < 2 then false else
      Fan(p, polygon, n - 1) != Inside(p, [polygon[0], polygon[n - 1], polygon[n]])
  }

  /** Any polygon is the parity of its triangles: concave or self-crossing, no triangulation needed. */
  lemma {:induction false} InsideIsFan(p: Point, polygon: seq<Point>)
    requires |polygon| >= 2
    ensures Inside(p, polygon) == Fan(p, polygon, |polygon| - 1)
  {
    var n := |polygon|;
    if n == 2 {
      ParityEdge(p, polygon[1], polygon[0], [polygon[1]]);
      ParityEdge(p, polygon[0], polygon[1], []);
      assert [polygon[1]] + polygon == [polygon[1], polygon[0]] + [polygon[1]];
      assert [polygon[0]] + [polygon[1]] == [polygon[0], polygon[1]] + [];
      assert Parity(p, [polygon[1]] + []) == false;
      CrossesSymmetric(p, polygon[0], polygon[1]);
    } else {
      InsideChord(p, polygon, 0, n - 2);
      assert polygon[0..n - 1] == polygon[..n - 1];
      InsideIsFan(p, polygon[..n - 1]);
      FanPrefix(p, polygon, n - 2);
      var ear := [polygon[0], polygon[n - 2], polygon[n - 1]];
      InsideRotated(p, ear, 1);
      assert ear[1..] + ear[..1] == polygon[n - 2..] + polygon[..1];
    }
  }

  lemma {:induction false} FanPrefix(p: Point, polygon: seq<Point>, n: nat)
    requires n + 1 < |polygon|
    ensures Fan(p, polygon[..|polygon| - 1], n) == Fan(p, polygon, n)
  {
    if n >= 2 {
      FanPrefix(p, polygon, n - 1);
    }
  }

  // ---------------------------------------------------------------------------
  // Bounding box, rectangles, triangles
  // ---------------------------------------------------------------------------

  /** Left of everything, every straddling edge counts, and a closed line straddles an even number of times. */
  lemma {:induction false} ParityLeftOf(p: Point, path: seq<Point>)
    requires |path| > 0 && forall k :: 0 <= k < |path| ==> path[k].x > p.x
    ensures Parity(p, path) == ((path[0].y > p.y) != (path[|path| - 1].y > p.y))
  {
    var n := |path|;
    if n >= 2 {
      ParityLeftOf(p, path[..n - 1]);
      if Straddles(p, path[n - 2], path[n - 1]) {
        CrossingBetween(p, path[n - 2], path[n - 1]);
      }
    }
  }

  lemma {:induction false} ParityNone(p: Point, path: seq<Point>)
    requires forall k :: 0 < k < |path| ==> !Crosses(p, path[k - 1], path[k])
    ensures !Parity(p, path)
  {
    if |path| >= 2 {
      ParityNone(p, path[..|path| - 1]);
      assert !Crosses(p, path[|path| - 1 - 1], path[|path| - 1]);
    }
  }

  /** A point inside has vertices on both sides of it, on both axes: it is in the half-open bounding box. */
  lemma InsideBoundingBox(p: Point, polygon: seq<Point>)
    requires Inside(p, polygon)
    ensures exists v :: v in polygon && v.x <= p.x
    ensures exists v :: v in polygon && v.x > p.x
    ensures exists v :: v in polygon && v.y <= p.y
    ensures exists v :: v in polygon && v.y > p.y
  {
    var path := [polygon[|polygon| - 1]] + polygon;
    assert forall k :: 0 <= k < |path| ==> path[k] in polygon;
    if forall v :: v in polygon ==> v.x > p.x {
      ParityLeftOf(p, path);
    }
    if (forall v :: v in polygon ==> v.x <= p.x) || (forall v :: v in polygon ==> v.y > p.y)
      || (forall v :: v in polygon ==> v.y <= p.y) {
      forall k | 0 < k < |path| ensures !Crosses(p, path[k - 1], path[k]) {
        if Straddles(p, path[k - 1], path[k]) {
          CrossingBetween(p, path[k - 1], path[k]);
        }
      }
      ParityNone(p, path);
    }
  }

  function Rectangle(x1: real, y1: real, x2: real, y2: real): seq<Point> {
    [Point(x1, y1), Point(x2, y1), Point(x2, y2), Point(x1, y2)]
  }

  /** For a rectangle the test is exactly membership in the half-open box. */
  lemma InsideRectangle(p: Point, x1: real, y1: real, x2: real, y2: real)
    requires x1 <= x2 && y1 <= y2
    ensures Inside(p, Rectangle(x1, y1, x2, y2)) <==> x1 <= p.x < x2 && y1 <= p.y < y2
  {
    var a, b, c, d := Point(x1, y1), Point(x2, y1), Point(x2, y2), Point(x1, y2);
    var path := [d, a, b, c, d];
    assert [d] + Rectangle(x1, y1, x2, y2) == path;
    ParityEdge(p, d, a, [b, c, d]);
    ParityEdge(p, a, b, [c, d]);
    ParityEdge(p, b, c, [d]);
    ParityEdge(p, c, d, []);
    assert path == [d, a] + [b, c, d] && [a] + [b, c, d] == [a, b] + [c, d];
    assert [b] + [c, d] == [b, c] + [d] && [c] + [d] == [c, d] + [];
    assert Parity(p, [d] + []) == false;
    assert Straddles(p, b, c) ==> CrossingX(p, b, c) == x2;
    assert Straddles(p, d, a) ==> CrossingX(p, d, a) == x1;
  }

  function Moved(p: Point, dx: real, dy: real): Point { Point(p.x + dx, p.y + dy) }

  function AllMoved(s: seq<Point>, dx: real, dy: real): seq<Point> {
    seq(|s|, i requires 0 <= i < |s| => Moved(s[i], dx, dy))
  }

  lemma CrossesMoved(p: Point, a: Point, b: Point, dx: real, dy: real)
    ensures Crosses(Moved(p, dx, dy), Moved(a, dx, dy), Moved(b, dx, dy)) == Crosses(p, a, b)
  {
    if Straddles(p, a, b) {
      var q, c, d := Moved(p, dx, dy), Moved(a, dx, dy), Moved(b, dx, dy);
      SameRatio(c.x - d.x, q.y - d.y, c.y - d.y, a.x - b.x, p.y - b.y, a.y - b.y);
      assert CrossingX(q, c, d) == CrossingX(p, a, b) + dx;
    }
  }

  lemma SameRatio(u: real, v: real, w: real, x: real, y: real, z: real)
    requires u == x && v == y && w == z && w != 0.0
    ensures u * v / w == x * y / z
  {
  }

  lemma {:induction false} ParityMoved(p: Point, path: seq<Point>, dx: real, dy: real)
    ensures Parity(Moved(p, dx, dy), AllMoved(path, dx, dy)) == Parity(p, path)
  {
    var n := |path|;
    if n >= 2 {
      ParityMoved(p, path[..n - 1], dx, dy);
      CrossesMoved(p, path[n - 2], path[n - 1], dx, dy);
      assert AllMoved(path, dx, dy)[..n - 1] == AllMoved(path[..n - 1], dx, dy);
    }
  }

  /** Moving point and polygon together changes nothing. */
  lemma InsideMoved(p: Point, polygon: seq<Point>, dx: real, dy: real)
    ensures Inside(Moved(p, dx, dy), AllMoved(polygon, dx, dy)) == Inside(p, polygon)
  {
    if |polygon| > 0 {
      var path := [polygon[|polygon| - 1]] + polygon;
      ParityMoved(p, path, dx, dy);
      var moved := AllMoved(polygon, dx, dy);
      assert AllMoved(path, dx, dy) == [moved[|moved| - 1]] + moved;
    }
  }

  /** Twice the signed area of `a`, `b`, `p`: positive when `p` is left of the line from `a` to `b`. */
  function Turn(a: Point, b: Point, p: Point): real {
    (b.x - a.x) * (p.y - a.y) - (b.y - a.y) * (p.x - a.x)
  }

  /** An upward edge is crossed exactly by the points strictly to its left. */
  lemma CrossesIsLeftOf(p: Point, a: Point, b: Point)
    requires a.y <= p.y < b.y
    ensures Crosses(p, a, b) <==> Turn(a, b, p) > 0.0
  {
    var s := CrossingFraction(p, b, a);
    CrossesSymmetric(p, a, b);
    assert (b.x - a.x) * (p.y - a.y) == (b.x - a.x) * (s * (b.y - a.y)) == ((b.x - a.x) * s) * (b.y - a.y);
    var gap := CrossingX(p, b, a) - p.x;
    assert Turn(a, b, p) == gap * (b.y - a.y);
    if gap < 0.0 { Negative(gap, b.y - a.y); }
    if gap > 0.0 { Negative(-gap, b.y - a.y); }
  }

  /** A point strictly on the same side of the three edges, taken in turn. */
  predicate StrictlyWithin(p: Point, a: Point, b: Point, c: Point) {
    || (Turn(a, b, p) > 0.0 && Turn(b, c, p) > 0.0 && Turn(c, a, p) > 0.0)
    || (Turn(a, b, p) < 0.0 && Turn(b, c, p) < 0.0 && Turn(c, a, p) < 0.0)
  }

  /** As above, edges included, for a triangle that is not flat. */
  predicate Within(p: Point, a: Point, b: Point, c: Point) {
    || (Turn(a, b, p) >= 0.0 && Turn(b, c, p) >= 0.0 && Turn(c, a, p) >= 0.0 && Turn(a, b, c) != 0.0)
    || (Turn(a, b, p) <= 0.0 && Turn(b, c, p) <= 0.0 && Turn(c, a, p) <= 0.0 && Turn(a, b, c) != 0.0)
  }

  /** For a triangle of either winding the test agrees with its geometry, the points of its edges aside. */
  lemma InsideTriangle(p: Point, a: Point, b: Point, c: Point)
    ensures StrictlyWithin(p, a, b, c) ==> Inside(p, [a, b, c])
    ensures Inside(p, [a, b, c]) ==> Within(p, a, b, c)
  {
    hide Inside, Reversed, Turn, Within;
    if Turn(a, b, p) > 0.0 && Turn(b, c, p) > 0.0 && Turn(c, a, p) > 0.0 {
      InsideCounterClockwise(p, a, b, c);
    } else if StrictlyWithin(p, a, b, c) {
      TurnBack(a, b, p);
      TurnBack(b, c, p);
      TurnBack(c, a, p);
      InsideCounterClockwise(p, c, b, a);
      InsideReversed(p, [a, b, c]);
      ReversedTriangle(a, b, c);
    }
    if Inside(p, [a, b, c]) {
      InsideIsWithin(p, a, b, c);
    }
  }

  lemma TurnBack(a: Point, b: Point, p: Point)
    ensures Turn(b, a, p) == -Turn(a, b, p)
  {
  }

  lemma ReversedTriangle(a: Point, b: Point, c: Point)
    ensures Reversed([a, b, c]) == [c, b, a]
  {
    assert [a, b, c][..2] == [a, b] && [a, b][..1] == [a];
    assert Reversed([a]) == [a] + Reversed([]);
    assert Reversed([a, b]) == [b] + Reversed([a]);
  }

  /** A point inside is at the height of some vertex cut off from the other two, and between its two edges. */
  lemma InsideIsWithin(p: Point, a: Point, b: Point, c: Point)
    requires Inside(p, [a, b, c])
    ensures Within(p, a, b, c)
  {
    TriangleParity(p, a, b, c);
    TurnsAddUp(p, a, b, c);
    TurnsAddUp(p, b, c, a);
    TurnsAddUp(p, c, a, b);
    if (b.y > p.y) == (c.y > p.y) {
      BetweenEdges(p, a, b, c);
    } else if (c.y > p.y) == (a.y > p.y) {
      BetweenEdges(p, b, c, a);
    } else {
      BetweenEdges(p, c, a, b);
    }
  }

  /** The three turns about a point add up to that of the triangle. */
  lemma TurnsAddUp(p: Point, a: Point, b: Point, c: Point)
    ensures Turn(a, b, p) + Turn(b, c, p) + Turn(c, a, p) == Turn(a, b, c)
  {
  }

  /** Between the two edges at `a` at the height of the point, on the side of the third edge that `a` is on. */
  lemma BetweenEdges(p: Point, a: Point, b: Point, c: Point)
    requires (b.y > p.y) == (c.y > p.y) && Crosses(p, c, a) != Crosses(p, a, b)
    ensures Within(p, a, b, c)
  {
    var u, v, w := Turn(b, c, p), Turn(c, a, p), Turn(a, b, p);
    TurnsAddUp(p, a, b, c);
    TurnsBalance(p, a, b, c);
    EdgeSide(p, c, a);
    EdgeSide(p, a, b);
    if a.y > p.y {
      Balanced(u, v, w, a.y - p.y, p.y - b.y, p.y - c.y);
    } else {
      Balanced(u, v, w, p.y - a.y, b.y - p.y, c.y - p.y);
    }
  }

  /** An edge is crossed by the points strictly left of it when it goes up, strictly right of it when it goes down. */
  lemma EdgeSide(p: Point, a: Point, b: Point)
    ensures a.y <= p.y < b.y ==> (Crosses(p, a, b) <==> Turn(a, b, p) > 0.0)
    ensures b.y <= p.y < a.y ==> (Crosses(p, a, b) <==> Turn(a, b, p) < 0.0)
  {
    if a.y <= p.y < b.y {
      CrossesIsLeftOf(p, a, b);
    } else if b.y <= p.y < a.y {
      CrossesIsLeftOf(p, b, a);
      CrossesSymmetric(p, a, b);
      TurnBack(a, b, p);
    }
  }

  lemma TurnsBalance(p: Point, a: Point, b: Point, c: Point)
    ensures Turn(b, c, p) * (a.y - p.y) + Turn(c, a, p) * (b.y - p.y) + Turn(a, b, p) * (c.y - p.y) == 0.0
  {
  }

  lemma Balanced(u: real, v: real, w: real, x: real, y: real, z: real)
    requires u * x == v * y + w * z && x >= 0.0 && y >= 0.0 && z >= 0.0
    requires x > 0.0 || (y > 0.0 && z > 0.0)
    requires v != 0.0 || w != 0.0
    ensures v >= 0.0 && w >= 0.0 ==> u >= 0.0
    ensures v <= 0.0 && w <= 0.0 ==> u <= 0.0
  {
    if v >= 0.0 && w >= 0.0 {
      RightBalanced(u, v, w, x, y, z);
    }
    if v <= 0.0 && w <= 0.0 {
      assert (-u) * x == -(u * x) && (-v) * y == -(v * y) && (-w) * z == -(w * z);
      RightBalanced(-u, -v, -w, x, y, z);
    }
  }

  lemma RightBalanced(u: real, v: real, w: real, x: real, y: real, z: real)
    requires u * x == v * y + w * z && x >= 0.0 && y >= 0.0 && z >= 0.0
    requires x > 0.0 || (y > 0.0 && z > 0.0)
    requires v >= 0.0 && w >= 0.0 && (v != 0.0 || w != 0.0)
    ensures u >= 0.0
  {
    NonNegative(v, y);
    NonNegative(w, z);
    if x > 0.0 {
      SameSign(u, x, v * y + w * z);
    } else if v > 0.0 {
      Negative(-v, y);
      assert false;
    } else {
      Negative(-w, z);
      assert false;
    }
  }

  lemma InsideCounterClockwise(p: Point, a: Point, b: Point, c: Point)
    requires Turn(a, b, p) > 0.0 && Turn(b, c, p) > 0.0 && Turn(c, a, p) > 0.0
    ensures Inside(p, [a, b, c])
  {
    TriangleParity(p, a, b, c);
    EdgeSide(p, a, b);
    EdgeSide(p, b, c);
    EdgeSide(p, c, a);
    if (a.y > p.y && b.y > p.y && c.y > p.y) || (a.y <= p.y && b.y <= p.y && c.y <= p.y) {
      TriangleSpansHeight(p, a, b, c);
    }
  }

  lemma TriangleParity(p: Point, a: Point, b: Point, c: Point)
    ensures Inside(p, [a, b, c]) == ((Crosses(p, c, a) != Crosses(p, a, b)) != Crosses(p, b, c))
  {
    ParityEdge(p, c, a, [b, c]);
    ParityEdge(p, a, b, [c]);
    ParityEdge(p, b, c, []);
    assert [c] + [a, b, c] == [c, a] + [b, c] && [a] + [b, c] == [a, b] + [c] && [b] + [c] == [b, c] + [];
    assert Parity(p, [c] + []) == false;
  }

  /** A point left of all three edges is neither above nor below the whole triangle. */
  lemma TriangleSpansHeight(p: Point, a: Point, b: Point, c: Point)
    requires Turn(a, b, p) > 0.0 && Turn(b, c, p) > 0.0 && Turn(c, a, p) > 0.0
    ensures !(a.y > p.y && b.y > p.y && c.y > p.y)
    ensures !(a.y <= p.y && b.y <= p.y && c.y <= p.y)
  {
    var u, v, w := Turn(b, c, p), Turn(c, a, p), Turn(a, b, p);
    TurnsBalance(p, a, b, c);
    if a.y > p.y && b.y > p.y && c.y > p.y {
      WeightedZero(u, v, w, a.y - p.y, b.y - p.y, c.y - p.y);
    }
    if a.y <= p.y && b.y <= p.y && c.y <= p.y {
      WeightedZero(u, v, w, p.y - a.y, p.y - b.y, p.y - c.y);
    }
  }

  lemma WeightedZero(u: real, v: real, w: real, x: real, y: real, z: real)
    requires u > 0.0 && v > 0.0 && w > 0.0 && x >= 0.0 && y >= 0.0 && z >= 0.0
    requires u * x + v * y + w * z == 0.0
    ensures x == 0.0 && y == 0.0 && z == 0.0
  {
    NonNegative(u, x);
    NonNegative(v, y);
    NonNegative(w, z);
  }
}
