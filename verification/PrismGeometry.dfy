/**
 The cross-section of a hexagonal prism: six half-planes in fixed directions 60 degrees apart, in
 exact arithmetic.

 Face i bounds the body by x*cos(60 i) + y*sin(60 i) <= (sqrt(3)/4) * dist[i].  Substituting
 x = sqrt(3)*u/4 and y = v/4 and clearing the common factor leaves
 u * Cos2(i) + v * Sin2(i) <= 2 * dist[i] with small integer coefficients: Cos2 is twice the cosine
 and Sin2 is twice the sine over sqrt(3).  Distances are reals, tolerances are read as exact.
 */
module PrismGeometry {
  import opened Collections
  import opened Reals

  datatype Point = Point(u: real, v: real)

  type Offsets = d: seq<real> | |d| == 6 witness [0.0, 0.0, 0.0, 0.0, 0.0, 0.0]

  type Face = i: int | 0 <= i < 6

  /** Face i + k, counted round the hexagon. */
  function Turn(i: Face, k: Face): Face {
    if i + k < 6 then i + k else i + k - 6
  }

  lemma TurnIsModulo(i: Face, k: Face)
    ensures Turn(i, k) == (i + k) % 6
  {
  }

  function Cos2(i: Face): real {
    if i == 0 then 2.0
    else if i == 1 || i == 5 then 1.0
    else if i == 2 || i == 4 then -1.0
    else -2.0
  }

  function Sin2(i: Face): real {
    if i == 0 || i == 3 then 0.0
    else if i == 1 || i == 2 then 1.0
    else -1.0
  }

  function Cross(ci: real, si: real, cj: real, sj: real): real {
    ci * sj - cj * si
  }

  function Det(i: Face, j: Face): real {
    Cross(Cos2(i), Sin2(i), Cos2(j), Sin2(j))
  }

  /** The point where two lines u * c + v * s == r meet, by Cramer's rule. */
  method Intersect(ci: real, si: real, ri: real, cj: real, sj: real, rj: real) returns (det: real, p: Point)
    requires Cross(ci, si, cj, sj) != 0.0
    ensures det == Cross(ci, si, cj, sj)
    ensures Height(p.u, p.v, ci, si) == ri && Height(p.u, p.v, cj, sj) == rj
  {
    det := Cross(ci, si, cj, sj);
    p := Point((ri * sj - rj * si) / det, (rj * ci - ri * cj) / det);
    assert p.u * det == ri * sj - rj * si && p.v * det == rj * ci - ri * cj;
    assert (p.u * ci + p.v * si) * det == (p.u * det) * ci + (p.v * det) * si == ri * det;
    assert (p.u * cj + p.v * sj) * det == (p.u * det) * cj + (p.v * det) * sj == rj * det;
    Cancel(p.u * ci + p.v * si, ri, det);
    Cancel(p.u * cj + p.v * sj, rj, det);
  }

  lemma Cancel(x: real, y: real, k: real)
    requires x * k == y * k && k != 0.0
    ensures x == y
  {
  }

  /** The position of a point in direction i, times two: its product with the direction (Cos2, Sin2). */
  function Along(p: Point, i: Face): real {
    if i == 0 then 2.0 * p.u
    else if i == 1 then p.u + p.v
    else if i == 2 then p.v - p.u
    else if i == 3 then -2.0 * p.u
    else if i == 4 then -p.u - p.v
    else p.u - p.v
  }

  function Height(u: real, v: real, c: real, s: real): real {
    u * c + v * s
  }

  lemma AlongIsHeight(p: Point, i: Face)
    ensures Along(p, i) == Height(p.u, p.v, Cos2(i), Sin2(i))
  {
  }

  /** Two face lines that meet in one point: distinct and not opposite. */
  predicate Crossing(i: Face, j: Face) {
    i != j && j != i + 3 && i != j + 3
  }

  /** Question Q1 of the benchmark: no non-opposite pair is ill-conditioned. */
  lemma ConstantDeterminant(i: Face, j: Face)
    ensures Crossing(i, j) ==> Abs(Det(i, j)) == 2.0
    ensures !Crossing(i, j) ==> Det(i, j) == 0.0
  {
  }

  ghost predicate Inside(d: Offsets, p: Point) {
    forall m: Face :: Along(p, m) <= 2.0 * d[m]
  }

  ghost predicate StrictlyInside(d: Offsets, p: Point) {
    forall m: Face :: Along(p, m) < 2.0 * d[m]
  }

  ghost predicate OnFace(d: Offsets, i: Face, p: Point) {
    Along(p, i) == 2.0 * d[i]
  }

  /** A corner of the body: a point of the region where two non-opposite face lines meet. */
  ghost predicate IsCorner(d: Offsets, p: Point) {
    Inside(d, p) && exists i: Face, j: Face :: Crossing(i, j) && OnFace(d, i, p) && OnFace(d, j, p)
  }

  /** `cs` lists the corners of the body, each once. */
  ghost predicate ListsCorners(d: Offsets, cs: seq<Point>) {
    Distinct(cs) && forall p :: p in cs <==> IsCorner(d, p)
  }

  // ---- the region in closed form ----

  /** Nonemptiness by linear duality: opposite faces do not cross over and neither do the two triangles. */
  ghost predicate Feasible(d: Offsets) {
    && 0.0 <= d[0] + d[3] && 0.0 <= d[1] + d[4] && 0.0 <= d[2] + d[5]
    && 0.0 <= d[0] + d[2] + d[4] && 0.0 <= d[1] + d[3] + d[5]
  }

  ghost predicate StrictlyFeasible(d: Offsets) {
    && 0.0 < d[0] + d[3] && 0.0 < d[1] + d[4] && 0.0 < d[2] + d[5]
    && 0.0 < d[0] + d[2] + d[4] && 0.0 < d[1] + d[3] + d[5]
  }

  /** Offset k places further round than face i. */
  function At(d: Offsets, i: Face, k: Face): real {
    d[Turn(i, k)]
  }

  /** How far the body really reaches in direction i: face i itself or the vertex its neighbours make. */
  function Reach(d: Offsets, i: Face): real {
    Min(d[i], At(d, i, 1) + At(d, i, 5))
  }

  /** The point where directions i and i+1 take the values a and b; every corner and vertex is an instance. */
  function Meet(i: Face, a: real, b: real): Point {
    if i == 0 then Point(a, 2.0 * b - a)
    else if i == 1 then Point(a - b, a + b)
    else if i == 2 then Point(-b, 2.0 * a - b)
    else if i == 3 then Point(-a, a - 2.0 * b)
    else if i == 4 then Point(b - a, -a - b)
    else Point(b, b - 2.0 * a)
  }

  lemma MeetAlong(i: Face, a: real, b: real)
    ensures Along(Meet(i, a, b), i) == 2.0 * a
    ensures Along(Meet(i, a, b), Turn(i, 1)) == 2.0 * b
    ensures Along(Meet(i, a, b), Turn(i, 2)) == 2.0 * (b - a)
    ensures Along(Meet(i, a, b), Turn(i, 3)) == -2.0 * a
    ensures Along(Meet(i, a, b), Turn(i, 4)) == -2.0 * b
    ensures Along(Meet(i, a, b), Turn(i, 5)) == 2.0 * (a - b)
  {
  }

  lemma MeetUnique(i: Face, p: Point)
    ensures p == Meet(i, Along(p, i) / 2.0, Along(p, Turn(i, 1)) / 2.0)
  {
  }

  /** Where lines i and j meet. */
  function Corner(d: Offsets, i: Face, j: Face): Point
    requires Crossing(i, j)
  {
    if j == Turn(i, 1) then Meet(i, d[i], d[j])
    else if j == Turn(i, 2) then Meet(i, d[i], d[i] + d[j])
    else if j == Turn(i, 4) then Meet(j, d[j], d[j] + d[i])
    else Meet(j, d[j], d[i])
  }

  lemma CornerMeetsBoth(d: Offsets, i: Face, j: Face)
    requires Crossing(i, j)
    ensures OnFace(d, i, Corner(d, i, j)) && OnFace(d, j, Corner(d, i, j))
  {
  }

  lemma OnePoint(p: Point, q: Point, i: Face, j: Face)
    requires Crossing(i, j) && Along(p, i) == Along(q, i) && Along(p, j) == Along(q, j)
    ensures p == q
  {
  }

  lemma TwoLinesOnePoint(d: Offsets, i: Face, j: Face, p: Point)
    requires Crossing(i, j)
    requires OnFace(d, i, p) && OnFace(d, j, p)
    ensures p == Corner(d, i, j)
  {
    CornerMeetsBoth(d, i, j);
    OnePoint(p, Corner(d, i, j), i, j);
  }

  /** The point Cramer's rule finds is the corner. */
  lemma CornerByProducts(d: Offsets, i: Face, j: Face, p: Point)
    requires Crossing(i, j)
    requires Height(p.u, p.v, Cos2(i), Sin2(i)) == 2.0 * d[i] && Height(p.u, p.v, Cos2(j), Sin2(j)) == 2.0 * d[j]
    ensures p == Corner(d, i, j)
  {
    AlongIsHeight(p, i);
    AlongIsHeight(p, j);
    TwoLinesOnePoint(d, i, j, p);
  }

  lemma InsideMeet(d: Offsets, i: Face, a: real, b: real)
    ensures Inside(d, Meet(i, a, b)) <==>
      a <= d[i] && b <= At(d, i, 1) && b - a <= At(d, i, 2) && -a <= At(d, i, 3) && -b <= At(d, i, 4) &&
        a - b <= At(d, i, 5)
  {
    MeetAlong(i, a, b);
    var p := Meet(i, a, b);
    if Inside(d, p) {
      assert Along(p, Turn(i, 1)) <= 2.0 * At(d, i, 1) && Along(p, Turn(i, 2)) <= 2.0 * At(d, i, 2);
      assert Along(p, Turn(i, 3)) <= 2.0 * At(d, i, 3) && Along(p, Turn(i, 4)) <= 2.0 * At(d, i, 4);
      assert Along(p, Turn(i, 5)) <= 2.0 * At(d, i, 5);
    }
  }

  lemma InsideImpliesFeasible(d: Offsets, p: Point)
    ensures Inside(d, p) ==> Feasible(d)
    ensures StrictlyInside(d, p) ==> StrictlyFeasible(d)
  {
    assert Along(p, 0) + Along(p, 3) == Along(p, 1) + Along(p, 4) == Along(p, 2) + Along(p, 5) == 0.0;
    assert Along(p, 0) + Along(p, 2) + Along(p, 4) == Along(p, 1) + Along(p, 3) + Along(p, 5) == 0.0;
  }

  lemma FeasibleAround(d: Offsets, i: Face)
    ensures Feasible(d) ==>
      0.0 <= d[i] + At(d, i, 3) && 0.0 <= At(d, i, 1) + At(d, i, 4) && 0.0 <= At(d, i, 2) + At(d, i, 5)
    ensures Feasible(d) ==> 0.0 <= d[i] + At(d, i, 2) + At(d, i, 4) && 0.0 <= At(d, i, 1) + At(d, i, 3) + At(d, i, 5)
    ensures StrictlyFeasible(d) ==>
      0.0 < d[i] + At(d, i, 3) && 0.0 < At(d, i, 1) + At(d, i, 4) && 0.0 < At(d, i, 2) + At(d, i, 5)
    ensures StrictlyFeasible(d) ==>
      0.0 < d[i] + At(d, i, 2) + At(d, i, 4) && 0.0 < At(d, i, 1) + At(d, i, 3) + At(d, i, 5)
  {
  }

  lemma ReachAround(d: Offsets, i: Face, k: Face)
    ensures Reach(d, Turn(i, k)) == Min(At(d, i, k), At(d, i, Turn(k, 1)) + At(d, i, Turn(k, 5)))
  {
    assert Turn(Turn(i, k), 1) == Turn(i, Turn(k, 1));
    assert Turn(Turn(i, k), 5) == Turn(i, Turn(k, 5));
  }

  /** Vertex i of the region, between directions i and i+1. */
  function Vertex(d: Offsets, i: Face): Point {
    Meet(i, Reach(d, i), Reach(d, Turn(i, 1)))
  }

  lemma VertexForm(d: Offsets, i: Face)
    ensures Vertex(d, i) == Meet(i, Min(d[i], At(d, i, 1) + At(d, i, 5)), Min(At(d, i, 1), d[i] + At(d, i, 2)))
  {
    ReachAround(d, i, 1);
  }

  lemma VertexBounds(x0: real, x1: real, x2: real, x3: real, x4: real, x5: real)
    requires 0.0 <= x0 + x3 && 0.0 <= x1 + x4 && 0.0 <= x2 + x5 && 0.0 <= x0 + x2 + x4 && 0.0 <= x1 + x3 + x5
    ensures
      var a, b := Min(x0, x1 + x5), Min(x1, x0 + x2);
      && a <= x0 && b <= x1 && b - a <= x2 && -a <= x3 && -b <= x4 && a - b <= x5
      && (a == x0 || (b == x1 && a - b == x5)) && (b == x1 || (a == x0 && b - a == x2))
  {
  }

  /** A point of the region on two of the four lines around direction i and i+1 is a corner. */
  lemma MeetIsCorner(d: Offsets, i: Face, a: real, b: real)
    requires a <= d[i] && b <= At(d, i, 1) && b - a <= At(d, i, 2) && -a <= At(d, i, 3) && -b <= At(d, i, 4) &&
      a - b <= At(d, i, 5)
    requires (a == d[i] && (b == At(d, i, 1) || b - a == At(d, i, 2))) || (b == At(d, i, 1) && a - b == At(d, i, 5))
    ensures IsCorner(d, Meet(i, a, b))
  {
    var p := Meet(i, a, b);
    InsideMeet(d, i, a, b);
    MeetAlong(i, a, b);
    if a == d[i] {
      CornerFrom(d, p, i, if b == At(d, i, 1) then Turn(i, 1) else Turn(i, 2));
    } else {
      CornerFrom(d, p, Turn(i, 1), Turn(i, 5));
    }
  }

  lemma VertexIsCorner(d: Offsets, i: Face)
    requires Feasible(d)
    ensures IsCorner(d, Vertex(d, i))
  {
    var a, b := VertexCoordinates(d, i);
    MeetIsCorner(d, i, a, b);
  }

  lemma VertexCoordinates(d: Offsets, i: Face) returns (a: real, b: real)
    requires Feasible(d)
    ensures Vertex(d, i) == Meet(i, a, b)
    ensures a == Min(d[i], At(d, i, 1) + At(d, i, 5)) && b == Min(At(d, i, 1), d[i] + At(d, i, 2))
    ensures a <= d[i] && b <= At(d, i, 1) && b - a <= At(d, i, 2) && -a <= At(d, i, 3) && -b <= At(d, i, 4) &&
      a - b <= At(d, i, 5)
    ensures (a == d[i] && (b == At(d, i, 1) || b - a == At(d, i, 2))) || (b == At(d, i, 1) && a - b == At(d, i, 5))
  {
    FeasibleAround(d, i);
    VertexForm(d, i);
    a, b := Min(d[i], At(d, i, 1) + At(d, i, 5)), Min(At(d, i, 1), d[i] + At(d, i, 2));
    VertexBounds(d[i], At(d, i, 1), At(d, i, 2), At(d, i, 3), At(d, i, 4), At(d, i, 5));
  }

  lemma CornerFrom(d: Offsets, p: Point, i: Face, j: Face)
    requires Inside(d, p) && Crossing(i, j) && OnFace(d, i, p) && OnFace(d, j, p)
    ensures IsCorner(d, p)
  {
  }

  /** A point lying on two lines that cross lies on lines i, i+1 or on lines i, i+2 for some i. */
  lemma CornerLines(d: Offsets, p: Point) returns (i: Face, j: Face)
    requires IsCorner(d, p)
    ensures OnFace(d, i, p) && OnFace(d, j, p) && (j == Turn(i, 1) || j == Turn(i, 2))
  {
    i, j :| Crossing(i, j) && OnFace(d, i, p) && OnFace(d, j, p);
    if j != Turn(i, 1) && j != Turn(i, 2) {
      i, j := j, i;
    }
  }

  lemma CornerIsVertex(d: Offsets, p: Point) returns (i: Face)
    requires IsCorner(d, p)
    ensures Feasible(d) && p == Vertex(d, i)
  {
    InsideImpliesFeasible(d, p);
    var j: Face;
    i, j := CornerLines(d, p);
    var a, b := Coordinates(d, i, p);
    VertexForm(d, i);
    assert a == d[i];
    assert b == At(d, i, 1) || b - a == At(d, i, 2);
  }

  /** A point of the region in the coordinates along directions i and i+1. */
  lemma Coordinates(d: Offsets, i: Face, p: Point) returns (a: real, b: real)
    ensures p == Meet(i, a, b)
    ensures Inside(d, p) <==>
      a <= d[i] && b <= At(d, i, 1) && b - a <= At(d, i, 2) && -a <= At(d, i, 3) && -b <= At(d, i, 4) &&
        a - b <= At(d, i, 5)
    ensures OnFace(d, i, p) <==> a == d[i]
    ensures OnFace(d, Turn(i, 1), p) <==> b == At(d, i, 1)
    ensures OnFace(d, Turn(i, 2), p) <==> b - a == At(d, i, 2)
    ensures OnFace(d, Turn(i, 3), p) <==> -a == At(d, i, 3)
    ensures OnFace(d, Turn(i, 4), p) <==> -b == At(d, i, 4)
    ensures OnFace(d, Turn(i, 5), p) <==> a - b == At(d, i, 5)
  {
    a, b := Along(p, i) / 2.0, Along(p, Turn(i, 1)) / 2.0;
    MeetUnique(i, p);
    MeetAlong(i, a, b);
    InsideMeet(d, i, a, b);
  }

  lemma VertexAlong(d: Offsets, i: Face)
    ensures Along(Vertex(d, i), Turn(i, 1)) == 2.0 * Reach(d, Turn(i, 1))
    ensures Along(Vertex(d, i), Turn(i, 3)) == -2.0 * Reach(d, i)
  {
    MeetAlong(i, Reach(d, i), Reach(d, Turn(i, 1)));
  }

  lemma ReachesOpen(d: Offsets, i: Face)
    requires StrictlyFeasible(d)
    ensures 0.0 < Reach(d, i) + Reach(d, Turn(i, 3))
  {
    var x0, x1, x2, x3, x4, x5 := d[i], At(d, i, 1), At(d, i, 2), At(d, i, 3), At(d, i, 4), At(d, i, 5);
    assert Reach(d, Turn(i, 3)) == Min(x3, x4 + x2) by { ReachAround(d, i, 3); }
    assert 0.0 < x0 + x3 && 0.0 < x1 + x4 && 0.0 < x2 + x5 && 0.0 < x0 + x2 + x4 && 0.0 < x1 + x3 + x5 by {
      FeasibleAround(d, i);
    }
  }

  /** Vertices two apart lie on opposite sides, so a body with an interior has three corners at least. */
  lemma VerticesApart(d: Offsets, i: Face)
    requires StrictlyFeasible(d)
    ensures Vertex(d, i) != Vertex(d, Turn(i, 2))
  {
    assert Turn(Turn(i, 2), 1) == Turn(i, 3);
    VertexAlong(d, i);
    VertexAlong(d, Turn(i, 2));
    ReachesOpen(d, i);
  }

  lemma Opposite(p: Point, i: Face)
    ensures Along(p, Turn(i, 3)) == -Along(p, i)
  {
  }

  /** A vertex lies strictly behind the two faces opposite to its own directions. */
  lemma VertexBehind(d: Offsets, i: Face)
    requires StrictlyFeasible(d)
    ensures Along(Vertex(d, i), Turn(i, 3)) < 2.0 * d[Turn(i, 3)] &&
      Along(Vertex(d, i), Turn(i, 4)) < 2.0 * d[Turn(i, 4)]
  {
    VertexAlong(d, i);
    ReachesOpen(d, i);
    ReachesOpen(d, Turn(i, 1));
    Opposite(Vertex(d, i), Turn(i, 1));
    assert Turn(Turn(i, 1), 3) == Turn(i, 4);
  }

  function Centroid(p: Point, q: Point, r: Point): Point {
    Point((p.u + q.u + r.u) / 3.0, (p.v + q.v + r.v) / 3.0)
  }

  lemma AlongAverage(p: Point, q: Point, r: Point, i: Face)
    ensures 3.0 * Along(Centroid(p, q, r), i) ==
      Along(p, i) + Along(q, i) + Along(r, i)
  {
  }

  /** The centroid of three points of the region is strictly behind a line that one of them is strictly behind. */
  lemma CentroidBehind(d: Offsets, p: Point, q: Point, r: Point, i: Face)
    requires Along(p, i) <= 2.0 * d[i] && Along(q, i) <= 2.0 * d[i] && Along(r, i) <= 2.0 * d[i]
    requires Along(p, i) < 2.0 * d[i] || Along(q, i) < 2.0 * d[i] || Along(r, i) < 2.0 * d[i]
    ensures Along(Centroid(p, q, r), i) < 2.0 * d[i]
  {
    AlongAverage(p, q, r, i);
  }

  lemma CentroidInside(d: Offsets, p: Point, q: Point, r: Point)
    requires Inside(d, p) && Inside(d, q) && Inside(d, r)
    requires Along(p, 3) < 2.0 * d[3] && Along(p, 4) < 2.0 * d[4]
    requires Along(q, 5) < 2.0 * d[5] && Along(q, 0) < 2.0 * d[0]
    requires Along(r, 1) < 2.0 * d[1] && Along(r, 2) < 2.0 * d[2]
    ensures StrictlyInside(d, Centroid(p, q, r))
  {
    forall i: Face ensures Along(Centroid(p, q, r), i) < 2.0 * d[i] {
      CentroidBehind(d, p, q, r, i);
    }
  }

  lemma InteriorPoint(d: Offsets) returns (c: Point)
    requires StrictlyFeasible(d)
    ensures StrictlyInside(d, c)
  {
    var p, q, r := Vertex(d, 0), Vertex(d, 2), Vertex(d, 4);
    VertexIsCorner(d, 0);
    VertexIsCorner(d, 2);
    VertexIsCorner(d, 4);
    VertexBehind(d, 0);
    VertexBehind(d, 2);
    VertexBehind(d, 4);
    CentroidInside(d, p, q, r);
    c := Centroid(p, q, r);
  }
}
