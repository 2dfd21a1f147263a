/**
 What the corner list and the face flags of a prism cross-section mean: how many corners there are,
 when they span a solid, and when a face really bounds it.
 */
module PrismCorners {
  import opened Collections
  import opened Reals
  import opened PrismGeometry

  // ---- faces ----

  /** Where the region leaves line i: the coordinate along direction i+1 runs from Lo to Hi. */
  function Lo(d: Offsets, i: Face): real {
    Max(d[i] - At(d, i, 5), -At(d, i, 4))
  }

  function Hi(d: Offsets, i: Face): real {
    Min(At(d, i, 1), d[i] + At(d, i, 2))
  }

  /** Face i bounds the body: two distinct points of the region lie on its line. */
  ghost predicate FacePresent(d: Offsets, i: Face) {
    exists p, q :: p != q && Inside(d, p) && Inside(d, q) && OnFace(d, i, p) && OnFace(d, i, q)
  }

  /** The same as linear inequalities on the six offsets. */
  ghost predicate PresentForm(d: Offsets, i: Face) {
    && d[i] < At(d, i, 1) + At(d, i, 5)
    && 0.0 < At(d, i, 2) + At(d, i, 5)
    && 0.0 < At(d, i, 1) + At(d, i, 4)
    && 0.0 < d[i] + At(d, i, 2) + At(d, i, 4)
    && 0.0 <= d[i] + At(d, i, 3)
  }

  lemma MeetDistinct(i: Face, a: real, b: real, c: real)
    ensures b != c ==> Meet(i, a, b) != Meet(i, a, c)
  {
  }

  lemma FacePresentIff(d: Offsets, i: Face)
    ensures FacePresent(d, i) <==> PresentForm(d, i)
  {
    if FacePresent(d, i) {
      var p, q :| p != q && Inside(d, p) && Inside(d, q) && OnFace(d, i, p) && OnFace(d, i, q);
      var a, b := Coordinates(d, i, p);
      var a', b' := Coordinates(d, i, q);
      assert b != b';
    }
    if PresentForm(d, i) {
      var p, q := FaceEnds(d, i);
    }
  }

  /** A present face carries two distinct corners of the body. */
  lemma FaceEnds(d: Offsets, i: Face) returns (p: Point, q: Point)
    requires PresentForm(d, i)
    ensures p != q && IsCorner(d, p) && IsCorner(d, q) && OnFace(d, i, p) && OnFace(d, i, q)
  {
    p, q := Meet(i, d[i], Lo(d, i)), Meet(i, d[i], Hi(d, i));
    MeetDistinct(i, d[i], Lo(d, i), Hi(d, i));
    EndIsCorner(d, i, Lo(d, i));
    EndIsCorner(d, i, Hi(d, i));
  }

  lemma EndIsCorner(d: Offsets, i: Face, b: real)
    requires 0.0 <= d[i] + At(d, i, 3) && Lo(d, i) <= Hi(d, i)
    requires b == Lo(d, i) || b == Hi(d, i)
    ensures var p := Meet(i, d[i], b); IsCorner(d, p) && OnFace(d, i, p)
  {
    var a := d[i];
    var p := Meet(i, a, b);
    InsideMeet(d, i, a, b);
    MeetAlong(i, a, b);
    if b == At(d, i, 1) {
      CornerFrom(d, p, i, Turn(i, 1));
    } else if b - a == At(d, i, 2) {
      CornerFrom(d, p, i, Turn(i, 2));
    } else if -b == At(d, i, 4) {
      CornerFrom(d, p, i, Turn(i, 4));
    } else {
      CornerFrom(d, p, i, Turn(i, 5));
    }
  }

  lemma CornerOnLine(d: Offsets, i: Face, p: Point)
    requires IsCorner(d, p) && OnFace(d, i, p)
    ensures OnFace(d, Turn(i, 1), p) || OnFace(d, Turn(i, 2), p) || OnFace(d, Turn(i, 4), p) || OnFace(d, Turn(i, 5), p)
  {
    var k: Face, j: Face :| Crossing(k, j) && OnFace(d, k, p) && OnFace(d, j, p);
    var other := if k != i && k != Turn(i, 3) then k else j;
    assert other == Turn(i, 1) || other == Turn(i, 2) || other == Turn(i, 4) || other == Turn(i, 5);
  }

  lemma EndValue(x0: real, x1: real, x2: real, x4: real, x5: real, b: real)
    requires b <= x1 && b - x0 <= x2 && -b <= x4 && x0 - b <= x5
    requires b == x1 || b - x0 == x2 || -b == x4 || x0 - b == x5
    ensures b == Max(x0 - x5, -x4) || b == Min(x1, x0 + x2)
  {
  }

  lemma CornerEnds(d: Offsets, i: Face, p: Point) returns (b: real)
    requires IsCorner(d, p) && OnFace(d, i, p)
    ensures p == Meet(i, d[i], b)
    ensures b == Lo(d, i) || b == Hi(d, i)
  {
    var a;
    a, b := Coordinates(d, i, p);
    CornerOnLine(d, i, p);
    EndValue(a, At(d, i, 1), At(d, i, 2), At(d, i, 4), At(d, i, 5), b);
  }

  /** Only the two ends of the edge can be corners on line i. */
  lemma CornersOnFace(d: Offsets, i: Face, p: Point)
    requires IsCorner(d, p) && OnFace(d, i, p)
    ensures p == Meet(i, d[i], Lo(d, i)) || p == Meet(i, d[i], Hi(d, i))
  {
    var b := CornerEnds(d, i, p);
  }

  // ---- how many corners ----

  function Vertices(d: Offsets): set<Point> {
    {Vertex(d, 0), Vertex(d, 1), Vertex(d, 2), Vertex(d, 3), Vertex(d, 4), Vertex(d, 5)}
  }

  lemma CornersAreVertices(d: Offsets, cs: seq<Point>)
    requires forall p :: p in cs ==> IsCorner(d, p)
    ensures Elements(cs) <= Vertices(d)
  {
    forall p | p in cs
      ensures p in Vertices(d)
    {
      var i := CornerIsVertex(d, p);
      VertexListed(d, i);
    }
  }

  lemma VertexListed(d: Offsets, i: Face)
    ensures Vertex(d, i) in Vertices(d)
  {
    assert i == 0 || i == 1 || i == 2 || i == 3 || i == 4 || i == 5;
  }

  /** A list of distinct corners never needs more than six entries. */
  lemma AtMostSix(d: Offsets, cs: seq<Point>)
    requires Distinct(cs) && forall p :: p in cs ==> IsCorner(d, p)
    ensures |cs| <= 6
  {
    CornersAreVertices(d, cs);
    DistinctCount(cs);
    SubsetSize(Elements(cs), Vertices(d));
  }

  lemma ThreeDistinct(cs: seq<Point>, p: Point, q: Point, r: Point)
    requires Distinct(cs) && p in cs && q in cs && r in cs && p != q && q != r && p != r
    ensures |cs| >= 3
  {
    DistinctCount(cs);
    SubsetSize({p, q, r}, Elements(cs));
  }

  lemma NoThree(cs: seq<Point>, p: Point, q: Point)
    requires Distinct(cs) && forall c :: c in cs ==> c == p || c == q
    ensures |cs| <= 2
  {
    DistinctCount(cs);
    SubsetSize(Elements(cs), {p, q});
  }

  /** Opposite faces that touch flatten the body to a segment. */
  lemma FlatBody(d: Offsets, i: Face, cs: seq<Point>)
    requires ListsCorners(d, cs) && d[i] + At(d, i, 3) <= 0.0
    ensures |cs| <= 2
  {
    forall c | c in cs
      ensures c == Meet(i, d[i], Lo(d, i)) || c == Meet(i, d[i], Hi(d, i))
    {
      var a, b := Coordinates(d, i, c);
      CornersOnFace(d, i, c);
    }
    NoThree(cs, Meet(i, d[i], Lo(d, i)), Meet(i, d[i], Hi(d, i)));
  }

  /** Three alternate faces that meet shrink the body to a point. */
  lemma PointBody(d: Offsets, i: Face, cs: seq<Point>)
    requires ListsCorners(d, cs) && d[i] + At(d, i, 2) + At(d, i, 4) <= 0.0
    ensures |cs| <= 2
  {
    forall c | c in cs
      ensures c == Meet(i, d[i], -At(d, i, 4))
    {
      var a, b := Coordinates(d, i, c);
    }
    NoThree(cs, Meet(i, d[i], -At(d, i, 4)), Meet(i, d[i], -At(d, i, 4)));
  }

  /** The corner count tells a solid from a degenerate body, in both directions. */
  lemma ThreeCornersIffSolid(d: Offsets, cs: seq<Point>)
    requires ListsCorners(d, cs)
    ensures |cs| >= 3 <==> exists p :: StrictlyInside(d, p)
    ensures |cs| >= 3 <==> StrictlyFeasible(d)
    ensures |cs| >= 1 <==> exists p :: Inside(d, p)
  {
    if StrictlyFeasible(d) {
      var c := InteriorPoint(d);
      SolidHasThree(d, cs);
    } else {
      Degenerate(d, cs);
    }
    if exists p :: StrictlyInside(d, p) {
      var p :| StrictlyInside(d, p);
      InsideImpliesFeasible(d, p);
    }
    if exists p :: Inside(d, p) {
      var p :| Inside(d, p);
      InsideImpliesFeasible(d, p);
      VertexIsCorner(d, 0);
      assert Vertex(d, 0) in cs;
    }
    if cs != [] {
      assert cs[0] in cs;
    }
  }

  lemma SolidHasThree(d: Offsets, cs: seq<Point>)
    requires ListsCorners(d, cs) && StrictlyFeasible(d)
    ensures |cs| >= 3
  {
    var p, q, r := CornerTriple(d, 0);
    ThreeDistinct(cs, p, q, r);
  }

  lemma CornerTriple(d: Offsets, i: Face) returns (p: Point, q: Point, r: Point)
    requires StrictlyFeasible(d)
    ensures IsCorner(d, p) && IsCorner(d, q) && IsCorner(d, r) && p != q && q != r && p != r
  {
    var j: Face, k: Face := Turn(i, 2), Turn(i, 4);
    assert Turn(j, 2) == k && Turn(k, 2) == i;
    p := CornerAt(d, i);
    q := CornerAt(d, j);
    r := CornerAt(d, k);
    VerticesApart(d, i);
    VerticesApart(d, j);
    VerticesApart(d, k);
  }

  lemma CornerAt(d: Offsets, i: Face) returns (p: Point)
    requires Feasible(d)
    ensures p == Vertex(d, i) && IsCorner(d, p)
  {
    p := Vertex(d, i);
    VertexIsCorner(d, i);
  }

  lemma Degenerate(d: Offsets, cs: seq<Point>)
    requires ListsCorners(d, cs) && !StrictlyFeasible(d)
    ensures |cs| <= 2
  {
    if d[0] + d[3] <= 0.0 {
      FlatBody(d, 0, cs);
    } else if d[1] + d[4] <= 0.0 {
      FlatBody(d, 1, cs);
    } else if d[2] + d[5] <= 0.0 {
      FlatBody(d, 2, cs);
    } else if d[0] + d[2] + d[4] <= 0.0 {
      PointBody(d, 0, cs);
    } else {
      PointBody(d, 1, cs);
    }
  }

  /** Two listed corners on a line are enough for a face, and a present face has them. */
  lemma FaceFlagIff(d: Offsets, i: Face, cs: seq<Point>)
    requires ListsCorners(d, cs)
    ensures FacePresent(d, i) <==> exists a, b :: 0 <= a < b < |cs| && OnFace(d, i, cs[a]) && OnFace(d, i, cs[b])
  {
    FacePresentIff(d, i);
    if FacePresent(d, i) {
      var p, q := FaceEnds(d, i);
      var a :| 0 <= a < |cs| && cs[a] == p;
      var b :| 0 <= b < |cs| && cs[b] == q;
      assert a < b || b < a;
    }
    if exists a, b :: 0 <= a < b < |cs| && OnFace(d, i, cs[a]) && OnFace(d, i, cs[b]) {
      var a, b :| 0 <= a < b < |cs| && OnFace(d, i, cs[a]) && OnFace(d, i, cs[b]);
      assert cs[a] in cs && cs[b] in cs && cs[a] != cs[b];
    }
  }
}
