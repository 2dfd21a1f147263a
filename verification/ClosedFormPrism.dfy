/**
 The enumeration itself: intersect every pair of non-opposite face lines, keep what every half-plane
 admits, drop repeats, then count the corners on each line.
 */
module ClosedFormPrism {
  import opened Collections
  import opened Reals
  import opened PrismGeometry
  import opened PrismCorners

  /** Pair (a, b) comes before pair (i, j) in the order of the two nested loops. */
  ghost predicate Before(a: int, b: int, i: int, j: int) {
    a < i || (a == i && b < j)
  }

  /** The corners found once every pair before (i, j) has been tried. */
  ghost predicate Covers(d: Offsets, cs: seq<Point>, i: int, j: int) {
    && Distinct(cs)
    && (forall p :: p in cs ==> IsCorner(d, p))
    && forall a: Face, b: Face {:trigger Corner(d, a, b)} ::
         a < b && Crossing(a, b) && Before(a, b, i, j) && Inside(d, Corner(d, a, b)) ==> Corner(d, a, b) in cs
  }

  ghost predicate Holds(cs: seq<Point>, x: array<real>, y: array<real>, n: nat)
    reads x, y
  {
    |cs| == n && n <= x.Length && n <= y.Length && forall v :: 0 <= v < n ==> cs[v] == Point(x[v], y[v])
  }

  ghost predicate Directions(d: Offsets, cs: array<real>, sn: array<real>, r: array<real>)
    reads cs, sn, r
  {
    && cs.Length == 6 && sn.Length == 6 && r.Length == 6
    && forall m: Face :: cs[m] == Cos2(m) && sn[m] == Sin2(m) && r[m] == 2.0 * d[m]
  }

  lemma CoversAll(d: Offsets, cs: seq<Point>, i: int, j: int)
    requires Covers(d, cs, i, j) && i >= 6
    ensures ListsCorners(d, cs)
  {
    forall p | IsCorner(d, p)
      ensures p in cs
    {
      var a: Face, b: Face :| Crossing(a, b) && OnFace(d, a, p) && OnFace(d, b, p);
      if b < a {
        a, b := b, a;
      }
      TwoLinesOnePoint(d, a, b, p);
    }
  }

  lemma CornerIsCorner(d: Offsets, i: Face, j: Face)
    requires Crossing(i, j) && Inside(d, Corner(d, i, j))
    ensures IsCorner(d, Corner(d, i, j))
  {
    CornerMeetsBoth(d, i, j);
    CornerFrom(d, Corner(d, i, j), i, j);
  }

  lemma CoverNext(d: Offsets, cs: seq<Point>, cs': seq<Point>, i: Face, j: Face)
    requires Covers(d, cs, i, j)
    requires !(i < j && Crossing(i, j)) || !Inside(d, Corner(d, i, j)) || Corner(d, i, j) in cs ==> cs' == cs
    requires i < j && Crossing(i, j) && Inside(d, Corner(d, i, j)) && Corner(d, i, j) !in cs ==>
      cs' == cs + [Corner(d, i, j)]
    ensures Covers(d, cs', i, j + 1)
  {
    if Crossing(i, j) && Inside(d, Corner(d, i, j)) {
      CornerIsCorner(d, i, j);
    }
  }

  method AdmittedByAll(d: Offsets, px: real, py: real, cs: array<real>, sn: array<real>, r: array<real>)
    returns (feasible: bool)
    requires Directions(d, cs, sn, r)
    ensures feasible <==> Inside(d, Point(px, py))
  {
    feasible := true;
    var m := 0;
    while m < 6
      invariant 0 <= m <= 6
      invariant forall k: Face :: k < m ==> Along(Point(px, py), k) <= 2.0 * d[k]
    {
      AlongIsHeight(Point(px, py), m);
      if Height(px, py, cs[m], sn[m]) > r[m] {
        return false;
      }
      m := m + 1;
    }
  }

  method IsDuplicate(p: Point, x: array<real>, y: array<real>, vtxCnt: nat, ghost corners: seq<Point>)
    returns (dup: bool)
    requires Holds(corners, x, y, vtxCnt)
    ensures dup <==> p in corners
  {
    for v := 0 to vtxCnt
      invariant forall w :: 0 <= w < v ==> corners[w] != p
    {
      assert corners[v] == Point(x[v], y[v]);
      if x[v] - p.u == 0.0 && y[v] - p.v == 0.0 {
        return true;
      }
    }
    dup := false;
  }

  /** One turn of the inner loop: intersect lines i and j and record the corner if it is new and admitted. */
  method TryPair(d: Offsets, i: Face, j: Face, x: array<real>, y: array<real>, vtxCnt: nat,
                 cs: array<real>, sn: array<real>, r: array<real>, ghost corners: seq<Point>)
    returns (cnt: nat, det: real, ghost corners': seq<Point>)
    requires i < j && Crossing(i, j) && Directions(d, cs, sn, r)
    requires x.Length == 12 && y.Length == 12 && x != y && x !in {cs, sn, r} && y !in {cs, sn, r}
    requires Holds(corners, x, y, vtxCnt) && Covers(d, corners, i, j)
    modifies x, y
    ensures Holds(corners', x, y, cnt) && Covers(d, corners', i, j + 1)
    ensures Abs(det) == 2.0
  {
    var p: Point;
    ConstantDeterminant(i, j);
    det, p := Intersect(cs[i], sn[i], r[i], cs[j], sn[j], r[j]);
    CornerByProducts(d, i, j, p);
    cnt, corners' := vtxCnt, corners;
    var feasible := AdmittedByAll(d, p.u, p.v, cs, sn, r);
    if feasible {
      var dup := IsDuplicate(p, x, y, vtxCnt, corners);
      AtMostSix(d, corners);
      if !dup && vtxCnt < 12 {
        x[vtxCnt] := p.u;
        y[vtxCnt] := p.v;
        cnt := vtxCnt + 1;
        corners' := corners + [p];
      }
    }
    CoverNext(d, corners, corners', i, j);
  }

  /** How many listed corners lie on line i, as far as the face flag needs to know. */
  method CountOn(d: Offsets, i: Face, x: array<real>, y: array<real>, vtxCnt: nat,
                 cs: array<real>, sn: array<real>, r: array<real>,
                 ghost corners: seq<Point>)
    returns (on: nat)
    requires Holds(corners, x, y, vtxCnt) && Directions(d, cs, sn, r)
    ensures on >= 2 <==> exists a, b :: 0 <= a < b < vtxCnt && OnFace(d, i, corners[a]) && OnFace(d, i, corners[b])
  {
    on := 0;
    ghost var first, second := 0, 0;
    for v := 0 to vtxCnt
      invariant on == 0 ==> forall a :: 0 <= a < v ==> !OnFace(d, i, corners[a])
      invariant on == 1 ==> 0 <= first < v && OnFace(d, i, corners[first])
                            && forall a :: 0 <= a < v && a != first ==> !OnFace(d, i, corners[a])
      invariant on >= 2 ==> 0 <= first < second < v && OnFace(d, i, corners[first]) && OnFace(d, i, corners[second])
    {
      assert corners[v] == Point(x[v], y[v]);
      var height := Height(x[v], y[v], cs[i], sn[i]);
      AlongIsHeight(corners[v], i);
      if Abs(height - r[i]) <= 0.0 {
        if on == 0 {
          first := v;
        } else if on == 1 {
          second := v;
        }
        on := on + 1;
      }
    }
  }

  method FillDirections(dist: Offsets) returns (cs: array<real>, sn: array<real>, r: array<real>)
    ensures fresh(cs) && fresh(sn) && fresh(r) && Directions(dist, cs, sn, r)
  {
    cs, sn, r := new real[6], new real[6], new real[6];
    for i := 0 to 6
      invariant forall m: Face :: m < i ==> cs[m] == Cos2(m) && sn[m] == Sin2(m) && r[m] == 2.0 * dist[m]
    {
      cs[i], sn[i], r[i] := Cos2(i), Sin2(i), 2.0 * dist[i];
    }
  }

  method EnumerateCorners(dist: Offsets, x: array<real>, y: array<real>, cs: array<real>, sn: array<real>,
    r: array<real>)
    returns (vtxCnt: nat, minAbsDet: real, ghost corners: seq<Point>)
    requires x.Length == 12 && y.Length == 12 && x != y && x !in {cs, sn, r} && y !in {cs, sn, r}
    requires Directions(dist, cs, sn, r)
    modifies x, y
    ensures Holds(corners, x, y, vtxCnt) && ListsCorners(dist, corners) && minAbsDet == 2.0
  {
    vtxCnt, corners := 0, [];
    // Stands for the largest double: anything above 2 does.
    minAbsDet := 1000000.0;
    for i := 0 to 6
      invariant Holds(corners, x, y, vtxCnt) && Covers(dist, corners, i, 0)
      invariant minAbsDet == if i == 0 then 1000000.0 else 2.0
    {
      for j := i + 1 to 6
        invariant Holds(corners, x, y, vtxCnt) && Covers(dist, corners, i, j)
        invariant minAbsDet == if i == 0 && j == 1 then 1000000.0 else 2.0
      {
        if j == i + 3 {
          CoverNext(dist, corners, corners, i, j);
          continue;
        }
        var det;
        vtxCnt, det, corners := TryPair(dist, i, j, x, y, vtxCnt, cs, sn, r, corners);
        minAbsDet := Min(minAbsDet, Abs(det));
      }
    }
    CoversAll(dist, corners, 6, 0);
  }

  method FillFaces(dist: Offsets, facePresent: array<bool>, x: array<real>, y: array<real>, vtxCnt: nat,
                   cs: array<real>, sn: array<real>, r: array<real>, ghost corners: seq<Point>)
    requires facePresent.Length == 6
    requires Holds(corners, x, y, vtxCnt) && ListsCorners(dist, corners) && Directions(dist, cs, sn, r)
    modifies facePresent
    ensures forall i: Face :: facePresent[i] <==> FacePresent(dist, i)
  {
    for i := 0 to 6
      invariant forall k: Face :: k < i ==> (facePresent[k] <==> FacePresent(dist, k))
    {
      var on := CountOn(dist, i, x, y, vtxCnt, cs, sn, r, corners);
      FaceFlagIff(dist, i, corners);
      facePresent[i] := on >= 2;
    }
  }

  method ClosedFormPrism(dist: Offsets)
    returns (x: array<real>, y: array<real>, vtxCnt: nat, facePresent: array<bool>, minAbsDet: real)
    ensures x.Length == 12 && y.Length == 12 && facePresent.Length == 6
    ensures vtxCnt <= 6 && minAbsDet == 2.0
    ensures ListsCorners(dist, seq(vtxCnt, v requires 0 <= v < vtxCnt reads x, y => Point(x[v], y[v])))
    ensures forall i: Face :: facePresent[i] <==> FacePresent(dist, i)
  {
    x, y, facePresent := new real[12], new real[12], new bool[6];
    var cs, sn, r := FillDirections(dist);
    ghost var corners;
    vtxCnt, minAbsDet, corners := EnumerateCorners(dist, x, y, cs, sn, r);
    AtMostSix(dist, corners);
    FillFaces(dist, facePresent, x, y, vtxCnt, cs, sn, r, corners);
    assert corners == seq(vtxCnt, v requires 0 <= v < vtxCnt reads x, y => Point(x[v], y[v]));
  }
}
