/**
 The three-part verdict on a cached polyhedron topology: no cached vertex cut off by a plane, none on
 a plane that is not its own, no two merged.  Then what that verdict amounts to on the hexagonal
 prism, tolerances included.
 */
module CacheVerdict {
  import opened Reals
  import opened Vectors
  import opened PrismGeometry
  import opened PrismCorners
  import opened PrismReuse

  /** The half-space a*x + b*y + c*z + d <= 0. */
  datatype Plane = Plane(a: real, b: real, c: real, d: real)

  /** The three planes a cached vertex is re-solved from. */
  datatype Triple = Triple(p: nat, q: nat, r: nat)

  predicate Incident(t: Triple, k: nat) {
    k == t.p || k == t.q || k == t.r
  }

  function Signed(pl: Plane, v: Vec): real {
    pl.a * v.x + pl.b * v.y + pl.c * v.z + pl.d
  }

  /** The squared length of a plane's normal. */
  function NormalSq(pl: Plane): real {
    pl.a * pl.a + pl.b * pl.b + pl.c * pl.c
  }

  function DistanceSq(v: Vec, w: Vec): real {
    (v.x - w.x) * (v.x - w.x) + (v.y - w.y) * (v.y - w.y) + (v.z - w.z) * (v.z - w.z)
  }

  ghost predicate NoneCutOff(planes: seq<Plane>, pos: seq<Vec>, eps: real) {
    forall v, k :: 0 <= v < |pos| && 0 <= k < |planes| ==> Signed(planes[k], pos[v]) <= eps
  }

  ghost predicate NoneConcurrent(planes: seq<Plane>, triples: seq<Triple>, pos: seq<Vec>, eps: real)
    requires |triples| == |pos|
  {
    forall v, k :: 0 <= v < |pos| && 0 <= k < |planes| && !Incident(triples[v], k) ==> Signed(planes[k], pos[v]) <= -eps
  }

  ghost predicate NoneMerged(pos: seq<Vec>, mergeSq: real) {
    forall v, w :: 0 <= v < w < |pos| ==> mergeSq <= DistanceSq(pos[v], pos[w])
  }

  ghost predicate Accepts(planes: seq<Plane>, triples: seq<Triple>, pos: seq<Vec>, eps: real, mergeSq: real)
    requires |triples| == |pos|
  {
    NoneCutOff(planes, pos, eps) && NoneConcurrent(planes, triples, pos, eps) && NoneMerged(pos, mergeSq)
  }

  ghost predicate Clean(planes: seq<Plane>, t: Triple, p: Vec, eps: real) {
    forall k :: 0 <= k < |planes| ==> Signed(planes[k], p) <= eps && (!Incident(t, k) ==> Signed(planes[k], p) <= -eps)
  }

  method TestVertex(planes: seq<Plane>, t: Triple, p: Vec, eps: real) returns (valid: bool)
    ensures valid <==> Clean(planes, t, p, eps)
  {
    for k := 0 to |planes|
      invariant forall j :: 0 <= j < k ==>
        Signed(planes[j], p) <= eps && (!Incident(t, j) ==> Signed(planes[j], p) <= -eps)
    {
      var sd := Signed(planes[k], p);
      if sd > eps {
        return false;
      }
      if !Incident(t, k) && sd > -eps {
        return false;
      }
    }
    valid := true;
  }

  method TestMerged(pos: seq<Vec>, mergeSq: real) returns (valid: bool)
    ensures valid <==> NoneMerged(pos, mergeSq)
  {
    for a := 0 to |pos|
      invariant forall v, w :: 0 <= v < a && v < w < |pos| ==> mergeSq <= DistanceSq(pos[v], pos[w])
    {
      for b := a + 1 to |pos|
        invariant forall w :: a < w < b ==> mergeSq <= DistanceSq(pos[a], pos[w])
      {
        if DistanceSq(pos[a], pos[b]) < mergeSq {
          return false;
        }
      }
    }
    valid := true;
  }

  method Verdict(planes: seq<Plane>, triples: seq<Triple>, pos: seq<Vec>, eps: real, mergeSq: real)
    returns (valid: bool)
    requires |triples| == |pos|
    ensures valid <==> Accepts(planes, triples, pos, eps, mergeSq)
  {
    valid := true;
    var v := 0;
    while v < |pos| && valid
      invariant 0 <= v <= |pos|
      invariant valid ==> forall w :: 0 <= w < v ==> Clean(planes, triples[w], pos[w], eps)
      invariant !valid ==> exists w :: 0 <= w < |pos| && !Clean(planes, triples[w], pos[w], eps)
    {
      valid := TestVertex(planes, triples[v], pos[v], eps);
      v := v + 1;
    }
    CleanIff(planes, triples, pos, eps);
    if valid {
      valid := TestMerged(pos, mergeSq);
    }
  }

  lemma CleanIff(planes: seq<Plane>, triples: seq<Triple>, pos: seq<Vec>, eps: real)
    requires |triples| == |pos|
    ensures (forall w :: 0 <= w < |pos| ==> Clean(planes, triples[w], pos[w], eps))
       <==> NoneCutOff(planes, pos, eps) && NoneConcurrent(planes, triples, pos, eps)
  {
    if forall w :: 0 <= w < |pos| ==> Clean(planes, triples[w], pos[w], eps) {
      forall v, k | 0 <= v < |pos| && 0 <= k < |planes|
        ensures Signed(planes[k], pos[v]) <= eps && (!Incident(triples[v], k) ==> Signed(planes[k], pos[v]) <= -eps)
      {
        assert Clean(planes, triples[v], pos[v], eps);
      }
    }
  }

  // ---- the coincidence clause ----

  lemma CauchySchwarz(a: real, b: real, c: real, x: real, y: real, z: real) returns (t: real, n: real, s: real)
    ensures t == a * x + b * y + c * z && n == a * a + b * b + c * c && s == x * x + y * y + z * z
    ensures t * t <= n * s && 0.0 <= s
  {
    t, n, s := a * x + b * y + c * z, a * a + b * b + c * c, x * x + y * y + z * z;
    var p, q, r := a * y - b * x, a * z - c * x, b * z - c * y;
    assert n * s == t * t + p * p + q * q + r * r;
  }

  lemma Square(x: real, eps: real)
    requires 0.0 <= eps <= x
    ensures eps * eps <= x * x
  {
  }

  lemma StepAcross(pl: Plane, v: Vec, w: Vec) returns (t: real, n: real, s: real)
    requires NormalSq(pl) <= 1.0
    ensures t == Signed(pl, v) - Signed(pl, w) && s == DistanceSq(v, w)
    ensures n <= 1.0 && 0.0 <= s && t * t <= n * s
  {
    t, n, s := CauchySchwarz(pl.a, pl.b, pl.c, v.x - w.x, v.y - w.y, v.z - w.z);
  }

  lemma Spread(t: real, n: real, s: real, eps: real)
    requires t * t <= n * s && n <= 1.0 && 0.0 <= s && 0.0 <= eps <= t
    ensures eps * eps <= s
  {
    Square(t, eps);
    ScaleDown(n, s);
  }

  lemma ApartBy(pl: Plane, v: Vec, w: Vec, eps: real)
    requires NormalSq(pl) <= 1.0
    requires 0.0 <= eps && Signed(pl, v) == 0.0 && Signed(pl, w) <= -eps
    ensures eps * eps <= DistanceSq(v, w)
  {
    var t, n, s := StepAcross(pl, v, w);
    Spread(t, n, s, eps);
  }

  lemma ScaleDown(n: real, s: real)
    requires n <= 1.0 && 0.0 <= s
    ensures n * s <= s
  {
  }

  ghost predicate Separated(planeCnt: nat, t: Triple, u: Triple) {
    exists k :: 0 <= k < planeCnt && Incident(t, k) && !Incident(u, k)
  }

  /** Vertices re-solved on their own planes, with different triples and normals no longer than one. */
  ghost predicate WellSolved(planes: seq<Plane>, triples: seq<Triple>, pos: seq<Vec>)
    requires |triples| == |pos|
  {
    && (forall k :: 0 <= k < |planes| ==> NormalSq(planes[k]) <= 1.0)
    && (forall v, k :: 0 <= v < |pos| && 0 <= k < |planes| && Incident(triples[v], k) ==>
      Signed(planes[k], pos[v]) == 0.0)
    && (forall v, w :: 0 <= v < w < |pos| ==> Separated(|planes|, triples[v], triples[w]))
  }

  /** At the benchmark's pair of tolerances the concurrency clause already implies the coincidence clause. */
  lemma CoincidenceIsRedundant(planes: seq<Plane>, triples: seq<Triple>, pos: seq<Vec>, eps: real)
    requires |triples| == |pos| && 0.0 <= eps && WellSolved(planes, triples, pos)
    ensures NoneConcurrent(planes, triples, pos, eps) ==> NoneMerged(pos, eps * eps)
    ensures NoneConcurrent(planes, triples, pos, eps) <==> Accepts(planes, triples, pos, eps, eps * eps)
  {
    if NoneConcurrent(planes, triples, pos, eps) {
      forall v, w | 0 <= v < w < |pos|
        ensures eps * eps <= DistanceSq(pos[v], pos[w])
      {
        assert Separated(|planes|, triples[v], triples[w]);
        var k :| 0 <= k < |planes| && Incident(triples[v], k) && !Incident(triples[w], k);
        ApartBy(planes[k], pos[v], pos[w], eps);
      }
      forall v, k | 0 <= v < |pos| && 0 <= k < |planes|
        ensures Signed(planes[k], pos[v]) <= eps
      {
      }
    }
  }

  // ---- the hexagonal prism ----

  /** Face i of a prism as a plane; `root3` is the square root of three. */
  function Side(d: Offsets, root3: real, i: Face): Plane {
    Plane(Cos2(i) / 4.0, root3 * Sin2(i) / 4.0, 0.0, -d[i] * root3 / 8.0)
  }

  /** The upper basal plane at height top, the lower at -low, and the six faces. */
  function PrismPlanes(d: Offsets, top: real, low: real, root3: real): (planes: seq<Plane>)
    ensures |planes| == 8
  {
    [Plane(0.0, 0.0, 1.0, -top), Plane(0.0, 0.0, -1.0, -low),
     Side(d, root3, 0), Side(d, root3, 1), Side(d, root3, 2), Side(d, root3, 3), Side(d, root3, 4), Side(d, root3, 5)]
  }

  function Lift(p: Point, z: real, root3: real): Vec {
    Vec(root3 * p.u / 4.0, p.v / 4.0, z)
  }

  /** Vertex v of the twelve: cached corner v % 6, on the upper basal plane for v < 6 and on the lower otherwise. */
  function PrismVertex(d: Offsets, top: real, low: real, root3: real, v: int): Vec
    requires 0 <= v < 12
  {
    if v < 6 then Lift(Cached(d, v), top, root3) else Lift(Cached(d, v - 6), -low, root3)
  }

  function PrismTriple(v: int): Triple
    requires 0 <= v < 12
  {
    if v < 6 then Triple(0, 2 + v, 2 + Turn(v, 1)) else Triple(1, 2 + (v - 6), 2 + Turn(v - 6, 1))
  }

  function PrismVertices(d: Offsets, top: real, low: real, root3: real): seq<Vec> {
    seq(12, v requires 0 <= v < 12 => PrismVertex(d, top, low, root3, v))
  }

  function PrismTriples(): seq<Triple> {
    seq(12, v requires 0 <= v < 12 => PrismTriple(v))
  }

  /** The distance of a point from face i, in the plane's own scale. */
  lemma SideSigned(d: Offsets, root3: real, p: Point, z: real, i: Face)
    ensures Signed(Side(d, root3, i), Lift(p, z, root3)) == root3 / 16.0 * (Along(p, i) - 2.0 * d[i])
  {
    AlongIsHeight(p, i);
    var c, s := Cos2(i), Sin2(i);
    assert c / 4.0 * (root3 * p.u / 4.0) == root3 / 16.0 * (p.u * c);
    assert root3 * s / 4.0 * (p.v / 4.0) == root3 / 16.0 * (p.v * s);
  }

  lemma SideNormal(d: Offsets, root3: real, i: Face)
    requires root3 * root3 == 3.0
    ensures NormalSq(Side(d, root3, i)) == 0.25
  {
    var s := Sin2(i);
    assert root3 * s / 4.0 * (root3 * s / 4.0) == root3 * root3 * (s * s) / 16.0;
  }

  /** A gap as the distance the plane equations measure. */
  function Margin(root3: real, x: real): real {
    root3 / 8.0 * x
  }

  lemma MarginAdds(root3: real, x: real, y: real)
    ensures Margin(root3, x + y) == Margin(root3, x) + Margin(root3, y)
    ensures Margin(root3, -x) == -Margin(root3, x)
  {
  }

  /** How far a cached corner stays behind each of the six faces, in gaps. */
  lemma CachedDepths(d: Offsets, i: Face)
    ensures var p := Cached(d, i);
      && Along(p, i) - 2.0 * d[i] == 0.0
      && Along(p, Turn(i, 1)) - 2.0 * d[Turn(i, 1)] == 0.0
      && Along(p, Turn(i, 2)) - 2.0 * d[Turn(i, 2)] == -2.0 * Gap(d, Turn(i, 1))
      && Along(p, Turn(i, 3)) - 2.0 * d[Turn(i, 3)] == -2.0 * (Gap(d, Turn(i, 1)) + Gap(d, Turn(i, 2)))
      && Along(p, Turn(i, 4)) - 2.0 * d[Turn(i, 4)] == -2.0 * (Gap(d, Turn(i, 2)) + Gap(d, Turn(i, 3)))
      && Along(p, Turn(i, 5)) - 2.0 * d[Turn(i, 5)] == -2.0 * Gap(d, i)
  {
    CachedMeet(d, i);
    MeetAlong(i, d[i], At(d, i, 1));
    GapAround(d, i);
  }

  lemma DepthIsMargin(d: Offsets, root3: real, p: Point, z: real, m: Face, gap: real)
    requires Along(p, m) - 2.0 * d[m] == -2.0 * gap
    ensures Signed(Side(d, root3, m), Lift(p, z, root3)) == -Margin(root3, gap)
  {
    SideSigned(d, root3, p, z, m);
    assert root3 / 16.0 * (-2.0 * gap) == -(root3 / 8.0 * gap);
  }

  /** The gap, or the sum of two, that keeps cached corner i off face m. */
  function Slack(d: Offsets, i: Face, m: Face): real {
    if m == i || m == Turn(i, 1) then 0.0
    else if m == Turn(i, 2) then Gap(d, Turn(i, 1))
    else if m == Turn(i, 3) then Gap(d, Turn(i, 1)) + Gap(d, Turn(i, 2))
    else if m == Turn(i, 4) then Gap(d, Turn(i, 2)) + Gap(d, Turn(i, 3))
    else Gap(d, i)
  }

  lemma SideOfCached(d: Offsets, root3: real, i: Face, m: Face, z: real)
    ensures Signed(Side(d, root3, m), Lift(Cached(d, i), z, root3)) == -Margin(root3, Slack(d, i, m))
  {
    CachedDepths(d, i);
    FaceAround(i, m);
    DepthIsMargin(d, root3, Cached(d, i), z, m, Slack(d, i, m));
  }

  /** Every gap of the hexagon, and its height, clears the tolerance. */
  ghost predicate Clear(d: Offsets, top: real, low: real, root3: real, eps: real) {
    eps <= top + low && forall i: Face :: eps <= Margin(root3, Gap(d, i))
  }

  lemma SlackClears(d: Offsets, top: real, low: real, root3: real, eps: real, i: Face, m: Face)
    requires 0.0 <= eps && Clear(d, top, low, root3, eps) && m != i && m != Turn(i, 1)
    ensures eps <= Margin(root3, Slack(d, i, m))
  {
    FaceAround(i, m);
    MarginAdds(root3, Gap(d, Turn(i, 1)), Gap(d, Turn(i, 2)));
    MarginAdds(root3, Gap(d, Turn(i, 2)), Gap(d, Turn(i, 3)));
    assert eps <= Margin(root3, Gap(d, Turn(i, 1))) && eps <= Margin(root3, Gap(d, Turn(i, 2)));
    assert eps <= Margin(root3, Gap(d, Turn(i, 3))) && eps <= Margin(root3, Gap(d, i));
  }

  lemma PrismSigned(d: Offsets, top: real, low: real, root3: real, v: int, k: int)
    requires 0 <= v < 12 && 0 <= k < 8
    ensures Signed(PrismPlanes(d, top, low, root3)[k], PrismVertices(d, top, low, root3)[v]) ==
      if k == 0 then (if v < 6 then 0.0 else -(top + low))
      else if k == 1 then (if v < 6 then -(top + low) else 0.0)
      else -Margin(root3, Slack(d, v % 6, k - 2))
  {
    if k >= 2 {
      assert PrismPlanes(d, top, low, root3)[k] == Side(d, root3, k - 2);
      assert v % 6 == if v < 6 then v else v - 6;
      SideOfCached(d, root3, v % 6, k - 2, if v < 6 then top else -low);
    }
  }

  lemma PrismIncident(v: int, k: int)
    requires 0 <= v < 12 && 0 <= k < 8
    ensures Incident(PrismTriples()[v], k) <==>
      if k == 0 then v < 6 else if k == 1 then v >= 6 else k - 2 == v % 6 || k - 2 == Turn(v % 6, 1)
  {
    assert v % 6 == if v < 6 then v else v - 6;
  }

  lemma PrismNormals(d: Offsets, top: real, low: real, root3: real, k: int)
    requires root3 * root3 == 3.0 && 0 <= k < 8
    ensures NormalSq(PrismPlanes(d, top, low, root3)[k]) <= 1.0
  {
    if k >= 2 {
      assert PrismPlanes(d, top, low, root3)[k] == Side(d, root3, k - 2);
      SideNormal(d, root3, k - 2);
    }
  }

  lemma PrismSolved(d: Offsets, top: real, low: real, root3: real, v: int, k: int)
    requires 0 <= v < 12 && 0 <= k < 8 && Incident(PrismTriples()[v], k)
    ensures Signed(PrismPlanes(d, top, low, root3)[k], PrismVertices(d, top, low, root3)[v]) == 0.0
  {
    PrismSigned(d, top, low, root3, v, k);
    PrismIncident(v, k);
  }

  lemma PrismSeparated(v: int, w: int)
    requires 0 <= v < w < 12
    ensures Separated(8, PrismTriples()[v], PrismTriples()[w])
  {
    var k := SeparatingPlane(v, w);
  }

  lemma PrismWellSolved(d: Offsets, top: real, low: real, root3: real)
    requires root3 * root3 == 3.0
    ensures WellSolved(PrismPlanes(d, top, low, root3), PrismTriples(), PrismVertices(d, top, low, root3))
  {
    forall k | 0 <= k < 8
      ensures NormalSq(PrismPlanes(d, top, low, root3)[k]) <= 1.0
    {
      PrismNormals(d, top, low, root3, k);
    }
    forall v, k | 0 <= v < 12 && 0 <= k < 8 && Incident(PrismTriples()[v], k)
      ensures Signed(PrismPlanes(d, top, low, root3)[k], PrismVertices(d, top, low, root3)[v]) == 0.0
    {
      PrismSolved(d, top, low, root3, v, k);
    }
    forall v, w | 0 <= v < w < 12 ensures Separated(8, PrismTriples()[v], PrismTriples()[w]) {
      PrismSeparated(v, w);
    }
  }

  lemma SeparatingPlane(v: int, w: int) returns (k: int)
    requires 0 <= v < 12 && 0 <= w < 12 && v != w
    ensures 0 <= k < 8 && Incident(PrismTriples()[v], k) && !Incident(PrismTriples()[w], k)
  {
    if v < 6 <= w {
      k := 0;
    } else if w < 6 <= v {
      k := 1;
    } else {
      assert v % 6 != w % 6;
      k := 2 + if w % 6 == Turn(v % 6, 1) || v % 6 != Turn(w % 6, 1) then v % 6 else Turn(v % 6, 1);
    }
    PrismIncident(v, k);
    PrismIncident(w, k);
  }

  /** The whole verdict on a prism, at the benchmark's pair of tolerances. */
  ghost predicate PrismAccepted(d: Offsets, top: real, low: real, root3: real, eps: real) {
    Accepts(PrismPlanes(d, top, low, root3), PrismTriples(), PrismVertices(d, top, low, root3), eps, eps * eps)
  }

  /** The full verdict on a prism, at every positive tolerance, is one inequality per face and one for the height. */
  lemma PrismVerdict(d: Offsets, top: real, low: real, root3: real, eps: real)
    requires root3 > 0.0 && root3 * root3 == 3.0 && 0.0 < eps
    ensures PrismAccepted(d, top, low, root3, eps) <==> Clear(d, top, low, root3, eps)
  {
    PrismWellSolved(d, top, low, root3);
    CoincidenceIsRedundant(PrismPlanes(d, top, low, root3), PrismTriples(), PrismVertices(d, top, low, root3), eps);
    if Clear(d, top, low, root3, eps) {
      ClearIsConcurrencyFree(d, top, low, root3, eps);
    }
    if NoneConcurrent(PrismPlanes(d, top, low, root3), PrismTriples(), PrismVertices(d, top, low, root3), eps) {
      ConcurrencyFreeIsClear(d, top, low, root3, eps);
    }
  }

  lemma ConcurrencyFreeIsClear(d: Offsets, top: real, low: real, root3: real, eps: real)
    requires NoneConcurrent(PrismPlanes(d, top, low, root3), PrismTriples(), PrismVertices(d, top, low, root3), eps)
    ensures Clear(d, top, low, root3, eps)
  {
    var planes, triples, pos := PrismPlanes(d, top, low, root3), PrismTriples(), PrismVertices(d, top, low, root3);
    PrismIncident(0, 1);
    PrismSigned(d, top, low, root3, 0, 1);
    forall i: Face
      ensures eps <= Margin(root3, Gap(d, i))
    {
      var m := 2 + Turn(i, 5);
      PrismIncident(i, m);
      PrismSigned(d, top, low, root3, i, m);
      assert Signed(planes[m], pos[i]) <= -eps;
    }
  }

  lemma ClearIsConcurrencyFree(d: Offsets, top: real, low: real, root3: real, eps: real)
    requires 0.0 < eps && Clear(d, top, low, root3, eps)
    ensures NoneConcurrent(PrismPlanes(d, top, low, root3), PrismTriples(), PrismVertices(d, top, low, root3), eps)
  {
    var planes, triples, pos := PrismPlanes(d, top, low, root3), PrismTriples(), PrismVertices(d, top, low, root3);
    forall v, k | 0 <= v < |pos| && 0 <= k < |planes| && !Incident(triples[v], k)
      ensures Signed(planes[k], pos[v]) <= -eps
    {
      PrismIncident(v, k);
      PrismSigned(d, top, low, root3, v, k);
      if k >= 2 {
        SlackClears(d, top, low, root3, eps, v % 6, k - 2);
      }
    }
  }

  /** An accepted cache is never wrong about a prism: its six corners are the corners, and all six faces are there. */
  lemma NoFalseAccept(d: Offsets, top: real, low: real, root3: real, eps: real, cs: seq<Point>)
    requires root3 > 0.0 && root3 * root3 == 3.0 && 0.0 < eps && ListsCorners(d, cs)
    requires PrismAccepted(d, top, low, root3, eps)
    ensures |cs| == 6 && forall p :: p in cs <==> exists i: Face :: p == Cached(d, i)
    ensures forall i: Face :: FacePresent(d, i)
  {
    PrismVerdict(d, top, low, root3, eps);
    forall i: Face
      ensures 0.0 < Gap(d, i)
    {
      assert 0.0 < Margin(root3, Gap(d, i));
      MarginPositive(root3, Gap(d, i));
    }
    SixCornersIff(d, cs);
    ReuseExact(d, cs);
    AllPresentIff(d);
  }

  lemma MarginPositive(root3: real, x: real)
    requires root3 > 0.0 && 0.0 < Margin(root3, x)
    ensures 0.0 < x
  {
  }

  /** Moving face i alone out to where its own gap closes. */
  function Closed(d: Offsets, i: Face): Offsets {
    d[i := Max(d[i], At(d, i, 1) + At(d, i, 5))]
  }

  lemma ClosedIsNotSix(d: Offsets, i: Face, cs: seq<Point>)
    requires ListsCorners(Closed(d, i), cs)
    ensures |cs| != 6
  {
    assert Gap(Closed(d, i), i) <= 0.0;
    SixCornersIff(Closed(d, i), cs);
  }

  lemma ClosedIsNear(d: Offsets, root3: real, i: Face, eps: real)
    requires root3 > 0.0 && 0.0 < eps && Margin(root3, Gap(d, i)) < eps
    ensures Margin(root3, Closed(d, i)[i] - d[i]) < eps
  {
    if Gap(d, i) > 0.0 {
      assert Closed(d, i)[i] - d[i] == Gap(d, i);
    }
  }

  /** A rejected prism is too flat, or moving one face out by less than the tolerance loses the six corners. */
  lemma RejectIsNear(d: Offsets, top: real, low: real, root3: real, eps: real)
    requires root3 > 0.0 && root3 * root3 == 3.0 && 0.0 < eps
    requires !PrismAccepted(d, top, low, root3, eps)
    ensures top + low < eps || exists i: Face ::
      Margin(root3, Closed(d, i)[i] - d[i]) < eps && forall cs :: ListsCorners(Closed(d, i), cs) ==> |cs| != 6
  {
    PrismVerdict(d, top, low, root3, eps);
    if top + low >= eps {
      var i: Face :| Margin(root3, Gap(d, i)) < eps;
      ClosedIsNear(d, root3, i, eps);
      forall cs | ListsCorners(Closed(d, i), cs) ensures |cs| != 6 {
        ClosedIsNotSix(d, i, cs);
      }
    }
  }
}
