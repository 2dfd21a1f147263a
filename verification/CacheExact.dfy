/**
 What an accepted cache is worth, for any body: whenever the verdict accepts, the cached points are vertices, and
 they are all the vertices exactly when the cached triples close along edges. That is a property of the triples
 alone, which a body has whose vertices lie on three planes each, and a pyramid's ring of four planes has not.
 */
module CacheExact {
  import opened Vectors
  import PrismGeometry
  import opened CacheVerdict

  function Normal(pl: Plane): Vec {
    Vec(pl.a, pl.b, pl.c)
  }

  ghost predicate Feasible(planes: seq<Plane>, x: Vec) {
    forall k :: 0 <= k < |planes| ==> Signed(planes[k], x) <= 0.0
  }

  /** x lies on three planes of t that meet in one point. */
  predicate MeetsAt(planes: seq<Plane>, t: Triple, x: Vec) {
    && t.p < |planes| && t.q < |planes| && t.r < |planes|
    && Signed(planes[t.p], x) == 0.0 && Signed(planes[t.q], x) == 0.0 && Signed(planes[t.r], x) == 0.0
    && Det(Normal(planes[t.p]), Normal(planes[t.q]), Normal(planes[t.r])) != 0.0
  }

  /** A vertex of the body: a point of it where three planes meet. */
  ghost predicate IsVertex(planes: seq<Plane>, x: Vec) {
    Feasible(planes, x) && exists t :: MeetsAt(planes, t, x)
  }

  /** Each cached point is where its own three planes meet. */
  ghost predicate Solved(planes: seq<Plane>, triples: seq<Triple>, pos: seq<Vec>)
    requires |triples| == |pos|
  {
    forall v :: 0 <= v < |pos| ==> MeetsAt(planes, triples[v], pos[v])
  }

  ghost predicate NeverLeaves(planes: seq<Plane>, u: Vec) {
    forall k :: 0 <= k < |planes| ==> Dot(Normal(planes[k]), u) <= 0.0
  }

  /** No direction stays within the body for ever. */
  ghost predicate Bounded(planes: seq<Plane>) {
    forall u: Vec :: NeverLeaves(planes, u) ==> u == ZERO
  }

  /** Triple u shares with t its planes other than k. */
  predicate Shares(t: Triple, k: nat, u: Triple) {
    !Incident(u, k) && (k == t.p || Incident(u, t.p)) && (k == t.q || Incident(u, t.q)) &&
      (k == t.r || Incident(u, t.r))
  }

  /** From each cached triple, giving up any one plane, there is a cached triple at the other end of the edge. */
  ghost predicate EdgeClosed(triples: seq<Triple>) {
    forall v, k: nat :: 0 <= v < |triples| && Incident(triples[v], k) ==>
      exists w :: 0 <= w < |triples| && Shares(triples[v], k, triples[w])
  }

  // ---- three directions ----

  /** Three directions, each leaving one of three planes inwards and staying on the other two. */
  predicate Dual3(a: Vec, b: Vec, c: Vec, u: Vec, v: Vec, w: Vec) {
    && Dot(a, u) < 0.0 && Dot(a, v) == 0.0 && Dot(a, w) == 0.0
    && Dot(b, u) == 0.0 && Dot(b, v) < 0.0 && Dot(b, w) == 0.0
    && Dot(c, u) == 0.0 && Dot(c, v) == 0.0 && Dot(c, w) < 0.0
  }

  /** A combination of three vectors, times a common denominator. */
  predicate Combination(d: real, y: Vec, p: real, u: Vec, q: real, v: Vec, r: real, w: Vec) {
    Plus(Plus(Times(p, u), Times(q, v)), Times(r, w)) == Times(d, y)
  }

  lemma DotCombination(n: Vec, d: real, y: Vec, p: real, u: Vec, q: real, v: Vec, r: real, w: Vec)
    requires Combination(d, y, p, u, q, v, r, w)
    ensures p * Dot(n, u) + q * Dot(n, v) + r * Dot(n, w) == d * Dot(n, y)
  {
    DotPlus(n, Plus(Times(p, u), Times(q, v)), Times(r, w));
    DotPlus(n, Times(p, u), Times(q, v));
    DotTimes(n, p, u);
    DotTimes(n, q, v);
    DotTimes(n, r, w);
    DotTimes(n, d, y);
  }

  lemma Cancel(d: real, x: real)
    requires d != 0.0 && d * x == 0.0
    ensures x == 0.0
  {
  }

  /** Coordinates by Cramer's rule. */
  lemma Coordinates(u: Vec, v: Vec, w: Vec, y: Vec) returns (d: real, p: real, q: real, r: real)
    ensures d == Det(u, v, w) && p == Det(v, w, y) && q == Det(w, u, y) && r == Det(u, v, y)
    ensures Combination(d, y, p, u, q, v, r, w)
  {
    Cramer(u, v, w, y);
    d, p, q, r := Det(u, v, w), Det(v, w, y), Det(w, u, y), Det(u, v, y);
  }

  lemma Parallel(n: Vec, v: Vec, w: Vec)
    requires Cross(v, w) == ZERO
    ensures Dot(n, v) * w.x == Dot(n, w) * v.x && Dot(n, v) * w.y == Dot(n, w) * v.y &&
      Dot(n, v) * w.z == Dot(n, w) * v.z
  {
    assert v.y * w.z == v.z * w.y && v.z * w.x == v.x * w.z && v.x * w.y == v.y * w.x;
    ParallelNamed(n.x, n.y, n.z, v.x, v.y, v.z, w.x, w.y, w.z);
    ParallelNamed(n.y, n.z, n.x, v.y, v.z, v.x, w.y, w.z, w.x);
    ParallelNamed(n.z, n.x, n.y, v.z, v.x, v.y, w.z, w.x, w.y);
  }

  lemma ParallelNamed(a: real, b: real, c: real, x: real, y: real, z: real, x': real, y': real, z': real)
    requires x * y' == y * x' && x * z' == z * x'
    ensures (a * x + b * y + c * z) * x' == (a * x' + b * y' + c * z') * x
  {
    assert (a * x + b * y + c * z) * x' == a * x * x' + b * (y * x') + c * (z * x');
    assert (a * x' + b * y' + c * z') * x == a * x * x' + b * (x * y') + c * (x * z');
  }

  lemma SquareIsZero(n: Vec)
    requires Dot(n, n) == 0.0
    ensures n == ZERO
  {
    NonNegativeSquare(n.x);
    NonNegativeSquare(n.y);
    NonNegativeSquare(n.z);
    if n.x != 0.0 { Cancel(n.x, n.x); }
    if n.y != 0.0 { Cancel(n.y, n.y); }
    if n.z != 0.0 { Cancel(n.z, n.z); }
  }

  lemma NonNegativeSquare(x: real)
    ensures x * x >= 0.0
  {
  }

  lemma FlatCross(a: Vec, u: Vec, v: Vec, w: Vec)
    requires Dot(a, u) < 0.0 && Dot(a, v) == 0.0 && Dot(a, w) == 0.0 && Det(u, v, w) == 0.0
    ensures Cross(v, w) == ZERO
  {
    var n := Cross(v, w);
    var d, p, q, r := Coordinates(u, v, w, n);
    DotCombination(a, d, n, p, u, q, v, r, w);
    Cancel(Dot(a, u), p);
    SquareIsZero(n);
  }

  lemma ParallelToNone(b: Vec, v: Vec, w: Vec)
    requires Cross(v, w) == ZERO && Dot(b, v) != 0.0 && Dot(b, w) == 0.0
    ensures w == ZERO
  {
    Parallel(b, v, w);
    Cancel(Dot(b, v), w.x);
    Cancel(Dot(b, v), w.y);
    Cancel(Dot(b, v), w.z);
  }

  /** Directions off three planes in this way are not in one plane themselves. */
  lemma DualIndependent(a: Vec, b: Vec, c: Vec, u: Vec, v: Vec, w: Vec)
    requires Dual3(a, b, c, u, v, w)
    ensures Det(u, v, w) != 0.0
  {
    if Det(u, v, w) == 0.0 {
      FlatCross(a, u, v, w);
      ParallelToNone(b, v, w);
    }
  }

  lemma SameSign(d: real, s: real, p: real, t: real)
    requires d * s == p * t && s <= 0.0 && t < 0.0
    ensures d * p >= 0.0
  {
    if d * p < 0.0 {
      NonNegativeSquare(d);
      NonNegativeProduct(d * d, -s);
      PositiveProduct(-(d * p), -t);
      assert d * d * s == d * (d * s) && d * p * t == d * (p * t);
    }
  }

  lemma NotAbove(d: real, h: real, p: real, q: real, r: real, a: real, b: real, c: real)
    requires d != 0.0 && d * h == p * a + q * b + r * c
    requires d * p >= 0.0 && d * q >= 0.0 && d * r >= 0.0 && a <= 0.0 && b <= 0.0 && c <= 0.0
    ensures h <= 0.0
  {
    NonNegativeProduct(d * p, -a);
    NonNegativeProduct(d * q, -b);
    NonNegativeProduct(d * r, -c);
    Distribute(d, p * a, q * b, r * c);
    assert d * (p * a) == d * p * a && d * (q * b) == d * q * b && d * (r * c) == d * r * c;
    assert d * d * h == d * (d * h) <= 0.0;
    if h > 0.0 {
      PositiveSquare(d);
      PositiveProduct(d * d, h);
    }
  }

  lemma PositiveSquare(d: real)
    requires d != 0.0
    ensures d * d > 0.0
  {
    if d > 0.0 { PositiveProduct(d, d); } else { PositiveProduct(-d, -d); }
  }

  /** Where three edges do not climb, no point inside their three planes is higher. */
  lemma NoneHigher(a: Vec, b: Vec, c: Vec, u: Vec, v: Vec, w: Vec, g: Vec, y: Vec)
    requires Dual3(a, b, c, u, v, w)
    requires Dot(a, y) <= 0.0 && Dot(b, y) <= 0.0 && Dot(c, y) <= 0.0
    requires Dot(g, u) <= 0.0 && Dot(g, v) <= 0.0 && Dot(g, w) <= 0.0
    ensures Dot(g, y) <= 0.0
  {
    DualIndependent(a, b, c, u, v, w);
    var d, p, q, r := Coordinates(u, v, w, y);
    DotCombination(a, d, y, p, u, q, v, r, w);
    DotCombination(b, d, y, p, u, q, v, r, w);
    DotCombination(c, d, y, p, u, q, v, r, w);
    DotCombination(g, d, y, p, u, q, v, r, w);
    SameSign(d, Dot(a, y), p, Dot(a, u));
    SameSign(d, Dot(b, y), q, Dot(b, v));
    SameSign(d, Dot(c, y), r, Dot(c, w));
    NotAbove(d, Dot(g, y), p, q, r, Dot(g, u), Dot(g, v), Dot(g, w));
  }

  /** Three planes that meet in one point have one common point. */
  lemma OnePoint(planes: seq<Plane>, t: Triple, x: Vec, y: Vec)
    requires MeetsAt(planes, t, x)
    requires Signed(planes[t.p], y) == 0.0 && Signed(planes[t.q], y) == 0.0 && Signed(planes[t.r], y) == 0.0
    ensures x == y
  {
    var a, b, c := Normal(planes[t.p]), Normal(planes[t.q]), Normal(planes[t.r]);
    var z := Minus(x, y);
    Difference(planes[t.p], x, y);
    Difference(planes[t.q], x, y);
    Difference(planes[t.r], x, y);
    AllNormal(a, b, c, z);
  }

  lemma AllNormal(a: Vec, b: Vec, c: Vec, z: Vec)
    requires Det(a, b, c) != 0.0 && Dot(a, z) == 0.0 && Dot(b, z) == 0.0 && Dot(c, z) == 0.0
    ensures z == ZERO
  {
    var d, p, q, r := Coordinates(a, b, c, z);
    DotCombination(z, d, z, p, a, q, b, r, c);
    DotSymmetric(z, a);
    DotSymmetric(z, b);
    DotSymmetric(z, c);
    Cancel(d, Dot(z, z));
    SquareIsZero(z);
  }

  /** The change of a plane's value from y to x. */
  lemma Difference(pl: Plane, x: Vec, y: Vec)
    ensures Signed(pl, x) - Signed(pl, y) == Dot(Normal(pl), Minus(x, y))
  {
  }

  // ---- closed triples: every vertex is cached ----

  /** What acceptance says of the cached points, exactly: none outside, each strictly inside all planes but its own. */
  ghost predicate ClearOfOthers(planes: seq<Plane>, triples: seq<Triple>, pos: seq<Vec>)
    requires |triples| == |pos|
  {
    forall v, k :: 0 <= v < |pos| && 0 <= k < |planes| && !Incident(triples[v], k) ==> Signed(planes[k], pos[v]) < 0.0
  }

  lemma CachedFeasible(planes: seq<Plane>, triples: seq<Triple>, pos: seq<Vec>, v: nat)
    requires |triples| == |pos| && Solved(planes, triples, pos) && ClearOfOthers(planes, triples, pos) && v < |pos|
    ensures IsVertex(planes, pos[v])
  {
    assert MeetsAt(planes, triples[v], pos[v]);
    forall k | 0 <= k < |planes| ensures Signed(planes[k], pos[v]) <= 0.0 {
      if !Incident(triples[v], k) {
        assert Signed(planes[k], pos[v]) < 0.0;
      }
    }
  }

  /** A cached point lies on a plane exactly when the plane is one of its three. */
  lemma OnPlaneIff(planes: seq<Plane>, triples: seq<Triple>, pos: seq<Vec>, v: nat, k: nat)
    requires |triples| == |pos| && Solved(planes, triples, pos) && ClearOfOthers(planes, triples, pos)
    requires v < |pos| && k < |planes|
    ensures Signed(planes[k], pos[v]) == 0.0 <==> Incident(triples[v], k)
    ensures Signed(planes[k], pos[v]) < 0.0 <==> !Incident(triples[v], k)
  {
    assert MeetsAt(planes, triples[v], pos[v]);
  }

  /** Along the edge that leaves plane k, at the other end: off k, still on the two others. */
  lemma EdgeEnd(planes: seq<Plane>, triples: seq<Triple>, pos: seq<Vec>, v: nat, k: nat, w: nat) returns (u: Vec)
    requires |triples| == |pos| && Solved(planes, triples, pos) && ClearOfOthers(planes, triples, pos)
    requires v < |pos| && w < |pos| && k < |planes| && Incident(triples[v], k) && Shares(triples[v], k, triples[w])
    ensures u == Minus(pos[w], pos[v]) && Dot(Normal(planes[k]), u) < 0.0
    ensures forall m :: 0 <= m < |planes| && Incident(triples[v], m) && m != k ==> Dot(Normal(planes[m]), u) == 0.0
  {
    u := Minus(pos[w], pos[v]);
    OnPlaneIff(planes, triples, pos, v, k);
    OnPlaneIff(planes, triples, pos, w, k);
    Difference(planes[k], pos[w], pos[v]);
    forall m | 0 <= m < |planes| && Incident(triples[v], m) && m != k ensures Dot(Normal(planes[m]), u) == 0.0 {
      OnPlaneIff(planes, triples, pos, v, m);
      OnPlaneIff(planes, triples, pos, w, m);
      Difference(planes[m], pos[w], pos[v]);
    }
  }

  lemma DistinctPlanes(planes: seq<Plane>, t: Triple, x: Vec)
    requires MeetsAt(planes, t, x)
    ensures t.p != t.q && t.q != t.r && t.p != t.r
  {
    DetRepeats(Normal(planes[t.p]), Normal(planes[t.q]));
    var a := Normal(planes[t.p]);
    assert Det(a, a, Normal(planes[t.r])) == 0.0;
  }

  /** The three edges at a cached point, as directions. */
  lemma Edges(planes: seq<Plane>, triples: seq<Triple>, pos: seq<Vec>, v: nat) returns (i: nat, j: nat, k: nat)
    requires |triples| == |pos| && Solved(planes, triples, pos) && ClearOfOthers(planes, triples, pos) &&
      EdgeClosed(triples)
    requires v < |pos|
    ensures i < |pos| && j < |pos| && k < |pos| && MeetsAt(planes, triples[v], pos[v])
    ensures var t := triples[v];
      Dual3(Normal(planes[t.p]), Normal(planes[t.q]), Normal(planes[t.r]),
            Minus(pos[i], pos[v]), Minus(pos[j], pos[v]), Minus(pos[k], pos[v]))
  {
    var t := triples[v];
    assert MeetsAt(planes, t, pos[v]);
    DistinctPlanes(planes, t, pos[v]);
    i :| 0 <= i < |triples| && Shares(t, t.p, triples[i]);
    j :| 0 <= j < |triples| && Shares(t, t.q, triples[j]);
    k :| 0 <= k < |triples| && Shares(t, t.r, triples[k]);
    var u1 := EdgeEnd(planes, triples, pos, v, t.p, i);
    var u2 := EdgeEnd(planes, triples, pos, v, t.q, j);
    var u3 := EdgeEnd(planes, triples, pos, v, t.r, k);
  }

  lemma {:induction false} Highest(g: Vec, pos: seq<Vec>) returns (v: nat)
    requires pos != []
    ensures v < |pos| && forall w :: 0 <= w < |pos| ==> Dot(g, pos[w]) <= Dot(g, pos[v])
  {
    if |pos| == 1 {
      v := 0;
    } else {
      var last := |pos| - 1;
      v := Highest(g, pos[..last]);
      assert forall w :: 0 <= w < last ==> pos[w] == pos[..last][w];
      if Dot(g, pos[v]) < Dot(g, pos[last]) {
        v := last;
      }
    }
  }

  lemma DotMinus(g: Vec, x: Vec, y: Vec)
    ensures Dot(g, Minus(x, y)) == Dot(g, x) - Dot(g, y)
  {
  }

  /** The highest cached point is the highest point of the body. */
  lemma HighestOfAll(planes: seq<Plane>, triples: seq<Triple>, pos: seq<Vec>, g: Vec, v: nat, x: Vec)
    requires |triples| == |pos| && Solved(planes, triples, pos) && ClearOfOthers(planes, triples, pos) &&
      EdgeClosed(triples)
    requires v < |pos| && (forall w :: 0 <= w < |pos| ==> Dot(g, pos[w]) <= Dot(g, pos[v])) && Feasible(planes, x)
    ensures Dot(g, x) <= Dot(g, pos[v])
  {
    var i, j, k := Edges(planes, triples, pos, v);
    var t, p := triples[v], pos[v];
    Difference(planes[t.p], x, p);
    Difference(planes[t.q], x, p);
    Difference(planes[t.r], x, p);
    DotMinus(g, pos[i], p);
    DotMinus(g, pos[j], p);
    DotMinus(g, pos[k], p);
    DotMinus(g, x, p);
    NoneHigher(Normal(planes[t.p]), Normal(planes[t.q]), Normal(planes[t.r]),
               Minus(pos[i], p), Minus(pos[j], p), Minus(pos[k], p), g, Minus(x, p));
  }

  /** Along the sum of three normals, a point at least as high as a common point of the planes is on all three. */
  lemma OnAllThree(a: Plane, b: Plane, c: Plane, x: Vec, y: Vec, g: Vec)
    requires g == Plus(Plus(Normal(a), Normal(b)), Normal(c)) && Dot(g, x) <= Dot(g, y)
    requires Signed(a, x) == 0.0 && Signed(b, x) == 0.0 && Signed(c, x) == 0.0
    requires Signed(a, y) <= 0.0 && Signed(b, y) <= 0.0 && Signed(c, y) <= 0.0
    ensures Signed(a, y) == 0.0 && Signed(b, y) == 0.0 && Signed(c, y) == 0.0
  {
    SumOfSigned(a, b, c, x);
    SumOfSigned(a, b, c, y);
  }

  /** The highest cached point along the sum of a vertex's normals is that vertex. */
  lemma VertexIsCached(planes: seq<Plane>, triples: seq<Triple>, pos: seq<Vec>, x: Vec)
    requires |triples| == |pos| > 0 && Solved(planes, triples, pos) && ClearOfOthers(planes, triples, pos) &&
      EdgeClosed(triples)
    requires IsVertex(planes, x)
    ensures x in pos
  {
    var t :| MeetsAt(planes, t, x);
    var g := Plus(Plus(Normal(planes[t.p]), Normal(planes[t.q])), Normal(planes[t.r]));
    var v := Highest(g, pos);
    HighestOfAll(planes, triples, pos, g, v, x);
    CachedFeasible(planes, triples, pos, v);
    OnAllThree(planes[t.p], planes[t.q], planes[t.r], x, pos[v], g);
    OnePoint(planes, t, x, pos[v]);
  }

  lemma SumOfSigned(a: Plane, b: Plane, c: Plane, x: Vec)
    ensures Dot(Plus(Plus(Normal(a), Normal(b)), Normal(c)), x) ==
      Signed(a, x) + Signed(b, x) + Signed(c, x) - (a.d + b.d + c.d)
  {
    var n, m, l := Normal(a), Normal(b), Normal(c);
    DotSymmetric(Plus(Plus(n, m), l), x);
    DotPlus(x, Plus(n, m), l);
    DotPlus(x, n, m);
    DotSymmetric(x, n);
    DotSymmetric(x, m);
    DotSymmetric(x, l);
  }

  // ---- every vertex cached: the triples are closed ----

  /** Out of one plane along the line of two others. */
  lemma AlongTwo(a: Vec, b: Vec, c: Vec) returns (u: Vec)
    requires Det(a, b, c) != 0.0
    ensures Dot(a, u) == 0.0 && Dot(b, u) == 0.0 && Dot(c, u) < 0.0
    ensures forall m: Vec :: Dot(m, u) != 0.0 ==> Det(a, b, m) != 0.0
  {
    var n := Cross(a, b);
    u := if Det(a, b, c) < 0.0 then n else Times(-1.0, n);
    DetRepeats(a, b);
    DotSymmetric(n, a);
    DotSymmetric(n, b);
    forall m: Vec ensures Dot(m, n) == Det(a, b, m) && Dot(m, Times(-1.0, n)) == -Det(a, b, m) {
      DotSymmetric(m, n);
      DotTimes(m, -1.0, n);
    }
  }

  /** How far from x along u plane k is, for a plane that u approaches. */
  function Reach(pl: Plane, x: Vec, u: Vec): real
    requires Dot(Normal(pl), u) > 0.0
  {
    -Signed(pl, x) / Dot(Normal(pl), u)
  }

  predicate Ahead(planes: seq<Plane>, u: Vec, k: nat) {
    k < |planes| && Dot(Normal(planes[k]), u) > 0.0
  }

  /** The first of the first n planes met from x along u, if there is one. */
  lemma {:induction false} Nearest(planes: seq<Plane>, x: Vec, u: Vec, n: nat, some: nat) returns (m: nat)
    requires n <= |planes| && some < n && Ahead(planes, u, some)
    ensures m < n && Ahead(planes, u, m)
    ensures forall k :: 0 <= k < n && Ahead(planes, u, k) ==> Reach(planes[m], x, u) <= Reach(planes[k], x, u)
  {
    var last := n - 1;
    if k :| 0 <= k < last && Ahead(planes, u, k) {
      m := Nearest(planes, x, u, last, k);
      if Ahead(planes, u, last) && Reach(planes[last], x, u) < Reach(planes[m], x, u) {
        m := last;
      }
    } else {
      m := last;
    }
  }

  /** The value of a plane along a ray. */
  lemma AlongRay(pl: Plane, x: Vec, s: real, u: Vec)
    ensures Signed(pl, Plus(x, Times(s, u))) == Signed(pl, x) + s * Dot(Normal(pl), u)
  {
    DotPlus(Normal(pl), x, Times(s, u));
    DotTimes(Normal(pl), s, u);
  }

  lemma ReachMeans(f: real, g: real, s: real)
    requires g > 0.0
    ensures s <= -f / g <==> f + s * g <= 0.0
    ensures s == -f / g ==> f + s * g == 0.0
  {
    var r := -f / g;
    assert r * g == -f;
    if s <= r { NonNegativeProduct(r - s, g); } else { PositiveProduct(s - r, g); }
  }

  /** From a feasible x along u, as far as the first plane ahead: a feasible point on it. */
  lemma FirstStop(planes: seq<Plane>, x: Vec, u: Vec, m: nat) returns (s: real, y: Vec)
    requires Feasible(planes, x) && Ahead(planes, u, m) && Signed(planes[m], x) < 0.0
    requires forall k :: 0 <= k < |planes| && Ahead(planes, u, k) ==> Reach(planes[m], x, u) <= Reach(planes[k], x, u)
    ensures s > 0.0 && y == Plus(x, Times(s, u)) && Feasible(planes, y) && Signed(planes[m], y) == 0.0
  {
    s := Reach(planes[m], x, u);
    y := Plus(x, Times(s, u));
    ReachMeans(Signed(planes[m], x), Dot(Normal(planes[m]), u), s);
    ReachMeans(Signed(planes[m], x), Dot(Normal(planes[m]), u), 0.0);
    AlongRay(planes[m], x, s, u);
    forall k | 0 <= k < |planes| ensures Signed(planes[k], y) <= 0.0 {
      AlongRay(planes[k], x, s, u);
      if Ahead(planes, u, k) {
        ReachMeans(Signed(planes[k], x), Dot(Normal(planes[k]), u), s);
      } else {
        NonNegativeProduct(s, -Dot(Normal(planes[k]), u));
      }
    }
  }

  ghost predicate AllCached(planes: seq<Plane>, pos: seq<Vec>) {
    forall x :: IsVertex(planes, x) ==> x in pos
  }

  /** The three planes of a triple with a given one last, still meeting in one point. */
  lemma Given(planes: seq<Plane>, t: Triple, x: Vec, k: nat) returns (i: nat, j: nat)
    requires MeetsAt(planes, t, x) && Incident(t, k)
    ensures i < |planes| && j < |planes| && k < |planes| && Signed(planes[i], x) == 0.0 && Signed(planes[j], x) == 0.0
    ensures Det(Normal(planes[i]), Normal(planes[j]), Normal(planes[k])) != 0.0
    ensures forall m :: Incident(t, m) <==> m == i || m == j || m == k
  {
    DetCycles(Normal(planes[t.p]), Normal(planes[t.q]), Normal(planes[t.r]));
    DetCycles(Normal(planes[t.q]), Normal(planes[t.r]), Normal(planes[t.p]));
    i := if k == t.p then t.q else if k == t.q then t.r else t.p;
    j := if k == t.p then t.r else if k == t.q then t.p else t.q;
  }

  /** Out of a vertex along an edge of a bounded body there is another vertex, off the plane left. */
  lemma OtherEnd(planes: seq<Plane>, x: Vec, i: nat, j: nat, k: nat) returns (y: Vec)
    requires Bounded(planes) && Feasible(planes, x) && i < |planes| && j < |planes| && k < |planes|
    requires Signed(planes[i], x) == 0.0 && Signed(planes[j], x) == 0.0 && Signed(planes[k], x) == 0.0
    requires forall m :: 0 <= m < |planes| && m != i && m != j && m != k ==> Signed(planes[m], x) < 0.0
    requires Det(Normal(planes[i]), Normal(planes[j]), Normal(planes[k])) != 0.0
    ensures IsVertex(planes, y)
    ensures Signed(planes[i], y) == 0.0 && Signed(planes[j], y) == 0.0 && Signed(planes[k], y) < 0.0
  {
    var u := AlongTwo(Normal(planes[i]), Normal(planes[j]), Normal(planes[k]));
    var m := FirstAhead(planes, x, u, k);
    var s: real;
    s, y := FirstStop(planes, x, u, m);
    AlongRay(planes[i], x, s, u);
    AlongRay(planes[j], x, s, u);
    AlongRay(planes[k], x, s, u);
    PositiveProduct(s, -Dot(Normal(planes[k]), u));
    assert MeetsAt(planes, Triple(i, j, m), y);
  }

  lemma FirstAhead(planes: seq<Plane>, x: Vec, u: Vec, k: nat) returns (m: nat)
    requires Bounded(planes) && k < |planes| && Dot(Normal(planes[k]), u) < 0.0
    ensures Ahead(planes, u, m)
    ensures forall l :: 0 <= l < |planes| && Ahead(planes, u, l) ==> Reach(planes[m], x, u) <= Reach(planes[l], x, u)
  {
    assert Dot(Normal(planes[k]), ZERO) == 0.0;
    assert !NeverLeaves(planes, u);
    var some: nat :| some < |planes| && Dot(Normal(planes[some]), u) > 0.0;
    m := Nearest(planes, x, u, |planes|, some);
  }

  lemma EdgeToCached(planes: seq<Plane>, triples: seq<Triple>, pos: seq<Vec>, v: nat, k: nat) returns (w: nat)
    requires |triples| == |pos| && Solved(planes, triples, pos) && ClearOfOthers(planes, triples, pos) &&
      Bounded(planes)
    requires AllCached(planes, pos) && v < |pos| && Incident(triples[v], k)
    ensures w < |pos| && Shares(triples[v], k, triples[w])
  {
    var x := pos[v];
    assert MeetsAt(planes, triples[v], x);
    CachedFeasible(planes, triples, pos, v);
    var i, j := Given(planes, triples[v], x, k);
    OnPlaneIff(planes, triples, pos, v, k);
    var y := OtherEnd(planes, x, i, j, k);
    w :| 0 <= w < |pos| && pos[w] == y;
    OnPlaneIff(planes, triples, pos, w, i);
    OnPlaneIff(planes, triples, pos, w, j);
    OnPlaneIff(planes, triples, pos, w, k);
    DistinctPlanes(planes, triples[v], x);
  }

  lemma CachedIsClosed(planes: seq<Plane>, triples: seq<Triple>, pos: seq<Vec>)
    requires |triples| == |pos| && Solved(planes, triples, pos) && ClearOfOthers(planes, triples, pos) &&
      Bounded(planes)
    requires AllCached(planes, pos)
    ensures EdgeClosed(triples)
  {
    forall v, k: nat | 0 <= v < |triples| && Incident(triples[v], k)
      ensures exists w :: 0 <= w < |triples| && Shares(triples[v], k, triples[w])
    {
      var w := EdgeToCached(planes, triples, pos, v, k);
    }
  }

  // ---- the verdict ----

  /** The cached points are the vertices of the body, each once. */
  ghost predicate Exact(planes: seq<Plane>, pos: seq<Vec>) {
    (forall x :: IsVertex(planes, x) <==> x in pos) && (forall v, w :: 0 <= v < w < |pos| ==> pos[v] != pos[w])
  }

  lemma AcceptedIsClear(planes: seq<Plane>, triples: seq<Triple>, pos: seq<Vec>, eps: real, mergeSq: real)
    requires |triples| == |pos| && 0.0 < eps && 0.0 < mergeSq && Accepts(planes, triples, pos, eps, mergeSq)
    ensures ClearOfOthers(planes, triples, pos)
    ensures forall v, w :: 0 <= v < w < |pos| ==> pos[v] != pos[w]
  {
    forall v, w | 0 <= v < w < |pos| ensures pos[v] != pos[w] {
      assert mergeSq <= DistanceSq(pos[v], pos[w]);
    }
  }

  lemma CachedAreVertices(planes: seq<Plane>, triples: seq<Triple>, pos: seq<Vec>, x: Vec)
    requires |triples| == |pos| && Solved(planes, triples, pos) && ClearOfOthers(planes, triples, pos) && x in pos
    ensures IsVertex(planes, x)
  {
    var v :| 0 <= v < |pos| && pos[v] == x;
    CachedFeasible(planes, triples, pos, v);
  }

  lemma ClosedIsExact(planes: seq<Plane>, triples: seq<Triple>, pos: seq<Vec>)
    requires |triples| == |pos| > 0 && Solved(planes, triples, pos) && ClearOfOthers(planes, triples, pos) &&
      EdgeClosed(triples)
    requires forall v, w :: 0 <= v < w < |pos| ==> pos[v] != pos[w]
    ensures Exact(planes, pos)
  {
    forall x ensures IsVertex(planes, x) <==> x in pos {
      if IsVertex(planes, x) {
        VertexIsCached(planes, triples, pos, x);
      }
      if x in pos {
        CachedAreVertices(planes, triples, pos, x);
      }
    }
  }

  /** An accepted cache is right, vertex for vertex, exactly when its triples are closed along edges. */
  lemma ExactIff(planes: seq<Plane>, triples: seq<Triple>, pos: seq<Vec>, eps: real, mergeSq: real)
    requires |triples| == |pos| > 0 && Solved(planes, triples, pos) && Bounded(planes)
    requires 0.0 < eps && 0.0 < mergeSq && Accepts(planes, triples, pos, eps, mergeSq)
    ensures Exact(planes, pos) <==> EdgeClosed(triples)
  {
    AcceptedIsClear(planes, triples, pos, eps, mergeSq);
    if Exact(planes, pos) {
      CachedIsClosed(planes, triples, pos);
    }
    if EdgeClosed(triples) {
      ClosedIsExact(planes, triples, pos);
    }
  }

  /** Triples cached from a body whose vertices lie on three planes each are closed. */
  lemma SimpleIsClosed(planes: seq<Plane>, triples: seq<Triple>, pos: seq<Vec>)
    requires |triples| == |pos| && Solved(planes, triples, pos) && Bounded(planes) && AllCached(planes, pos)
    requires forall v :: 0 <= v < |pos| ==> Feasible(planes, pos[v])
    requires forall v, k :: 0 <= v < |pos| && 0 <= k < |planes| && Signed(planes[k], pos[v]) == 0.0 ==>
      Incident(triples[v], k)
    ensures EdgeClosed(triples)
  {
    forall v, k | 0 <= v < |pos| && 0 <= k < |planes| && !Incident(triples[v], k)
      ensures Signed(planes[k], pos[v]) < 0.0
    {
      assert Feasible(planes, pos[v]);
    }
    CachedIsClosed(planes, triples, pos);
  }

  /** So a cache of such a body, re-solved on any planes whatever, is right whenever it is accepted. */
  lemma SimpleIsExact(base: seq<Plane>, cached: seq<Vec>, triples: seq<Triple>, planes: seq<Plane>, pos: seq<Vec>,
                      eps: real, mergeSq: real)
    requires |triples| == |cached| == |pos| > 0
    requires Solved(base, triples, cached) && Bounded(base) && AllCached(base, cached)
    requires forall v :: 0 <= v < |cached| ==> Feasible(base, cached[v])
    requires forall v, k :: 0 <= v < |cached| && 0 <= k < |base| && Signed(base[k], cached[v]) == 0.0 ==>
      Incident(triples[v], k)
    requires Solved(planes, triples, pos)
    requires 0.0 < eps && 0.0 < mergeSq && Accepts(planes, triples, pos, eps, mergeSq)
    ensures Exact(planes, pos)
  {
    SimpleIsClosed(base, triples, cached);
    AcceptedIsClear(planes, triples, pos, eps, mergeSq);
    ClosedIsExact(planes, triples, pos);
  }

  /** From prism vertex v, leaving plane k: to the other basal plane, or round to the next corner. */
  function PrismNeighbour(v: nat, k: nat): (w: nat)
    requires v < 12
    ensures w < 12
  {
    var (i, basal) := if v < 6 then (v, 0) else (v - 6, 6);
    if k < 2 then (if v < 6 then v + 6 else v - 6)
    else if k == 2 + i then basal + PrismGeometry.Turn(i, 1)
    else basal + PrismGeometry.Turn(i, 5)
  }

  lemma PrismClosed()
    ensures EdgeClosed(PrismTriples())
  {
    forall v, k: nat | 0 <= v < 12 && Incident(PrismTriples()[v], k)
      ensures exists w :: 0 <= w < 12 && Shares(PrismTriples()[v], k, PrismTriples()[w])
    {
      var w := PrismNeighbour(v, k);
      assert PrismTriples()[v] == PrismTriple(v) && PrismTriples()[w] == PrismTriple(w);
      assert Shares(PrismTriples()[v], k, PrismTriples()[w]);
    }
  }

  /** The prism's twelve triples, re-solved on any eight planes, are the vertices whenever they are accepted. */
  lemma PrismIsExact(planes: seq<Plane>, pos: seq<Vec>, eps: real, mergeSq: real)
    requires |pos| == 12 && Solved(planes, PrismTriples(), pos)
    requires 0.0 < eps && 0.0 < mergeSq && Accepts(planes, PrismTriples(), pos, eps, mergeSq)
    ensures Exact(planes, pos)
  {
    PrismClosed();
    AcceptedIsClear(planes, PrismTriples(), pos, eps, mergeSq);
    ClosedIsExact(planes, PrismTriples(), pos);
  }
}
