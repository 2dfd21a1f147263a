/**
 The verdict on the benchmark's pyramid. Where a pyramidal ring meets the prism faces four planes pass through each
 vertex, and the cache keeps three of them. Those triples are not closed along edges, so no accepted sample of the
 pyramid is right; and there are perturbed offsets that the verdict accepts.
 */
module CachePyramid {
  import opened Vectors
  import opened PrismGeometry
  import opened PrismReuse
  import opened CacheVerdict
  import opened CacheExact

  // ---- the cached triples ----

  /** Of the two pyramidal planes at ring vertex i, the one with the smaller number. */
  function RingCap(i: Face): Face {
    if i == 5 then 0 else i
  }

  /** Planes: two basal, six prism faces from 2 on, six upper pyramidal faces from 8, six lower from 14. */
  function CapAt(up: bool, k: Face): nat {
    if up then 8 + k else 14 + k
  }

  function TipTriple(up: bool, i: Face): Triple {
    Triple(if up then 0 else 1, CapAt(up, i), CapAt(up, Turn(i, 1)))
  }

  function RingTriple(up: bool, i: Face): Triple {
    Triple(2 + i, 2 + Turn(i, 1), CapAt(up, RingCap(i)))
  }

  function TripleAt(v: nat): Triple
    requires v < 24
  {
    if v < 6 then TipTriple(true, v)
    else if v < 12 then RingTriple(true, v - 6)
    else if v < 18 then RingTriple(false, v - 12)
    else TipTriple(false, v - 18)
  }

  /**
   The planes through a ring vertex: of the regular pyramid four, once the pyramidal faces are moved its own three.
   */
  predicate RingOn(raised: bool, up: bool, i: Face, k: nat) {
    Incident(RingTriple(up, i), k) || (!raised && (k == CapAt(up, i) || k == CapAt(up, Turn(i, 1))))
  }

  /** The planes through vertex v. */
  predicate On(raised: bool, v: nat, k: nat)
    requires v < 24
  {
    if v < 6 then Incident(TipTriple(true, v), k)
    else if v < 12 then RingOn(raised, true, v - 6, k)
    else if v < 18 then RingOn(raised, false, v - 12, k)
    else Incident(TipTriple(false, v - 18), k)
  }

  function PyramidTriples(): (triples: seq<Triple>)
    ensures |triples| == 24
  {
    seq(24, v requires 0 <= v < 24 => TripleAt(v))
  }

  /** Down from a basal vertex the edge of two pyramidal faces leads to no cached triple. */
  lemma PyramidNotClosed()
    ensures !EdgeClosed(PyramidTriples())
  {
    var triples := PyramidTriples();
    assert triples[0] == TripleAt(0) && Incident(triples[0], 0);
    forall w | 0 <= w < 24 ensures !Shares(triples[0], 0, triples[w]) {
      assert triples[w] == TripleAt(w);
    }
  }

  // ---- the regular pyramid and one perturbed sample ----

  const ONES: Offsets := [1.0, 1.0, 1.0, 1.0, 1.0, 1.0]

  /** The section of the sample at its upper basal plane. */
  function Shrunk(raised: bool): Offsets {
    if raised then [0.7, 0.71, 0.72, 0.73, 0.74, 0.75] else [0.7, 0.7, 0.7, 0.7, 0.7, 0.7]
  }

  function Sign(up: bool): real {
    if up then 1.0 else -1.0
  }

  /** By how much pyramidal face k is moved out, over the slope, if the faces are moved. */
  function Raise(raised: bool, k: Face): (e: real)
    ensures 0.0 <= e <= 0.05
  {
    if raised then k as real / 100.0 else 0.0
  }

  /** Pyramidal face k; `a` is the slope and `half` half the height of the prism part. */
  function Cap(a: real, half: real, raised: bool, root3: real, up: bool, k: Face): Plane {
    var w := Side(ONES, root3, k);
    Plane(a * w.a, a * w.b, Sign(up) * root3 / 8.0, -(half + a + a * Raise(raised, k)) * root3 / 8.0)
  }

  function PlaneAt(a: real, half: real, raised: bool, root3: real, k: nat): Plane
    requires k < 20
  {
    if k == 0 then Plane(0.0, 0.0, 1.0, -(half + 0.3 * a))
    else if k == 1 then Plane(0.0, 0.0, -1.0, -(half + 0.3 * a))
    else if k < 8 then Side(ONES, root3, k - 2)
    else if k < 14 then Cap(a, half, raised, root3, true, k - 8)
    else Cap(a, half, raised, root3, false, k - 14)
  }

  /**
   The regular pyramid cut off at three tenths of its height, its twelve pyramidal faces moved out by Raise or not.
   */
  function PyramidPlanes(a: real, half: real, raised: bool, root3: real): (planes: seq<Plane>)
    ensures |planes| == 20
  {
    seq(20, k requires 0 <= k < 20 => PlaneAt(a, half, raised, root3, k))
  }

  /** Where vertex v lies in the section, and at which height. */
  function Under(raised: bool, v: nat): Point
    requires v < 24
  {
    if v < 6 then Cached(Shrunk(raised), v)
    else if v < 12 then Cached(ONES, v - 6)
    else if v < 18 then Cached(ONES, v - 12)
    else Cached(Shrunk(raised), v - 18)
  }

  function HeightOf(a: real, half: real, raised: bool, v: nat): real
    requires v < 24
  {
    if v < 6 then half + 0.3 * a
    else if v < 12 then half + a * Raise(raised, RingCap(v - 6))
    else if v < 18 then -(half + a * Raise(raised, RingCap(v - 12)))
    else -(half + 0.3 * a)
  }

  function PyramidVertices(a: real, half: real, raised: bool, root3: real): (pos: seq<Vec>)
    ensures |pos| == 24
  {
    seq(24, v requires 0 <= v < 24 => Lift(Under(raised, v), HeightOf(a, half, raised, v), root3))
  }

  // ---- its values ----

  lemma AlongCached(d: Offsets, i: Face, m: Face)
    ensures Along(Cached(d, i), m) == 2.0 * (d[m] - Slack(d, i, m))
  {
    CachedDepths(d, i);
    FaceAround(i, m);
  }

  /** A point's value at a prism face, in units of root3 / 8. */
  lemma SideValue(d: Offsets, root3: real, p: Point, z: real, m: Face, x: real)
    requires Along(p, m) == 2.0 * x
    ensures Signed(Side(d, root3, m), Lift(p, z, root3)) == root3 / 8.0 * (x - d[m])
  {
    SideSigned(d, root3, p, z, m);
    InEighths(root3, Along(p, m), x, d[m]);
  }

  lemma InEighths(root3: real, along: real, x: real, y: real)
    requires along == 2.0 * x
    ensures root3 / 16.0 * (along - 2.0 * y) == root3 / 8.0 * (x - y)
  {
  }

  lemma CapSigned(a: real, half: real, raised: bool, root3: real, up: bool, m: Face, p: Vec)
    ensures Signed(Cap(a, half, raised, root3, up, m), p) ==
      a * Signed(Side(ONES, root3, m), p) + root3 / 8.0 * (Sign(up) * p.z - half - a * Raise(raised, m))
  {
    var w, c, e := Side(ONES, root3, m), Cap(a, half, raised, root3, up, m), a * Raise(raised, m);
    assert c.a * p.x == a * (w.a * p.x) && c.b * p.y == a * (w.b * p.y);
    assert w.c * p.z == 0.0 && w.d == -(root3 / 8.0);
    assert c.c * p.z == root3 / 8.0 * (Sign(up) * p.z);
    Distribute(a, w.a * p.x, w.b * p.y, w.d);
    Distribute(root3 / 8.0, Sign(up) * p.z, -half, -e);
    assert c.d == -(root3 / 8.0 * half) - root3 / 8.0 * e + a * w.d;
  }

  lemma CapValue(a: real, half: real, raised: bool, root3: real, up: bool, p: Point, z: real, m: Face, x: real)
    requires Along(p, m) == 2.0 * x
    ensures Signed(Cap(a, half, raised, root3, up, m), Lift(p, z, root3)) ==
      root3 / 8.0 * (a * (x - 1.0) + (Sign(up) * z - half - a * Raise(raised, m)))
  {
    CapSigned(a, half, raised, root3, up, m, Lift(p, z, root3));
    SideValue(ONES, root3, p, z, m, x);
    OneFactor(a, root3 / 8.0, x - 1.0, Sign(up) * z - half - a * Raise(raised, m),
      Signed(Side(ONES, root3, m), Lift(p, z, root3)));
  }

  lemma OneFactor(a: real, k: real, x: real, y: real, s: real)
    requires s == k * x
    ensures a * s + k * y == k * (a * x + y)
  {
  }

  // ---- each vertex is on its own planes and clear of the others ----

  /** By how much, in units of root3 / 8, every vertex stays clear of the planes that are not its own. */
  predicate Level(a: real, x: real, own: bool) {
    if own then x == 0.0 else x <= -a / 100.0
  }

  predicate Sized(a: real, half: real) {
    0.5 <= a <= 1.0 && half >= 0.5
  }

  lemma SlackOnes(i: Face, m: Face)
    ensures ONES[m] == 1.0
    ensures if m == i || m == Turn(i, 1) then Slack(ONES, i, m) == 0.0 else 1.0 <= Slack(ONES, i, m) <= 2.0
  {
    assert forall k: Face :: Gap(ONES, k) == 1.0;
  }

  lemma GapShrunk(raised: bool, k: Face)
    ensures 0.6 <= Gap(Shrunk(raised), k) <= 1.0
  {
  }

  lemma SlackShrunk(raised: bool, i: Face, m: Face)
    ensures if m == i || m == Turn(i, 1) then Slack(Shrunk(raised), i, m) == 0.0
      else 0.6 <= Slack(Shrunk(raised), i, m) <= 2.0
    ensures Shrunk(raised)[m] == 0.7 + Raise(raised, m)
  {
    GapShrunk(raised, i);
    GapShrunk(raised, Turn(i, 1));
    GapShrunk(raised, Turn(i, 2));
    GapShrunk(raised, Turn(i, 3));
  }

  lemma TipOnSide(raised: bool, i: Face, m: Face)
    ensures Shrunk(raised)[m] - Slack(Shrunk(raised), i, m) - 1.0 <= -0.25
  {
    SlackShrunk(raised, i, m);
  }

  lemma TipOnCap(a: real, half: real, s: real, e: real, same: bool)
    requires Sized(a, half) && (s == 0.0 || 0.6 <= s) && 0.0 <= e <= 0.05
    ensures Level(a, a * (0.7 + e - s - 1.0) + ((if same then half + 0.3 * a else -(half + 0.3 * a)) - half - a * e),
      same && s == 0.0)
  {
    var r := Far(a, s, 0.6);
    assert a * (0.7 + e - s - 1.0) == a * e - 0.3 * a - r;
  }

  lemma RingOnSide(i: Face, m: Face)
    ensures var x := ONES[m] - Slack(ONES, i, m) - 1.0; if m == i || m == Turn(i, 1) then x == 0.0 else x <= -1.0
  {
    SlackOnes(i, m);
  }

  /** The same for the point of a ring: `e` and `f` are what its own cap and the other plane are raised by. */
  lemma RingOnCap(a: real, half: real, s: real, e: real, f: real, same: bool, z: real, x: real)
    requires Sized(a, half) && (s == 0.0 || 1.0 <= s) && 0.0 <= e <= 0.05 && 0.0 <= f <= 0.05
    requires s == 0.0 ==> e == f || e <= f - 0.01
    requires z == half + a * e && x == a * (1.0 - s - 1.0) + ((if same then z else -z) - half - a * f)
    ensures Level(a, x, same && s == 0.0 && e == f)
  {
    var u := Small(a, e);
    var v := Small(a, f);
    var r := Far(a, s, 1.0);
    if s == 0.0 && e != f {
      Apart(a, e, f, u, v);
    }
    RingCases(a, half, r, u, v, same, s == 0.0, e == f);
    assert a * (1.0 - s - 1.0) == -r;
  }

  lemma Small(a: real, e: real) returns (u: real)
    requires a >= 0.0 && 0.0 <= e <= 0.05
    ensures u == a * e && 0.0 <= u <= 0.05 * a
  {
    u := a * e;
    NonNegativeProduct(a, e);
    NonNegativeProduct(a, 0.05 - e);
  }

  lemma Far(a: real, s: real, least: real) returns (r: real)
    requires a >= 0.0 && (s == 0.0 || least <= s)
    ensures r == a * s && (if s == 0.0 then r == 0.0 else r >= least * a)
  {
    r := a * s;
    if s != 0.0 {
      NonNegativeProduct(a, s - least);
    }
  }

  lemma Apart(a: real, e: real, f: real, u: real, v: real)
    requires a >= 0.0 && e <= f - 0.01 && u == a * e && v == a * f
    ensures u - v <= -0.01 * a
  {
    NonNegativeProduct(a, f - 0.01 - e);
  }

  lemma RingCases(a: real, half: real, r: real, u: real, v: real, same: bool, near: bool, own: bool)
    requires Sized(a, half) && 0.0 <= u <= 0.05 * a && 0.0 <= v
    requires if near then r == 0.0 else r >= a
    requires near ==> if own then u == v else u - v <= -0.01 * a
    ensures Level(a, -r + ((if same then half + u else -(half + u)) - half - v), same && near && own)
  {
  }

  /** The value of pyramidal face m at the vertex over p and at height z, in units of root3 / 8. */
  function CapLevel(a: real, half: real, raised: bool, p: Point, z: real, upper: bool, m: Face): real {
    a * (Along(p, m) / 2.0 - 1.0) + ((if upper then z else -z) - half - a * Raise(raised, m))
  }

  function SideLevel(p: Point, m: Face): real {
    Along(p, m) / 2.0 - 1.0
  }

  /** The value of plane k, in the same units but for the basal planes. */
  function Value(a: real, half: real, raised: bool, p: Point, z: real, k: nat): real
    requires k < 20
  {
    if k == 0 then z - (half + 0.3 * a)
    else if k == 1 then -z - (half + 0.3 * a)
    else if k < 8 then SideLevel(p, k - 2)
    else if k < 14 then CapLevel(a, half, raised, p, z, true, k - 8)
    else CapLevel(a, half, raised, p, z, false, k - 14)
  }

  lemma ValueAtCap(a: real, half: real, raised: bool, p: Point, z: real, upper: bool, m: Face, x: real)
    requires Along(p, m) == 2.0 * x
    ensures CapLevel(a, half, raised, p, z, upper, m) ==
      a * (x - 1.0) + ((if upper then z else -z) - half - a * Raise(raised, m))
  {
    assert Along(p, m) / 2.0 == x;
  }

  lemma CapIsValue(a: real, half: real, raised: bool, root3: real, p: Point, z: real, upper: bool, m: Face, x: real)
    requires Along(p, m) == 2.0 * x
    ensures Signed(Cap(a, half, raised, root3, upper, m), Lift(p, z, root3)) ==
      root3 / 8.0 * CapLevel(a, half, raised, p, z, upper, m)
  {
    ValueAtCap(a, half, raised, p, z, upper, m, x);
    CapValue(a, half, raised, root3, upper, p, z, m, x);
    assert Sign(upper) * z == if upper then z else -z;
  }

  /** A point's value at a plane is its level in some unit. */
  predicate InUnits(pl: Plane, v: Vec, unit: real, level: real) {
    Signed(pl, v) == unit * level
  }

  lemma BasalInUnits(a: real, half: real, raised: bool, root3: real, p: Point, z: real, k: nat)
    requires k < 2
    ensures InUnits(PlaneAt(a, half, raised, root3, k), Lift(p, z, root3), 1.0, Value(a, half, raised, p, z, k))
  {
  }

  lemma SideInUnits(a: real, half: real, raised: bool, root3: real, p: Point, z: real, k: nat)
    requires 2 <= k < 8
    ensures InUnits(PlaneAt(a, half, raised, root3, k), Lift(p, z, root3), root3 / 8.0, Value(a, half, raised, p, z, k))
  {
    SideValue(ONES, root3, p, z, k - 2, Along(p, k - 2) / 2.0);
  }

  lemma UpperInUnits(a: real, half: real, raised: bool, root3: real, p: Point, z: real, k: nat)
    requires 8 <= k < 14
    ensures InUnits(PlaneAt(a, half, raised, root3, k), Lift(p, z, root3), root3 / 8.0, Value(a, half, raised, p, z, k))
  {
    CapIsValue(a, half, raised, root3, p, z, true, k - 8, Along(p, k - 8) / 2.0);
  }

  lemma LowerInUnits(a: real, half: real, raised: bool, root3: real, p: Point, z: real, k: nat)
    requires 14 <= k < 20
    ensures InUnits(PlaneAt(a, half, raised, root3, k), Lift(p, z, root3), root3 / 8.0, Value(a, half, raised, p, z, k))
  {
    CapIsValue(a, half, raised, root3, p, z, false, k - 14, Along(p, k - 14) / 2.0);
  }

  lemma SignedIsValue(a: real, half: real, raised: bool, root3: real, p: Point, z: real, k: nat, pl: Plane, v: Vec,
    x: real)
    requires k < 20 && pl == PlaneAt(a, half, raised, root3, k) && v == Lift(p, z, root3) &&
      x == Value(a, half, raised, p, z, k)
    ensures InUnits(pl, v, if k < 2 then 1.0 else root3 / 8.0, x)
  {
    if k < 2 {
      BasalInUnits(a, half, raised, root3, p, z, k);
    } else if k < 8 {
      SideInUnits(a, half, raised, root3, p, z, k);
    } else if k < 14 {
      UpperInUnits(a, half, raised, root3, p, z, k);
    } else {
      LowerInUnits(a, half, raised, root3, p, z, k);
    }
  }

  lemma TipLevel(a: real, half: real, raised: bool, up: bool, i: Face, k: nat)
    requires Sized(a, half) && k < 20
    ensures Level(a, Value(a, half, raised, Cached(Shrunk(raised), i), if up then half + 0.3 * a
      else -(half + 0.3 * a), k),
      Incident(TipTriple(up, i), k))
  {
    if 2 <= k < 8 {
      AlongCached(Shrunk(raised), i, k - 2);
      TipOnSide(raised, i, k - 2);
    } else if 8 <= k {
      TipAtCap(a, half, raised, up, i, if k < 14 then k - 8 else k - 14, k < 14);
    }
  }

  lemma TipAtCap(a: real, half: real, raised: bool, up: bool, i: Face, m: Face, upper: bool)
    requires Sized(a, half)
    ensures Level(a, CapLevel(a, half, raised, Cached(Shrunk(raised), i), if up then half + 0.3 * a
      else -(half + 0.3 * a), upper, m),
                  Incident(TipTriple(up, i), CapAt(upper, m)))
  {
    AlongCached(Shrunk(raised), i, m);
    SlackShrunk(raised, i, m);
    ShrunkAtCap(a, half, raised, up, Cached(Shrunk(raised), i), m, Slack(Shrunk(raised), i, m), upper);
  }

  lemma ShrunkAtCap(a: real, half: real, raised: bool, up: bool, p: Point, m: Face, s: real, upper: bool)
    requires Sized(a, half) && Along(p, m) == 2.0 * (0.7 + Raise(raised, m) - s) && (s == 0.0 || 0.6 <= s)
    ensures Level(a, CapLevel(a, half, raised, p, if up then half + 0.3 * a else -(half + 0.3 * a), upper, m),
                  up == upper && s == 0.0)
  {
    ValueAtCap(a, half, raised, p, if up then half + 0.3 * a else -(half + 0.3 * a), upper, m,
      0.7 + Raise(raised, m) - s);
    TipOnCap(a, half, s, Raise(raised, m), up == upper);
  }

  lemma RingLevel(a: real, half: real, raised: bool, up: bool, i: Face, k: nat)
    requires Sized(a, half) && k < 20
    ensures var z := half + a * Raise(raised, RingCap(i));
      Level(a, Value(a, half, raised, Cached(ONES, i), if up then z else -z, k), RingOn(raised, up, i, k))
  {
    if k < 2 {
      var u := Small(a, Raise(raised, RingCap(i)));
    } else if k < 8 {
      AlongCached(ONES, i, k - 2);
      RingOnSide(i, k - 2);
    } else {
      RingAtCap(a, half, raised, up, i, if k < 14 then k - 8 else k - 14, k < 14);
    }
  }

  lemma RingAtCap(a: real, half: real, raised: bool, up: bool, i: Face, m: Face, upper: bool)
    requires Sized(a, half)
    ensures var z := half + a * Raise(raised, RingCap(i));
      Level(a, CapLevel(a, half, raised, Cached(ONES, i), if up then z else -z, upper, m),
        RingOn(raised, up, i, CapAt(upper, m)))
  {
    AlongCached(ONES, i, m);
    SlackOnes(i, m);
    OnesAtCap(a, half, raised, up, Cached(ONES, i), RingCap(i), m, Slack(ONES, i, m), upper);
  }

  lemma OnesAtCap(a: real, half: real, raised: bool, up: bool, p: Point, cap: Face, m: Face, s: real, upper: bool)
    requires Sized(a, half) && Along(p, m) == 2.0 * (1.0 - s) && (s == 0.0 || 1.0 <= s)
    requires s == 0.0 ==> cap <= m
    ensures var z := half + a * Raise(raised, cap);
      Level(a, CapLevel(a, half, raised, p, if up then z else -z, upper, m), up == upper && s == 0.0 &&
        (m == cap || !raised))
  {
    var z := half + a * Raise(raised, cap);
    var w := if up then z else -z;
    var x := OnesValue(a, half, raised, p, w, upper, m, s);
    RaiseOrder(raised, cap, m);
    assert (if upper then w else -w) == if up == upper then z else -z;
    RingOnCap(a, half, s, Raise(raised, cap), Raise(raised, m), up == upper, z, x);
  }

  lemma RaiseOrder(raised: bool, c: Face, m: Face)
    ensures Raise(raised, c) == Raise(raised, m) <==> c == m || !raised
    ensures raised && c < m ==> Raise(raised, c) <= Raise(raised, m) - 0.01
  {
  }

  lemma OnesValue(a: real, half: real, raised: bool, p: Point, w: real, upper: bool, m: Face, s: real) returns (x: real)
    requires Along(p, m) == 2.0 * (1.0 - s)
    ensures x == CapLevel(a, half, raised, p, w, upper, m)
    ensures x == a * (1.0 - s - 1.0) + ((if upper then w else -w) - half - a * Raise(raised, m))
  {
    ValueAtCap(a, half, raised, p, w, upper, m, 1.0 - s);
    x := CapLevel(a, half, raised, p, w, upper, m);
  }

  lemma AtTip(a: real, half: real, raised: bool, up: bool, i: Face, k: nat, p: Point, z: real, x: real)
    requires Sized(a, half) && k < 20 && p == Cached(Shrunk(raised), i) &&
      z == if up then half + 0.3 * a else -(half + 0.3 * a)
    requires x == Value(a, half, raised, p, z, k)
    ensures Level(a, x, Incident(TipTriple(up, i), k))
  {
    TipLevel(a, half, raised, up, i, k);
  }

  lemma AtRing(a: real, half: real, raised: bool, up: bool, i: Face, k: nat, p: Point, z: real, x: real)
    requires Sized(a, half) && k < 20 && p == Cached(ONES, i)
    requires z == if up then half + a * Raise(raised, RingCap(i)) else -(half + a * Raise(raised, RingCap(i)))
    requires x == Value(a, half, raised, p, z, k)
    ensures Level(a, x, RingOn(raised, up, i, k))
  {
    RingLevel(a, half, raised, up, i, k);
  }

  lemma VertexLevel(a: real, half: real, raised: bool, v: nat, k: nat, p: Point, z: real, x: real)
    requires Sized(a, half) && v < 24 && k < 20 && p == Under(raised, v) && z == HeightOf(a, half, raised, v) &&
      x == Value(a, half, raised, p, z, k)
    ensures Level(a, x, On(raised, v, k))
  {
    if v < 6 {
      AtTip(a, half, raised, true, v, k, p, z, x);
    } else if v < 12 {
      AtRing(a, half, raised, true, v - 6, k, p, z, x);
    } else if v < 18 {
      AtRing(a, half, raised, false, v - 12, k, p, z, x);
    } else {
      AtTip(a, half, raised, false, v - 18, k, p, z, x);
    }
  }

  /** The least distance, as the planes measure it, of a vertex from a plane that is not its own. */
  function Clearance(a: real, root3: real): real {
    root3 / 8.0 * (a / 100.0)
  }

  lemma Root3Range(root3: real)
    requires root3 > 0.0 && root3 * root3 == 3.0
    ensures 1.0 <= root3 <= 2.0
  {
    if root3 < 1.0 { PositiveProduct(1.0 - root3, 1.0 + root3); }
    if root3 > 2.0 { PositiveProduct(root3 - 2.0, root3 + 2.0); }
  }

  lemma ScaledLevel(a: real, root3: real, unit: real, x: real, own: bool)
    requires 0.0 <= a && 0.0 < root3 <= 2.0 && (unit == 1.0 || unit == root3 / 8.0) && Level(a, x, own)
    ensures if own then unit * x == 0.0 else unit * x <= -Clearance(a, root3)
  {
    if !own {
      var c := a / 100.0;
      NonNegativeProduct(unit, -c - x);
      NonNegativeProduct(unit - root3 / 8.0, c);
    }
  }

  lemma PointAtPlane(a: real, root3: real, pl: Plane, v: Vec, x: real, unit: real, own: bool)
    requires 0.0 <= a && root3 > 0.0 && root3 * root3 == 3.0 && (unit == 1.0 || unit == root3 / 8.0)
    requires InUnits(pl, v, unit, x) && Level(a, x, own)
    ensures if own then Signed(pl, v) == 0.0 else Signed(pl, v) <= -Clearance(a, root3)
  {
    Root3Range(root3);
    ScaledLevel(a, root3, unit, x, own);
  }

  lemma AtPlane(a: real, half: real, raised: bool, root3: real, v: nat, k: nat, p: Point, z: real, pl: Plane, q: Vec)
    requires Sized(a, half) && root3 > 0.0 && root3 * root3 == 3.0 && v < 24 && k < 20
    requires p == Under(raised, v) && z == HeightOf(a, half, raised, v) && pl == PlaneAt(a, half, raised, root3, k) &&
      q == Lift(p, z, root3)
    ensures if On(raised, v, k) then Signed(pl, q) == 0.0 else Signed(pl, q) <= -Clearance(a, root3)
  {
    var x := Value(a, half, raised, p, z, k);
    VertexLevel(a, half, raised, v, k, p, z, x);
    SignedIsValue(a, half, raised, root3, p, z, k, pl, q, x);
    PointAtPlane(a, root3, pl, q, x, if k < 2 then 1.0 else root3 / 8.0, On(raised, v, k));
  }

  lemma PyramidSigned(a: real, half: real, raised: bool, root3: real, v: nat, k: nat)
    requires Sized(a, half) && root3 > 0.0 && root3 * root3 == 3.0 && v < 24 && k < 20
    ensures var s := Signed(PyramidPlanes(a, half, raised, root3)[k], PyramidVertices(a, half, raised, root3)[v]);
      if On(raised, v, k) then s == 0.0 else s <= -Clearance(a, root3)
  {
    var p, z := Under(raised, v), HeightOf(a, half, raised, v);
    AtPlane(a, half, raised, root3, v, k, p, z, PlaneAt(a, half, raised, root3, k), Lift(p, z, root3));
  }

  // ---- its planes ----

  lemma SideNormals(root3: real, i: Face) returns (n: Vec)
    ensures n == Normal(Side(ONES, root3, i)) && n == Vec(Cos2(i) / 4.0, root3 * Sin2(i) / 4.0, 0.0)
  {
    n := Normal(Side(ONES, root3, i));
  }

  /** Neighbouring faces meet at a fixed angle. */
  lemma NeighbourCross(root3: real, i: Face) returns (n: Vec, m: Vec)
    ensures n == Normal(Side(ONES, root3, i)) && m == Normal(Side(ONES, root3, Turn(i, 1)))
    ensures n.z == 0.0 && m.z == 0.0 && n.x * m.y - n.y * m.x == root3 / 8.0
  {
    n := SideNormals(root3, i);
    m := SideNormals(root3, Turn(i, 1));
  }

  lemma RingMeets(root3: real, a: real, half: real, raised: bool, up: bool, i: Face)
    requires root3 > 0.0
    ensures var cap := Normal(Cap(a, half, raised, root3, up, RingCap(i)));
      Vectors.Det(Normal(Side(ONES, root3, i)), Normal(Side(ONES, root3, Turn(i, 1))), cap) != 0.0
  {
    var n, m := NeighbourCross(root3, i);
    var cap := Normal(Cap(a, half, raised, root3, up, RingCap(i)));
    FlatDet(n, m, cap);
    PositiveProduct(root3 / 8.0, root3 / 8.0);
    assert cap.z == root3 / 8.0 || cap.z == -(root3 / 8.0);
  }

  lemma FlatDet(n: Vec, m: Vec, c: Vec)
    requires n.z == 0.0 && m.z == 0.0
    ensures Vectors.Det(n, m, c) == (n.x * m.y - n.y * m.x) * c.z
  {
  }

  lemma TipMeets(root3: real, a: real, half: real, raised: bool, up: bool, i: Face)
    requires root3 > 0.0 && a > 0.0
    ensures Vectors.Det(Vec(0.0, 0.0, Sign(up)), Normal(Cap(a, half, raised, root3, up, i)),
      Normal(Cap(a, half, raised, root3, up, Turn(i, 1)))) != 0.0
  {
    var n, m := NeighbourCross(root3, i);
    var c, d := Normal(Cap(a, half, raised, root3, up, i)), Normal(Cap(a, half, raised, root3, up, Turn(i, 1)));
    UprightDet(Sign(up), c, d);
    ScaledCross(a, n, m, c, d);
    PositiveProduct(a, root3 / 8.0);
    PositiveProduct(a, a * (root3 / 8.0));
  }

  lemma UprightDet(s: real, c: Vec, d: Vec)
    requires s == 1.0 || s == -1.0
    ensures Vectors.Det(Vec(0.0, 0.0, s), c, d) == s * (c.x * d.y - c.y * d.x)
  {
  }

  lemma ScaledCross(a: real, n: Vec, m: Vec, c: Vec, d: Vec)
    requires c.x == a * n.x && c.y == a * n.y && d.x == a * m.x && d.y == a * m.y
    ensures c.x * d.y - c.y * d.x == a * (a * (n.x * m.y - n.y * m.x))
  {
  }

  /** The determinant of three planes' normals. */
  function DetAt(a: real, half: real, raised: bool, root3: real, i: nat, j: nat, k: nat): real
    requires i < 20 && j < 20 && k < 20
  {
    Vectors.Det(Normal(PlaneAt(a, half, raised, root3, i)), Normal(PlaneAt(a, half, raised, root3, j)),
      Normal(PlaneAt(a, half, raised, root3, k)))
  }

  lemma TripleMeets(a: real, half: real, raised: bool, root3: real, v: nat)
    requires a > 0.0 && root3 > 0.0 && v < 24
    ensures var t := TripleAt(v);
      t.p < 20 && t.q < 20 && t.r < 20 && DetAt(a, half, raised, root3, t.p, t.q, t.r) != 0.0
  {
    if v < 6 {
      TipMeets(root3, a, half, raised, true, v);
    } else if v < 12 {
      RingMeets(root3, a, half, raised, true, v - 6);
    } else if v < 18 {
      RingMeets(root3, a, half, raised, false, v - 12);
    } else {
      TipMeets(root3, a, half, raised, false, v - 18);
    }
  }

  lemma PyramidSolved(a: real, half: real, raised: bool, root3: real)
    requires Sized(a, half) && root3 > 0.0 && root3 * root3 == 3.0
    ensures Solved(PyramidPlanes(a, half, raised, root3), PyramidTriples(), PyramidVertices(a, half, raised, root3))
  {
    var planes, triples, pos := PyramidPlanes(a, half, raised, root3), PyramidTriples(),
      PyramidVertices(a, half, raised, root3);
    forall v | 0 <= v < 24 ensures MeetsAt(planes, triples[v], pos[v]) {
      var t := triples[v];
      TripleMeets(a, half, raised, root3, v);
      PyramidSigned(a, half, raised, root3, v, t.p);
      PyramidSigned(a, half, raised, root3, v, t.q);
      PyramidSigned(a, half, raised, root3, v, t.r);
    }
  }

  lemma CapNormal(a: real, half: real, raised: bool, root3: real, up: bool, k: Face) returns (c: Plane)
    requires 0.0 <= a <= 1.0 && root3 * root3 == 3.0
    ensures c == Cap(a, half, raised, root3, up, k) && NormalSq(c) <= 1.0
  {
    c := Cap(a, half, raised, root3, up, k);
    var w := Side(ONES, root3, k);
    SideNormal(ONES, root3, k);
    ShortCap(a, root3, w.a, w.b, c.a, c.b, c.c);
  }

  lemma ShortCap(a: real, root3: real, x: real, y: real, cx: real, cy: real, cz: real)
    requires 0.0 <= a <= 1.0 && root3 * root3 == 3.0 && x * x + y * y == 0.25
    requires cx == a * x && cy == a * y && (cz == root3 / 8.0 || cz == -(root3 / 8.0))
    ensures cx * cx + cy * cy + cz * cz <= 1.0
  {
    assert cx * cx == a * a * (x * x) && cy * cy == a * a * (y * y);
    assert a * a * (x * x) + a * a * (y * y) == a * a * (x * x + y * y);
    assert cz * cz == 3.0 / 64.0;
    assert a * a <= 1.0 by { NonNegativeProduct(1.0 - a, 1.0 + a); }
  }

  lemma PlaneNormal(a: real, half: real, raised: bool, root3: real, k: nat) returns (pl: Plane)
    requires 0.0 <= a <= 1.0 && root3 * root3 == 3.0 && k < 20
    ensures pl == PlaneAt(a, half, raised, root3, k) && NormalSq(pl) <= 1.0
  {
    if k < 2 {
      pl := PlaneAt(a, half, raised, root3, k);
    } else if k < 8 {
      pl := Side(ONES, root3, k - 2);
      SideNormal(ONES, root3, k - 2);
    } else {
      pl := CapNormal(a, half, raised, root3, k < 14, if k < 14 then k - 8 else k - 14);
    }
  }

  /** Of two different neighbouring pairs of faces, a face of the first that the second has not. */
  function FirstOnly(i: Face, j: Face): Face {
    if i == j || i == Turn(j, 1) then Turn(i, 1) else i
  }

  /** A plane of vertex v that does not pass through w. */
  lemma SeparatingPlane(v: nat, w: nat) returns (k: nat)
    requires v < w < 24
    ensures k < 20 && Incident(TripleAt(v), k) && !On(false, w, k) && !Incident(TripleAt(w), k)
  {
    k :=
      if v < 6 && w < 6 then 8 + FirstOnly(v, w)
      else if v < 6 then 0
      else if v >= 18 then 14 + FirstOnly(v - 18, w - 18)
      else if w >= 18 then 2 + (if v < 12 then v - 6 else v - 12)
      else if v < 12 <= w then 8 + RingCap(v - 6)
      else 2 + FirstOnly(if v < 12 then v - 6 else v - 12, if w < 12 then w - 6 else w - 12);
  }

  lemma TriplesSeparated(v: nat, w: nat)
    requires v < w < 24
    ensures Separated(20, TripleAt(v), TripleAt(w))
  {
    var k := SeparatingPlane(v, w);
  }

  lemma PyramidWellSolved(a: real, half: real, raised: bool, root3: real)
    requires Sized(a, half) && root3 > 0.0 && root3 * root3 == 3.0
    ensures WellSolved(PyramidPlanes(a, half, raised, root3), PyramidTriples(), PyramidVertices(a, half, raised, root3))
  {
    var planes, triples, pos := PyramidPlanes(a, half, raised, root3), PyramidTriples(),
      PyramidVertices(a, half, raised, root3);
    ShortNormals(a, half, raised, root3, planes);
    OwnPlanes(a, half, raised, root3, planes, triples, pos);
    forall v, w | 0 <= v < w < 24 ensures Separated(20, triples[v], triples[w]) {
      TriplesSeparated(v, w);
    }
  }

  lemma OwnPlanes(a: real, half: real, raised: bool, root3: real, planes: seq<Plane>, triples: seq<Triple>,
    pos: seq<Vec>)
    requires Sized(a, half) && root3 > 0.0 && root3 * root3 == 3.0
    requires planes == PyramidPlanes(a, half, raised, root3) && triples == PyramidTriples() &&
      pos == PyramidVertices(a, half, raised, root3)
    ensures forall v, k :: 0 <= v < |pos| && 0 <= k < |planes| && Incident(triples[v], k) ==>
      Signed(planes[k], pos[v]) == 0.0
  {
    forall v, k | 0 <= v < 24 && 0 <= k < 20 && Incident(triples[v], k) ensures Signed(planes[k], pos[v]) == 0.0 {
      PyramidSigned(a, half, raised, root3, v, k);
    }
  }

  lemma ShortNormals(a: real, half: real, raised: bool, root3: real, planes: seq<Plane>)
    requires 0.0 <= a <= 1.0 && root3 * root3 == 3.0 && planes == PyramidPlanes(a, half, raised, root3)
    ensures forall k :: 0 <= k < |planes| ==> NormalSq(planes[k]) <= 1.0
  {
    forall k | 0 <= k < 20
      ensures NormalSq(planes[k]) <= 1.0
    {
      var pl := PlaneNormal(a, half, raised, root3, k);
    }
  }

  /** The faces leave no direction open: up and down, and across two pairs of opposite faces. */
  lemma PyramidBounded(a: real, half: real, raised: bool, root3: real)
    requires root3 > 0.0
    ensures Bounded(PyramidPlanes(a, half, raised, root3))
  {
    forall u: Vec | NeverLeaves(PyramidPlanes(a, half, raised, root3), u) ensures u == ZERO {
      NoWayOut(a, half, raised, root3, PyramidPlanes(a, half, raised, root3), u);
    }
  }

  lemma NoWayOut(a: real, half: real, raised: bool, root3: real, planes: seq<Plane>, u: Vec)
    requires root3 > 0.0 && planes == PyramidPlanes(a, half, raised, root3) && NeverLeaves(planes, u)
    ensures u == ZERO
  {
    forall k | 0 <= k < 20 ensures Dot(Normal(PlaneAt(a, half, raised, root3, k)), u) <= 0.0 {
      assert Dot(Normal(planes[k]), u) <= 0.0;
    }
    AcrossPlanes(a, half, raised, root3, u);
    FlatDirection(root3, u);
  }

  lemma FlatDirection(root3: real, u: Vec)
    requires root3 > 0.0 && u.z == 0.0 && u.x == 0.0 && u.x / 4.0 + root3 / 4.0 * u.y == 0.0
    ensures u == ZERO
  {
    CacheExact.Cancel(root3 / 4.0, u.y);
  }

  lemma AcrossPlanes(a: real, half: real, raised: bool, root3: real, u: Vec)
    ensures Dot(Normal(PlaneAt(a, half, raised, root3, 0)), u) == u.z &&
      Dot(Normal(PlaneAt(a, half, raised, root3, 1)), u) == -u.z
    ensures Dot(Normal(PlaneAt(a, half, raised, root3, 2)), u) == u.x / 2.0 &&
      Dot(Normal(PlaneAt(a, half, raised, root3, 5)), u) == -(u.x / 2.0)
    ensures Dot(Normal(PlaneAt(a, half, raised, root3, 3)), u) == u.x / 4.0 + root3 / 4.0 * u.y
    ensures Dot(Normal(PlaneAt(a, half, raised, root3, 6)), u) == -(u.x / 4.0 + root3 / 4.0 * u.y)
  {
  }

  /** No accepted sample of the pyramid is right, whatever its planes. */
  lemma PyramidNeverExact(planes: seq<Plane>, pos: seq<Vec>, eps: real, mergeSq: real)
    requires |pos| == 24 && Solved(planes, PyramidTriples(), pos) && Bounded(planes)
    requires 0.0 < eps && 0.0 < mergeSq && Accepts(planes, PyramidTriples(), pos, eps, mergeSq)
    ensures !Exact(planes, pos)
  {
    ExactIff(planes, PyramidTriples(), pos, eps, mergeSq);
    PyramidNotClosed();
  }

  lemma MergeTolerance(eps: real) returns (mergeSq: real)
    requires eps > 0.0
    ensures mergeSq == eps * eps && mergeSq > 0.0
  {
    var t := eps / 2.0;
    PositiveProduct(eps, t);
    mergeSq := eps * t + eps * t;
  }

  /** An accepted sample of the pyramid has a vertex that is not cached. */
  lemma VertexMissed(planes: seq<Plane>, pos: seq<Vec>, eps: real, mergeSq: real) returns (x: Vec)
    requires |pos| == 24 && Solved(planes, PyramidTriples(), pos) && Bounded(planes)
    requires 0.0 < eps && 0.0 < mergeSq && Accepts(planes, PyramidTriples(), pos, eps, mergeSq)
    ensures IsVertex(planes, x) && x !in pos
  {
    AcceptedIsClear(planes, PyramidTriples(), pos, eps, mergeSq);
    if AllCached(planes, pos) {
      CachedIsClosed(planes, PyramidTriples(), pos);
      PyramidNotClosed();
    }
    x :| IsVertex(planes, x) && x !in pos;
  }

  /**
   A perturbed pyramid that the verdict accepts, at every tolerance up to the sample's clearance, though a vertex is
   missing from the cache.
   */
  lemma PyramidFalseAccept(a: real, half: real, root3: real, eps: real)
    requires Sized(a, half) && root3 > 0.0 && root3 * root3 == 3.0 && 0.0 < eps <= Clearance(a, root3)
    ensures var planes, pos := PyramidPlanes(a, half, true, root3), PyramidVertices(a, half, true, root3);
      Solved(planes, PyramidTriples(), pos) && Accepts(planes, PyramidTriples(), pos, eps, eps * eps) &&
        exists x :: IsVertex(planes, x) && x !in pos
  {
    var planes, pos := PyramidPlanes(a, half, true, root3), PyramidVertices(a, half, true, root3);
    var triples := PyramidTriples();
    forall v, k | 0 <= v < 24 && 0 <= k < 20 && !Incident(triples[v], k) ensures Signed(planes[k], pos[v]) <= -eps {
      PyramidSigned(a, half, true, root3, v, k);
    }
    PyramidWellSolved(a, half, true, root3);
    CoincidenceIsRedundant(planes, triples, pos, eps);
    PyramidSolved(a, half, true, root3);
    PyramidBounded(a, half, true, root3);
    var mergeSq := MergeTolerance(eps);
    var x := VertexMissed(planes, pos, eps, mergeSq);
  }

  // ---- where the triples come from ----

  /** x is a point where the three planes of t meet, and every other plane through x has a larger number. */
  predicate FirstThree(planes: seq<Plane>, t: Triple, x: Vec) {
    MeetsAt(planes, t, x) && forall k :: 0 <= k < |planes| && Signed(planes[k], x) == 0.0 && !Incident(t, k) ==>
      t.p < k && t.q < k && t.r < k
  }

  lemma OthersLater(v: nat, k: nat)
    requires v < 24 && On(false, v, k) && !Incident(TripleAt(v), k)
    ensures var t := TripleAt(v); t.p < k && t.q < k && t.r < k
  {
  }

  lemma PyramidFeasible(a: real, half: real, raised: bool, root3: real, v: nat)
    requires Sized(a, half) && root3 > 0.0 && root3 * root3 == 3.0 && v < 24
    ensures CacheExact.Feasible(PyramidPlanes(a, half, raised, root3), PyramidVertices(a, half, raised, root3)[v])
  {
    forall k | 0 <= k < 20
      ensures Signed(PyramidPlanes(a, half, raised, root3)[k], PyramidVertices(a, half, raised, root3)[v]) <= 0.0
    {
      PyramidSigned(a, half, raised, root3, v, k);
      ClearancePositive(a, root3);
    }
  }

  lemma ClearancePositive(a: real, root3: real)
    requires a > 0.0 && root3 > 0.0
    ensures Clearance(a, root3) > 0.0
  {
    PositiveProduct(root3 / 8.0, a / 100.0);
  }

  lemma PyramidDistinct(a: real, half: real, root3: real, v: nat, w: nat)
    requires Sized(a, half) && root3 > 0.0 && root3 * root3 == 3.0 && v < w < 24
    ensures PyramidVertices(a, half, false, root3)[v] != PyramidVertices(a, half, false, root3)[w]
  {
    var k := SeparatingPlane(v, w);
    PyramidSigned(a, half, false, root3, v, k);
    PyramidSigned(a, half, false, root3, w, k);
    ClearancePositive(a, root3);
  }

  /**
   The cached triples are those of the regular pyramid: at each of its 24 vertices the first three planes through it.
   */
  lemma CachedFirstThree(a: real, half: real, root3: real)
    requires Sized(a, half) && root3 > 0.0 && root3 * root3 == 3.0
    ensures var planes, pos := PyramidPlanes(a, half, false, root3), PyramidVertices(a, half, false, root3);
      (forall v :: 0 <= v < 24 ==> IsVertex(planes, pos[v]) && FirstThree(planes, PyramidTriples()[v], pos[v])) &&
      forall v, w :: 0 <= v < w < 24 ==> pos[v] != pos[w]
  {
    var planes, pos := PyramidPlanes(a, half, false, root3), PyramidVertices(a, half, false, root3);
    PyramidSolved(a, half, false, root3);
    ClearancePositive(a, root3);
    forall v | 0 <= v < 24 ensures IsVertex(planes, pos[v]) && FirstThree(planes, PyramidTriples()[v], pos[v]) {
      PyramidFeasible(a, half, false, root3, v);
      assert MeetsAt(planes, PyramidTriples()[v], pos[v]);
      forall k | 0 <= k < 20 && Signed(planes[k], pos[v]) == 0.0 && !Incident(TripleAt(v), k)
        ensures TripleAt(v).p < k && TripleAt(v).q < k && TripleAt(v).r < k
      {
        PyramidSigned(a, half, false, root3, v, k);
        OthersLater(v, k);
      }
    }
    forall v, w | 0 <= v < w < 24 ensures pos[v] != pos[w] {
      PyramidDistinct(a, half, root3, v, w);
    }
  }
}
