/**
 The pose row of a twist average: the zenith row of every rotation that carries an axis u to the sun,
 written as c + a cos psi + b sin psi.  The square root is a parameter.
 */
module TwistRow {
  import opened Reals
  import opened Vectors

  datatype SunFrame = SunFrame(sz: real, p: real, q: real)

  datatype Twist = Twist(c: Vec, a: Vec, b: Vec)

  function Coordinate(v: Vec, i: int): real
    requires 0 <= i < 3
  {
    if i == 0 then v.x else if i == 1 then v.y else v.z
  }

  function Axis(i: int): Vec
    requires 0 <= i < 3
  {
    Vec(if i == 0 then 1.0 else 0.0, if i == 1 then 1.0 else 0.0, if i == 2 then 1.0 else 0.0)
  }

  ghost predicate IsRoot(root: real, x: real) {
    root >= 0.0 && root * root == x
  }

  /** The row of the pose at a twist whose cosine and sine are given. */
  function RowAt(t: Twist, cos: real, sin: real): Vec {
    Plus(Plus(t.c, Times(cos, t.a)), Times(sin, t.b))
  }

  ghost predicate Orthonormal(u: Vec, f: Vec, g: Vec) {
    && Dot(u, u) == 1.0 && Dot(f, f) == 1.0 && Dot(g, g) == 1.0
    && Dot(u, f) == 0.0 && Dot(u, g) == 0.0 && Dot(f, g) == 0.0
  }

  /** The axis least aligned with u. */
  method LeastAligned(u: Vec) returns (k: int)
    ensures 0 <= k < 3 && forall i :: 0 <= i < 3 ==> Abs(Coordinate(u, k)) <= Abs(Coordinate(u, i))
  {
    k := 0;
    for i := 1 to 3
      invariant 0 <= k < 3 && forall j :: 0 <= j < i ==> Abs(Coordinate(u, k)) <= Abs(Coordinate(u, j))
    {
      if Abs(Coordinate(u, i)) < Abs(Coordinate(u, k)) {
        k := i;
      }
    }
  }

  lemma SquareOrder(a: real, b: real)
    requires Abs(a) <= Abs(b)
    ensures a * a <= b * b
  {
    var x, y := Abs(a), Abs(b);
    NonNegativeProduct(y - x, y + x);
    assert (y - x) * (y + x) == y * y - x * x;
    SquareAbs(a);
    SquareAbs(b);
  }

  lemma SquareAbs(a: real)
    ensures Abs(a) * Abs(a) == a * a
  {
    if a < 0.0 {
      NegatedProduct(a, a, Abs(a));
      NegatedProduct(Abs(a), a, Abs(a));
    }
  }

  lemma RejectionLong(u: Vec, k: int, t: real)
    requires 0 <= k < 3 && Dot(u, u) == 1.0 && t == Coordinate(u, k)
    requires forall i :: 0 <= i < 3 ==> Abs(Coordinate(u, k)) <= Abs(Coordinate(u, i))
    ensures 3.0 * (t * t) <= 1.0
  {
    SquareOrder(t, Coordinate(u, 0));
    SquareOrder(t, Coordinate(u, 1));
    SquareOrder(t, Coordinate(u, 2));
  }

  lemma AxisDots(u: Vec, k: int)
    requires 0 <= k < 3
    ensures Dot(Axis(k), u) == Coordinate(u, k) && Dot(Axis(k), Axis(k)) == 1.0
  {
  }

  lemma DotMinus(n: Vec, a: Vec, b: Vec)
    ensures Dot(n, Minus(a, b)) == Dot(n, a) - Dot(n, b)
  {
  }

  /** Rejecting u from an axis leaves a vector normal to u, of known length. */
  lemma Rejection(u: Vec, e: Vec, t: real)
    requires Dot(u, u) == 1.0 && Dot(e, e) == 1.0 && Dot(e, u) == t
    ensures var w := Minus(e, Times(t, u)); Dot(u, w) == 0.0 && Dot(w, w) == 1.0 - t * t
  {
    var s := Times(t, u);
    var w := Minus(e, s);
    DotMinus(u, e, s);
    DotTimes(u, t, u);
    DotSymmetric(e, u);
    assert Dot(u, w) == 0.0;
    DotMinus(w, e, s);
    DotTimes(w, t, u);
    DotSymmetric(w, u);
    DotMinus(e, e, s);
    DotTimes(e, t, u);
    DotSymmetric(w, e);
  }

  lemma Normalised(w: Vec, root: real, u: Vec)
    requires root > 0.0 && root * root == Dot(w, w)
    ensures var f := Times(1.0 / root, w); Dot(f, f) == 1.0 && (Dot(u, w) == 0.0 ==> Dot(u, f) == 0.0)
  {
    var k := 1.0 / root;
    var f := Times(k, w);
    assert k * root == 1.0;
    DotTimes(f, k, w);
    DotSymmetric(f, w);
    DotTimes(w, k, w);
    UnitScale(k, root, Dot(w, w));
    DotTimes(u, k, w);
  }

  lemma UnitScale(k: real, root: real, s: real)
    requires k * root == 1.0 && s == root * root
    ensures k * (k * s) == 1.0
  {
    assert k * s == (k * root) * root;
    assert k * (k * s) == (k * root) * (k * root);
  }

  /** Lagrange's identity. */
  lemma CrossLength(u: Vec, f: Vec)
    ensures Dot(Cross(u, f), Cross(u, f)) == Dot(u, u) * Dot(f, f) - Dot(u, f) * Dot(u, f)
  {
  }

  lemma CrossNormal(u: Vec, f: Vec)
    ensures Dot(u, Cross(u, f)) == 0.0 && Dot(f, Cross(u, f)) == 0.0
  {
    DetRepeats(u, f);
    DotSymmetric(u, Cross(u, f));
    DotSymmetric(f, Cross(u, f));
  }

  lemma FrameOrthonormal(u: Vec, f: Vec)
    requires Dot(u, u) == 1.0 && Dot(f, f) == 1.0 && Dot(u, f) == 0.0
    ensures Orthonormal(u, f, Cross(u, f))
  {
    CrossLength(u, f);
    CrossNormal(u, f);
  }

  function TwistOf(u: Vec, f: Vec, g: Vec, sun: SunFrame): Twist {
    Twist(Times(sun.sz, u), Plus(Times(sun.p, f), Times(sun.q, g)), Minus(Times(sun.q, f), Times(sun.p, g)))
  }

  /** The part of an axis normal to u. */
  function Rejected(u: Vec, k: int): Vec
    requires 0 <= k < 3
  {
    Minus(Axis(k), Times(Dot(Axis(k), u), u))
  }

  lemma RejectedDots(u: Vec, k: int, t: real)
    requires 0 <= k < 3 && Dot(u, u) == 1.0 && t == Coordinate(u, k)
    ensures Dot(u, Rejected(u, k)) == 0.0 && Dot(Rejected(u, k), Rejected(u, k)) == 1.0 - t * t
  {
    AxisDots(u, k);
    Rejection(u, Axis(k), t);
  }

  /** The rejected axis keeps at least two thirds of its squared length, so normalising it never divides by zero. */
  lemma RejectedIsLong(u: Vec, k: int)
    requires 0 <= k < 3 && Dot(u, u) == 1.0
    requires forall i :: 0 <= i < 3 ==> Abs(Coordinate(u, k)) <= Abs(Coordinate(u, i))
    ensures Dot(u, Rejected(u, k)) == 0.0 && 3.0 * Dot(Rejected(u, k), Rejected(u, k)) >= 2.0
  {
    var t := Coordinate(u, k);
    RejectionLong(u, k, t);
    RejectedDots(u, k, t);
  }

  lemma RootPositive(root: real, x: real)
    requires IsRoot(root, x) && x > 0.0
    ensures root > 0.0
  {
  }

  /** A vector with coordinates (x, y, z) in an orthonormal frame. */
  function InFrame(u: Vec, f: Vec, g: Vec, x: real, y: real, z: real): Vec {
    Plus(Plus(Times(x, u), Times(y, f)), Times(z, g))
  }

  lemma FrameDot(u: Vec, f: Vec, g: Vec, n: Vec, x: real, y: real, z: real)
    ensures Dot(n, InFrame(u, f, g, x, y, z)) == x * Dot(n, u) + y * Dot(n, f) + z * Dot(n, g)
  {
    DotPlus(n, Plus(Times(x, u), Times(y, f)), Times(z, g));
    DotPlus(n, Times(x, u), Times(y, f));
    DotTimes(n, x, u);
    DotTimes(n, y, f);
    DotTimes(n, z, g);
  }

  lemma FrameLength(u: Vec, f: Vec, g: Vec, x: real, y: real, z: real)
    requires Orthonormal(u, f, g)
    ensures var v := InFrame(u, f, g, x, y, z);
      Dot(u, v) == x && Dot(f, v) == y && Dot(g, v) == z && Dot(v, v) == x * x + y * y + z * z
  {
    var v := InFrame(u, f, g, x, y, z);
    FrameDot(u, f, g, u, x, y, z);
    FrameDot(u, f, g, f, x, y, z);
    FrameDot(u, f, g, g, x, y, z);
    DotSymmetric(u, f);
    DotSymmetric(u, g);
    DotSymmetric(f, g);
    FrameDot(u, f, g, v, x, y, z);
    DotSymmetric(v, u);
    DotSymmetric(v, f);
    DotSymmetric(v, g);
  }

  /** The coefficients of a twist combine the frame's two axes, coordinate by coordinate. */
  predicate Combines(t: Twist, f: Vec, g: Vec, sun: SunFrame) {
    && t.a.x == sun.p * f.x + sun.q * g.x && t.b.x == sun.q * f.x - sun.p * g.x
    && t.a.y == sun.p * f.y + sun.q * g.y && t.b.y == sun.q * f.y - sun.p * g.y
    && t.a.z == sun.p * f.z + sun.q * g.z && t.b.z == sun.q * f.z - sun.p * g.z
  }

  lemma SumParts(v: Vec, p: real, f: Vec, q: real, g: Vec)
    requires v == Plus(Times(p, f), Times(q, g))
    ensures v.x == p * f.x + q * g.x && v.y == p * f.y + q * g.y && v.z == p * f.z + q * g.z
  {
  }

  lemma DifferenceParts(v: Vec, p: real, f: Vec, q: real, g: Vec)
    requires v == Minus(Times(p, f), Times(q, g))
    ensures v.x == p * f.x - q * g.x && v.y == p * f.y - q * g.y && v.z == p * f.z - q * g.z
  {
  }

  lemma TwistCombines(t: Twist, f: Vec, g: Vec, sun: SunFrame)
    requires t.a == Plus(Times(sun.p, f), Times(sun.q, g)) && t.b == Minus(Times(sun.q, f), Times(sun.p, g))
    ensures Combines(t, f, g, sun)
  {
    SumParts(t.a, sun.p, f, sun.q, g);
    DifferenceParts(t.b, sun.q, f, sun.p, g);
  }

  lemma RowCombines(t: Twist, c: Vec, f: Vec, g: Vec, sun: SunFrame, cos: real, sin: real, y: real, z: real)
    requires t.c == c && Combines(t, f, g, sun)
    requires y == sun.p * cos + sun.q * sin && z == sun.q * cos - sun.p * sin
    ensures RowAt(t, cos, sin) == Plus(Plus(c, Times(y, f)), Times(z, g))
  {
    RowCoordinate(sun, cos, sin, y, z, f.x, g.x, t.a.x, t.b.x);
    RowCoordinate(sun, cos, sin, y, z, f.y, g.y, t.a.y, t.b.y);
    RowCoordinate(sun, cos, sin, y, z, f.z, g.z, t.a.z, t.b.z);
    SameRow(t, c, f, g, cos, sin, y, z);
  }

  lemma RowInFrame(u: Vec, f: Vec, g: Vec, sun: SunFrame, cos: real, sin: real, y: real, z: real)
    requires y == sun.p * cos + sun.q * sin && z == sun.q * cos - sun.p * sin
    ensures RowAt(TwistOf(u, f, g, sun), cos, sin) == InFrame(u, f, g, sun.sz, y, z)
  {
    var t := TwistOf(u, f, g, sun);
    TwistCombines(t, f, g, sun);
    RowCombines(t, t.c, f, g, sun, cos, sin, y, z);
  }

  lemma ThreeParts(v: Vec, c: Vec, k: real, a: Vec, l: real, b: Vec)
    requires v == Plus(Plus(c, Times(k, a)), Times(l, b))
    ensures v.x == c.x + k * a.x + l * b.x && v.y == c.y + k * a.y + l * b.y && v.z == c.z + k * a.z + l * b.z
  {
  }

  lemma SameRow(t: Twist, c: Vec, f: Vec, g: Vec, cos: real, sin: real, y: real, z: real)
    requires t.c == c && cos * t.a.x + sin * t.b.x == y * f.x + z * g.x
    requires cos * t.a.y + sin * t.b.y == y * f.y + z * g.y && cos * t.a.z + sin * t.b.z == y * f.z + z * g.z
    ensures RowAt(t, cos, sin) == Plus(Plus(c, Times(y, f)), Times(z, g))
  {
    var row, v := RowAt(t, cos, sin), Plus(Plus(c, Times(y, f)), Times(z, g));
    ThreeParts(row, c, cos, t.a, sin, t.b);
    ThreeParts(v, c, y, f, z, g);
    assert row.x == v.x && row.y == v.y && row.z == v.z;
  }

  lemma RowCoordinate(sun: SunFrame, cos: real, sin: real, y: real, z: real, f: real, g: real, a: real, b: real)
    requires y == sun.p * cos + sun.q * sin && z == sun.q * cos - sun.p * sin
    requires a == sun.p * f + sun.q * g && b == sun.q * f - sun.p * g
    ensures cos * a + sin * b == y * f + z * g
  {
    TwoTerms(cos, sun.p, sun.q, f, g);
    TwoTerms(sin, sun.q, -sun.p, f, g);
    Term(y, sun.p * cos, -(sun.q * sin), f);
    Term(z, sun.q * cos, sun.p * sin, g);
  }

  lemma TwoTerms(k: real, a: real, b: real, f: real, g: real)
    ensures k * (a * f + b * g) == a * k * f + b * k * g
  {
  }

  lemma Rotated2(p: real, q: real, cos: real, sin: real, y: real, z: real)
    requires cos * cos + sin * sin == 1.0
    requires y == p * cos + q * sin && z == q * cos - p * sin
    ensures y * y + z * z == p * p + q * q
  {
    assert (p * cos + q * sin) * (p * cos + q * sin) + (q * cos - p * sin) * (q * cos - p * sin)
        == (p * p + q * q) * (cos * cos + sin * sin);
  }

  /** Every twist yields a row of a rotation (unit length) that sends u to the sun's zenith component. */
  lemma RowOfARotation(u: Vec, f: Vec, g: Vec, sun: SunFrame, cos: real, sin: real)
    requires Orthonormal(u, f, g) && cos * cos + sin * sin == 1.0
    requires sun.sz * sun.sz + sun.p * sun.p + sun.q * sun.q == 1.0
    ensures var row := RowAt(TwistOf(u, f, g, sun), cos, sin); Dot(row, row) == 1.0 && Dot(u, row) == sun.sz
  {
    var y, z := sun.p * cos + sun.q * sin, sun.q * cos - sun.p * sin;
    RowInFrame(u, f, g, sun, cos, sin, y, z);
    Rotated2(sun.p, sun.q, cos, sin, y, z);
    UnitInFrame(u, f, g, sun.sz, y, z, sun.p * sun.p + sun.q * sun.q);
  }

  lemma UnitInFrame(u: Vec, f: Vec, g: Vec, x: real, y: real, z: real, s: real)
    requires Orthonormal(u, f, g) && y * y + z * z == s && x * x + s == 1.0
    ensures var v := InFrame(u, f, g, x, y, z); Dot(v, v) == 1.0 && Dot(u, v) == x
  {
    FrameLength(u, f, g, x, y, z);
  }

  /** For a unit sun frame, every twist's row has unit length and the same product with u. */
  ghost predicate RowsOfRotations(t: Twist, u: Vec, sun: SunFrame) {
    forall cos, sin :: cos * cos + sin * sin == 1.0 ==>
      Dot(RowAt(t, cos, sin), RowAt(t, cos, sin)) == 1.0 && Dot(u, RowAt(t, cos, sin)) == sun.sz
  }

  method MakeTwistRow(u: Vec, sun: SunFrame, sqrt: real -> real) returns (t: Twist, ghost f: Vec, ghost g: Vec)
    requires Dot(u, u) == 1.0
    requires forall x :: x >= 0.0 ==> IsRoot(sqrt(x), x)
    ensures Orthonormal(u, f, g) && t == TwistOf(u, f, g, sun)
    ensures sun.sz * sun.sz + sun.p * sun.p + sun.q * sun.q == 1.0 ==> RowsOfRotations(t, u, sun)
  {
    var k := LeastAligned(u);
    RejectedIsLong(u, k);
    var w := Rejected(u, k);
    var length := Dot(w, w);
    var root := sqrt(length);
    RootPositive(root, length);
    var unit := Times(1.0 / root, w);
    Normalised(w, root, u);
    FrameOrthonormal(u, unit);
    f, g := unit, Cross(u, unit);
    t := TwistOf(u, unit, Cross(u, unit), sun);
    AllRowsOfRotations(u, f, g, sun);
  }

  lemma AllRowsOfRotations(u: Vec, f: Vec, g: Vec, sun: SunFrame)
    requires Orthonormal(u, f, g)
    ensures sun.sz * sun.sz + sun.p * sun.p + sun.q * sun.q == 1.0 ==> RowsOfRotations(TwistOf(u, f, g, sun), u, sun)
  {
    if sun.sz * sun.sz + sun.p * sun.p + sun.q * sun.q == 1.0 {
      forall cos, sin | cos * cos + sin * sin == 1.0
        ensures Dot(RowAt(TwistOf(u, f, g, sun), cos, sin), RowAt(TwistOf(u, f, g, sun), cos, sin)) == 1.0
        ensures Dot(u, RowAt(TwistOf(u, f, g, sun), cos, sin)) == sun.sz
      {
        RowOfARotation(u, f, g, sun, cos, sin);
      }
    }
  }
}
