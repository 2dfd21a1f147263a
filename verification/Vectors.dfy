/** Vectors of three real numbers, their products and determinants, and Cramer's rule. */
module Vectors {

  datatype Vec = Vec(x: real, y: real, z: real)

  function Plus(a: Vec, b: Vec): Vec {
    Vec(a.x + b.x, a.y + b.y, a.z + b.z)
  }

  function Minus(a: Vec, b: Vec): Vec {
    Vec(a.x - b.x, a.y - b.y, a.z - b.z)
  }

  function Times(k: real, a: Vec): Vec {
    Vec(k * a.x, k * a.y, k * a.z)
  }

  function Dot(a: Vec, b: Vec): real {
    a.x * b.x + a.y * b.y + a.z * b.z
  }

  function Cross(a: Vec, b: Vec): Vec {
    Vec(a.y * b.z - a.z * b.y, a.z * b.x - a.x * b.z, a.x * b.y - a.y * b.x)
  }

  const ZERO := Vec(0.0, 0.0, 0.0)

  function Det(a: Vec, b: Vec, x: Vec): real {
    Dot(Cross(a, b), x)
  }

  // ---- products and determinants ----

  lemma DotPlus(n: Vec, a: Vec, b: Vec)
    ensures Dot(n, Plus(a, b)) == Dot(n, a) + Dot(n, b)
  {
  }

  lemma DotTimes(n: Vec, k: real, a: Vec)
    ensures Dot(n, Times(k, a)) == k * Dot(n, a)
  {
    Distribute(k, n.x * a.x, n.y * a.y, n.z * a.z);
    assert n.x * (k * a.x) == k * (n.x * a.x) && n.y * (k * a.y) == k * (n.y * a.y) &&
      n.z * (k * a.z) == k * (n.z * a.z);
  }

  lemma Distribute(k: real, a: real, b: real, c: real)
    ensures k * (a + b + c) == k * a + k * b + k * c
  {
  }

  lemma DetSwap(a: Vec, b: Vec, x: Vec)
    ensures Det(b, a, x) == -Det(a, b, x)
  {
  }

  lemma DetRepeats(a: Vec, b: Vec)
    ensures Det(a, b, a) == 0.0 && Det(a, b, b) == 0.0
  {
  }

  lemma DetCycles(a: Vec, b: Vec, c: Vec)
    ensures Det(a, b, c) == Det(b, c, a)
  {
    var m := DetExpands(a, b, c);
    var n := DetExpands(b, c, a);
  }

  lemma DotSymmetric(a: Vec, b: Vec)
    ensures Dot(a, b) == Dot(b, a)
  {
  }

  lemma NonNegativeProduct(a: real, b: real)
    requires a >= 0.0 && b >= 0.0
    ensures a * b >= 0.0
  {
  }

  lemma PositiveProduct(a: real, b: real)
    requires a > 0.0 && b > 0.0
    ensures a * b > 0.0
  {
  }

  lemma NegatedProduct(a: real, b: real, c: real)
    requires c == -b
    ensures a * c == -(a * b) && c * a == -(b * a)
  {
  }

  lemma Term(p: real, u: real, v: real, k: real)
    requires p == u - v
    ensures p * k == u * k - v * k
  {
  }

  /** A determinant as its six products. */
  lemma DetExpands(a: Vec, b: Vec, c: Vec) returns (n: Vec)
    ensures n == Cross(a, b)
    ensures Det(a, b, c) == a.y * b.z * c.x - a.z * b.y * c.x + (a.z * b.x * c.y - a.x * b.z * c.y) +
      (a.x * b.y * c.z - a.y * b.x * c.z)
  {
    n := Cross(a, b);
    Term(n.x, a.y * b.z, a.z * b.y, c.x);
    Term(n.y, a.z * b.x, a.x * b.z, c.y);
    Term(n.z, a.x * b.y, a.y * b.x, c.z);
  }

  /** Over the components alone, each component of a cross product under a name of its own. */
  lemma DualNamed(a: Vec, b: Vec, c: Vec, p: real, q: real, n: Vec)
    requires p == b.y * c.z - b.z * c.y && q == c.y * a.z - c.z * a.y
    requires n.y == a.z * b.x - a.x * b.z && n.z == a.x * b.y - a.y * b.x
    ensures p * a.x + q * b.x == n.y * c.y + n.z * c.z
  {
    Term(p, b.y * c.z, b.z * c.y, a.x);
    Term(q, c.y * a.z, c.z * a.y, b.x);
    Term(n.y, a.z * b.x, a.x * b.z, c.y);
    Term(n.z, a.x * b.y, a.y * b.x, c.z);
  }

  /** The cross products of two of three vectors are dual to the third. */
  lemma Dual(a: Vec, b: Vec, c: Vec, p: Vec, q: Vec, n: Vec)
    requires p == Cross(b, c) && q == Cross(c, a) && n == Cross(a, b)
    ensures p.x * a.x + q.x * b.x + n.x * c.x == Dot(n, c)
  {
    DualNamed(a, b, c, p.x, q.x, n);
    DotFromRest(n, c, p.x * a.x + q.x * b.x);
  }

  lemma DotFromRest(n: Vec, c: Vec, rest: real)
    requires rest == n.y * c.y + n.z * c.z
    ensures rest + n.x * c.x == Dot(n, c)
  {
  }

  lemma FlatNamed(a0: real, a1: real, b0: real, b1: real, c0: real, c1: real, p: real, q: real, r: real)
    requires p == b0 * c1 - b1 * c0 && q == c0 * a1 - c1 * a0 && r == a0 * b1 - a1 * b0
    ensures p * a0 + q * b0 + r * c0 == 0.0
  {
    Term(p, b0 * c1, b1 * c0, a0);
    Term(q, c0 * a1, c1 * a0, b0);
    Term(r, a0 * b1, a1 * b0, c0);
  }

  lemma FlatNegated(a0: real, a1: real, b0: real, b1: real, c0: real, c1: real, p: real, q: real, r: real)
    requires p == b1 * c0 - b0 * c1 && q == c1 * a0 - c0 * a1 && r == a1 * b0 - a0 * b1
    ensures p * a0 + q * b0 + r * c0 == 0.0
  {
    Term(p, b1 * c0, b0 * c1, a0);
    Term(q, c1 * a0, c0 * a1, b0);
    Term(r, a1 * b0, a0 * b1, c0);
  }

  lemma DualFlatY(a: Vec, b: Vec, c: Vec, p: Vec, q: Vec, n: Vec)
    requires p == Cross(b, c) && q == Cross(c, a) && n == Cross(a, b)
    ensures p.y * a.x + q.y * b.x + n.y * c.x == 0.0
  {
    FlatNegated(a.x, a.z, b.x, b.z, c.x, c.z, p.y, q.y, n.y);
  }

  lemma DualFlatZ(a: Vec, b: Vec, c: Vec, p: Vec, q: Vec, n: Vec)
    requires p == Cross(b, c) && q == Cross(c, a) && n == Cross(a, b)
    ensures p.z * a.x + q.z * b.x + n.z * c.x == 0.0
  {
    FlatNamed(a.x, a.y, b.x, b.y, c.x, c.y, p.z, q.z, n.z);
  }

  lemma Regroup(p: Vec, q: Vec, r: Vec, x: Vec, a: real, b: real, c: real, e: real, f: real, g: real)
    requires p.x * a + q.x * b + r.x * c == e
    requires p.y * a + q.y * b + r.y * c == f
    requires p.z * a + q.z * b + r.z * c == g
    ensures Dot(p, x) * a + Dot(q, x) * b + Dot(r, x) * c == x.x * e + x.y * f + x.z * g
  {
    Scale(p, x, a);
    Scale(q, x, b);
    Scale(r, x, c);
    Distribute(x.x, p.x * a, q.x * b, r.x * c);
    Distribute(x.y, p.y * a, q.y * b, r.y * c);
    Distribute(x.z, p.z * a, q.z * b, r.z * c);
  }

  lemma Scale(p: Vec, x: Vec, a: real)
    ensures Dot(p, x) * a == x.x * (p.x * a) + x.y * (p.y * a) + x.z * (p.z * a)
  {
    Distribute(a, p.x * x.x, p.y * x.y, p.z * x.z);
    assert a * (p.x * x.x) == x.x * (p.x * a) && a * (p.y * x.y) == x.y * (p.y * a) &&
      a * (p.z * x.z) == x.z * (p.z * a);
  }

  lemma CramerNamed(p: Vec, q: Vec, n: Vec, x: Vec, a: real, b: real, c: real, e: real)
    requires p.x * a + q.x * b + n.x * c == e
    requires p.y * a + q.y * b + n.y * c == 0.0 && p.z * a + q.z * b + n.z * c == 0.0
    ensures Dot(p, x) * a + Dot(q, x) * b + Dot(n, x) * c == x.x * e
  {
    Regroup(p, q, n, x, a, b, c, e, 0.0, 0.0);
  }

  /** The cross products of three vectors two by two, and what they are dual to. */
  lemma Duals(a: Vec, b: Vec, c: Vec) returns (p: Vec, q: Vec, n: Vec, e: real)
    ensures p == Cross(b, c) && q == Cross(c, a) && n == Cross(a, b) && e == Det(a, b, c)
    ensures p.x * a.x + q.x * b.x + n.x * c.x == e
    ensures p.y * a.x + q.y * b.x + n.y * c.x == 0.0 && p.z * a.x + q.z * b.x + n.z * c.x == 0.0
  {
    p, q, n := Cross(b, c), Cross(c, a), Cross(a, b);
    e := Dot(n, c);
    Dual(a, b, c, p, q, n);
    DualFlatY(a, b, c, p, q, n);
    DualFlatZ(a, b, c, p, q, n);
  }

  lemma CramerX(a: Vec, b: Vec, c: Vec, x: Vec)
    ensures Det(b, c, x) * a.x + Det(c, a, x) * b.x + Det(a, b, x) * c.x == x.x * Det(a, b, c)
  {
    var p, q, n, e := Duals(a, b, c);
    CramerNamed(p, q, n, x, a.x, b.x, c.x, e);
  }

  /** The same vector with its coordinates cycled. */
  function Cycled(a: Vec): Vec {
    Vec(a.y, a.z, a.x)
  }

  lemma CycledDet(a: Vec, b: Vec, c: Vec)
    ensures Det(Cycled(a), Cycled(b), Cycled(c)) == Det(a, b, c)
  {
  }

  /** Cramer's rule in three dimensions. */
  lemma Cramer(a: Vec, b: Vec, c: Vec, x: Vec)
    ensures var d, p, q, r := Det(a, b, c), Det(b, c, x), Det(c, a, x), Det(a, b, x);
      && p * a.x + q * b.x + r * c.x == x.x * d
      && p * a.y + q * b.y + r * c.y == x.y * d
      && p * a.z + q * b.z + r * c.z == x.z * d
  {
    CramerX(a, b, c, x);
    CramerCycled(a, b, c, x);
    CramerCycled(Cycled(a), Cycled(b), Cycled(c), Cycled(x));
    CycledDets(a, b, c, x);
  }

  lemma CycledDets(a: Vec, b: Vec, c: Vec, x: Vec)
    ensures Det(Cycled(a), Cycled(b), Cycled(c)) == Det(a, b, c) && Det(Cycled(b), Cycled(c), Cycled(x)) == Det(b, c, x)
    ensures Det(Cycled(c), Cycled(a), Cycled(x)) == Det(c, a, x) && Det(Cycled(a), Cycled(b), Cycled(x)) == Det(a, b, x)
  {
    CycledDet(a, b, c);
    CycledDet(b, c, x);
    CycledDet(c, a, x);
    CycledDet(a, b, x);
  }

  lemma CramerCycled(a: Vec, b: Vec, c: Vec, x: Vec)
    ensures Det(b, c, x) * a.y + Det(c, a, x) * b.y + Det(a, b, x) * c.y == x.y * Det(a, b, c)
  {
    CramerX(Cycled(a), Cycled(b), Cycled(c), Cycled(x));
    CycledDets(a, b, c, x);
  }
}
