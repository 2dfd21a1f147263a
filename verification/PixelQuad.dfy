/**
 Membership of a direction in a spherical quadrilateral given by four corners in cyclic order: one
 side of the corners' sum, and one sign over the four edge determinants (zero allowed).
 */
module PixelQuad {
  import opened Vectors

  type Quad = c: seq<Vec> | |c| == 4 witness [ZERO, ZERO, ZERO, ZERO]

  function Total(c: Quad): Vec {
    Plus(Plus(Plus(c[0], c[1]), c[2]), c[3])
  }

  /** The side of edge k (from corner k to the next) on which x lies. */
  function Side(c: Quad, k: int, x: Vec): real
    requires 0 <= k < 4
  {
    Det(c[k], c[if k == 3 then 0 else k + 1], x)
  }

  ghost predicate Contains(c: Quad, x: Vec) {
    && Dot(x, Total(c)) > 0.0
    && !((exists k :: 0 <= k < 4 && Side(c, k, x) > 0.0) && (exists k :: 0 <= k < 4 && Side(c, k, x) < 0.0))
  }

  method PixelContains(corners: Quad, x: Vec) returns (inside: bool)
    ensures inside <==> Contains(corners, x)
  {
    var sum := Vec(0.0, 0.0, 0.0);
    for k := 0 to 4
      invariant k == 1 ==> sum == corners[0]
      invariant k == 2 ==> sum == Plus(corners[0], corners[1])
      invariant k == 3 ==> sum == Plus(Plus(corners[0], corners[1]), corners[2])
      invariant k == 4 ==> sum == Total(corners)
      invariant k == 0 ==> sum == Vec(0.0, 0.0, 0.0)
    {
      sum := Plus(sum, corners[k]);
    }
    if !(Dot(x, sum) > 0.0) {
      return false;
    }
    var positive, negative := false, false;
    for k := 0 to 4
      invariant positive <==> exists j :: 0 <= j < k && Side(corners, j, x) > 0.0
      invariant negative <==> exists j :: 0 <= j < k && Side(corners, j, x) < 0.0
    {
      var det := Side(corners, k, x);
      positive := positive || det > 0.0;
      negative := negative || det < 0.0;
    }
    inside := !(positive && negative);
  }

  // ---- the corner cycle ----

  function Rotated(c: Quad): Quad {
    [c[1], c[2], c[3], c[0]]
  }

  function Reversed(c: Quad): Quad {
    [c[3], c[2], c[1], c[0]]
  }

  /** Starting the cycle at another corner changes nothing. */
  lemma RotationInvariant(c: Quad, x: Vec)
    ensures Contains(Rotated(c), x) <==> Contains(c, x)
  {
    var r := Rotated(c);
    assert Total(r) == Total(c);
    assert Side(r, 0, x) == Side(c, 1, x) && Side(r, 1, x) == Side(c, 2, x) && Side(r, 2, x) == Side(c, 3, x) &&
      Side(r, 3, x) == Side(c, 0, x);
  }

  /** Either orientation of the corners describes the same pixel. */
  lemma ReversalInvariant(c: Quad, x: Vec)
    ensures Contains(Reversed(c), x) <==> Contains(c, x)
  {
    var r := Reversed(c);
    assert Total(r) == Total(c);
    ReversedSides(c, x);
  }

  lemma ReversedSides(c: Quad, x: Vec)
    ensures Side(Reversed(c), 0, x) == -Side(c, 2, x) && Side(Reversed(c), 1, x) == -Side(c, 1, x)
    ensures Side(Reversed(c), 2, x) == -Side(c, 0, x) && Side(Reversed(c), 3, x) == -Side(c, 3, x)
  {
    DetSwap(c[2], c[3], x);
    DetSwap(c[1], c[2], x);
    DetSwap(c[0], c[1], x);
    DetSwap(c[3], c[0], x);
  }

  // ---- the cone the corners span ----

  datatype Weights = Weights(w0: real, w1: real, w2: real, w3: real)

  function Combine(w: Weights, c: Quad): Vec {
    Plus(Plus(Times(w.w0, c[0]), Times(w.w1, c[1])), Plus(Times(w.w2, c[2]), Times(w.w3, c[3])))
  }

  ghost predicate NonNegative(w: Weights) {
    w.w0 >= 0.0 && w.w1 >= 0.0 && w.w2 >= 0.0 && w.w3 >= 0.0
  }

  /** A nonzero non-negative combination of the corners. */
  ghost predicate InCone(c: Quad, x: Vec) {
    x != ZERO && exists w :: NonNegative(w) && x == Combine(w, c)
  }

  /** The two corners off edge k lie strictly on its positive side, for every edge. */
  ghost predicate CounterClockwise(c: Quad) {
    && Side(c, 0, c[2]) > 0.0 && Side(c, 0, c[3]) > 0.0
    && Side(c, 1, c[3]) > 0.0 && Side(c, 1, c[0]) > 0.0
    && Side(c, 2, c[0]) > 0.0 && Side(c, 2, c[1]) > 0.0
    && Side(c, 3, c[1]) > 0.0 && Side(c, 3, c[2]) > 0.0
  }

  ghost predicate StrictlyConvex(c: Quad) {
    CounterClockwise(c) || CounterClockwise(Reversed(c))
  }

  ghost predicate FacesItsSum(c: Quad) {
    forall k :: 0 <= k < 4 ==> Dot(c[k], Total(c)) > 0.0
  }

  lemma DotLinear(n: Vec, w: Weights, c: Quad)
    ensures Dot(n, Combine(w, c)) ==
      w.w0 * Dot(n, c[0]) + w.w1 * Dot(n, c[1]) + w.w2 * Dot(n, c[2]) + w.w3 * Dot(n, c[3])
  {
    var t0, t1, t2, t3 := Times(w.w0, c[0]), Times(w.w1, c[1]), Times(w.w2, c[2]), Times(w.w3, c[3]);
    assert Dot(n, t0) == w.w0 * Dot(n, c[0]) by { DotTimes(n, w.w0, c[0]); }
    assert Dot(n, t1) == w.w1 * Dot(n, c[1]) by { DotTimes(n, w.w1, c[1]); }
    assert Dot(n, t2) == w.w2 * Dot(n, c[2]) by { DotTimes(n, w.w2, c[2]); }
    assert Dot(n, t3) == w.w3 * Dot(n, c[3]) by { DotTimes(n, w.w3, c[3]); }
    FourDots(n, t0, t1, t2, t3);
  }

  lemma FourDots(n: Vec, a: Vec, b: Vec, c: Vec, d: Vec)
    ensures Dot(n, Plus(Plus(a, b), Plus(c, d))) == Dot(n, a) + Dot(n, b) + Dot(n, c) + Dot(n, d)
  {
    DotPlus(n, Plus(a, b), Plus(c, d));
    DotPlus(n, a, b);
    DotPlus(n, c, d);
  }

  // ---- membership is membership of the cone ----

  lemma DivideOut(p: real, q: real, r: real, d: real, a: real, b: real, c: real, x: real)
    requires d > 0.0 && p * a + q * b + r * c == x * d
    ensures p / d * a + q / d * b + r / d * c == x
  {
    var u, v, w := p / d, q / d, r / d;
    assert u * d == p && v * d == q && w * d == r;
    assert (u * a + v * b + w * c) * d == p * a + q * b + r * c;
    assert (u * a + v * b + w * c - x) * d == 0.0;
  }

  lemma InTriangle(a: Vec, b: Vec, c: Vec, x: Vec) returns (p: real, q: real, r: real)
    requires Det(a, b, c) > 0.0 && Det(b, c, x) >= 0.0 && Det(c, a, x) >= 0.0 && Det(a, b, x) >= 0.0
    ensures p >= 0.0 && q >= 0.0 && r >= 0.0
    ensures x.x == p * a.x + q * b.x + r * c.x && x.y == p * a.y + q * b.y + r * c.y &&
      x.z == p * a.z + q * b.z + r * c.z
  {
    var d, s, t, u := Det(a, b, c), Det(b, c, x), Det(c, a, x), Det(a, b, x);
    Cramer(a, b, c, x);
    p, q, r := s / d, t / d, u / d;
    DivideOut(s, t, u, d, a.x, b.x, c.x, x.x);
    DivideOut(s, t, u, d, a.y, b.y, c.y, x.y);
    DivideOut(s, t, u, d, a.z, b.z, c.z, x.z);
  }

  ghost predicate AllSides(c: Quad, x: Vec) {
    Side(c, 0, x) >= 0.0 && Side(c, 1, x) >= 0.0 && Side(c, 2, x) >= 0.0 && Side(c, 3, x) >= 0.0
  }

  /** On the inner side of every edge, a direction lies in one of the two triangles of the diagonal. */
  lemma InnerIsCombination(c: Quad, x: Vec) returns (w: Weights)
    requires CounterClockwise(c) && AllSides(c, x)
    ensures NonNegative(w) && x == Combine(w, c)
  {
    if Det(c[2], c[0], x) >= 0.0 {
      var p, q, r := InTriangle(c[0], c[1], c[2], x);
      w := Weights(p, q, r, 0.0);
    } else {
      DetSwap(c[2], c[0], x);
      DetCycles(c[0], c[2], c[3]);
      var p, q, r := InTriangle(c[0], c[2], c[3], x);
      w := Weights(p, 0.0, q, r);
    }
  }

  lemma CombinationIsInner(c: Quad, w: Weights)
    requires CounterClockwise(c) && NonNegative(w)
    ensures AllSides(c, Combine(w, c))
  {
    SideOfCombination(c, 0, w);
    SideOfCombination(c, 1, w);
    SideOfCombination(c, 2, w);
    SideOfCombination(c, 3, w);
  }

  lemma SideOfCombination(c: Quad, k: int, w: Weights)
    requires 0 <= k < 4 && CounterClockwise(c) && NonNegative(w)
    ensures Side(c, k, Combine(w, c)) >= 0.0
  {
    var n := Cross(c[k], c[if k == 3 then 0 else k + 1]);
    DetRepeats(c[k], c[if k == 3 then 0 else k + 1]);
    DotLinear(n, w, c);
    NonNegativeSum(w, Dot(n, c[0]), Dot(n, c[1]), Dot(n, c[2]), Dot(n, c[3]));
  }

  lemma NonNegativeSum(w: Weights, a: real, b: real, c: real, d: real)
    requires NonNegative(w) && a >= 0.0 && b >= 0.0 && c >= 0.0 && d >= 0.0
    ensures w.w0 * a + w.w1 * b + w.w2 * c + w.w3 * d >= 0.0
  {
    NonNegativeProduct(w.w0, a);
    NonNegativeProduct(w.w1, b);
    NonNegativeProduct(w.w2, c);
    NonNegativeProduct(w.w3, d);
  }

  lemma PositiveSum(w: Weights, a: real, b: real, c: real, d: real)
    requires NonNegative(w) && a > 0.0 && b > 0.0 && c > 0.0 && d > 0.0
    requires w != Weights(0.0, 0.0, 0.0, 0.0)
    ensures w.w0 * a + w.w1 * b + w.w2 * c + w.w3 * d > 0.0
  {
    NonNegativeSum(w, a, b, c, d);
    NonNegativeProduct(w.w0, a);
    NonNegativeProduct(w.w1, b);
    NonNegativeProduct(w.w2, c);
    NonNegativeProduct(w.w3, d);
    if w.w0 > 0.0 {
      PositiveProduct(w.w0, a);
    } else if w.w1 > 0.0 {
      PositiveProduct(w.w1, b);
    } else if w.w2 > 0.0 {
      PositiveProduct(w.w2, c);
    } else {
      PositiveProduct(w.w3, d);
    }
  }

  /** The product of a combination with the corners' sum, corner by corner. */
  lemma SumDot(c: Quad, w: Weights) returns (d0: real, d1: real, d2: real, d3: real)
    ensures d0 == Dot(c[0], Total(c)) && d1 == Dot(c[1], Total(c)) && d2 == Dot(c[2], Total(c)) &&
      d3 == Dot(c[3], Total(c))
    ensures Dot(Combine(w, c), Total(c)) == w.w0 * d0 + w.w1 * d1 + w.w2 * d2 + w.w3 * d3
  {
    var t := Total(c);
    d0, d1, d2, d3 := Dot(t, c[0]), Dot(t, c[1]), Dot(t, c[2]), Dot(t, c[3]);
    DotLinear(t, w, c);
    assert Dot(t, Combine(w, c)) == Dot(Combine(w, c), t) by { DotSymmetric(t, Combine(w, c)); }
    assert d0 == Dot(c[0], t) by { DotSymmetric(t, c[0]); }
    assert d1 == Dot(c[1], t) by { DotSymmetric(t, c[1]); }
    assert d2 == Dot(c[2], t) by { DotSymmetric(t, c[2]); }
    assert d3 == Dot(c[3], t) by { DotSymmetric(t, c[3]); }
  }

  lemma CombinationHeight(c: Quad, w: Weights)
    requires FacesItsSum(c) && NonNegative(w)
    ensures Dot(Combine(w, c), Total(c)) >= 0.0
    ensures w != Weights(0.0, 0.0, 0.0, 0.0) ==> Dot(Combine(w, c), Total(c)) > 0.0
  {
    var d0, d1, d2, d3 := SumDot(c, w);
    assert d0 > 0.0 && d1 > 0.0 && d2 > 0.0 && d3 > 0.0;
    NonNegativeSum(w, d0, d1, d2, d3);
    if w != Weights(0.0, 0.0, 0.0, 0.0) {
      PositiveSum(w, d0, d1, d2, d3);
    }
  }

  function Negated(x: Vec): Vec {
    Vec(-x.x, -x.y, -x.z)
  }

  lemma NegatedDots(n: Vec, x: Vec)
    ensures Dot(n, Negated(x)) == -Dot(n, x) && Dot(Negated(x), n) == -Dot(x, n)
  {
    var y := Negated(x);
    NegatedProduct(n.x, x.x, y.x);
    NegatedProduct(n.y, x.y, y.y);
    NegatedProduct(n.z, x.z, y.z);
  }

  lemma NegatedSides(c: Quad, x: Vec)
    ensures forall k :: 0 <= k < 4 ==> Side(c, k, Negated(x)) == -Side(c, k, x)
  {
    forall k | 0 <= k < 4
      ensures Side(c, k, Negated(x)) == -Side(c, k, x)
    {
      NegatedDots(Cross(c[k], c[if k == 3 then 0 else k + 1]), x);
    }
  }

  lemma ZeroWeights(c: Quad)
    ensures Combine(Weights(0.0, 0.0, 0.0, 0.0), c) == ZERO
  {
  }

  /** One sign over the edges means inner or, through the origin, opposite to inner. */
  lemma OneSign(c: Quad, x: Vec)
    ensures !((exists k :: 0 <= k < 4 && Side(c, k, x) > 0.0) && (exists k :: 0 <= k < 4 && Side(c, k, x) < 0.0))
       <==> AllSides(c, x) || AllSides(c, Negated(x))
  {
    NegatedSides(c, x);
    if !AllSides(c, x) {
      assert exists k :: 0 <= k < 4 && Side(c, k, x) < 0.0;
    }
    if !AllSides(c, Negated(x)) {
      assert exists k :: 0 <= k < 4 && Side(c, k, x) > 0.0;
    }
  }

  lemma ConeIsContained(c: Quad, w: Weights)
    requires CounterClockwise(c) && FacesItsSum(c) && NonNegative(w) && Combine(w, c) != ZERO
    ensures Contains(c, Combine(w, c))
  {
    var x := Combine(w, c);
    CombinationIsInner(c, w);
    OneSign(c, x);
    if w == Weights(0.0, 0.0, 0.0, 0.0) {
      ZeroWeights(c);
    }
    CombinationHeight(c, w);
  }

  lemma ZeroDot(n: Vec)
    ensures Dot(ZERO, n) == 0.0
  {
  }

  lemma ContainedIsCone(c: Quad, x: Vec)
    requires CounterClockwise(c) && FacesItsSum(c) && Contains(c, x)
    ensures InCone(c, x)
  {
    OneSign(c, x);
    ZeroDot(Total(c));
    if AllSides(c, x) {
      var w := InnerIsCombination(c, x);
    } else {
      var w := InnerIsCombination(c, Negated(x));
      CombinationHeight(c, w);
      NegatedDots(Total(c), x);
      assert false;
    }
  }

  lemma ReversedCone(c: Quad, x: Vec)
    requires InCone(c, x)
    ensures InCone(Reversed(c), x)
  {
    var w :| NonNegative(w) && x == Combine(w, c);
    var v := Weights(w.w3, w.w2, w.w1, w.w0);
    assert Combine(v, Reversed(c)) == x;
  }

  /** A strictly convex pixel whose corners face their sum accepts exactly the directions its corners span. */
  lemma ContainsIffCone(c: Quad, x: Vec)
    requires StrictlyConvex(c) && FacesItsSum(c)
    ensures Contains(c, x) <==> InCone(c, x)
  {
    if CounterClockwise(c) {
      ContainsIffConeOriented(c, x);
    } else {
      var r := Reversed(c);
      assert Total(r) == Total(c);
      assert FacesItsSum(r);
      ContainsIffConeOriented(r, x);
      ReversalInvariant(c, x);
      assert Reversed(r) == c;
      if InCone(c, x) {
        ReversedCone(c, x);
      }
      if InCone(r, x) {
        ReversedCone(r, x);
      }
    }
  }

  lemma ContainsIffConeOriented(c: Quad, x: Vec)
    requires CounterClockwise(c) && FacesItsSum(c)
    ensures Contains(c, x) <==> InCone(c, x)
  {
    if Contains(c, x) {
      ContainedIsCone(c, x);
    }
    if InCone(c, x) {
      var w :| NonNegative(w) && x == Combine(w, c);
      ConeIsContained(c, w);
    }
  }
}
