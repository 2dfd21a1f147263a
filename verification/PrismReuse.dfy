/**
 Reusing a cached hexagon: the six corners of adjacent faces, re-solved for new offsets, against the
 half-plane criterion, and what that criterion really decides.
 */
module PrismReuse {
  import opened Collections
  import opened Reals
  import opened PrismGeometry
  import opened PrismCorners

  /** The cached corner i lies where faces i and i+1 meet. */
  function Cached(d: Offsets, i: Face): Point {
    Corner(d, i, Turn(i, 1))
  }

  /** How far face i cuts below the vertex its neighbours would make without it. */
  function Gap(d: Offsets, i: Face): real {
    At(d, i, 1) + At(d, i, 5) - d[i]
  }

  /** The local condition: every face reaches no further than its two neighbours allow. */
  ghost predicate Tight(d: Offsets) {
    forall i: Face :: 0.0 <= Gap(d, i)
  }

  ghost predicate StrictlyTight(d: Offsets) {
    forall i: Face :: 0.0 < Gap(d, i)
  }

  lemma CachedMeet(d: Offsets, i: Face)
    ensures Cached(d, i) == Meet(i, d[i], At(d, i, 1))
  {
    var p := Cached(d, i);
    ConstantDeterminant(i, Turn(i, 1));
    CornerMeetsBoth(d, i, Turn(i, 1));
    MeetUnique(i, p);
  }

  lemma GapAround(d: Offsets, i: Face)
    ensures Gap(d, Turn(i, 1)) == d[i] + At(d, i, 2) - At(d, i, 1)
    ensures Gap(d, Turn(i, 2)) == At(d, i, 1) + At(d, i, 3) - At(d, i, 2)
    ensures Gap(d, Turn(i, 3)) == At(d, i, 2) + At(d, i, 4) - At(d, i, 3)
    ensures Gap(d, Turn(i, 5)) == d[i] + At(d, i, 4) - At(d, i, 5)
  {
  }

  /** Cached corner i passes every half-plane when these four inequalities hold. */
  lemma CachedInsideForm(d: Offsets, i: Face)
    ensures Inside(d, Cached(d, i)) <==>
      && 0.0 <= Gap(d, i) && 0.0 <= Gap(d, Turn(i, 1))
      && 0.0 <= d[i] + At(d, i, 3) && 0.0 <= At(d, i, 1) + At(d, i, 4)
  {
    CachedMeet(d, i);
    InsideMeet(d, i, d[i], At(d, i, 1));
    GapAround(d, i);
  }

  lemma TightOpposite(d: Offsets, i: Face)
    ensures Tight(d) ==> 0.0 <= d[i] + At(d, i, 3) && 0.0 <= At(d, i, 1) + At(d, i, 4)
    ensures StrictlyTight(d) ==> 0.0 < d[i] + At(d, i, 3) && 0.0 < At(d, i, 1) + At(d, i, 4)
  {
    GapAround(d, i);
  }

  lemma TightFeasible(d: Offsets)
    requires Tight(d)
    ensures Feasible(d)
    ensures forall i: Face :: Vertex(d, i) == Cached(d, i)
  {
    CachedInsideAll(d);
    InsideImpliesFeasible(d, Cached(d, 0));
    forall i: Face
      ensures Vertex(d, i) == Cached(d, i)
    {
      CachedMeet(d, i);
      VertexForm(d, i);
      GapAround(d, i);
      assert 0.0 <= Gap(d, i) && 0.0 <= Gap(d, Turn(i, 1));
    }
  }

  lemma CachedInsideAll(d: Offsets)
    ensures Tight(d) <==> forall i: Face :: Inside(d, Cached(d, i))
  {
    if Tight(d) {
      forall i: Face
        ensures Inside(d, Cached(d, i))
      {
        CachedInsideForm(d, i);
        TightOpposite(d, i);
      }
    }
    if forall i: Face :: Inside(d, Cached(d, i)) {
      forall i: Face
        ensures 0.0 <= Gap(d, i)
      {
        CachedInsideForm(d, i);
      }
    }
  }

  /** The criterion is sufficient: once it accepts, the corners are exactly the cached six. */
  lemma ReuseExact(d: Offsets, cs: seq<Point>)
    requires Tight(d) && ListsCorners(d, cs)
    ensures forall p :: p in cs <==> exists i: Face :: p == Cached(d, i)
  {
    TightFeasible(d);
    forall p
      ensures p in cs <==> exists i: Face :: p == Cached(d, i)
    {
      if IsCorner(d, p) {
        var i := CornerIsVertex(d, p);
      }
      if i: Face :| p == Cached(d, i) {
        VertexIsCorner(d, i);
      }
    }
  }

  ghost predicate CachedDistinct(d: Offsets) {
    forall i: Face, j: Face :: i != j ==> Cached(d, i) != Cached(d, j)
  }

  /** No face line other than its own two passes through a cached corner. */
  ghost predicate NoOtherFaceTouches(d: Offsets) {
    forall i: Face, m: Face :: m != i && m != Turn(i, 1) ==> !OnFace(d, m, Cached(d, i))
  }

  lemma TouchList(d: Offsets, i: Face)
    ensures OnFace(d, Turn(i, 2), Cached(d, i)) <==> Gap(d, Turn(i, 1)) == 0.0
    ensures OnFace(d, Turn(i, 3), Cached(d, i)) <==> d[i] + At(d, i, 3) == 0.0
    ensures OnFace(d, Turn(i, 4), Cached(d, i)) <==> At(d, i, 1) + At(d, i, 4) == 0.0
    ensures OnFace(d, Turn(i, 5), Cached(d, i)) <==> Gap(d, i) == 0.0
  {
    CachedMeet(d, i);
    GapAround(d, i);
    MeetAlong(i, d[i], At(d, i, 1));
  }

  lemma FaceAround(i: Face, m: Face)
    ensures m == i || m == Turn(i, 1) || m == Turn(i, 2) || m == Turn(i, 3) || m == Turn(i, 4) || m == Turn(i, 5)
  {
  }

  lemma NeighboursCoincide(d: Offsets, i: Face)
    ensures Cached(d, i) == Cached(d, Turn(i, 5)) <==> Gap(d, i) == 0.0
  {
    var j := Turn(i, 5);
    assert Turn(j, 1) == i;
    var p := Cached(d, j);
    var b := d[i] - d[j];
    assert p == Meet(i, d[i], b) by {
      CachedMeet(d, j);
      MeetAlong(j, d[j], At(d, j, 1));
      assert Turn(j, 2) == Turn(i, 1);
      MeetUnique(i, p);
    }
    CachedMeet(d, i);
    MeetDistinct(i, d[i], b, At(d, i, 1));
  }

  /** A cached corner off the other faces is clear of the corners on them. */
  lemma ClearOfOthers(d: Offsets, i: Face, j: Face)
    requires NoOtherFaceTouches(d) && i != j
    ensures Cached(d, i) != Cached(d, j)
  {
    var m := if j == Turn(i, 1) then Turn(j, 1) else j;
    assert m != i && m != Turn(i, 1);
    CornerMeetsBoth(d, j, Turn(j, 1));
  }

  /** Distinctness, freedom from concurrency and strict locality are one condition. */
  lemma CachedDistinctIff(d: Offsets)
    requires Tight(d)
    ensures CachedDistinct(d) <==> NoOtherFaceTouches(d)
    ensures CachedDistinct(d) <==> StrictlyTight(d)
  {
    if CachedDistinct(d) {
      forall i: Face
        ensures 0.0 < Gap(d, i)
      {
        NeighboursCoincide(d, i);
        assert Cached(d, i) != Cached(d, Turn(i, 5));
      }
    }
    if StrictlyTight(d) {
      forall i: Face, m: Face | m != i && m != Turn(i, 1)
        ensures !OnFace(d, m, Cached(d, i))
      {
        FaceAround(i, m);
        TouchList(d, i);
        TightOpposite(d, i);
      }
    }
    if NoOtherFaceTouches(d) {
      forall i: Face, j: Face | i != j
        ensures Cached(d, i) != Cached(d, j)
      {
        ClearOfOthers(d, i, j);
      }
    }
  }

  lemma SixDistinct(d: Offsets, cs: seq<Point>)
    requires StrictlyTight(d) && ListsCorners(d, cs)
    ensures |cs| == 6
  {
    ReuseExact(d, cs);
    CachedDistinctIff(d);
    var six := [Cached(d, 0), Cached(d, 1), Cached(d, 2), Cached(d, 3), Cached(d, 4), Cached(d, 5)];
    assert forall i: Face :: six[i] == Cached(d, i);
    DistinctCount(six);
    DistinctCount(cs);
    assert forall p :: p in six ==> p in cs;
    SubsetSize(Elements(six), Elements(cs));
    AtMostSix(d, cs);
  }

  lemma MergeValues(x0: real, x1: real, x2: real, x4: real, x5: real)
    requires x1 + x5 <= x0 && 0.0 <= x2 + x5 && 0.0 <= x1 + x4
    ensures Min(x0, x1 + x5) == x1 + x5 && Min(x1, x0 + x2) == x1 && Min(x5, x0 + x4) == x5
  {
  }

  /** A face that its neighbours cut off merges the two vertices next to it. */
  lemma VerticesMerge(d: Offsets, i: Face)
    requires Feasible(d) && Gap(d, i) <= 0.0
    ensures Vertex(d, i) == Vertex(d, Turn(i, 5))
  {
    var j: Face := Turn(i, 5);
    var x1, x5 := At(d, i, 1), At(d, i, 5);
    FeasibleAround(d, i);
    MergeValues(d[i], x1, At(d, i, 2), At(d, i, 4), x5);
    assert Vertex(d, i) == Meet(i, x1 + x5, x1) by { VertexForm(d, i); }
    assert Vertex(d, j) == Meet(j, x5, x1 + x5) by {
      ReachAround(d, i, 5);
      assert Turn(j, 1) == i;
    }
    MeetTurned(i, x1, x5);
  }

  lemma MeetTurned(i: Face, x1: real, x5: real)
    ensures Meet(i, x1 + x5, x1) == Meet(Turn(i, 5), x5, x1 + x5)
  {
  }

  lemma FewerThanSix(d: Offsets, cs: seq<Point>, i: Face)
    requires ListsCorners(d, cs) && Feasible(d) && Gap(d, i) <= 0.0
    ensures |cs| <= 5
  {
    var five := {Vertex(d, Turn(i, 1)), Vertex(d, Turn(i, 2)), Vertex(d, Turn(i, 3)), Vertex(d, Turn(i, 4)),
      Vertex(d, Turn(i, 5))};
    forall p | p in cs
      ensures p in five
    {
      var k := CornerIsVertex(d, p);
      VerticesMerge(d, i);
      FaceAround(i, k);
    }
    DistinctCount(cs);
    SubsetSize(Elements(cs), five);
  }

  /** The hexagon the cache describes is the true topology exactly when every gap is open. */
  lemma SixCornersIff(d: Offsets, cs: seq<Point>)
    requires ListsCorners(d, cs)
    ensures |cs| == 6 <==> StrictlyTight(d)
  {
    if StrictlyTight(d) {
      SixDistinct(d, cs);
    } else if cs != [] {
      assert cs[0] in cs;
      InsideImpliesFeasible(d, cs[0]);
      var i: Face :| Gap(d, i) <= 0.0;
      FewerThanSix(d, cs, i);
    }
  }

  lemma PresentIsTight(d: Offsets, i: Face)
    requires FacePresent(d, i)
    ensures 0.0 < Gap(d, i)
  {
    FacePresentIff(d, i);
  }

  lemma AllPresentIff(d: Offsets)
    ensures StrictlyTight(d) <==> forall i: Face :: FacePresent(d, i)
  {
    if StrictlyTight(d) {
      forall i: Face
        ensures FacePresent(d, i)
      {
        FacePresentIff(d, i);
        TightOpposite(d, i);
        TightOpposite(d, Turn(i, 1));
        TightOpposite(d, Turn(i, 4));
        TightFeasible(d);
        assert 0.0 < Gap(d, i) && 0.0 < Gap(d, Turn(i, 1));
        GapAround(d, i);
      }
    }
    if forall i: Face :: FacePresent(d, i) {
      forall i: Face
        ensures 0.0 < Gap(d, i)
      {
        PresentIsTight(d, i);
      }
    }
  }

  /** Criterion 1 as the benchmark runs it: each cached corner against each half-plane. */
  method CriterionOne(dist: Offsets) returns (cacheValid: bool, cachedCorners: nat)
    ensures cacheValid <==> Tight(dist)
    ensures cacheValid ==> cachedCorners == 6
  {
    cacheValid, cachedCorners := true, 0;
    var i := 0;
    while i < 6 && cacheValid
      invariant 0 <= i <= 6 && cachedCorners == i
      invariant cacheValid ==> forall k: Face :: k < i ==> Inside(dist, Cached(dist, k))
      invariant !cacheValid ==> exists k: Face :: !Inside(dist, Cached(dist, k))
    {
      var j := (i + 1) % 6;
      TurnIsModulo(i, 1);
      ConstantDeterminant(i, j);
      var det, p := Intersect(Cos2(i), Sin2(i), 2.0 * dist[i], Cos2(j), Sin2(j), 2.0 * dist[j]);
      CornerByProducts(dist, i, j, p);
      assert p == Cached(dist, i);
      cachedCorners := cachedCorners + 1;
      for m := 0 to 6
        invariant cacheValid ==> forall k: Face :: k < m ==> Along(p, k) <= 2.0 * dist[k]
        invariant !cacheValid ==> !Inside(dist, p)
      {
        AlongIsHeight(p, m);
        if Height(p.u, p.v, Cos2(m), Sin2(m)) > 2.0 * dist[m] {
          cacheValid := false;
          break;
        }
      }
      i := i + 1;
    }
    CachedInsideAll(dist);
  }
}
