/**
 Uniform erosion: every face moves in by the same inset m.  When does each face die, and does its
 death depend on its neighbours alone?
 */
module PrismErosion {
  import opened Reals
  import opened PrismGeometry
  import opened PrismCorners
  import opened PrismReuse
  import ClosedFormPrism

  function Erode(d: Offsets, m: real): Offsets {
    [d[0] - m, d[1] - m, d[2] - m, d[3] - m, d[4] - m, d[5] - m]
  }

  lemma ErodeAt(d: Offsets, m: real, i: Face, k: Face)
    ensures At(Erode(d, m), i, k) == At(d, i, k) - m
    ensures Gap(Erode(d, m), i) == Gap(d, i) - m
  {
  }

  /** The inset from which face i is gone, were it not for touching opposite faces. */
  function DeathBound(d: Offsets, i: Face): real {
    Min(Gap(d, i), FarBound(d, i))
  }

  /** What the faces beyond the neighbours impose on face i. */
  function FarBound(d: Offsets, i: Face): real {
    Min((At(d, i, 2) + At(d, i, 5)) / 2.0,
        Min((At(d, i, 1) + At(d, i, 4)) / 2.0, (d[i] + At(d, i, 2) + At(d, i, 4)) / 3.0))
  }

  /** Face i is present at inset m exactly below its death bound and not beyond its opposite face. */
  lemma PresentWhileEroding(d: Offsets, m: real, i: Face)
    ensures FacePresent(Erode(d, m), i) <==> m < DeathBound(d, i) && m <= (d[i] + At(d, i, 3)) / 2.0
  {
    FacePresentIff(Erode(d, m), i);
    ErodeAt(d, m, i, 0);
    ErodeAt(d, m, i, 1);
    ErodeAt(d, m, i, 2);
    ErodeAt(d, m, i, 3);
    ErodeAt(d, m, i, 4);
    ErodeAt(d, m, i, 5);
  }

  lemma DeadStaysDead(d: Offsets, m: real, m': real, i: Face)
    requires m <= m' && !FacePresent(Erode(d, m), i)
    ensures !FacePresent(Erode(d, m'), i)
  {
    PresentWhileEroding(d, m, i);
    PresentWhileEroding(d, m', i);
  }

  /** Between two living neighbours the death of face i is a local event. */
  lemma LocalWhileNeighboursLive(d: Offsets, m: real, i: Face)
    requires FacePresent(Erode(d, m), Turn(i, 1)) && FacePresent(Erode(d, m), Turn(i, 5))
    ensures FacePresent(Erode(d, m), i) <==> d[i] - m < (At(d, i, 1) - m) + (At(d, i, 5) - m)
  {
    var e := Erode(d, m);
    FacePresentIff(e, Turn(i, 1));
    FacePresentIff(e, Turn(i, 5));
    PresentAround(e, i, 1);
    PresentAround(e, i, 5);
    BetweenNeighbours(e, i);
    FacePresentIff(e, i);
    ErodeAt(d, m, i, 0);
  }

  lemma AtShift(d: Offsets, i: Face, k: Face, n: Face)
    ensures At(d, Turn(i, k), n) == At(d, i, Turn(k, n))
  {
    assert Turn(Turn(i, k), n) == Turn(i, Turn(k, n));
  }

  lemma PresentAround(d: Offsets, i: Face, k: Face)
    requires PresentForm(d, Turn(i, k))
    ensures At(d, i, k) < At(d, i, Turn(k, 1)) + At(d, i, Turn(k, 5))
    ensures 0.0 < At(d, i, Turn(k, 2)) + At(d, i, Turn(k, 5))
    ensures 0.0 < At(d, i, Turn(k, 1)) + At(d, i, Turn(k, 4))
  {
    AtShift(d, i, k, 1);
    AtShift(d, i, k, 2);
    AtShift(d, i, k, 4);
    AtShift(d, i, k, 5);
  }

  /** What two living neighbours leave to decide about face i: its own gap. */
  lemma BetweenNeighbours(d: Offsets, i: Face)
    requires At(d, i, 1) < At(d, i, 2) + At(d, i, 0) && 0.0 < At(d, i, 3) + At(d, i, 0) &&
      0.0 < At(d, i, 2) + At(d, i, 5)
    requires At(d, i, 5) < At(d, i, 0) + At(d, i, 4) && 0.0 < At(d, i, 1) + At(d, i, 4)
    ensures PresentForm(d, i) <==> 0.0 < Gap(d, i)
  {
  }

  function Least(d: Offsets): real {
    Min(Gap(d, 0), Min(Gap(d, 1), Min(Gap(d, 2), Min(Gap(d, 3), Min(Gap(d, 4), Gap(d, 5))))))
  }

  lemma LeastIsLeast(d: Offsets, m: real)
    ensures m < Least(d) <==> forall i: Face :: m < Gap(d, i)
    ensures exists i: Face :: Least(d) == Gap(d, i)
  {
    if m < Least(d) {
      forall i: Face
        ensures m < Gap(d, i)
      {
        assert i == 0 || i == 1 || i == 2 || i == 3 || i == 4 || i == 5;
      }
    }
  }

  /** All six faces live until the least gap closes, and at that inset a face whose gap is least is dead. */
  lemma FirstDeath(d: Offsets, m: real)
    ensures m < Least(d) <==> forall i: Face :: FacePresent(Erode(d, m), i)
    ensures exists i: Face :: Least(d) == Gap(d, i) && !FacePresent(Erode(d, Least(d)), i)
  {
    var e := Erode(d, m);
    LeastIsLeast(d, m);
    AllPresentIff(e);
    forall i: Face
      ensures Gap(e, i) == Gap(d, i) - m
    {
      ErodeAt(d, m, i, 0);
    }
    var i: Face :| Least(d) == Gap(d, i);
    PresentWhileEroding(d, Least(d), i);
  }

  /** Face i's death is set by its own gap alone, for every inset. */
  ghost predicate DiesLocally(d: Offsets, i: Face) {
    forall m :: FacePresent(Erode(d, m), i) <==> m < Gap(d, i)
  }

  /** The benchmark's locality assumption, with the exact condition under which it holds. */
  lemma DiesLocallyIff(d: Offsets, i: Face)
    ensures DiesLocally(d, i) <==> Gap(d, i) <= FarBound(d, i) && Gap(d, i) <= (d[i] + At(d, i, 3)) / 2.0
  {
    var far := Min(FarBound(d, i), (d[i] + At(d, i, 3)) / 2.0);
    forall m
      ensures FacePresent(Erode(d, m), i) <==> m < DeathBound(d, i) && m <= (d[i] + At(d, i, 3)) / 2.0
    {
      PresentWhileEroding(d, m, i);
    }
    if far < Gap(d, i) {
      var m := (far + Gap(d, i)) / 2.0;
      assert m < Gap(d, i) && !FacePresent(Erode(d, m), i);
    }
  }

  /** The benchmark's own perturbation, 0.3 on faces i+2 and i+3, keeps face 0 alive longer here. */
  lemma FarFaceMatters()
    ensures
      var d: Offsets := [1.0, 1.1, 1.0, 1.0, 1.0, 1.1];
      var d': Offsets := d[2 := 1.3][3 := 1.3];
      && FacePresent(Erode(d', 1.02), 0) && !FacePresent(Erode(d, 1.02), 0)
      && Gap(d, 0) == Gap(d', 0)
  {
    var d: Offsets := [1.0, 1.1, 1.0, 1.0, 1.0, 1.1];
    PresentWhileEroding(d, 1.02, 0);
    PresentWhileEroding(d[2 := 1.3][3 := 1.3], 1.02, 0);
  }

  /** The insets the scan tries: `kSteps` equal steps up to the largest offset. */
  function Inset(maxD: real, step: nat, kSteps: nat): real
    requires kSteps > 0
  {
    maxD * (step as real) / (kSteps as real)
  }

  lemma InsetIs(m: real, maxD: real, step: nat, kSteps: nat)
    requires kSteps > 0 && m * (kSteps as real) == maxD * (step as real)
    ensures Inset(maxD, step, kSteps) == m
  {
  }

  lemma InsetGrows(maxD: real, a: nat, b: nat, kSteps: nat)
    requires kSteps > 0 && maxD >= 0.0 && a <= b
    ensures 0.0 <= Inset(maxD, a, kSteps) <= Inset(maxD, b, kSteps)
  {
    var x, y, k := maxD * (a as real), maxD * (b as real), kSteps as real;
    assert 0.0 <= x <= y;
    assert x / k <= y / k;
  }

  /**
   `death` is what a scan up to (not including) `steps` must have recorded for face i: nothing, or the inset tried
   that is the first without it.
   */
  ghost predicate Recorded(d: Offsets, i: Face, maxD: real, steps: nat, kSteps: nat, death: real)
    requires kSteps > 0
  {
    && (if death < 0.0 then death == -1.0
        else exists first: nat :: first < steps && death == Inset(maxD, first, kSteps))
    && forall step: nat :: step < steps ==>
      (FacePresent(Erode(d, Inset(maxD, step, kSteps)), i) <==> death < 0.0 || Inset(maxD, step, kSteps) < death)
  }

  lemma RecordNext(d: Offsets, i: Face, maxD: real, steps: nat, kSteps: nat, death: real, death': real)
    requires kSteps > 0 && maxD >= 0.0 && Recorded(d, i, maxD, steps, kSteps, death)
    requires var m := Inset(maxD, steps, kSteps);
      death' == if death < 0.0 && !FacePresent(Erode(d, m), i) then m else death
    ensures Recorded(d, i, maxD, steps + 1, kSteps, death')
  {
    var m := Inset(maxD, steps, kSteps);
    InsetGrows(maxD, 0, steps, kSteps);
    forall step: nat | step < steps + 1
      ensures FacePresent(Erode(d, Inset(maxD, step, kSteps)), i) <==>
        death' < 0.0 || Inset(maxD, step, kSteps) < death'
    {
      InsetGrows(maxD, step, steps, kSteps);
      if step < steps && death < 0.0 && Inset(maxD, step, kSteps) == m {
        assert FacePresent(Erode(d, m), i);
      }
      if step == steps && death >= 0.0 {
        var first: nat :| first < steps && death == Inset(maxD, first, kSteps);
        InsetGrows(maxD, first, steps, kSteps);
        DeadStaysDead(d, death, m, i);
      }
    }
  }

  /** Scan the insets and record for each face the first at which it is gone (-1 if it survives). */
  method FindDeath(d: Offsets, maxD: real, kSteps: nat) returns (death: array<real>)
    requires maxD >= 0.0 && kSteps > 0
    ensures death.Length == 6
    ensures forall i: Face :: Recorded(d, i, maxD, kSteps + 1, kSteps, death[i])
  {
    death := new real[6](_ => -1.0);
    for step := 0 to kSteps + 1
      invariant forall i: Face :: Recorded(d, i, maxD, step, kSteps, death[i])
    {
      var m := Inset(maxD, step, kSteps);
      var x, y, n, facePresent, minAbsDet := ClosedFormPrism.ClosedFormPrism(Erode(d, m));
      ghost var before := death[..];
      for i := 0 to 6
        invariant forall k: Face :: facePresent[k] <==> FacePresent(Erode(d, m), k)
        invariant forall k: Face :: k < i ==>
          death[k] == (if before[k] < 0.0 && !FacePresent(Erode(d, m), k) then m else before[k])
        invariant forall k: Face :: i <= k ==> death[k] == before[k]
      {
        if death[i] < 0.0 && !facePresent[i] {
          death[i] := m;
        }
      }
      forall i: Face
        ensures Recorded(d, i, maxD, step + 1, kSteps, death[i])
      {
        RecordNext(d, i, maxD, step, kSteps, before[i], death[i]);
      }
    }
  }

  /**
   The scan records the first death at the first inset, `step` of `kSteps` parts of the largest, to reach the least
   gap.
   */
  lemma ScanFindsLeastGap(d: Offsets, maxD: real, kSteps: nat, death: seq<real>, step: nat, m: real)
    requires kSteps > 0 && step <= kSteps && |death| == 6 && m * (kSteps as real) == maxD * (step as real)
    requires forall i: Face :: Recorded(d, i, maxD, kSteps + 1, kSteps, death[i])
    ensures m < Least(d) <==> forall i: Face :: death[i] < 0.0 || m < death[i]
  {
    InsetIs(m, maxD, step, kSteps);
    FirstDeath(d, m);
    assert forall i: Face :: FacePresent(Erode(d, m), i) <==> death[i] < 0.0 || m < death[i];
  }
}
