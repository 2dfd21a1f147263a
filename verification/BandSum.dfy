/**
 The band-sum brightness estimator on a sorted list of kept events: each pixel sums the events whose
 deviation lies in its corner band, weighted by the pose density, with the effective sample size as a
 diagnostic.  Doubles are reals; the deviation, the sine and pi are parameters.
 */
module BandSum {
  import opened Reals
  import opened Vectors
  import opened PixelQuad

  datatype Event = Event(deviation: real, weight: real)

  /** A pixel of the table: centre and four corners in cyclic order. */
  datatype Pixel = Pixel(centre: Vec, corners: Quad)

  /** The density at the pose that pixel p gives event i; the uniform one is never evaluated. */
  datatype Density = Uniform | Posed(rho: (int, int) -> real)

  datatype Status = Okay | Singular | PointMass

  /** A double that may be a NaN or the result of a division by zero. */
  datatype Num = Num(value: real) | Overflow | NaN

  datatype PixelValue = PixelValue(status: Status, value: Num, delta: Num, lo: Num, hi: Num, k: nat, kRhoPos: nat,
    kEff: Num)

  /** What the estimator takes from elsewhere: angular distance from the incident direction, sine, pi. */
  datatype Sky = Sky(deviation: Vec -> real, sine: real -> real, pi: real, incident: Vec, sun: Vec)

  // ---- sorted deviations ----

  ghost predicate SortedByDeviation(events: seq<Event>) {
    forall i, j :: 0 <= i < j < |events| ==> events[i].deviation <= events[j].deviation
  }

  /** The first index from `low` on whose deviation is not below x, by bisection (std::lower_bound). */
  function LowerBound(events: seq<Event>, x: real, low: nat, high: nat): (at: nat)
    requires SortedByDeviation(events) && low <= high <= |events|
    ensures low <= at <= high
    ensures forall i :: low <= i < at ==> events[i].deviation < x
    ensures forall i :: at <= i < high ==> x <= events[i].deviation
    decreases high - low
  {
    if low == high then low
    else
      var mid := (low + high) / 2;
      if events[mid].deviation < x then LowerBound(events, x, mid + 1, high) else LowerBound(events, x, low, mid)
  }

  function First(events: seq<Event>, x: real): (at: nat)
    requires SortedByDeviation(events)
    ensures at <= |events|
    ensures forall i :: 0 <= i < |events| ==> (i < at <==> events[i].deviation < x)
  {
    LowerBound(events, x, 0, |events|)
  }

  lemma FirstMonotone(events: seq<Event>, x: real, y: real)
    requires SortedByDeviation(events) && x <= y
    ensures First(events, x) <= First(events, y)
  {
    var at := First(events, y);
    if at < |events| {
      assert y <= events[at].deviation;
    }
  }

  // ---- the accumulated statistics ----

  function Sum(s: seq<real>): real {
    if s == [] then 0.0 else Sum(s[..|s| - 1]) + s[|s| - 1]
  }

  function SumSq(s: seq<real>): real {
    if s == [] then 0.0 else SumSq(s[..|s| - 1]) + Square(s[|s| - 1])
  }

  function Positives(s: seq<real>): nat {
    if s == [] then 0 else Positives(s[..|s| - 1]) + if s[|s| - 1] > 0.0 then 1 else 0
  }

  function Mul(a: real, b: real): real {
    a * b
  }

  function Square(x: real): real {
    Mul(x, x)
  }

  lemma MulSign(a: real, b: real)
    ensures (a > 0.0 && b > 0.0) || (a < 0.0 && b < 0.0) ==> Mul(a, b) > 0.0
    ensures a == 0.0 || b == 0.0 ==> Mul(a, b) == 0.0
  {
    if a < 0.0 && b < 0.0 {
      PositiveProduct(-a, -b);
    }
  }

  lemma SquarePositive(x: real)
    ensures Square(x) >= 0.0
    ensures x != 0.0 ==> Square(x) > 0.0
  {
    MulSign(x, x);
  }

  lemma SquareOfSum(a: real, b: real)
    ensures Square(a + b) == Square(a) + 2.0 * (a * b) + Square(b)
  {
  }

  /** Adding a value keeps sum^2 <= count * sumSq when the value is counted. */
  lemma CauchyStep(sum: real, sq: real, n: nat, c: real)
    requires Square(sum) <= (n as real) * sq && c > 0.0 && sq >= 0.0
    requires n == 0 ==> sum == 0.0
    ensures Square(sum + c) <= ((n + 1) as real) * (sq + Square(c))
  {
    SquareOfSum(sum, c);
    if n > 0 {
      var m := n as real;
      var gap := sq + m * Square(c) - 2.0 * (sum * c);
      assert m * gap == m * sq - Square(sum) + Square(sum - m * c) by { GapForm(sum, sq, m, c); }
      SquarePositive(sum - m * c);
      NonNegativeFactor(m, gap);
      assert ((n + 1) as real) * (sq + Square(c)) == m * sq + sq + m * Square(c) + Square(c);
    }
  }

  lemma GapForm(sum: real, sq: real, m: real, c: real)
    ensures m * (sq + m * Square(c) - 2.0 * (sum * c)) == m * sq - Square(sum) + Square(sum - m * c)
  {
    assert Square(sum - m * c) == Square(sum) - 2.0 * (m * (sum * c)) + m * (m * Square(c));
  }

  lemma NonNegativeFactor(m: real, x: real)
    requires m > 0.0 && m * x >= 0.0
    ensures x >= 0.0
  {
  }

  lemma WithLast(s: seq<real>)
    requires s != []
    ensures var t, c := s[..|s| - 1], s[|s| - 1];
      Sum(s) == Sum(t) + c && SumSq(s) == SumSq(t) + Square(c) &&
        Positives(s) == Positives(t) + if c > 0.0 then 1 else 0
  {
  }

  /** Cauchy-Schwarz through the accumulation: sumSq <= sum^2 <= positives * sumSq. */
  lemma {:induction false} SumBounds(s: seq<real>)
    requires forall i :: 0 <= i < |s| ==> s[i] >= 0.0
    ensures Sum(s) >= 0.0 && SumSq(s) >= 0.0 && Positives(s) <= |s|
    ensures SumSq(s) <= Square(Sum(s)) <= (Positives(s) as real) * SumSq(s)
    ensures Positives(s) == 0 ==> Sum(s) == 0.0
  {
    if s == [] {
    } else {
      var t, c := s[..|s| - 1], s[|s| - 1];
      SumBounds(t);
      WithLast(s);
      BoundsStep(Sum(t), SumSq(t), Positives(t), c, Sum(s), SumSq(s), Positives(s));
    }
  }

  lemma BoundsStep(sum: real, sq: real, n: nat, c: real, sum': real, sq': real, n': nat)
    requires sum >= 0.0 && sq >= 0.0 && c >= 0.0 && sq <= Square(sum) <= (n as real) * sq
    requires n == 0 ==> sum == 0.0
    requires sum' == sum + c && sq' == sq + Square(c) && n' == n + if c > 0.0 then 1 else 0
    ensures sum' >= 0.0 && sq' >= 0.0 && sq' <= Square(sum') <= (n' as real) * sq'
    ensures n' == 0 ==> sum' == 0.0
  {
    SquareOfSum(sum, c);
    NonNegativeProduct(sum, c);
    SquarePositive(c);
    if c > 0.0 {
      CauchyStep(sum, sq, n, c);
    } else {
      assert Square(c) == 0.0 && sum' == sum && sq' == sq;
    }
  }

  // ---- the same statistics, added from the front and counted ----

  function Added(s: seq<real>): real {
    if s == [] then 0.0 else s[0] + Added(s[1..])
  }

  lemma {:induction false} AddedLast(s: seq<real>, c: real)
    ensures Added(s + [c]) == Added(s) + c
  {
    if s == [] {
      assert s + [c] == [c];
    } else {
      assert (s + [c])[1..] == s[1..] + [c];
      AddedLast(s[1..], c);
    }
  }

  lemma {:induction false} SumAdds(s: seq<real>)
    ensures Sum(s) == Added(s)
  {
    if s == [] {
    } else {
      var last := |s| - 1;
      SumAdds(s[..last]);
      AddedLast(s[..last], s[last]);
      assert s[..last] + [s[last]] == s;
    }
  }

  function Squares(s: seq<real>): (r: seq<real>)
    ensures |r| == |s|
  {
    seq(|s|, j requires 0 <= j < |s| => Square(s[j]))
  }

  lemma {:induction false} SquaresAdd(s: seq<real>)
    ensures SumSq(s) == Added(Squares(s))
  {
    if s == [] {
    } else {
      var last := |s| - 1;
      SquaresAdd(s[..last]);
      AddedLast(Squares(s[..last]), Square(s[last]));
      assert Squares(s[..last]) + [Square(s[last])] == Squares(s);
    }
  }

  lemma {:induction false} PositivesCounted(s: seq<real>)
    ensures Positives(s) == |set j: nat | j < |s| && s[j] > 0.0|
  {
    var above := set j: nat | j < |s| && s[j] > 0.0;
    if s == [] {
      assert above == {};
    } else {
      var last := |s| - 1;
      var fewer := set j: nat | j < last && s[..last][j] > 0.0;
      PositivesCounted(s[..last]);
      assert above == if s[last] > 0.0 then fewer + {last} else fewer;
    }
  }

  function Quotient(a: real, b: real): real
    requires b != 0.0
  {
    a / b
  }

  lemma QuotientBetween(a: real, b: real, lo: real, hi: real)
    requires b > 0.0 && lo * b <= a <= hi * b
    ensures lo <= Quotient(a, b) <= hi
  {
    var q := Quotient(a, b);
    assert q * b == a;
    MulOrder(lo, q, b);
    MulOrder(q, hi, b);
  }

  lemma MulOrder(x: real, y: real, b: real)
    requires b > 0.0
    ensures x <= y <==> x * b <= y * b
  {
    if x <= y {
      NonNegativeProduct(y - x, b);
    } else {
      PositiveProduct(x - y, b);
    }
  }

  /** Kish's effective sample size, zero when nothing contributes. */
  function EffectiveSize(s: seq<real>): real {
    if SumSq(s) > 0.0 then Quotient(Square(Sum(s)), SumSq(s)) else 0.0
  }

  /** Between one and the number of contributing events, which is at most the number summed. */
  lemma EffectiveSizeBounds(s: seq<real>)
    requires forall i :: 0 <= i < |s| ==> s[i] >= 0.0
    ensures SumSq(s) > 0.0 ==> 1.0 <= EffectiveSize(s) <= Positives(s) as real && Positives(s) <= |s|
    ensures SumSq(s) > 0.0 <==> Positives(s) > 0
    ensures SumSq(s) == 0.0 ==> EffectiveSize(s) == 0.0
  {
    SumBounds(s);
    PositiveSquares(s);
    if SumSq(s) > 0.0 {
      QuotientBetween(Square(Sum(s)), SumSq(s), 1.0, Positives(s) as real);
    }
  }

  lemma {:induction false} PositiveSquares(s: seq<real>)
    requires forall i :: 0 <= i < |s| ==> s[i] >= 0.0
    ensures SumSq(s) > 0.0 <==> Positives(s) > 0
  {
    if s == [] {
    } else {
      var t, c := s[..|s| - 1], s[|s| - 1];
      PositiveSquares(t);
      SumBounds(t);
      SquarePositive(c);
      if c == 0.0 {
        assert Square(c) == 0.0;
      }
    }
  }

  // ---- one pixel ----

  function Rho(density: Density, p: int, i: int): real {
    match density
    case Uniform => 1.0
    case Posed(rho) => rho(p, i)
  }

  function Contribution(events: seq<Event>, density: Density, p: int, i: int): real
    requires 0 <= i < |events|
  {
    events[i].weight * Rho(density, p, i)
  }

  function Contributions(events: seq<Event>, density: Density, p: int, begin: nat, end: nat): (s: seq<real>)
    requires begin <= end <= |events|
    ensures |s| == end - begin
  {
    seq(end - begin, j requires 0 <= j < end - begin => Contribution(events, density, p, begin + j))
  }

  function BandLo(sky: Sky, c: Quad): real {
    Min(Min(Min(sky.deviation(c[0]), sky.deviation(c[1])), sky.deviation(c[2])), sky.deviation(c[3]))
  }

  function BandHi(sky: Sky, c: Quad): real {
    Max(Max(Max(sky.deviation(c[0]), sky.deviation(c[1])), sky.deviation(c[2])), sky.deviation(c[3]))
  }

  lemma BandOrdered(sky: Sky, c: Quad)
    ensures BandLo(sky, c) <= BandHi(sky, c)
  {
  }

  /** 2 pi n band sin(delta), the measure a pixel's sum is divided by. */
  function Measure(sky: Sky, n: nat, band: real, delta: real): real {
    2.0 * sky.pi * (n as real) * band * sky.sine(delta)
  }

  function Divide(a: real, b: real): Num {
    if b == 0.0 then Overflow else Num(Quotient(a, b))
  }

  ghost predicate IsSingular(sky: Sky, c: Quad) {
    Contains(c, sky.incident) || Contains(c, sky.sun)
  }

  /** What the estimator owes a regular pixel: the band, and the sum over exactly the events inside it. */
  ghost predicate Estimates(v: PixelValue, events: seq<Event>, n: nat, sky: Sky, density: Density, p: int, pixel: Pixel)
    requires SortedByDeviation(events)
  {
    var lo, hi := BandLo(sky, pixel.corners), BandHi(sky, pixel.corners);
    var begin, end := First(events, lo), First(events, hi);
    && begin <= end
    && var s := Contributions(events, density, p, begin, end);
    && v.k == |s| && v.kRhoPos == Positives(s) && v.kEff == Num(EffectiveSize(s))
    && v.value == if Sum(s) == 0.0 then Num(0.0)
      else Divide(Sum(s), Measure(sky, n, hi - lo, sky.deviation(pixel.centre)))
  }

  ghost predicate Reports(v: PixelValue, events: seq<Event>, n: nat, sky: Sky, density: Density, p: int, pixel: Pixel)
    requires SortedByDeviation(events)
  {
    && v.delta == Num(sky.deviation(pixel.centre)) && v.lo == Num(BandLo(sky, pixel.corners)) &&
      v.hi == Num(BandHi(sky, pixel.corners))
    && if IsSingular(sky, pixel.corners) then
      v.status == Singular && v.value == NaN && v.kEff == NaN && v.k == 0 && v.kRhoPos == 0
    else
      v.status == Okay && Estimates(v, events, n, sky, density, p, pixel)
  }

  method CornerBand(sky: Sky, c: Quad) returns (lo: real, hi: real)
    ensures lo == BandLo(sky, c) && hi == BandHi(sky, c)
  {
    lo, hi := sky.deviation(c[0]), sky.deviation(c[0]);
    for k := 1 to 4
      invariant k == 1 ==> lo == sky.deviation(c[0]) && hi == sky.deviation(c[0])
      invariant k == 2 ==> lo == Min(sky.deviation(c[0]), sky.deviation(c[1]))
      invariant k == 2 ==> hi == Max(sky.deviation(c[0]), sky.deviation(c[1]))
      invariant k == 3 ==> lo == Min(Min(sky.deviation(c[0]), sky.deviation(c[1])), sky.deviation(c[2]))
                           && hi == Max(Max(sky.deviation(c[0]), sky.deviation(c[1])), sky.deviation(c[2]))
      invariant k == 4 ==> lo == BandLo(sky, c) && hi == BandHi(sky, c)
    {
      lo, hi := Min(lo, sky.deviation(c[k])), Max(hi, sky.deviation(c[k]));
    }
  }

  method Accumulate(events: seq<Event>, density: Density, p: int, begin: nat, end: nat)
    returns (sum: real, sumSq: real, positive: nat)
    requires begin <= end <= |events|
    ensures var s := Contributions(events, density, p, begin, end);
      sum == Sum(s) && sumSq == SumSq(s) && positive == Positives(s)
  {
    sum, sumSq, positive := 0.0, 0.0, 0;
    ghost var s := Contributions(events, density, p, begin, end);
    for i := begin to end
      invariant sum == Sum(s[..i - begin]) && sumSq == SumSq(s[..i - begin]) && positive == Positives(s[..i - begin])
    {
      var c := Contribution(events, density, p, i);
      assert s[i - begin] == c && s[..i + 1 - begin][..i - begin] == s[..i - begin];
      sum := sum + c;
      sumSq := sumSq + Square(c);
      positive := positive + if c > 0.0 then 1 else 0;
    }
    assert s[..end - begin] == s;
  }

  method EstimatePixel(events: seq<Event>, n: nat, sky: Sky, density: Density, p: int, pixel: Pixel)
    returns (v: PixelValue)
    requires SortedByDeviation(events)
    ensures Reports(v, events, n, sky, density, p, pixel)
  {
    var delta := sky.deviation(pixel.centre);
    var lo, hi := CornerBand(sky, pixel.corners);
    var atIncident := PixelContains(pixel.corners, sky.incident);
    var atSun := PixelContains(pixel.corners, sky.sun);
    if atIncident || atSun {
      return PixelValue(Singular, NaN, Num(delta), Num(lo), Num(hi), 0, 0, NaN);
    }
    var begin, end := First(events, lo), First(events, hi);
    BandOrdered(sky, pixel.corners);
    FirstMonotone(events, lo, hi);
    var sum, sumSq, positive := Accumulate(events, density, p, begin, end);
    var kEff := if sumSq > 0.0 then Quotient(Square(sum), sumSq) else 0.0;
    var value := if sum != 0.0 then Divide(sum, Measure(sky, n, hi - lo, delta)) else Num(0.0);
    v := PixelValue(Okay, value, Num(delta), Num(lo), Num(hi), end - begin, positive, Num(kEff));
  }

  method BandSumOnEvents(events: seq<Event>, n: nat, sky: Sky, pixels: seq<Pixel>, density: Density,
    out: seq<PixelValue>)
    returns (out': seq<PixelValue>)
    requires SortedByDeviation(events)
    ensures |out'| == |out| + |pixels| && out'[..|out|] == out
    ensures forall p :: 0 <= p < |pixels| ==> Reports(out'[|out| + p], events, n, sky, density, p, pixels[p])
  {
    out' := out;
    for p := 0 to |pixels|
      invariant |out'| == |out| + p && out'[..|out|] == out
      invariant forall q :: 0 <= q < p ==> Reports(out'[|out| + q], events, n, sky, density, q, pixels[q])
    {
      var v := EstimatePixel(events, n, sky, density, p, pixels[p]);
      out' := out' + [v];
    }
  }

  // ---- what a regular pixel's numbers mean ----

  ghost predicate NonNegativeWeights(events: seq<Event>, density: Density) {
    && (forall i :: 0 <= i < |events| ==> events[i].weight >= 0.0)
    && (density.Posed? ==> forall p, i :: density.rho(p, i) >= 0.0)
  }

  lemma ContributionsNonNegative(events: seq<Event>, density: Density, p: int, begin: nat, end: nat)
    requires begin <= end <= |events| && NonNegativeWeights(events, density)
    ensures forall j :: 0 <= j < end - begin ==> Contributions(events, density, p, begin, end)[j] >= 0.0
  {
    forall j | 0 <= j < end - begin
      ensures Contributions(events, density, p, begin, end)[j] >= 0.0
    {
      var i := begin + j;
      var rho := Rho(density, p, i);
      assert rho >= 0.0;
      NonNegativeProduct(events[i].weight, rho);
      assert Contributions(events, density, p, begin, end)[j] == Contribution(events, density, p, i);
    }
  }

  /** An event is summed exactly when its deviation lies in the half-open band. */
  lemma SummedIffInBand(events: seq<Event>, lo: real, hi: real, i: nat)
    requires SortedByDeviation(events) && i < |events|
    ensures First(events, lo) <= i < First(events, hi) <==> lo <= events[i].deviation < hi
  {
  }

  lemma CountsOrdered(v: PixelValue, events: seq<Event>, n: nat, sky: Sky, density: Density, p: int, pixel: Pixel)
    requires SortedByDeviation(events) && NonNegativeWeights(events, density)
    requires !IsSingular(sky, pixel.corners) && Reports(v, events, n, sky, density, p, pixel)
    ensures v.kRhoPos <= v.k && v.kEff.Num?
    ensures if v.kRhoPos > 0 then 1.0 <= v.kEff.value <= v.kRhoPos as real else v.kEff.value == 0.0
  {
    var begin, end := First(events, BandLo(sky, pixel.corners)), First(events, BandHi(sky, pixel.corners));
    var s := Contributions(events, density, p, begin, end);
    ContributionsNonNegative(events, density, p, begin, end);
    SumBounds(s);
    EffectiveSizeBounds(s);
  }

  // ---- conservation over pixels that tile an interval ----

  function WeightsIn(events: seq<Event>, begin: nat, end: nat): seq<real>
    requires begin <= end <= |events|
  {
    seq(end - begin, j requires 0 <= j < end - begin => events[begin + j].weight)
  }

  /** Under the uniform density an event contributes its weight to whichever pixel sums it. */
  lemma SameForEveryPixel(events: seq<Event>, p: int, begin: nat, end: nat)
    requires begin <= end <= |events|
    ensures Contributions(events, Uniform, p, begin, end) == WeightsIn(events, begin, end)
  {
    assert forall i :: begin <= i < end ==> Contribution(events, Uniform, p, i) == events[i].weight;
  }

  lemma {:induction false} AddedConcat(a: seq<real>, b: seq<real>)
    ensures Added(a + b) == Added(a) + Added(b)
  {
    if a == [] {
      assert a + b == b;
    } else {
      assert (a + b)[1..] == a[1..] + b;
      AddedConcat(a[1..], b);
    }
  }

  lemma WeightsSplit(events: seq<Event>, a: nat, b: nat, c: nat)
    requires a <= b <= c <= |events|
    ensures Added(WeightsIn(events, a, c)) == Added(WeightsIn(events, a, b)) + Added(WeightsIn(events, b, c))
  {
    assert WeightsIn(events, a, c) == WeightsIn(events, a, b) + WeightsIn(events, b, c);
    AddedConcat(WeightsIn(events, a, b), WeightsIn(events, b, c));
  }

  /** Consecutive regular pixels whose half-open bands share their ends. */
  ghost predicate Tiles(sky: Sky, pixels: seq<Pixel>) {
    && (forall p :: 0 <= p < |pixels| ==> !IsSingular(sky, pixels[p].corners))
    && (forall p :: 0 <= p < |pixels| - 1 ==> BandHi(sky, pixels[p].corners) == BandLo(sky, pixels[p + 1].corners))
  }

  /** No pixel is centred on the incident direction or opposite to it. */
  ghost predicate Regular(sky: Sky, pixels: seq<Pixel>) {
    sky.pi > 0.0 && forall p :: 0 <= p < |pixels| ==> sky.sine(sky.deviation(pixels[p].centre)) != 0.0
  }

  ghost predicate ReportsAll(out: seq<PixelValue>, events: seq<Event>, n: nat, sky: Sky, pixels: seq<Pixel>)
    requires SortedByDeviation(events)
  {
    |out| == |pixels| && forall p :: 0 <= p < |pixels| ==> Reports(out[p], events, n, sky, Uniform, p, pixels[p])
  }

  /** A pixel's value turned back into power: times 2 pi n, the width of its band, and the sine at its centre. */
  function Power(v: PixelValue, n: nat, sky: Sky): real {
    match (v.value, v.lo, v.hi, v.delta)
    case (Num(value), Num(lo), Num(hi), Num(delta)) =>
      value * (2.0 * sky.pi * (n as real) * (hi - lo) * sky.sine(delta))
    case _ => 0.0
  }

  function TotalPower(out: seq<PixelValue>, n: nat, sky: Sky): real {
    if out == [] then 0.0 else TotalPower(out[..|out| - 1], n, sky) + Power(out[|out| - 1], n, sky)
  }

  function TotalCount(out: seq<PixelValue>): nat {
    if out == [] then 0 else TotalCount(out[..|out| - 1]) + out[|out| - 1].k
  }

  lemma MeasureNonZero(sky: Sky, n: nat, band: real, delta: real)
    requires n > 0 && sky.pi > 0.0 && band > 0.0 && sky.sine(delta) != 0.0
    ensures Measure(sky, n, band, delta) != 0.0
  {
    var a := 2.0 * sky.pi * (n as real) * band;
    assert a > 0.0 by {
      assert 2.0 * sky.pi > 0.0 && (n as real) > 0.0;
      PositiveProduct(2.0 * sky.pi, n as real);
      PositiveProduct(2.0 * sky.pi * (n as real), band);
    }
    NonZeroProduct(a, sky.sine(delta));
  }

  lemma NonZeroProduct(a: real, b: real)
    requires a > 0.0 && b != 0.0
    ensures a * b != 0.0
  {
  }

  lemma QuotientTimes(a: real, b: real)
    requires b != 0.0
    ensures Quotient(a, b) * b == a
  {
  }

  lemma PowerOfSum(sum: real, value: Num, measure: real)
    requires value == if sum == 0.0 then Num(0.0) else Divide(sum, measure)
    requires sum != 0.0 ==> measure != 0.0
    ensures value.Num? && value.value * measure == sum
  {
    if sum != 0.0 {
      QuotientTimes(sum, measure);
    }
  }

  lemma BandOpen(events: seq<Event>, lo: real, hi: real)
    requires SortedByDeviation(events) && First(events, lo) < First(events, hi)
    ensures lo < hi
  {
    assert lo <= events[First(events, lo)].deviation < hi;
  }

  /** The index range of a regular pixel, and what it reports about it. */
  lemma PixelParts(v: PixelValue, events: seq<Event>, n: nat, sky: Sky, density: Density, p: int, pixel: Pixel)
    returns (begin: nat, end: nat, sum: real, lo: real, hi: real, delta: real)
    requires SortedByDeviation(events) && !IsSingular(sky, pixel.corners) &&
      Reports(v, events, n, sky, density, p, pixel)
    ensures lo == BandLo(sky, pixel.corners) && hi == BandHi(sky, pixel.corners) && delta == sky.deviation(pixel.centre)
    ensures begin == First(events, lo) && end == First(events, hi) && begin <= end <= |events| && v.k == end - begin
    ensures sum == Sum(Contributions(events, density, p, begin, end)) && (begin == end ==> sum == 0.0)
    ensures v.lo == Num(lo) && v.hi == Num(hi) && v.delta == Num(delta)
    ensures v.value == if sum == 0.0 then Num(0.0) else Divide(sum, Measure(sky, n, hi - lo, delta))
  {
    lo, hi, delta := BandLo(sky, pixel.corners), BandHi(sky, pixel.corners), sky.deviation(pixel.centre);
    begin, end := First(events, lo), First(events, hi);
    sum := Sum(Contributions(events, density, p, begin, end));
    assert begin == end ==> Contributions(events, density, p, begin, end) == [];
  }

  lemma PowerFromParts(v: PixelValue, n: nat, sky: Sky, sum: real, lo: real, hi: real, delta: real)
    requires n > 0 && sky.pi > 0.0 && sky.sine(delta) != 0.0 && (sum != 0.0 ==> lo < hi)
    requires v.lo == Num(lo) && v.hi == Num(hi) && v.delta == Num(delta)
    requires v.value == if sum == 0.0 then Num(0.0) else Divide(sum, Measure(sky, n, hi - lo, delta))
    ensures Power(v, n, sky) == sum
  {
    if sum != 0.0 {
      MeasureNonZero(sky, n, hi - lo, delta);
    }
    PowerOfSum(sum, v.value, Measure(sky, n, hi - lo, delta));
  }

  lemma PixelPower(v: PixelValue, events: seq<Event>, n: nat, sky: Sky, density: Density, p: int, pixel: Pixel)
    returns (begin: nat, end: nat)
    requires SortedByDeviation(events) && n > 0 && sky.pi > 0.0 && sky.sine(sky.deviation(pixel.centre)) != 0.0
    requires !IsSingular(sky, pixel.corners) && Reports(v, events, n, sky, density, p, pixel)
    ensures begin == First(events, BandLo(sky, pixel.corners)) && end == First(events, BandHi(sky, pixel.corners))
    ensures begin <= end && v.k == end - begin && Power(v, n, sky) == Sum(Contributions(events, density, p, begin, end))
  {
    var sum, lo, hi, delta;
    begin, end, sum, lo, hi, delta := PixelParts(v, events, n, sky, density, p, pixel);
    if sum != 0.0 {
      BandOpen(events, lo, hi);
    }
    PowerFromParts(v, n, sky, sum, lo, hi, delta);
  }

  /** Corner by corner: the band's ends are the least and the greatest deviation. */
  ghost predicate BandOf(sky: Sky, c: Quad, lo: real, hi: real) {
    && (forall k :: 0 <= k < 4 ==> lo <= sky.deviation(c[k]) <= hi)
    && (exists k :: 0 <= k < 4 && lo == sky.deviation(c[k])) && (exists k :: 0 <= k < 4 && hi == sky.deviation(c[k]))
  }

  /** The terms a regular pixel adds up: for each event of the range its weight times the density at its pose. */
  ghost predicate TermsOf(events: seq<Event>, density: Density, p: int, begin: nat, end: nat, s: seq<real>) {
    begin <= end <= |events| && |s| == end - begin &&
    forall j :: 0 <= j < |s| ==>
      s[j] == match density
              case Uniform => events[begin + j].weight
              case Posed(rho) => events[begin + j].weight * rho(p, begin + j)
  }

  /** The effective size: the squared sum over the sum of squares. */
  lemma EffectiveSizeIs(s: seq<real>)
    ensures if Added(Squares(s)) > 0.0 then EffectiveSize(s) * Added(Squares(s)) == Square(Added(s))
            else EffectiveSize(s) == 0.0
  {
    SumAdds(s);
    SquaresAdd(s);
    if SumSq(s) > 0.0 {
      QuotientTimes(Square(Sum(s)), SumSq(s));
    }
  }

  /** How many terms there are, how many are positive, and the effective size: the squared sum over that of squares. */
  ghost predicate CountsOf(v: PixelValue, s: seq<real>) {
    v.k == |s| && v.kRhoPos == |set j: nat | j < |s| && s[j] > 0.0| && v.kEff.Num? &&
    if Added(Squares(s)) > 0.0 then v.kEff.value * Added(Squares(s)) == Square(Added(s)) else v.kEff.value == 0.0
  }

  /** The value times 2 pi n, the width of the band and the sine at the centre is the sum of the terms. */
  ghost predicate ValueOf(v: PixelValue, n: nat, sky: Sky, lo: real, hi: real, delta: real, s: seq<real>) {
    v.value.Num? && v.value.value * (2.0 * sky.pi * (n as real) * (hi - lo) * sky.sine(delta)) == Added(s)
  }

  lemma BandIsExtremes(sky: Sky, c: Quad)
    ensures BandOf(sky, c, BandLo(sky, c), BandHi(sky, c))
  {
    var a, b := BandLo(sky, c), BandHi(sky, c);
    assert a == sky.deviation(c[0]) || a == sky.deviation(c[1]) || a == sky.deviation(c[2]) || a == sky.deviation(c[3]);
    assert b == sky.deviation(c[0]) || b == sky.deviation(c[1]) || b == sky.deviation(c[2]) || b == sky.deviation(c[3]);
  }

  lemma TermsAre(events: seq<Event>, density: Density, p: int, begin: nat, end: nat)
    requires begin <= end <= |events|
    ensures TermsOf(events, density, p, begin, end, Contributions(events, density, p, begin, end))
  {
    forall i: nat | begin <= i < end { TermIs(events, density, p, i); }
  }

  lemma TermIs(events: seq<Event>, density: Density, p: int, i: nat)
    requires i < |events|
    ensures density.Uniform? ==> Contribution(events, density, p, i) == events[i].weight
    ensures density.Posed? ==> Contribution(events, density, p, i) == events[i].weight * density.rho(p, i)
  {
  }

  lemma CountsAre(v: PixelValue, s: seq<real>)
    requires v.k == |s| && v.kRhoPos == Positives(s) && v.kEff == Num(EffectiveSize(s))
    ensures CountsOf(v, s)
  {
    PositivesCounted(s);
    EffectiveSizeIs(s);
  }

  lemma ValueIs(v: PixelValue, events: seq<Event>, n: nat, sky: Sky, density: Density, p: int, pixel: Pixel)
    returns (begin: nat, end: nat, s: seq<real>)
    requires SortedByDeviation(events) && n > 0 && sky.pi > 0.0 && sky.sine(sky.deviation(pixel.centre)) != 0.0
    requires !IsSingular(sky, pixel.corners) && Reports(v, events, n, sky, density, p, pixel)
    ensures begin == First(events, BandLo(sky, pixel.corners)) && end == First(events, BandHi(sky, pixel.corners))
    ensures begin <= end && s == Contributions(events, density, p, begin, end)
    ensures ValueOf(v, n, sky, BandLo(sky, pixel.corners), BandHi(sky, pixel.corners), sky.deviation(pixel.centre), s)
  {
    begin, end := PixelPower(v, events, n, sky, density, p, pixel);
    s := Contributions(events, density, p, begin, end);
    SumAdds(s);
    ValueIsNumber(v, events, n, sky, density, p, pixel);
    PowerIs(v, n, sky, BandLo(sky, pixel.corners), BandHi(sky, pixel.corners), sky.deviation(pixel.centre), s);
  }

  lemma PowerIs(v: PixelValue, n: nat, sky: Sky, lo: real, hi: real, delta: real, s: seq<real>)
    requires v.value.Num? && v.lo == Num(lo) && v.hi == Num(hi) && v.delta == Num(delta) && Power(v, n, sky) == Added(s)
    ensures ValueOf(v, n, sky, lo, hi, delta, s)
  {
  }

  /** What the numbers of a regular pixel mean, from the events and the density alone. */
  lemma PixelMeans(v: PixelValue, events: seq<Event>, n: nat, sky: Sky, density: Density, p: int, pixel: Pixel)
    returns (begin: nat, end: nat, lo: real, hi: real, s: seq<real>)
    requires SortedByDeviation(events) && n > 0 && sky.pi > 0.0 && sky.sine(sky.deviation(pixel.centre)) != 0.0
    requires !IsSingular(sky, pixel.corners) && Reports(v, events, n, sky, density, p, pixel)
    ensures BandOf(sky, pixel.corners, lo, hi) && v.lo == Num(lo) && v.hi == Num(hi)
    ensures TermsOf(events, density, p, begin, end, s)
    ensures forall i: nat :: i < |events| ==> (begin <= i < end <==> lo <= events[i].deviation < hi)
    ensures CountsOf(v, s) && v.delta == Num(sky.deviation(pixel.centre))
    ensures ValueOf(v, n, sky, lo, hi, sky.deviation(pixel.centre), s)
  {
    lo, hi := BandLo(sky, pixel.corners), BandHi(sky, pixel.corners);
    begin, end, s := ValueIs(v, events, n, sky, density, p, pixel);
    BandIsExtremes(sky, pixel.corners);
    TermsAre(events, density, p, begin, end);
    forall i: nat | i < |events| { SummedIffInBand(events, lo, hi, i); }
    CountsAre(v, s);
  }

  lemma ValueIsNumber(v: PixelValue, events: seq<Event>, n: nat, sky: Sky, density: Density, p: int, pixel: Pixel)
    requires SortedByDeviation(events) && n > 0 && sky.pi > 0.0 && sky.sine(sky.deviation(pixel.centre)) != 0.0
    requires !IsSingular(sky, pixel.corners) && Reports(v, events, n, sky, density, p, pixel)
    ensures v.value.Num?
  {
    var begin, end, sum, lo, hi, delta := PixelParts(v, events, n, sky, density, p, pixel);
    if sum != 0.0 {
      BandOpen(events, lo, hi);
      MeasureNonZero(sky, n, hi - lo, delta);
    }
  }

  /** A pixel is singular exactly when the incident direction or its opposite is a combination of its corners. */
  lemma SingularIff(v: PixelValue, events: seq<Event>, n: nat, sky: Sky, density: Density, p: int, pixel: Pixel)
    requires SortedByDeviation(events) && Reports(v, events, n, sky, density, p, pixel)
    requires StrictlyConvex(pixel.corners) && FacesItsSum(pixel.corners)
    ensures v.status == Singular <==> InCone(pixel.corners, sky.incident) || InCone(pixel.corners, sky.sun)
  {
    ContainsIffCone(pixel.corners, sky.incident);
    ContainsIffCone(pixel.corners, sky.sun);
  }

  /** Tiling pixels lose nothing and count nothing twice: together they hold every event of the whole interval once. */
  lemma {:induction false} Conservation(out: seq<PixelValue>, events: seq<Event>, n: nat, sky: Sky, pixels: seq<Pixel>)
    returns (begin: nat, end: nat)
    requires SortedByDeviation(events) && n > 0 && pixels != []
    requires Tiles(sky, pixels) && Regular(sky, pixels) && ReportsAll(out, events, n, sky, pixels)
    ensures begin == First(events, BandLo(sky, pixels[0].corners))
    ensures end == First(events, BandHi(sky, pixels[|pixels| - 1].corners))
    ensures begin <= end && TotalCount(out) == end - begin &&
      TotalPower(out, n, sky) == Added(WeightsIn(events, begin, end))
  {
    var last := |pixels| - 1;
    begin, end := PixelPower(out[last], events, n, sky, Uniform, last, pixels[last]);
    SameForEveryPixel(events, last, begin, end);
    SumAdds(WeightsIn(events, begin, end));
    if last > 0 {
      var middle := begin;
      TilesPrefix(out, events, n, sky, pixels);
      var end';
      begin, end' := Conservation(out[..last], events, n, sky, pixels[..last]);
      assert BandHi(sky, pixels[last - 1].corners) == BandLo(sky, pixels[last].corners);
      WeightsSplit(events, begin, middle, end);
    } else {
      assert out[..0] == [];
    }
  }

  lemma TilesPrefix(out: seq<PixelValue>, events: seq<Event>, n: nat, sky: Sky, pixels: seq<Pixel>)
    requires SortedByDeviation(events) && |pixels| > 1
    requires Tiles(sky, pixels) && Regular(sky, pixels) && ReportsAll(out, events, n, sky, pixels)
    ensures var last := |pixels| - 1;
      Tiles(sky, pixels[..last]) && Regular(sky, pixels[..last]) &&
        ReportsAll(out[..last], events, n, sky, pixels[..last])
  {
  }

  // ---- the point mass of a rank-0 path ----

  /** What pixel p reports when the mass m sits on pixel `at`. */
  ghost predicate Placed(v: PixelValue, p: int, at: int, m: real, solidAngle: real) {
    && v.value == (if p == at then Divide(m, solidAngle) else Num(0.0))
    && v.status == (if p == at then PointMass else Okay)
    && v.delta == NaN && v.lo == NaN && v.hi == NaN && v.kEff == NaN && v.k == 0 && v.kRhoPos == 0
  }

  /** The first of the pixels that contains x, or -1. */
  ghost predicate FirstContaining(pixels: seq<Quad>, x: Vec, at: int) {
    && -1 <= at < |pixels|
    && (at >= 0 ==> Contains(pixels[at], x))
    && forall p :: 0 <= p < (if at < 0 then |pixels| else at) ==> !Contains(pixels[p], x)
  }

  /** The first pixel of the table that contains the incident direction carries the whole mass. */
  method PlacePointMass(m: real, incident: Vec, pixels: seq<Quad>, solidAngle: seq<real>, out: seq<PixelValue>)
    returns (out': seq<PixelValue>, pointMassPixel: int)
    requires |solidAngle| == |pixels|
    ensures |out'| == |out| + |pixels| && out'[..|out|] == out
    ensures FirstContaining(pixels, incident, pointMassPixel)
    ensures forall p :: 0 <= p < |pixels| ==> Placed(out'[|out| + p], p, pointMassPixel, m, solidAngle[p])
  {
    out', pointMassPixel := out, -1;
    for p := 0 to |pixels|
      invariant |out'| == |out| + p && out'[..|out|] == out
      invariant FirstContaining(pixels[..p], incident, pointMassPixel)
      invariant forall q :: 0 <= q < p ==> Placed(out'[|out| + q], q, pointMassPixel, m, solidAngle[q])
    {
      var v := PixelValue(Okay, Num(0.0), NaN, NaN, NaN, 0, 0, NaN);
      if pointMassPixel < 0 {
        var here := PixelContains(pixels[p], incident);
        if here {
          pointMassPixel := p;
          v := v.(status := PointMass, value := Divide(m, solidAngle[p]));
        }
      }
      out' := out' + [v];
    }
    assert pixels[..|pixels|] == pixels;
  }

  function TotalMass(out: seq<PixelValue>, solidAngle: seq<real>): real
    requires |out| == |solidAngle| && forall p :: 0 <= p < |out| ==> out[p].value.Num?
  {
    if out == [] then 0.0
    else
      var last := |out| - 1;
      TotalMass(out[..last], solidAngle[..last]) + out[last].value.value * solidAngle[last]
  }

  /** The table holds the whole mass when some pixel contains the incident direction, and none otherwise. */
  lemma {:induction false} MassConserved(out: seq<PixelValue>, solidAngle: seq<real>, m: real, at: int)
    requires |out| == |solidAngle| && -1 <= at
    requires forall p :: 0 <= p < |out| ==> solidAngle[p] != 0.0 && Placed(out[p], p, at, m, solidAngle[p])
    ensures forall p :: 0 <= p < |out| ==> out[p].value.Num?
    ensures TotalMass(out, solidAngle) == if 0 <= at < |out| then m else 0.0
  {
    if out == [] {
    } else {
      var last := |out| - 1;
      MassConserved(out[..last], solidAngle[..last], m, at);
      QuotientTimes(m, solidAngle[last]);
    }
  }
}
