/**
 The machine speed factor: the median measured/calibrated ratio over a set of ruler tests, clamped to
 a band, and the phase limit normalised by it.
 */
module MachineFactor {
  import opened Collections
  import opened Reals
  import opened Wrappers

  /** One measured duration; the report may hold an infinity or a NaN. */
  datatype Reading = Finite(seconds: real) | NonFinite

  /** The ruler in dictionary order: a test id and its calibrated seconds. */
  datatype Ruler = Ruler(id: string, calibrated: real)

  datatype FactorError = Missing(ids: set<string>) | Broken(ids: set<string>) | NoRulers

  datatype Factor = Factor(factor: real, raw: real)

  /** What the registry loader guarantees of a ruler table: distinct ids, positive calibrations. */
  ghost predicate WellFormed(ruler: seq<Ruler>) {
    && (forall i, j :: 0 <= i < j < |ruler| ==> ruler[i].id != ruler[j].id)
    && (forall i :: 0 <= i < |ruler| ==> ruler[i].calibrated > 0.0)
  }

  type RulerTable = r: seq<Ruler> | WellFormed(r) witness []

  // ---- the median ----

  predicate Sorted(s: seq<real>) {
    forall i, j :: 0 <= i < j < |s| ==> s[i] <= s[j]
  }

  function Insert(x: real, s: seq<real>): seq<real> {
    if s == [] then [x]
    else if x <= s[0] then [x] + s
    else [s[0]] + Insert(x, s[1..])
  }

  function Sort(s: seq<real>): (t: seq<real>)
    ensures |t| == |s|
  {
    if s == [] then [] else
    var t := Sort(s[1..]);
    InsertLength(s[0], t);
    Insert(s[0], t)
  }

  /** As in the statistics module: the middle value, or the mean of the two middle values. */
  function Median(s: seq<real>): real
    requires s != []
  {
    var t := Sort(s);
    var n := |t|;
    if n % 2 == 1 then t[n / 2] else (t[n / 2 - 1] + t[n / 2]) / 2.0
  }

  lemma {:induction false} InsertLength(x: real, s: seq<real>)
    ensures |Insert(x, s)| == |s| + 1
  {
    if s == [] || x <= s[0] {
    } else {
      InsertLength(x, s[1..]);
    }
  }

  lemma {:induction false} InsertSorted(x: real, s: seq<real>)
    requires Sorted(s)
    ensures Sorted(Insert(x, s))
    ensures Insert(x, s) != [] && Insert(x, s)[0] == if s == [] || x <= s[0] then x else s[0]
  {
    if s == [] || x <= s[0] {
    } else {
      var rest := Insert(x, s[1..]);
      InsertSorted(x, s[1..]);
      assert s[0] <= rest[0];
      assert forall i :: 0 <= i < |rest| ==> rest[0] <= rest[i];
    }
  }

  lemma {:induction false} SortSorts(s: seq<real>)
    ensures Sorted(Sort(s))
  {
    if s == [] {
    } else {
      SortSorts(s[1..]);
      InsertSorted(s[0], Sort(s[1..]));
    }
  }

  function Count(s: seq<real>, p: real -> bool): nat {
    if s == [] then 0 else (if p(s[0]) then 1 else 0) + Count(s[1..], p)
  }

  lemma {:induction false} InsertCount(x: real, s: seq<real>, p: real -> bool)
    ensures Count(Insert(x, s), p) == (if p(x) then 1 else 0) + Count(s, p)
  {
    if s == [] {
    } else {
      if x <= s[0] {
        assert ([x] + s)[1..] == s;
      } else {
        InsertCount(x, s[1..], p);
        assert ([s[0]] + Insert(x, s[1..]))[1..] == Insert(x, s[1..]);
      }
    }
  }

  /** Sorting rearranges: every property holds of as many values as before. */
  lemma {:induction false} SortCount(s: seq<real>, p: real -> bool)
    ensures Count(Sort(s), p) == Count(s, p)
  {
    if s == [] {
    } else {
      SortCount(s[1..], p);
      InsertCount(s[0], Sort(s[1..]), p);
    }
  }

  /** A stretch of values that all have a property is counted in full. */
  lemma {:induction false} CountStretch(s: seq<real>, p: real -> bool, from: nat, to: nat)
    requires from <= to <= |s| && forall i :: from <= i < to ==> p(s[i])
    ensures Count(s, p) >= to - from
  {
    if s == [] || to == 0 {
    } else {
      var t := s[1..];
      assert forall i :: 0 <= i < |t| ==> t[i] == s[i + 1];
      CountStretch(t, p, if from == 0 then 0 else from - 1, to - 1);
    }
  }

  /** In a sorted list with fewer than half its values below lo, a value at or past the middle is not. */
  lemma MiddleNotBelow(t: seq<real>, lo: real, below: real -> bool, k: nat)
    requires Sorted(t) && forall x :: below(x) <==> x < lo
    requires k < |t| <= 2 * (k + 1) && 2 * Count(t, below) < |t|
    ensures lo <= t[k]
  {
    if t[k] < lo {
      assert forall i :: 0 <= i < k ==> t[i] <= t[k];
      CountStretch(t, below, 0, k + 1);
    }
  }

  lemma MiddleNotAbove(t: seq<real>, hi: real, above: real -> bool, k: nat)
    requires Sorted(t) && forall x :: above(x) <==> x > hi
    requires 2 * k <= |t| && k < |t| && 2 * Count(t, above) < |t|
    ensures t[k] <= hi
  {
    if t[k] > hi {
      assert forall i :: k < i < |t| ==> t[k] <= t[i];
      CountStretch(t, above, k, |t|);
    }
  }

  /** If fewer than half the values fall below lo, or above hi, the median does not. */
  lemma MedianWithin(s: seq<real>, lo: real, hi: real, below: real -> bool, above: real -> bool)
    requires s != []
    requires forall x :: (below(x) <==> x < lo) && (above(x) <==> x > hi)
    requires 2 * Count(s, below) < |s| && 2 * Count(s, above) < |s|
    ensures lo <= Median(s) <= hi
  {
    var t, half := Sort(s), |s| / 2;
    SortSorts(s);
    SortCount(s, below);
    SortCount(s, above);
    MiddleNotAbove(t, hi, above, half);
    if |s| % 2 == 1 {
      MiddleNotBelow(t, lo, below, half);
    } else {
      MiddleNotBelow(t, lo, below, half - 1);
      assert t[half - 1] <= t[half];
    }
  }

  lemma {:induction false} CountLast(s: seq<real>, x: real, p: real -> bool)
    ensures Count(s + [x], p) == Count(s, p) + if p(x) then 1 else 0
  {
    if s == [] {
      assert s + [x] == [x];
    } else {
      assert (s + [x])[1..] == s[1..] + [x];
      CountLast(s[1..], x, p);
    }
  }

  lemma PlacesWithLast(s: seq<real>, x: real, p: real -> bool)
    ensures (set i: nat | i < |s + [x]| && p((s + [x])[i])) ==
      (set i: nat | i < |s| && p(s[i])) + if p(x) then {|s|} else {}
  {
  }

  /** How many values have the property. */
  lemma {:induction false} CountIs(s: seq<real>, p: real -> bool)
    ensures Count(s, p) == |set i: nat | i < |s| && p(s[i])|
  {
    if s == [] {
    } else {
      var last := |s| - 1;
      CountIs(s[..last], p);
      CountLast(s[..last], s[last], p);
      PlacesWithLast(s[..last], s[last], p);
      assert s[..last] + [s[last]] == s;
    }
  }

  /** a is the value with exactly k values before it in order, equal values in any order. */
  predicate Ranks(s: seq<real>, a: real, k: nat) {
    a in s && |set i: nat | i < |s| && s[i] < a| <= k < |set i: nat | i < |s| && s[i] <= a|
  }

  lemma {:induction false} CountBoth(s: seq<real>, p: real -> bool, q: real -> bool)
    requires forall x :: p(x) <==> !q(x)
    ensures Count(s, p) + Count(s, q) == |s|
  {
    if s == [] {
    } else {
      CountBoth(s[1..], p, q);
    }
  }

  /** In a sorted list at most k values are below the k-th, and more than k are not above it. */
  lemma SortedCounts(t: seq<real>, k: nat, below: real -> bool, upTo: real -> bool)
    requires Sorted(t) && k < |t|
    requires forall x :: (below(x) <==> x < t[k]) && (upTo(x) <==> x <= t[k])
    ensures Count(t, below) <= k < Count(t, upTo)
  {
    var from := (x: real) => x >= t[k];
    CountStretch(t, from, k, |t|);
    CountStretch(t, upTo, 0, k + 1);
    CountBoth(t, below, from);
  }

  /** The k-th value of the sorted list ranks k. */
  lemma SortedRanks(s: seq<real>, k: nat)
    requires k < |s|
    ensures Ranks(s, Sort(s)[k], k)
  {
    var a := Sort(s)[k];
    var below, upTo := (x: real) => x < a, (x: real) => x <= a;
    SortSorts(s);
    SortedCounts(Sort(s), k, below, upTo);
    SortCount(s, below);
    SortCount(s, upTo);
    SameValues(s, a);
    RanksByCount(s, a, k, below, upTo);
  }

  lemma RanksByCount(s: seq<real>, a: real, k: nat, below: real -> bool, upTo: real -> bool)
    requires forall x :: (below(x) <==> x < a) && (upTo(x) <==> x <= a)
    requires a in s && Count(s, below) <= k < Count(s, upTo)
    ensures Ranks(s, a, k)
  {
    CountIs(s, below);
    CountIs(s, upTo);
    assert (set i: nat | i < |s| && below(s[i])) == set i: nat | i < |s| && s[i] < a;
    assert (set i: nat | i < |s| && upTo(s[i])) == set i: nat | i < |s| && s[i] <= a;
  }

  lemma SameValues(s: seq<real>, a: real)
    ensures a in Sort(s) <==> a in s
  {
    var p := (x: real) => x == a;
    SortCount(s, p);
    Counted(Sort(s), a, p);
    Counted(s, a, p);
  }

  lemma {:induction false} Counted(s: seq<real>, a: real, p: real -> bool)
    requires forall x :: p(x) <==> x == a
    ensures Count(s, p) > 0 <==> a in s
  {
    if s == [] {
    } else {
      Counted(s[1..], a, p);
    }
  }

  /** The median is the mean of the value or two values in the middle. */
  lemma MedianIsMiddle(s: seq<real>) returns (a: real, b: real)
    requires s != []
    ensures Ranks(s, a, (|s| - 1) / 2) && Ranks(s, b, |s| / 2) && Median(s) == (a + b) / 2.0
  {
    a, b := Sort(s)[(|s| - 1) / 2], Sort(s)[|s| / 2];
    SortedRanks(s, (|s| - 1) / 2);
    SortedRanks(s, |s| / 2);
  }

  // ---- the factor ----

  predicate Readable(durations: map<string, Reading>, id: string) {
    id in durations && durations[id].Finite? && durations[id].seconds > 0.0
  }

  ghost predicate Measurable(ruler: RulerTable, durations: map<string, Reading>) {
    forall i :: 0 <= i < |ruler| ==> Readable(durations, ruler[i].id)
  }

  function Ratios(ruler: RulerTable, durations: map<string, Reading>): (s: seq<real>)
    requires Measurable(ruler, durations)
    ensures |s| == |ruler|
  {
    seq(|ruler|, i requires 0 <= i < |ruler| => Ratio(ruler[i], durations))
  }

  function Ratio(r: Ruler, durations: map<string, Reading>): real
    requires r.calibrated > 0.0 && Readable(durations, r.id)
  {
    durations[r.id].seconds / r.calibrated
  }

  function Clamp(raw: real, lo: real, hi: real): real {
    var up := if raw < lo then lo else raw;
    if up > hi then hi else up
  }

  function ComputeMachineFactor(ruler: RulerTable, durations: map<string, Reading>, lo: real,
    hi: real): (r: Result<Factor, FactorError>)
    ensures r.Ok? <==> ruler != [] && forall i :: 0 <= i < |ruler| ==>
      ruler[i].id in durations && durations[ruler[i].id].Finite? && durations[ruler[i].id].seconds > 0.0
    ensures r.Ok? ==> Measurable(ruler, durations)
    ensures r.Ok? ==> r.value.raw == Median(Ratios(ruler, durations)) && r.value.factor == Clamp(r.value.raw, lo, hi)
    ensures r.Err? && r.error.Missing? ==>
      r.error.ids == (set i | 0 <= i < |ruler| && ruler[i].id !in durations :: ruler[i].id) != {}
    ensures r.Err? && r.error.Broken? ==> forall i :: 0 <= i < |ruler| ==> ruler[i].id in durations
    ensures r.Err? && r.error.Broken? ==>
      r.error.ids != {} && r.error.ids == set i | 0 <= i < |ruler| &&
        (durations[ruler[i].id].NonFinite? || durations[ruler[i].id].seconds <= 0.0) :: ruler[i].id
    ensures r.Err? && r.error.NoRulers? ==> ruler == []
  {
    var missing := set i | 0 <= i < |ruler| && ruler[i].id !in durations :: ruler[i].id;
    var broken := set i | 0 <= i < |ruler| && !Readable(durations, ruler[i].id) :: ruler[i].id;
    assert forall i :: 0 <= i < |ruler| && ruler[i].id !in durations ==> ruler[i].id in missing;
    assert forall i :: 0 <= i < |ruler| && !Readable(durations, ruler[i].id) ==> ruler[i].id in broken;
    assert broken != {} ==> exists id :: id in broken;
    if missing != {} then
      var id :| id in missing;
      Err(Missing(missing))
    else if broken != {} then Err(Broken(broken))
    else if ruler == [] then Err(NoRulers)
    else
      var raw := Median(Ratios(ruler, durations));
      Ok(Factor(Clamp(raw, lo, hi), raw))
  }

  /** Values with a property no value outside `bad` has are no more than the ids in `bad`. */
  lemma {:induction false} CountBad(ids: seq<string>, values: seq<real>, bad: set<string>, p: real -> bool)
    requires |ids| == |values| && forall i, j :: 0 <= i < j < |ids| ==> ids[i] != ids[j]
    requires forall i :: 0 <= i < |ids| && ids[i] !in bad ==> !p(values[i])
    ensures Count(values, p) <= |bad * Elements(ids)|
  {
    if ids == [] {
    } else {
      var id, rest := ids[0], ids[1..];
      CountBad(rest, values[1..], bad, p);
      assert id !in Elements(rest);
      assert Elements(ids) == Elements(rest) + {id};
      if id in bad {
        assert bad * Elements(ids) == bad * Elements(rest) + {id};
      } else {
        assert bad * Elements(ids) == bad * Elements(rest);
      }
    }
  }

  function Ids(ruler: RulerTable): seq<string> {
    seq(|ruler|, i requires 0 <= i < |ruler| => ruler[i].id)
  }

  lemma RatioBetween(r: Ruler, durations: map<string, Reading>, least: real, greatest: real)
    requires r.calibrated > 0.0 && Readable(durations, r.id)
    requires least * r.calibrated <= durations[r.id].seconds <= greatest * r.calibrated
    ensures least <= Ratio(r, durations) <= greatest
  {
    var q := Ratio(r, durations);
    assert q * r.calibrated == durations[r.id].seconds;
    ScaleOrder(least, q, r.calibrated);
    ScaleOrder(q, greatest, r.calibrated);
  }

  /**
   Breakdown bound: if every ruler but fewer than half reads between `least` and `greatest` times its calibrated
   seconds, the raw factor is between the two, whatever the others read.
   */
  lemma Breakdown(ruler: RulerTable, durations: map<string, Reading>, bad: set<string>, least: real, greatest: real,
    lo: real, hi: real)
    requires Measurable(ruler, durations)
    requires 2 * |bad| < |ruler|
    requires forall i :: 0 <= i < |ruler| && ruler[i].id !in bad ==>
      least * ruler[i].calibrated <= durations[ruler[i].id].seconds <= greatest * ruler[i].calibrated
    ensures var f := ComputeMachineFactor(ruler, durations, lo, hi); f.Ok? && least <= f.value.raw <= greatest
  {
    var ids, values := Ids(ruler), Ratios(ruler, durations);
    forall i | 0 <= i < |ruler| && ruler[i].id !in bad ensures least <= values[i] <= greatest {
      RatioBetween(ruler[i], durations, least, greatest);
    }
    var below, above := (x: real) => x < least, (x: real) => x > greatest;
    CountBad(ids, values, bad, below);
    CountBad(ids, values, bad, above);
    SubsetSize(bad * Elements(ids), bad);
    MedianWithin(values, least, greatest, below, above);
  }

  function Distance(x: real, y: real): real {
    Abs(x - y)
  }

  /** x is the point of the band from lo to hi that is nearest to the raw factor. */
  ghost predicate NearestInBand(x: real, raw: real, lo: real, hi: real) {
    lo <= x <= hi && forall y :: lo <= y <= hi ==> Distance(x, raw) <= Distance(y, raw)
  }

  lemma ClampIsNearest(raw: real, lo: real, hi: real)
    requires lo <= hi
    ensures NearestInBand(Clamp(raw, lo, hi), raw, lo, hi)
  {
    var x := Clamp(raw, lo, hi);
    assert x == if raw < lo then lo else if raw > hi then hi else raw;
    forall y | lo <= y <= hi ensures Distance(x, raw) <= Distance(y, raw) {
      assert Distance(x, raw) == if raw < lo then lo - raw else if raw > hi then raw - hi else 0.0;
    }
  }

  /** Each ratio is the reading's to the calibrated seconds. */
  ghost predicate AreRatios(q: seq<real>, ruler: RulerTable, durations: map<string, Reading>) {
    |q| == |ruler| && forall i :: 0 <= i < |q| ==>
      ruler[i].id in durations && durations[ruler[i].id] == Finite(q[i] * ruler[i].calibrated)
  }

  lemma RatiosAre(ruler: RulerTable, durations: map<string, Reading>)
    requires Measurable(ruler, durations)
    ensures AreRatios(Ratios(ruler, durations), ruler, durations)
  {
    var q := Ratios(ruler, durations);
    forall i | 0 <= i < |ruler| ensures durations[ruler[i].id] == Finite(q[i] * ruler[i].calibrated) {
      RatioIs(ruler[i], durations);
    }
  }

  lemma FactorIs(ruler: RulerTable, durations: map<string, Reading>, lo: real, hi: real)
    requires ruler != [] && Measurable(ruler, durations)
    ensures var raw := Median(Ratios(ruler, durations));
      ComputeMachineFactor(ruler, durations, lo, hi) == Ok(Factor(Clamp(raw, lo, hi), raw))
  {
  }

  /**
   The factor from the readings: ratios of measured to calibrated, their middle, and the point of the band next to it.
   */
  lemma FactorMeans(ruler: RulerTable, durations: map<string, Reading>, lo: real, hi: real)
    returns (q: seq<real>, a: real, b: real, factor: real)
    requires ruler != [] && Measurable(ruler, durations) && lo <= hi
    ensures AreRatios(q, ruler, durations) && Ranks(q, a, (|q| - 1) / 2) && Ranks(q, b, |q| / 2)
    ensures NearestInBand(factor, (a + b) / 2.0, lo, hi)
    ensures ComputeMachineFactor(ruler, durations, lo, hi) == Ok(Factor(factor, (a + b) / 2.0))
  {
    q := Ratios(ruler, durations);
    a, b := MedianIsMiddle(q);
    factor := Clamp(Median(q), lo, hi);
    ClampIsNearest(Median(q), lo, hi);
    RatiosAre(ruler, durations);
    FactorIs(ruler, durations, lo, hi);
  }

  lemma RatioIs(r: Ruler, durations: map<string, Reading>)
    requires r.calibrated > 0.0 && Readable(durations, r.id)
    ensures Ratio(r, durations) * r.calibrated == durations[r.id].seconds
  {
  }

  // ---- a uniformly slower or faster machine ----

  function MapSeq(s: seq<real>, f: real -> real): (t: seq<real>)
    ensures |t| == |s|
  {
    seq(|s|, i requires 0 <= i < |s| => f(s[i]))
  }

  ghost predicate Increasing(f: real -> real) {
    forall x, y :: x <= y <==> f(x) <= f(y)
  }

  lemma {:induction false} InsertMaps(x: real, s: seq<real>, f: real -> real)
    requires Increasing(f)
    ensures Insert(f(x), MapSeq(s, f)) == MapSeq(Insert(x, s), f)
  {
    if s == [] {
    } else {
      assert MapSeq(s, f)[1..] == MapSeq(s[1..], f);
      if x > s[0] {
        InsertMaps(x, s[1..], f);
        assert MapSeq([s[0]] + Insert(x, s[1..]), f) == [f(s[0])] + MapSeq(Insert(x, s[1..]), f);
      } else {
        assert MapSeq([x] + s, f) == [f(x)] + MapSeq(s, f);
      }
    }
  }

  /** Sorting commutes with any increasing change of scale. */
  lemma {:induction false} SortMaps(s: seq<real>, f: real -> real)
    requires Increasing(f)
    ensures Sort(MapSeq(s, f)) == MapSeq(Sort(s), f)
  {
    if s == [] {
    } else {
      assert MapSeq(s, f)[1..] == MapSeq(s[1..], f);
      SortMaps(s[1..], f);
      InsertMaps(s[0], Sort(s[1..]), f);
    }
  }

  function Times(c: real, x: real): real {
    c * x
  }

  lemma TimesIncreasing(c: real)
    requires c > 0.0
    ensures Increasing(x => Times(c, x))
  {
    forall x: real, y: real
      ensures x <= y <==> Times(c, x) <= Times(c, y)
    {
      ScaleOrder(x, y, c);
    }
  }

  lemma ScaleOrder(x: real, y: real, c: real)
    requires c > 0.0
    ensures x <= y <==> c * x <= c * y
  {
    if x > y {
      assert c * (x - y) > 0.0;
    } else {
      assert c * (y - x) >= 0.0;
    }
  }

  lemma MedianScales(s: seq<real>, c: real)
    requires c > 0.0 && s != []
    ensures Median(MapSeq(s, x => Times(c, x))) == Times(c, Median(s))
  {
    TimesIncreasing(c);
    SortMaps(s, x => Times(c, x));
    var t, n := Sort(s), |s|;
    if n % 2 == 0 {
      TimesMean(c, t[n / 2 - 1], t[n / 2]);
    }
  }

  lemma TimesMean(c: real, x: real, y: real)
    ensures (Times(c, x) + Times(c, y)) / 2.0 == Times(c, (x + y) / 2.0)
  {
  }

  function Slower(durations: map<string, Reading>, c: real): map<string, Reading> {
    map id | id in durations :: match durations[id] case Finite(s) => Finite(c * s) case NonFinite => NonFinite
  }

  lemma ScaleQuotient(c: real, s: real, k: real)
    requires k != 0.0
    ensures c * s / k == c * (s / k)
  {
    var q := s / k;
    assert q * k == s;
    assert c * s == (c * q) * k;
  }

  lemma SlowerReadable(durations: map<string, Reading>, c: real, id: string)
    requires c > 0.0
    ensures Readable(Slower(durations, c), id) <==> Readable(durations, id)
  {
    if id in durations && durations[id].Finite? {
      ScaleOrder(durations[id].seconds, 0.0, c);
    }
  }

  lemma SlowerRatio(r: Ruler, durations: map<string, Reading>, c: real)
    requires r.calibrated > 0.0 && Readable(durations, r.id) && Readable(Slower(durations, c), r.id)
    ensures Ratio(r, Slower(durations, c)) == Times(c, Ratio(r, durations))
  {
    ScaleQuotient(c, durations[r.id].seconds, r.calibrated);
  }

  lemma SlowerRatios(ruler: RulerTable, durations: map<string, Reading>, c: real)
    requires Measurable(ruler, durations) && Measurable(ruler, Slower(durations, c))
    ensures Ratios(ruler, Slower(durations, c)) == MapSeq(Ratios(ruler, durations), x => Times(c, x))
  {
    forall i | 0 <= i < |ruler|
      ensures Ratio(ruler[i], Slower(durations, c)) == Times(c, Ratio(ruler[i], durations))
    {
      SlowerRatio(ruler[i], durations, c);
    }
  }

  /** On a machine c times slower the raw factor is c times larger. */
  lemma FactorScales(ruler: RulerTable, durations: map<string, Reading>, c: real, lo: real, hi: real)
    requires c > 0.0
    ensures var f, g := ComputeMachineFactor(ruler, durations, lo, hi),
      ComputeMachineFactor(ruler, Slower(durations, c), lo, hi);
      && (g.Ok? <==> f.Ok?)
      && (f.Ok? ==> g.value == Factor(Clamp(Times(c, f.value.raw), lo, hi), Times(c, f.value.raw)))
  {
    forall i | 0 <= i < |ruler|
      ensures Readable(Slower(durations, c), ruler[i].id) <==> Readable(durations, ruler[i].id)
    {
      SlowerReadable(durations, c, ruler[i].id);
    }
    assert Measurable(ruler, Slower(durations, c)) <==> Measurable(ruler, durations);
    if Measurable(ruler, durations) && ruler != [] {
      SlowerRatios(ruler, durations, c);
      MedianScales(Ratios(ruler, durations), c);
    }
  }

  // ---- the phase check ----

  datatype Machine = Machine(ruler: RulerTable, lo: real, hi: real)

  datatype Budget = Budget(phase: string, maxSeconds: real, machine: Machine)

  datatype Outcome = NotReported | FailsClosed | Over(limit: real) | Within(limit: real)

  ghost predicate LoaderAccepts(b: Budget) {
    b.maxSeconds > 0.0 && 0.0 < b.machine.lo < b.machine.hi
  }

  predicate InBand(m: Machine, raw: real) {
    m.lo <= raw <= m.hi
  }

  /** The verdict on one machine-normalised budget; `None` is a run without a per-test report. */
  function Check(b: Budget, phases: map<string, real>, report: Option<map<string, Reading>>): Outcome
  {
    if b.phase !in phases then NotReported
    else if report.None? then FailsClosed
    else match ComputeMachineFactor(b.machine.ruler, report.value, b.machine.lo, b.machine.hi)
      case Err(_) => FailsClosed
      case Ok(f) =>
        var limit := Times(b.maxSeconds, f.factor);
        if phases[b.phase] > limit then Over(limit) else Within(limit)
  }

  /** Same verdict for the phase whether the machine is c times slower or not. */
  ghost predicate SameVerdict(b: Budget, report: map<string, Reading>, c: real, seconds: real)
  {
    Check(b, map[b.phase := Times(c, seconds)], Some(Slower(report, c))).Over? <==>
      Check(b, map[b.phase := seconds], Some(report)).Over?
  }

  lemma VerdictScales(b: Budget, report: map<string, Reading>, c: real, seconds: real)
    requires LoaderAccepts(b) && c > 0.0 && b.machine.ruler != [] && Measurable(b.machine.ruler, report)
    ensures var raw := Median(Ratios(b.machine.ruler, report));
      && (Check(b, map[b.phase := seconds], Some(report)).Over? <==>
        seconds > Times(b.maxSeconds, Clamp(raw, b.machine.lo, b.machine.hi)))
      && (Check(b, map[b.phase := Times(c, seconds)], Some(Slower(report, c))).Over? <==>
          Times(c, seconds) > Times(b.maxSeconds, Clamp(Times(c, raw), b.machine.lo, b.machine.hi)))
  {
    FactorScales(b.machine.ruler, report, c, b.machine.lo, b.machine.hi);
  }

  lemma ScaledCompare(c: real, m: real, raw: real, seconds: real)
    requires c > 0.0
    ensures Times(c, seconds) > Times(m, Times(c, raw)) <==> seconds > Times(m, raw)
  {
    assert m * (c * raw) == c * (m * raw);
    ScaleOrder(seconds, m * raw, c);
  }

  lemma ClampInBand(raw: real, lo: real, hi: real)
    requires lo < hi
    ensures lo <= raw <= hi <==> Clamp(raw, lo, hi) == raw
  {
  }

  /** A machine c times slower changes no verdict as long as the clamp does not act, before or after. */
  lemma SlowerSameVerdict(b: Budget, report: map<string, Reading>, c: real, seconds: real)
    requires LoaderAccepts(b) && c > 0.0 && b.machine.ruler != [] && Measurable(b.machine.ruler, report)
    requires var raw := Median(Ratios(b.machine.ruler, report));
      InBand(b.machine, raw) && InBand(b.machine, Times(c, raw))
    ensures SameVerdict(b, report, c, seconds)
  {
    var raw, scaled := Median(Ratios(b.machine.ruler, report)), Times(c, Median(Ratios(b.machine.ruler, report)));
    VerdictScales(b, report, c, seconds);
    ClampInBand(raw, b.machine.lo, b.machine.hi);
    ClampInBand(scaled, b.machine.lo, b.machine.hi);
    ScaledCompare(c, b.maxSeconds, raw, seconds);
  }

  lemma Quotient(c: real, product: real) returns (level: real)
    requires c > 0.0
    ensures Times(c, level) == product
  {
    level := product / c;
  }

  lemma Between(a: real, b: real) returns (middle: real)
    requires a != b
    ensures middle > a <==> a < b
    ensures middle > b <==> b < a
  {
    middle := (a + b) / 2.0;
  }

  lemma LimitsDiffer(m: real, a: real, b: real)
    requires m > 0.0 && a != b
    ensures Times(m, a) != Times(m, b)
  {
    ScaleOrder(a, b, m);
    ScaleOrder(b, a, m);
  }

  /** When the clamp moves the scaled factor, some phase time lies between the two limits. */
  lemma ClampChangesAVerdict(m: real, raw: real, c: real, clamped: real) returns (seconds: real)
    requires m > 0.0 && c > 0.0 && clamped != Times(c, raw)
    ensures (seconds > Times(m, raw)) != (Times(c, seconds) > Times(m, clamped))
  {
    var level := Quotient(c, clamped);
    LimitsDiffer(m, raw, level);
    seconds := Between(Times(m, raw), Times(m, level));
    ScaledCompare(c, m, level, seconds);
  }

  /** Inside the band before, the verdict is the same for every phase time exactly when it is inside the band after. */
  lemma SameVerdictIff(b: Budget, report: map<string, Reading>, c: real)
    requires LoaderAccepts(b) && c > 0.0 && b.machine.ruler != [] && Measurable(b.machine.ruler, report)
    requires InBand(b.machine, Median(Ratios(b.machine.ruler, report)))
    ensures (forall seconds :: SameVerdict(b, report, c, seconds)) <==>
      InBand(b.machine, Times(c, Median(Ratios(b.machine.ruler, report))))
  {
    var raw := Median(Ratios(b.machine.ruler, report));
    var scaled := Times(c, raw);
    ClampInBand(raw, b.machine.lo, b.machine.hi);
    ClampInBand(scaled, b.machine.lo, b.machine.hi);
    if InBand(b.machine, scaled) {
      forall seconds
        ensures SameVerdict(b, report, c, seconds)
      {
        SlowerSameVerdict(b, report, c, seconds);
      }
    } else {
      var seconds := ClampChangesAVerdict(b.maxSeconds, raw, c, Clamp(scaled, b.machine.lo, b.machine.hi));
      VerdictScales(b, report, c, seconds);
      assert !SameVerdict(b, report, c, seconds);
    }
  }
}
