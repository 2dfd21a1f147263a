/**
 What the merged report says about the shard reports: which inputs merge, what each merged suite holds,
 that nothing depends on the order of the reports, and that the totals count what was executed.
 */
module MergedReports {
  import opened Collections
  import opened Wrappers
  import opened Decimal
  import opened ReportMerger

  // ---- which reports merge ----

  /** Class and name, with a dot between. */
  function Id(c: Case): string {
    c.classname + "." + c.name
  }

  function Ids(cases: seq<Case>): seq<string> {
    if cases == [] then []
    else (if cases[0].status == "run" then [Id(cases[0])] else []) + Ids(cases[1..])
  }

  function SuiteIds(suites: seq<Suite>): seq<string> {
    if suites == [] then [] else Ids(suites[0].cases) + SuiteIds(suites[1..])
  }

  function SuitesOf(report: Option<Report>): seq<Suite> {
    if report.Some? then report.value.suites else []
  }

  /** The cases executed, in the order of the reports. */
  function Executed(reports: seq<Option<Report>>): seq<string> {
    if reports == [] then [] else SuiteIds(SuitesOf(reports[0])) + Executed(reports[1..])
  }

  /** None twice, and none of the ones already there. */
  predicate FreshIds(ids: seq<string>, measured: set<string>) {
    ids == [] || (ids[0] !in measured && FreshIds(ids[1..], measured + {ids[0]}))
  }

  /** A named case that says whether it ran and how it ended, took some time, and did not fail. */
  predicate SoundCase(c: Case) {
    c.classname != "" && c.name != "" && (c.status == "run" || c.status == "notrun") &&
    (c.result == "completed" || c.result == "skipped" || c.result == "suppressed") &&
    c.time.Seconds? && c.time.value >= 0.0 && !c.failure
  }

  predicate SoundCases(cases: seq<Case>) {
    forall k :: 0 <= k < |cases| ==> SoundCase(cases[k])
  }

  predicate SoundSuite(s: Suite) {
    s.name != "" && s.tests == PrintNat(|s.cases|) && SoundCases(s.cases)
  }

  /** Every case of the suites. */
  function CasesIn(suites: seq<Suite>): seq<Case> {
    if suites == [] then [] else suites[0].cases + CasesIn(suites[1..])
  }

  /** The root has the right tag, counts every case in the document, and reports no failure. */
  predicate SoundRoot(r: Report) {
    r.tag == "testsuites" && r.tests == PrintNat(|CasesIn(r.suites)| + r.elsewhere) &&
    (r.failures == None || r.failures == Some("0"))
  }

  /** A shard report that is complete, without failures, and did execute something. */
  predicate SoundReport(report: Option<Report>) {
    report.Some? && SoundRoot(report.value) &&
    (forall k :: 0 <= k < |report.value.suites| ==> SoundSuite(report.value.suites[k])) &&
    SuiteIds(report.value.suites) != []
  }

  lemma {:induction false} CasesCounted(suites: seq<Suite>)
    ensures CaseCount(suites) == |CasesIn(suites)|
  {
    if suites == [] {
    } else {
      CasesCounted(suites[1..]);
    }
  }

  lemma {:induction false} FreshConcat(a: seq<string>, b: seq<string>, m: set<string>)
    ensures FreshIds(a + b, m) <==> FreshIds(a, m) && FreshIds(b, m + Elements(a))
    decreases |a|
  {
    if a == [] {
      assert a + b == b && m + Elements(a) == m;
    } else {
      assert (a + b)[1..] == a[1..] + b;
      FirstElement(a);
      assert m + {a[0]} + Elements(a[1..]) == m + Elements(a);
      FreshConcat(a[1..], b, m + {a[0]});
    }
  }

  lemma FirstElement(a: seq<string>)
    requires a != []
    ensures Elements(a) == {a[0]} + Elements(a[1..])
  {
    assert a == [a[0]] + a[1..];
    ElementsConcat([a[0]], a[1..]);
  }

  lemma SoundCasesFirst(cases: seq<Case>)
    requires cases != []
    ensures SoundCases(cases) <==> SoundCase(cases[0]) && SoundCases(cases[1..])
  {
    assert forall k :: 1 <= k < |cases| ==> cases[k] == cases[1..][k - 1];
  }

  lemma CaseMerges(st: State, name: string, c: Case)
    requires Find(st.suites, name).Some?
    ensures TakeCase(st, name, c).Ok? <==> SoundCase(c) && (c.status == "run" ==> Id(c) !in st.measured)
    ensures TakeCase(st, name, c).Ok? ==>
      TakeCase(st, name, c).value.measured == st.measured + (if c.status == "run" then {Id(c)} else {}) &&
      TakeCase(st, name, c).value.suites == PlaceIn(st.suites, name, c)
  {
  }

  lemma {:induction false} CasesMerge(st: State, name: string, cases: seq<Case>)
    requires Find(st.suites, name).Some?
    ensures TakeCases(st, name, cases).Ok? <==> SoundCases(cases) && FreshIds(Ids(cases), st.measured)
    ensures TakeCases(st, name, cases).Ok? ==>
      TakeCases(st, name, cases).value.measured == st.measured + Elements(Ids(cases))
    decreases |cases|
  {
    if cases == [] {
    } else {
      var c, ids := cases[0], Ids(cases);
      SoundCasesFirst(cases);
      CaseMerges(st, name, c);
      assert ids == (if c.status == "run" then [Id(c)] else []) + Ids(cases[1..]);
      if TakeCase(st, name, c).Ok? {
        PlacedStillThere(st.suites, name, c, name);
        CasesMerge(TakeCase(st, name, c).value, name, cases[1..]);
        if c.status == "run" {
          FirstElement(ids);
          assert st.measured + {ids[0]} + Elements(ids[1..]) == st.measured + Elements(ids);
        } else {
          assert st.measured + {} == st.measured && ids == Ids(cases[1..]);
        }
      }
    }
  }

  lemma SuiteMerges(st: State, s: Suite)
    ensures TakeSuite(st, s).Ok? <==> SoundSuite(s) && FreshIds(Ids(s.cases), st.measured)
    ensures TakeSuite(st, s).Ok? ==> TakeSuite(st, s).value.measured == st.measured + Elements(Ids(s.cases))
  {
    CasesMerge(State(WithSuite(st.suites, s.name), st.measured), s.name, s.cases);
  }

  lemma {:induction false} SuitesMerge(st: State, suites: seq<Suite>)
    ensures TakeSuites(st, suites).Ok? <==>
      (forall k :: 0 <= k < |suites| ==> SoundSuite(suites[k])) && FreshIds(SuiteIds(suites), st.measured)
    ensures TakeSuites(st, suites).Ok? ==>
      TakeSuites(st, suites).value.measured == st.measured + Elements(SuiteIds(suites))
    decreases |suites|
  {
    if suites == [] {
    } else {
      SuiteMerges(st, suites[0]);
      FreshConcat(Ids(suites[0].cases), SuiteIds(suites[1..]), st.measured);
      ElementsConcat(Ids(suites[0].cases), SuiteIds(suites[1..]));
      assert (forall k :: 0 <= k < |suites| ==> SoundSuite(suites[k])) <==>
        SoundSuite(suites[0]) && (forall k :: 0 <= k < |suites[1..]| ==> SoundSuite(suites[1..][k]))
      by {
        assert forall k :: 1 <= k < |suites| ==> suites[k] == suites[1..][k - 1];
      }
      if TakeSuite(st, suites[0]).Ok? {
        SuitesMerge(TakeSuite(st, suites[0]).value, suites[1..]);
      }
    }
  }

  lemma {:induction false} RunsAreIds(cases: seq<Case>)
    ensures RunCount(cases) == |Ids(cases)|
  {
    if cases == [] {
    } else {
      RunsAreIds(cases[1..]);
    }
  }

  lemma {:induction false} SuiteRunsAreIds(suites: seq<Suite>)
    ensures RunsInSuites(suites) == |SuiteIds(suites)|
  {
    if suites == [] {
    } else {
      RunsAreIds(suites[0].cases);
      SuiteRunsAreIds(suites[1..]);
    }
  }

  lemma RootIs(r: Report)
    ensures RootProblem(r) == if r.tag != "testsuites" then Some(WrongRoot)
      else if !SoundRoot(r) then Some(WrongCount) else None
    ensures RunsInSuites(r.suites) == |SuiteIds(r.suites)|
  {
    CasesCounted(r.suites);
    SuiteRunsAreIds(r.suites);
  }

  lemma ReportMerges(st: State, report: Option<Report>)
    ensures TakeReport(st, report).Ok? <==> SoundReport(report) && FreshIds(SuiteIds(SuitesOf(report)), st.measured)
    ensures TakeReport(st, report).Ok? ==>
      TakeReport(st, report).value.measured == st.measured + Elements(SuiteIds(SuitesOf(report)))
  {
    if report.Some? {
      RootIs(report.value);
      SuitesMerge(st, report.value.suites);
    }
  }

  predicate AllSound(reports: seq<Option<Report>>) {
    forall k :: 0 <= k < |reports| ==> SoundReport(reports[k])
  }

  lemma AllSoundFirst(reports: seq<Option<Report>>)
    requires reports != []
    ensures AllSound(reports) <==> SoundReport(reports[0]) && AllSound(reports[1..])
  {
    assert forall k :: 1 <= k < |reports| ==> reports[k] == reports[1..][k - 1];
  }

  lemma {:induction false} ReportsMerge(st: State, reports: seq<Option<Report>>)
    ensures TakeReports(st, reports).Ok? <==> AllSound(reports) && FreshIds(Executed(reports), st.measured)
    ensures TakeReports(st, reports).Ok? ==>
      TakeReports(st, reports).value.measured == st.measured + Elements(Executed(reports))
    decreases |reports|
  {
    if reports == [] {
    } else {
      var first, rest := SuiteIds(SuitesOf(reports[0])), Executed(reports[1..]);
      ReportMerges(st, reports[0]);
      AllSoundFirst(reports);
      FreshConcat(first, rest, st.measured);
      ElementsConcat(first, rest);
      if TakeReport(st, reports[0]).Ok? {
        ReportsMerge(TakeReport(st, reports[0]).value, reports[1..]);
        assert st.measured + Elements(first) + Elements(rest) == st.measured + Elements(Executed(reports));
      }
    }
  }

  lemma {:induction false} FreshMeansOnce(ids: seq<string>, m: set<string>)
    ensures FreshIds(ids, m) <==>
      (forall x :: multiset(ids)[x] <= 1) && forall k :: 0 <= k < |ids| ==> ids[k] !in m
    decreases |ids|
  {
    if ids == [] {
    } else {
      var rest := ids[1..];
      FreshMeansOnce(rest, m + {ids[0]});
      assert ids == [ids[0]] + rest;
      assert forall x :: multiset(ids)[x] == multiset(rest)[x] + if x == ids[0] then 1 else 0;
      assert forall k :: 1 <= k < |ids| ==> ids[k] == rest[k - 1];
      assert multiset(rest)[ids[0]] == 0 <==> ids[0] !in rest;
    }
  }

  lemma OnceIsSet(ids: seq<string>, expected: set<string>)
    ensures (forall x :: multiset(ids)[x] <= 1) && Elements(ids) == expected <==> multiset(ids) == multiset(expected)
  {
    assert forall x :: x in ids <==> x in multiset(ids);
    assert forall x :: x in ids <==> x in Elements(ids);
    if multiset(ids) == multiset(expected) {
      assert forall x :: multiset(expected)[x] <= 1;
      assert forall x :: x in Elements(ids) <==> x in expected;
    }
    if (forall x :: multiset(ids)[x] <= 1) && Elements(ids) == expected {
      assert forall x :: multiset(ids)[x] == multiset(expected)[x];
    }
  }

  /** Reports merge exactly when each is sound and together they executed the selected cases, each once. */
  lemma MergesIff(reports: seq<Option<Report>>, expected: set<string>)
    ensures Merge(reports, expected).Ok? <==>
      AllSound(reports) && multiset(Executed(reports)) == multiset(expected)
  {
    ReportsMerge(State([], {}), reports);
    FreshMeansOnce(Executed(reports), {});
    assert {} + Elements(Executed(reports)) == Elements(Executed(reports));
    OnceIsSet(Executed(reports), expected);
  }

  // ---- why reports do not merge ----

  predicate CaseAtFault(c: Case, before: set<string>, p: Problem) {
    if c.classname == "" || c.name == "" then p == NamelessCase
    else if (c.status != "run" && c.status != "notrun") ||
      (c.result != "completed" && c.result != "skipped" && c.result != "suppressed") then p == NoStatus
    else if c.time.NoNumber? then p == NoTime
    else if c.time.NotFinite? || c.time.value < 0.0 then p == BadTime
    else if c.failure then p == FailedCase
    else c.status == "run" && Id(c) in before && p == ExecutedTwice(Id(c))
  }

  /** The case at k is the first at fault in its suite. */
  ghost predicate FaultAt(cases: seq<Case>, k: nat, before: set<string>, p: Problem) {
    k < |cases| && SoundCases(cases[..k]) && FreshIds(Ids(cases[..k]), before) &&
    CaseAtFault(cases[k], before + Elements(Ids(cases[..k])), p)
  }

  ghost predicate SuiteAtFault(s: Suite, before: set<string>, p: Problem) {
    if s.name == "" then p == UnnamedSuite
    else if s.tests != PrintNat(|s.cases|) then p == WrongSuiteCount
    else exists k: nat :: FaultAt(s.cases, k, before, p)
  }

  predicate SoundSuites(suites: seq<Suite>) {
    forall k :: 0 <= k < |suites| ==> SoundSuite(suites[k])
  }

  ghost predicate SuiteFaultAt(suites: seq<Suite>, k: nat, before: set<string>, p: Problem) {
    k < |suites| && SoundSuites(suites[..k]) && FreshIds(SuiteIds(suites[..k]), before) &&
    SuiteAtFault(suites[k], before + Elements(SuiteIds(suites[..k])), p)
  }

  ghost predicate ReportAtFault(report: Option<Report>, before: set<string>, p: Problem) {
    match report
    case None => p == Unreadable
    case Some(r) =>
      if r.tag != "testsuites" then p == WrongRoot
      else if !SoundRoot(r) then p == WrongCount
      else
        (exists k: nat :: SuiteFaultAt(r.suites, k, before, p)) ||
        (SoundSuites(r.suites) && FreshIds(SuiteIds(r.suites), before) && SuiteIds(r.suites) == [] && p == EmptyShard)
  }

  ghost predicate ReportFaultAt(reports: seq<Option<Report>>, k: nat, before: set<string>, p: Problem) {
    k < |reports| && AllSound(reports[..k]) && FreshIds(Executed(reports[..k]), before) &&
    ReportAtFault(reports[k], before + Elements(Executed(reports[..k])), p)
  }

  lemma SetSum(m: set<string>, a: seq<string>, b: seq<string>)
    ensures m + Elements(a) + Elements(b) == m + Elements(a + b)
  {
    ElementsConcat(a, b);
  }

  lemma NextFault(cases: seq<Case>, j: nat, before: set<string>, p: Problem)
    requires cases != [] && SoundCase(cases[0]) && (cases[0].status == "run" ==> Id(cases[0]) !in before)
    requires FaultAt(cases[1..], j, before + (if cases[0].status == "run" then {Id(cases[0])} else {}), p)
    ensures FaultAt(cases, j + 1, before, p)
  {
    var k, c := j + 1, cases[0];
    var head, tail := if c.status == "run" then [Id(c)] else [], Ids(cases[1..][..j]);
    assert cases[..k][1..] == cases[1..][..j] && cases[..k][0] == c;
    SoundCasesFirst(cases[..k]);
    assert Ids(cases[..k]) == head + tail;
    assert Elements(head) == if c.status == "run" then {Id(c)} else {};
    FreshConcat(head, tail, before);
    SetSum(before, head, tail);
  }

  lemma {:induction false} FirstCaseAtFault(st: State, name: string, cases: seq<Case>, p: Problem) returns (k: nat)
    requires Find(st.suites, name).Some? && TakeCases(st, name, cases) == Err(p)
    ensures FaultAt(cases, k, st.measured, p)
    decreases |cases|
  {
    var c := cases[0];
    CaseMerges(st, name, c);
    if TakeCase(st, name, c).Err? {
      k := 0;
      assert cases[..0] == [] && st.measured + Elements(Ids(cases[..0])) == st.measured;
      CaseFails(st, name, c, p);
    } else {
      PlacedStillThere(st.suites, name, c, name);
      var j := FirstCaseAtFault(TakeCase(st, name, c).value, name, cases[1..], p);
      k := j + 1;
      NextFault(cases, j, st.measured, p);
    }
  }

  lemma CaseFails(st: State, name: string, c: Case, p: Problem)
    requires Find(st.suites, name).Some? && TakeCase(st, name, c) == Err(p)
    ensures CaseAtFault(c, st.measured, p)
  {
  }

  lemma NextSuiteFault(suites: seq<Suite>, j: nat, before: set<string>, p: Problem)
    requires suites != [] && SoundSuite(suites[0]) && FreshIds(Ids(suites[0].cases), before)
    requires SuiteFaultAt(suites[1..], j, before + Elements(Ids(suites[0].cases)), p)
    ensures SuiteFaultAt(suites, j + 1, before, p)
  {
    var k, s := j + 1, suites[0];
    var head, tail := Ids(s.cases), SuiteIds(suites[1..][..j]);
    assert suites[..k][1..] == suites[1..][..j] && suites[..k][0] == s;
    assert forall i :: 1 <= i < k ==> suites[..k][i] == suites[1..][..j][i - 1];
    assert SuiteIds(suites[..k]) == head + tail;
    FreshConcat(head, tail, before);
    SetSum(before, head, tail);
  }

  lemma {:induction false} FirstSuiteAtFault(st: State, suites: seq<Suite>, p: Problem) returns (k: nat)
    requires TakeSuites(st, suites) == Err(p)
    ensures SuiteFaultAt(suites, k, st.measured, p)
    decreases |suites|
  {
    var s := suites[0];
    if TakeSuite(st, s).Err? {
      k := 0;
      assert suites[..0] == [] && st.measured + Elements(SuiteIds(suites[..0])) == st.measured;
      if s.name != "" && s.tests == PrintNat(|s.cases|) {
        var j := FirstCaseAtFault(State(WithSuite(st.suites, s.name), st.measured), s.name, s.cases, p);
      }
    } else {
      SuiteMerges(st, s);
      var j := FirstSuiteAtFault(TakeSuite(st, s).value, suites[1..], p);
      k := j + 1;
      NextSuiteFault(suites, j, st.measured, p);
    }
  }

  lemma ReportFails(st: State, report: Option<Report>, p: Problem)
    requires TakeReport(st, report) == Err(p)
    ensures ReportAtFault(report, st.measured, p)
  {
    if report.Some? {
      var suites := report.value.suites;
      RootIs(report.value);
      if SoundRoot(report.value) {
        if TakeSuites(st, suites).Err? {
          var k := FirstSuiteAtFault(st, suites, p);
        } else {
          SuitesMerge(st, suites);
        }
      }
    }
  }

  lemma {:induction false} FirstReportAtFault(st: State, reports: seq<Option<Report>>, p: Problem) returns (k: nat)
    requires TakeReports(st, reports) == Err(p)
    ensures ReportFaultAt(reports, k, st.measured, p)
    decreases |reports|
  {
    var r := reports[0];
    if TakeReport(st, r).Err? {
      k := 0;
      assert reports[..0] == [] && st.measured + Elements(Executed(reports[..0])) == st.measured;
      ReportFails(st, r, p);
    } else {
      ReportMerges(st, r);
      var j := FirstReportAtFault(TakeReport(st, r).value, reports[1..], p);
      k := j + 1;
      var head, tail := SuiteIds(SuitesOf(r)), Executed(reports[1..][..j]);
      assert reports[..k][1..] == reports[1..][..j] && reports[..k][0] == r;
      AllSoundFirst(reports[..k]);
      assert Executed(reports[..k]) == head + tail;
      FreshConcat(head, tail, st.measured);
      SetSum(st.measured, head, tail);
    }
  }

  /**
   A merge that is refused names the first fault met: that of the first report at fault, in it of the first suite and
   case, or, if all are sound and executed nothing twice, how the executed cases differ from the selected ones.
   */
  lemma MergeFails(reports: seq<Option<Report>>, expected: set<string>, p: Problem)
    requires Merge(reports, expected) == Err(p)
    ensures
      || (exists k: nat :: ReportFaultAt(reports, k, {}, p))
      || (AllSound(reports) && FreshIds(Executed(reports), {}) && expected != Elements(Executed(reports)) &&
          p == WrongSelection(expected - Elements(Executed(reports)), Elements(Executed(reports)) - expected))
  {
    var st := State([], {});
    if TakeReports(st, reports).Err? {
      var k := FirstReportAtFault(st, reports, p);
    } else {
      ReportsMerge(st, reports);
      assert {} + Elements(Executed(reports)) == Elements(Executed(reports));
    }
  }
}
