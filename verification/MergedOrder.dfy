/**
 The published report as a whole: its suites in name order, its totals, and that the verdict, the suites
 and the statuses do not depend on the order the shard reports come in.
 */
module MergedOrder {
  import opened Wrappers
  import opened ReportMerger
  import opened MergedReports
  import opened MergedContents

  // ---- what the fold keeps ----

  predicate DistinctNames(suites: seq<Entry>) {
    forall i, j :: 0 <= i < j < |suites| ==> suites[i].name != suites[j].name
  }

  predicate Ledger(suites: seq<Entry>) {
    DistinctNames(suites) && forall k :: 0 <= k < |suites| ==> SoundCases(suites[k].cases)
  }

  function SumRuns(suites: seq<Entry>): nat {
    if suites == [] then 0 else RunCount(suites[0].cases) + SumRuns(suites[1..])
  }

  lemma {:induction false} SumRunsUpdate(suites: seq<Entry>, k: nat, e: Entry)
    requires k < |suites|
    ensures SumRuns(suites[k := e]) + RunCount(suites[k].cases) == SumRuns(suites) + RunCount(e.cases)
  {
    if k == 0 {
      assert suites[k := e][1..] == suites[1..];
    } else {
      assert suites[k := e][1..] == suites[1..][k - 1 := e];
      SumRunsUpdate(suites[1..], k - 1, e);
    }
  }

  lemma {:induction false} SumRunsOnto(suites: seq<Entry>, e: Entry)
    ensures SumRuns(suites + [e]) == SumRuns(suites) + RunCount(e.cases)
  {
    if suites == [] {
      assert suites + [e] == [e] && [e][1..] == suites;
    } else {
      assert (suites + [e])[1..] == suites[1..] + [e];
      SumRunsOnto(suites[1..], e);
    }
  }

  lemma {:induction false} RunsOnto(cases: seq<Case>, c: Case)
    ensures RunCount(cases + [c]) == RunCount(cases) + if Ran(c) then 1 else 0
  {
    if cases == [] {
      assert cases + [c] == [c] && [c][1..] == cases;
    } else {
      assert (cases + [c])[1..] == cases[1..] + [c];
      RunsOnto(cases[1..], c);
    }
  }

  lemma {:induction false} IdleDropped(cases: seq<Case>, name: string)
    requires SoundCases(cases)
    ensures SoundCases(WithoutIdle(cases, name)) && RunCount(WithoutIdle(cases, name)) == RunCount(cases)
  {
    if cases == [] {
    } else {
      assert forall k :: 0 <= k < |cases[1..]| ==> cases[1..][k] == cases[k + 1];
      IdleDropped(cases[1..], name);
      var rest := WithoutIdle(cases[1..], name);
      if cases[0].name == name && cases[0].status == "notrun" {
        assert !Ran(cases[0]) && WithoutIdle(cases, name) == rest;
      } else {
        assert WithoutIdle(cases, name) == [cases[0]] + rest && ([cases[0]] + rest)[1..] == rest;
      }
    }
  }

  lemma PlaceKeeps(cases: seq<Case>, c: Case)
    requires SoundCases(cases) && SoundCase(c)
    ensures SoundCases(Place(cases, c)) && RunCount(Place(cases, c)) == RunCount(cases) + if Ran(c) then 1 else 0
  {
    RunsOnto(cases, c);
    IdleDropped(cases, c.name);
    RunsOnto(WithoutIdle(cases, c.name), c);
  }

  lemma PlaceInKeeps(suites: seq<Entry>, name: string, c: Case)
    requires Find(suites, name).Some? && Ledger(suites) && SoundCase(c)
    ensures Ledger(PlaceIn(suites, name, c))
    ensures SumRuns(PlaceIn(suites, name, c)) == SumRuns(suites) + if Ran(c) then 1 else 0
  {
    var k := Find(suites, name).value;
    PlaceKeeps(suites[k].cases, c);
    SumRunsUpdate(suites, k, Entry(name, Place(suites[k].cases, c)));
  }

  lemma CaseKeeps(st: State, name: string, c: Case) returns (st': State)
    requires Find(st.suites, name).Some? && Ledger(st.suites) && TakeCase(st, name, c).Ok?
    ensures TakeCase(st, name, c) == Ok(st') && Ledger(st'.suites) && Find(st'.suites, name).Some?
    ensures SumRuns(st'.suites) == SumRuns(st.suites) + if Ran(c) then 1 else 0
    ensures forall s :: Find(st'.suites, s) == Find(st.suites, s)
  {
    CaseMerges(st, name, c);
    PlaceInKeeps(st.suites, name, c);
    forall s {
      PlacedStillThere(st.suites, name, c, s);
    }
    st' := TakeCase(st, name, c).value;
  }

  lemma {:induction false} CasesKeep(st: State, name: string, cases: seq<Case>)
    requires Find(st.suites, name).Some? && Ledger(st.suites) && TakeCases(st, name, cases).Ok?
    ensures var st' := TakeCases(st, name, cases).value;
      Ledger(st'.suites) && SumRuns(st'.suites) == SumRuns(st.suites) + RunCount(cases) &&
      forall s :: Find(st'.suites, s) == Find(st.suites, s)
    decreases |cases|
  {
    if cases == [] {
    } else {
      var st' := CaseKeeps(st, name, cases[0]);
      CasesKeep(st', name, cases[1..]);
    }
  }

  lemma NewSuiteKeeps(suites: seq<Entry>, name: string)
    requires Ledger(suites)
    ensures Ledger(WithSuite(suites, name)) && SumRuns(WithSuite(suites, name)) == SumRuns(suites)
    ensures forall s :: Find(WithSuite(suites, name), s).Some? <==> Find(suites, s).Some? || s == name
  {
    SumRunsOnto(suites, Entry(name, []));
    var r := WithSuite(suites, name);
    forall s ensures Find(r, s).Some? <==> Find(suites, s).Some? || s == name {
      if Find(suites, s).Some? {
        FindIn(suites, r, s);
      } else if s != name {
        NotFound(r, s);
      }
    }
  }

  predicate HasSuite(suites: seq<Suite>, s: string) {
    exists k :: 0 <= k < |suites| && suites[k].name == s
  }

  lemma SuiteKeeps(st: State, suite: Suite) returns (st': State)
    requires Ledger(st.suites) && TakeSuite(st, suite).Ok?
    ensures TakeSuite(st, suite) == Ok(st') && Ledger(st'.suites)
    ensures SumRuns(st'.suites) == SumRuns(st.suites) + RunCount(suite.cases)
    ensures forall s :: Find(st'.suites, s).Some? <==> Find(st.suites, s).Some? || s == suite.name
  {
    NewSuiteKeeps(st.suites, suite.name);
    CasesKeep(State(WithSuite(st.suites, suite.name), st.measured), suite.name, suite.cases);
    st' := TakeSuite(st, suite).value;
  }

  lemma {:induction false} SuitesKeep(st: State, suites: seq<Suite>)
    requires Ledger(st.suites) && TakeSuites(st, suites).Ok?
    ensures var st' := TakeSuites(st, suites).value;
      Ledger(st'.suites) && SumRuns(st'.suites) == SumRuns(st.suites) + RunsInSuites(suites) &&
      forall s :: Find(st'.suites, s).Some? <==> Find(st.suites, s).Some? || HasSuite(suites, s)
    decreases |suites|
  {
    if suites == [] {
    } else {
      var st' := SuiteKeeps(st, suites[0]);
      SuitesKeep(st', suites[1..]);
      forall s ensures HasSuite(suites, s) <==> suites[0].name == s || HasSuite(suites[1..], s) {
        assert forall k :: 1 <= k < |suites| ==> suites[k] == suites[1..][k - 1];
        assert suites[0].name == s ==> HasSuite(suites, s);
      }
    }
  }

  predicate SomeReportHas(reports: seq<Option<Report>>, s: string) {
    exists r :: r in reports && HasSuite(SuitesOf(r), s)
  }

  lemma {:induction false} ReportsKeep(st: State, reports: seq<Option<Report>>)
    requires Ledger(st.suites) && TakeReports(st, reports).Ok?
    ensures var st' := TakeReports(st, reports).value;
      Ledger(st'.suites) && SumRuns(st'.suites) == SumRuns(st.suites) + |Executed(reports)| &&
      forall s :: Find(st'.suites, s).Some? <==> Find(st.suites, s).Some? || SomeReportHas(reports, s)
    decreases |reports|
  {
    if reports == [] {
    } else {
      SuitesKeep(st, reports[0].value.suites);
      SuiteRunsAreIds(reports[0].value.suites);
      ReportsKeep(TakeReport(st, reports[0]).value, reports[1..]);
      assert forall r :: r in reports <==> r == reports[0] || r in reports[1..];
    }
  }

  // ---- the published rows ----

  function Rows(suites: seq<Entry>): (rows: seq<SuiteTotals>)
    ensures |rows| == |suites|
  {
    seq(|suites|, i requires 0 <= i < |suites| => Totals(suites[i]))
  }

  function TestSum(suites: seq<Entry>): nat {
    if suites == [] then 0 else |suites[0].cases| + TestSum(suites[1..])
  }

  function IdleSum(suites: seq<Entry>): nat {
    if suites == [] then 0 else IdleCount(suites[0].cases) + IdleSum(suites[1..])
  }

  function FailureSum(suites: seq<Entry>): nat {
    if suites == [] then 0 else FailureCount(suites[0].cases) + FailureSum(suites[1..])
  }

  lemma {:induction false} PublishedSums(m: Merged, suites: seq<Entry>)
    ensures var r := Publish(m, suites);
      r.suites == m.suites + Rows(suites) && r.tests == m.tests + TestSum(suites) &&
      r.disabled == m.disabled + IdleSum(suites) && r.failures == m.failures + FailureSum(suites)
    decreases |suites|
  {
    if suites == [] {
      assert m.suites + Rows(suites) == m.suites;
    } else {
      PublishedSums(AddSuite(m, Totals(suites[0])), suites[1..]);
      assert Rows(suites) == [Totals(suites[0])] + Rows(suites[1..]);
      assert m.suites + [Totals(suites[0])] + Rows(suites[1..]) == m.suites + Rows(suites);
    }
  }

  lemma {:induction false} InsertSums(e: Entry, sorted: seq<Entry>)
    ensures var r := InsertByName(e, sorted);
      multiset(r) == multiset{e} + multiset(sorted) &&
      TestSum(r) == |e.cases| + TestSum(sorted) && IdleSum(r) == IdleCount(e.cases) + IdleSum(sorted) &&
      FailureSum(r) == FailureCount(e.cases) + FailureSum(sorted)
  {
    var r := InsertByName(e, sorted);
    if sorted == [] || AtMost(e.name, sorted[0].name) {
      assert r[1..] == sorted;
    } else {
      InsertSums(e, sorted[1..]);
      assert r[1..] == InsertByName(e, sorted[1..]);
      assert sorted == [sorted[0]] + sorted[1..];
    }
  }

  lemma {:induction false} SortSums(suites: seq<Entry>)
    ensures var r := SortByName(suites);
      multiset(r) == multiset(suites) && TestSum(r) == TestSum(suites) && IdleSum(r) == IdleSum(suites) &&
      FailureSum(r) == FailureSum(suites)
  {
    if suites == [] {
    } else {
      SortSums(suites[1..]);
      InsertSums(suites[0], SortByName(suites[1..]));
      assert suites == [suites[0]] + suites[1..];
    }
  }

  lemma {:induction false} CountsOfSound(cases: seq<Case>)
    requires SoundCases(cases)
    ensures RunCount(cases) + IdleCount(cases) == |cases| && FailureCount(cases) == 0
  {
    if cases == [] {
    } else {
      assert forall k :: 0 <= k < |cases[1..]| ==> cases[1..][k] == cases[k + 1];
      assert SoundCase(cases[0]);
      CountsOfSound(cases[1..]);
    }
  }

  lemma {:induction false} SumsOfSound(suites: seq<Entry>)
    requires forall k :: 0 <= k < |suites| ==> SoundCases(suites[k].cases)
    ensures SumRuns(suites) + IdleSum(suites) == TestSum(suites) && FailureSum(suites) == 0
  {
    if suites == [] {
    } else {
      CountsOfSound(suites[0].cases);
      SumsOfSound(suites[1..]);
    }
  }

  lemma PublishedOf(suites: seq<Entry>)
    requires Ledger(suites)
    ensures var m := Publish(BLANK, SortByName(suites)); m.failures == 0 && m.tests == m.disabled + SumRuns(suites)
  {
    SumsOfSound(suites);
    SortSums(suites);
    PublishedSums(BLANK, SortByName(suites));
  }

  // ---- the root's totals ----

  datatype Sums = Sums(tests: nat, failures: nat, disabled: nat, time: real)

  function SumsOf(rows: seq<SuiteTotals>): Sums {
    if rows == [] then Sums(0, 0, 0, 0.0)
    else
      var (s, r) := (SumsOf(rows[1..]), rows[0]);
      Sums(r.tests + s.tests, r.failures + s.failures, r.disabled + s.disabled, r.time + s.time)
  }

  /** The totals of the root are the sums over its rows. */
  predicate Balanced(m: Merged) {
    Sums(m.tests, m.failures, m.disabled, m.time) == SumsOf(m.suites)
  }

  lemma {:induction false} SumsWithLast(rows: seq<SuiteTotals>, r: SuiteTotals)
    ensures var s := SumsOf(rows);
      SumsOf(rows + [r]) == Sums(s.tests + r.tests, s.failures + r.failures, s.disabled + r.disabled, s.time + r.time)
  {
    if rows == [] {
      assert rows + [r] == [r];
    } else {
      assert (rows + [r])[1..] == rows[1..] + [r];
      SumsWithLast(rows[1..], r);
    }
  }

  lemma {:induction false} PublishBalances(m: Merged, suites: seq<Entry>)
    requires Balanced(m)
    ensures Balanced(Publish(m, suites))
    decreases |suites|
  {
    if suites == [] {
    } else {
      SumsWithLast(m.suites, Totals(suites[0]));
      PublishBalances(AddSuite(m, Totals(suites[0])), suites[1..]);
    }
  }

  /** On success no failure is counted, and the cases not disabled are as many as were selected. */
  lemma TotalsCountExecuted(reports: seq<Option<Report>>, expected: set<string>)
    requires Merge(reports, expected).Ok?
    ensures var m := Merge(reports, expected).value;
      m.failures == 0 && m.tests == m.disabled + |expected|
  {
    var st := TakeReports(State([], {}), reports).value;
    MergesIff(reports, expected);
    ReportsKeep(State([], {}), reports);
    PublishedOf(st.suites);
    assert |Executed(reports)| == |multiset(Executed(reports))| == |multiset(expected)| == |expected|;
  }

  // ---- name order ----

  lemma {:induction false} AtMostTotal(a: string, b: string)
    ensures AtMost(a, b) || AtMost(b, a)
    ensures AtMost(a, b) && AtMost(b, a) ==> a == b
  {
    if a == "" || b == "" {
    } else {
      AtMostTotal(a[1..], b[1..]);
      assert a == [a[0]] + a[1..] && b == [b[0]] + b[1..];
    }
  }

  lemma {:induction false} AtMostTransitive(a: string, b: string, c: string)
    requires AtMost(a, b) && AtMost(b, c)
    ensures AtMost(a, c)
  {
    if a == "" || b == "" || c == "" || !(a[0] == b[0] == c[0]) {
    } else {
      AtMostTransitive(a[1..], b[1..], c[1..]);
    }
  }

  /** b goes on after a, or has the greater character where they first differ. */
  ghost predicate Precedes(a: string, b: string) {
    exists i: nat :: DifferFrom(a, b, i)
  }

  predicate DifferFrom(a: string, b: string, i: nat) {
    i <= |a| && i < |b| && a[..i] == b[..i] && (i == |a| || a[i] < b[i])
  }

  lemma {:induction false} PrecedesIff(a: string, b: string)
    ensures Precedes(a, b) <==> AtMost(a, b) && a != b
  {
    if a == "" || b == "" {
      assert b != "" ==> DifferFrom(a, b, 0);
    } else {
      PrecedesIff(a[1..], b[1..]);
      assert a == [a[0]] + a[1..] && b == [b[0]] + b[1..];
      if a[0] == b[0] && Precedes(a[1..], b[1..]) {
        var i: nat :| DifferFrom(a[1..], b[1..], i);
        assert a[..i + 1] == [a[0]] + a[1..][..i] && b[..i + 1] == [b[0]] + b[1..][..i];
        assert DifferFrom(a, b, i + 1);
      }
      assert a[0] < b[0] ==> DifferFrom(a, b, 0);
      if i: nat :| DifferFrom(a, b, i) {
        if i > 0 {
          assert a[..i][0] == b[..i][0] && a[1..][..i - 1] == a[..i][1..] && b[1..][..i - 1] == b[..i][1..];
          assert DifferFrom(a[1..], b[1..], i - 1);
        }
      }
    }
  }

  predicate InOrder(suites: seq<Entry>) {
    forall i, j :: 0 <= i < j < |suites| ==> AtMost(suites[i].name, suites[j].name)
  }

  lemma {:induction false} InsertInOrder(e: Entry, sorted: seq<Entry>)
    requires InOrder(sorted)
    ensures InOrder(InsertByName(e, sorted))
  {
    var r := InsertByName(e, sorted);
    if sorted == [] {
    } else if AtMost(e.name, sorted[0].name) {
      forall j | 0 <= j < |sorted| ensures AtMost(e.name, sorted[j].name) {
        if j > 0 {
          AtMostTransitive(e.name, sorted[0].name, sorted[j].name);
        }
      }
    } else {
      AtMostTotal(e.name, sorted[0].name);
      InsertInOrder(e, sorted[1..]);
      InsertSums(e, sorted[1..]);
      var rest := InsertByName(e, sorted[1..]);
      forall j | 0 <= j < |rest| ensures AtMost(sorted[0].name, rest[j].name) {
        assert rest[j] in multiset(rest);
        if rest[j] != e {
          assert rest[j] in sorted[1..];
        }
      }
    }
  }

  lemma {:induction false} SortInOrder(suites: seq<Entry>)
    ensures InOrder(SortByName(suites))
  {
    if suites == [] {
    } else {
      SortInOrder(suites[1..]);
      InsertInOrder(suites[0], SortByName(suites[1..]));
    }
  }

  // ---- what is published ----

  ghost predicate NamesAscend(rows: seq<SuiteTotals>) {
    forall i, j :: 0 <= i < j < |rows| ==> Precedes(rows[i].name, rows[j].name)
  }

  predicate HasRow(rows: seq<SuiteTotals>, s: string) {
    exists k :: 0 <= k < |rows| && rows[k].name == s
  }

  function Seconds(cases: seq<Case>): real {
    if cases == [] then 0.0
    else
      var last := |cases| - 1;
      Seconds(cases[..last]) + if cases[last].time.Seconds? then cases[last].time.value else 0.0
  }

  /** At how many places is there a case with the property? */
  function Number(cases: seq<Case>, p: Case -> bool): nat {
    |set k | 0 <= k < |cases| && p(cases[k])|
  }

  predicate HasFailed(c: Case) {
    c.failure
  }

  predicate IsDisabled(c: Case) {
    c.status == "notrun"
  }

  predicate IsSkipped(c: Case) {
    c.skipped || c.result == "skipped"
  }

  lemma NumberOnto(cases: seq<Case>, c: Case, p: Case -> bool)
    ensures Number(cases + [c], p) == Number(cases, p) + if p(c) then 1 else 0
  {
    var before := set k | 0 <= k < |cases| && p(cases[k]);
    var more := cases + [c];
    assert (set k | 0 <= k < |more| && p(more[k])) == before + if p(c) then {|cases|} else {};
  }

  lemma {:induction false} NumberFirst(cases: seq<Case>, p: Case -> bool)
    requires cases != []
    ensures Number(cases, p) == (if p(cases[0]) then 1 else 0) + Number(cases[1..], p)
    decreases |cases|
  {
    var last := |cases| - 1;
    assert cases == cases[..last] + [cases[last]];
    NumberOnto(cases[..last], cases[last], p);
    if last == 0 {
    } else {
      assert cases[..last][1..] == cases[1..][..last - 1] && cases[1..] == cases[1..][..last - 1] + [cases[last]];
      NumberFirst(cases[..last], p);
      NumberOnto(cases[1..][..last - 1], cases[last], p);
    }
  }

  lemma {:induction false} SecondsFirst(cases: seq<Case>)
    requires cases != []
    ensures Seconds(cases) == (if cases[0].time.Seconds? then cases[0].time.value else 0.0) + Seconds(cases[1..])
    decreases |cases|
  {
    var last := |cases| - 1;
    if last == 0 {
    } else {
      assert cases[..last][1..] == cases[1..][..last - 1];
      SecondsFirst(cases[..last]);
    }
  }

  /** The cases are counted and their seconds added up. */
  ghost predicate TotalsRight(row: SuiteTotals) {
    row.tests == |row.cases| && row.time == Seconds(row.cases) && row.failures == Number(row.cases, HasFailed) &&
    row.disabled == Number(row.cases, IsDisabled) && row.skipped == Number(row.cases, IsSkipped)
  }

  lemma {:induction false} TotalsAreRight(e: Entry)
    ensures TotalsRight(Totals(e))
    decreases |e.cases|
  {
    if e.cases == [] {
    } else {
      TotalsAreRight(Entry(e.name, e.cases[1..]));
      SecondsFirst(e.cases);
      NumberFirst(e.cases, HasFailed);
      NumberFirst(e.cases, IsDisabled);
      NumberFirst(e.cases, IsSkipped);
    }
  }

  /** A row totals its own cases, which are what the reports list for that suite, settled. */
  ghost predicate RowHolds(row: SuiteTotals, listed: seq<Occurrence>) {
    TotalsRight(row) && RunsOf(row.cases) == RunsFor(row.name, listed) &&
    (forall c :: c in row.cases ==> Occurrence(row.name, c) in listed) &&
    Binary(Marks(row.cases)) && Settled(Marks(row.cases), MarksFor(row.name, listed))
  }

  /** The rows are those of the listed suites, in name order, and the root totals them. */
  ghost predicate Faithful(m: Merged, reports: seq<Option<Report>>) {
    Balanced(m) && NamesAscend(m.suites) && (forall s :: HasRow(m.suites, s) <==> SomeReportHas(reports, s)) &&
    forall k :: 0 <= k < |m.suites| ==> RowHolds(m.suites[k], Listed(reports))
  }

  lemma {:induction false} DistinctIsNames(suites: seq<Entry>, k: nat)
    requires DistinctNames(suites) && k < |suites|
    ensures Find(suites, suites[k].name) == Some(k)
  {
    FindFirst(suites, suites[k].name, k);
  }

  lemma {:induction false} InsertDistinct(e: Entry, sorted: seq<Entry>)
    requires DistinctNames(sorted) && forall k :: 0 <= k < |sorted| ==> sorted[k].name != e.name
    ensures DistinctNames(InsertByName(e, sorted))
  {
    if sorted == [] {
    } else if AtMost(e.name, sorted[0].name) {
      assert InsertByName(e, sorted) == [e] + sorted;
    } else {
      InsertDistinct(e, sorted[1..]);
      InsertSums(e, sorted[1..]);
      var rest := InsertByName(e, sorted[1..]);
      forall j | 0 <= j < |rest| ensures sorted[0].name != rest[j].name {
        assert rest[j] in multiset(rest);
        assert rest[j] == e || rest[j] in sorted[1..];
      }
      assert InsertByName(e, sorted) == [sorted[0]] + rest;
    }
  }

  lemma {:induction false} SortDistinct(suites: seq<Entry>)
    requires DistinctNames(suites)
    ensures DistinctNames(SortByName(suites))
  {
    if suites == [] {
    } else {
      var rest := SortByName(suites[1..]);
      SortDistinct(suites[1..]);
      SortSums(suites[1..]);
      forall k | 0 <= k < |rest| ensures rest[k].name != suites[0].name {
        assert rest[k] in multiset(rest);
        assert rest[k] in suites[1..];
      }
      InsertDistinct(suites[0], rest);
    }
  }

  lemma SameEntries(suites: seq<Entry>, e: Entry)
    ensures e in SortByName(suites) <==> e in suites
  {
    SortSums(suites);
    assert e in SortByName(suites) <==> e in multiset(SortByName(suites));
    assert e in suites <==> e in multiset(suites);
  }

  lemma RowFor(st: State, reports: seq<Option<Report>>, e: Entry)
    requires TakeReports(State([], {}), reports) == Ok(st) && Ledger(st.suites) && e in st.suites
    ensures RowHolds(Totals(e), Listed(reports))
  {
    var k :| 0 <= k < |st.suites| && st.suites[k] == e;
    DistinctIsNames(st.suites, k);
    MergedSuiteHolds(reports, e.name);
    RunsKept(reports, e.name);
    TotalsAreRight(e);
  }

  lemma RowsListed(suites: seq<Entry>, s: string)
    ensures HasRow(Rows(SortByName(suites)), s) <==> Find(suites, s).Some?
  {
    var sorted := SortByName(suites);
    if HasRow(Rows(sorted), s) {
      var k :| 0 <= k < |sorted| && Rows(sorted)[k].name == s;
      SameEntries(suites, sorted[k]);
      var j :| 0 <= j < |suites| && suites[j] == sorted[k];
    }
    if Find(suites, s).Some? {
      var e := suites[Find(suites, s).value];
      SameEntries(suites, e);
      var k :| 0 <= k < |sorted| && sorted[k] == e;
      assert Rows(sorted)[k].name == s;
    }
  }

  lemma RowsAscend(suites: seq<Entry>)
    requires DistinctNames(suites)
    ensures NamesAscend(Rows(SortByName(suites)))
  {
    SortInOrder(suites);
    SortDistinct(suites);
    var rows := Rows(SortByName(suites));
    forall i, j | 0 <= i < j < |rows| ensures Precedes(rows[i].name, rows[j].name) {
      PrecedesIff(rows[i].name, rows[j].name);
    }
  }

  lemma MergedRows(reports: seq<Option<Report>>, expected: set<string>) returns (st: State)
    requires Merge(reports, expected).Ok?
    ensures TakeReports(State([], {}), reports) == Ok(st) && Ledger(st.suites)
    ensures Merge(reports, expected).value.suites == Rows(SortByName(st.suites))
    ensures forall s :: Find(st.suites, s).Some? <==> SomeReportHas(reports, s)
  {
    st := TakeReports(State([], {}), reports).value;
    ReportsKeep(State([], {}), reports);
    var sorted := SortByName(st.suites);
    PublishedSums(BLANK, sorted);
    assert BLANK.suites + Rows(sorted) == Rows(sorted);
  }

  /** Suites in name order, one for each name listed, each holding what the reports list for it. */
  lemma MergedIsFaithful(reports: seq<Option<Report>>, expected: set<string>)
    requires Merge(reports, expected).Ok?
    ensures Faithful(Merge(reports, expected).value, reports)
  {
    var st := MergedRows(reports, expected);
    var sorted := SortByName(st.suites);
    var rows := Rows(sorted);
    RowsAscend(st.suites);
    PublishBalances(BLANK, sorted);
    forall s ensures HasRow(rows, s) <==> SomeReportHas(reports, s) {
      RowsListed(st.suites, s);
    }
    forall k | 0 <= k < |rows| ensures RowHolds(rows[k], Listed(reports)) {
      SameEntries(st.suites, sorted[k]);
      RowFor(st, reports, sorted[k]);
    }
  }

  // ---- each name once ----

  predicate NamesOnce(cases: seq<Case>) {
    forall i, j :: 0 <= i < j < |cases| ==> cases[i].name != cases[j].name
  }

  lemma NamesOnceFirst(cases: seq<Case>)
    requires cases != []
    ensures NamesOnce(cases) <==> NamesOnce(cases[1..]) && !HasName(cases[1..], cases[0].name)
  {
    var rest := cases[1..];
    assert forall k :: 1 <= k < |cases| ==> cases[k] == rest[k - 1];
    if NamesOnce(cases) {
      forall i, j | 0 <= i < j < |rest| ensures rest[i].name != rest[j].name {
        assert rest[i] == cases[i + 1] && rest[j] == cases[j + 1];
      }
      forall k | 0 <= k < |rest| ensures rest[k].name != cases[0].name {
        assert cases[0].name != cases[k + 1].name;
      }
    }
  }

  lemma {:induction false} NamesOnceMarks(cases: seq<Case>)
    requires Binary(Marks(cases))
    ensures NamesOnce(cases) <==> forall n: string :: Marks(cases)[(n, "run")] + Marks(cases)[(n, "notrun")] <= 1
  {
    if cases == [] {
    } else {
      var first, rest := cases[0], cases[1..];
      assert MarkOf(first) in Marks(cases);
      assert forall x :: x in Marks(rest) ==> x in Marks(cases);
      NamesOnceMarks(rest);
      HasNameMarks(rest, first.name);
      NamesOnceFirst(cases);
      FirstMarkOnce(first, rest);
    }
  }

  lemma FirstMarkOnce(first: Case, rest: seq<Case>)
    requires first.status == "run" || first.status == "notrun"
    ensures var all := multiset{MarkOf(first)} + Marks(rest);
      (forall n: string :: all[(n, "run")] + all[(n, "notrun")] <= 1) <==>
      (forall n: string :: Marks(rest)[(n, "run")] + Marks(rest)[(n, "notrun")] <= 1) &&
      Marks(rest)[(first.name, "run")] == 0 && Marks(rest)[(first.name, "notrun")] == 0
  {
    var all := multiset{MarkOf(first)} + Marks(rest);
    forall n: string
      ensures all[(n, "run")] + all[(n, "notrun")] ==
        Marks(rest)[(n, "run")] + Marks(rest)[(n, "notrun")] + if n == first.name then 1 else 0
    {
    }
    if forall n: string :: all[(n, "run")] + all[(n, "notrun")] <= 1 {
      assert all[(first.name, "run")] + all[(first.name, "notrun")] <= 1;
      forall n: string ensures Marks(rest)[(n, "run")] + Marks(rest)[(n, "notrun")] <= 1 {
        assert all[(n, "run")] + all[(n, "notrun")] <= 1;
      }
    }
  }

  lemma {:induction false} UnlistedRuns(s: string, occs: seq<Occurrence>, n: string)
    requires forall k :: 0 <= k < |occs| ==> occs[k].suite != s
    ensures MarksFor(s, occs)[(n, "run")] == 0
  {
    RunListed(occs, s, n);
  }

  lemma {:induction false} ListedSuite(reports: seq<Option<Report>>, k: nat)
    requires k < |Listed(reports)|
    ensures SomeReportHas(reports, Listed(reports)[k].suite)
  {
    var first := InSuites(SuitesOf(reports[0]));
    if k < |first| {
      ListedInSuites(SuitesOf(reports[0]), k);
      assert reports[0] in reports;
    } else {
      ListedSuite(reports[1..], k - |first|);
    }
  }

  lemma {:induction false} ListedInSuites(suites: seq<Suite>, k: nat)
    requires k < |InSuites(suites)|
    ensures HasSuite(suites, InSuites(suites)[k].suite)
  {
    var first := InSuite(suites[0].name, suites[0].cases);
    if k < |first| {
      ListedInSuite(suites[0].name, suites[0].cases, k);
      assert suites[0].name == InSuites(suites)[k].suite;
    } else {
      ListedInSuites(suites[1..], k - |first|);
      var j :| 0 <= j < |suites[1..]| && suites[1..][j].name == InSuites(suites)[k].suite;
      assert suites[j + 1] == suites[1..][j];
    }
  }

  lemma {:induction false} ListedInSuite(name: string, cases: seq<Case>, k: nat)
    requires k < |InSuite(name, cases)|
    ensures InSuite(name, cases)[k].suite == name
  {
    if k == 0 {
    } else {
      ListedInSuite(name, cases[1..], k - 1);
    }
  }

  /**
   Each merged suite holds each case name once exactly when executed cases of one suite and one name agree
   on their class; a class that is the suite's name, as native reports have it, is such a case.
   */
  lemma EachNameOnceIff(reports: seq<Option<Report>>, expected: set<string>)
    requires Merge(reports, expected).Ok?
    ensures (forall k :: 0 <= k < |Merge(reports, expected).value.suites| ==>
        NamesOnce(Merge(reports, expected).value.suites[k].cases)) <==> OneClass(Listed(reports))
  {
    var m := Merge(reports, expected).value;
    var listed := Listed(reports);
    MergesIff(reports, expected);
    ListedIds(reports);
    assert forall id :: multiset(expected)[id] <= 1;
    RunsOnceIff(listed);
    MergedIsFaithful(reports, expected);
    forall k | 0 <= k < |m.suites|
      ensures NamesOnce(m.suites[k].cases) <==> forall n: string :: MarksFor(m.suites[k].name, listed)[(n, "run")] <= 1
    {
      RowOnceIff(m.suites[k], listed);
    }
    if forall k :: 0 <= k < |m.suites| ==> NamesOnce(m.suites[k].cases) {
      forall s, n ensures MarksFor(s, listed)[(n, "run")] <= 1 {
        if k :| 0 <= k < |m.suites| && m.suites[k].name == s {
          assert NamesOnce(m.suites[k].cases);
        } else {
          forall j | 0 <= j < |listed| ensures listed[j].suite != s {
            ListedSuite(reports, j);
            assert HasRow(m.suites, listed[j].suite);
          }
          UnlistedRuns(s, listed, n);
        }
      }
    }
  }

  lemma RowOnceIff(row: SuiteTotals, listed: seq<Occurrence>)
    requires RowHolds(row, listed)
    ensures NamesOnce(row.cases) <==> forall n: string :: MarksFor(row.name, listed)[(n, "run")] <= 1
  {
    var m, l := Marks(row.cases), MarksFor(row.name, listed);
    NamesOnceMarks(row.cases);
    assert forall n: string :: m[(n, "run")] + m[(n, "notrun")] <= 1 <==> l[(n, "run")] <= 1;
  }

  /** As native reports have it: the class of a case is its suite's name. */
  lemma EachNameOnce(reports: seq<Option<Report>>, expected: set<string>)
    requires Merge(reports, expected).Ok?
    requires forall k :: 0 <= k < |Listed(reports)| ==> Listed(reports)[k].item.classname == Listed(reports)[k].suite
    ensures forall k :: 0 <= k < |Merge(reports, expected).value.suites| ==>
      NamesOnce(Merge(reports, expected).value.suites[k].cases)
  {
    EachNameOnceIff(reports, expected);
  }

  // ---- the order of the reports ----

  function Without(reports: seq<Option<Report>>, k: nat): seq<Option<Report>>
    requires k < |reports|
  {
    reports[..k] + reports[k + 1..]
  }

  lemma {:induction false} ListedConcat(a: seq<Option<Report>>, b: seq<Option<Report>>)
    ensures Listed(a + b) == Listed(a) + Listed(b)
  {
    if a == [] {
      assert a + b == b;
      assert Listed(a) + Listed(b) == Listed(b);
    } else {
      assert (a + b)[1..] == a[1..] + b && (a + b)[0] == a[0];
      ListedConcat(a[1..], b);
      var first := InSuites(SuitesOf(a[0]));
      assert first + (Listed(a[1..]) + Listed(b)) == (first + Listed(a[1..])) + Listed(b);
    }
  }

  lemma {:induction false} ExecutedConcat(a: seq<Option<Report>>, b: seq<Option<Report>>)
    ensures Executed(a + b) == Executed(a) + Executed(b)
  {
    if a == [] {
      assert a + b == b;
      assert Executed(a) + Executed(b) == Executed(b);
    } else {
      assert (a + b)[1..] == a[1..] + b && (a + b)[0] == a[0];
      ExecutedConcat(a[1..], b);
      var first := SuiteIds(SuitesOf(a[0]));
      assert first + (Executed(a[1..]) + Executed(b)) == (first + Executed(a[1..])) + Executed(b);
    }
  }

  /** What one report adds can be taken out of any place. */
  lemma TakenOut(reports: seq<Option<Report>>, k: nat, s: string)
    requires k < |reports|
    ensures MarksFor(s, Listed(reports)) ==
      MarksFor(s, InSuites(SuitesOf(reports[k]))) + MarksFor(s, Listed(Without(reports, k)))
    ensures multiset(Executed(reports)) ==
      multiset(SuiteIds(SuitesOf(reports[k]))) + multiset(Executed(Without(reports, k)))
  {
    var before, one, after := reports[..k], [reports[k]], reports[k + 1..];
    assert reports == before + (one + after);
    ListedConcat(before, one + after);
    ListedConcat(one, after);
    ListedConcat(before, after);
    ExecutedConcat(before, one + after);
    ExecutedConcat(one, after);
    ExecutedConcat(before, after);
    assert Listed(one) == InSuites(SuitesOf(reports[k])) && Executed(one) == SuiteIds(SuitesOf(reports[k])) by {
      assert one[1..] == [];
    }
    MarksForConcat(s, Listed(before), Listed(one) + Listed(after));
    MarksForConcat(s, Listed(one), Listed(after));
    MarksForConcat(s, Listed(before), Listed(after));
  }

  lemma {:induction false} SameListed(a: seq<Option<Report>>, b: seq<Option<Report>>, s: string)
    requires multiset(a) == multiset(b)
    ensures MarksFor(s, Listed(a)) == MarksFor(s, Listed(b)) && multiset(Executed(a)) == multiset(Executed(b))
    decreases |a|
  {
    if a == [] {
      assert |multiset(b)| == 0;
      assert b == [];
    } else {
      assert a[0] in multiset(b);
      var k :| 0 <= k < |b| && b[k] == a[0];
      assert a == [a[0]] + a[1..];
      assert b == b[..k] + [b[k]] + b[k + 1..];
      assert Without(a, 0) == a[1..];
      assert multiset(Without(b, k)) == multiset(b) - multiset{b[k]};
      SameListed(a[1..], Without(b, k), s);
      TakenOut(a, 0, s);
      TakenOut(b, k, s);
    }
  }

  lemma SameMembers(a: seq<Option<Report>>, b: seq<Option<Report>>)
    requires multiset(a) == multiset(b)
    ensures forall r :: r in a <==> r in b
  {
    forall r ensures r in a <==> r in b {
      assert r in a <==> r in multiset(a);
      assert r in b <==> r in multiset(b);
    }
  }

  lemma SettledUnique(m: multiset<Mark>, n: multiset<Mark>, listed: multiset<Mark>)
    requires Binary(m) && Binary(n) && Settled(m, listed) && Settled(n, listed)
    ensures m == n
  {
    forall x: Mark ensures m[x] == n[x] {
      if x.1 == "run" {
        assert x == (x.0, "run");
      } else if x.1 == "notrun" {
        assert x == (x.0, "notrun");
      } else {
        assert x !in m && x !in n;
      }
    }
  }

  lemma {:induction false} SameNames(a: seq<SuiteTotals>, b: seq<SuiteTotals>)
    requires NamesAscend(a) && NamesAscend(b) && forall s :: HasRow(a, s) <==> HasRow(b, s)
    ensures |a| == |b| && forall k :: 0 <= k < |a| ==> a[k].name == b[k].name
    decreases |a|
  {
    if a == [] {
      assert b != [] ==> HasRow(b, b[0].name);
    } else {
      assert HasRow(a, a[0].name);
      var j :| 0 <= j < |b| && b[j].name == a[0].name;
      assert HasRow(b, b[0].name);
      var k :| 0 <= k < |a| && a[k].name == b[0].name;
      PrecedesIff(a[0].name, b[0].name);
      PrecedesIff(b[0].name, a[0].name);
      AtMostTotal(a[0].name, b[0].name);
      assert a[0].name == b[0].name;
      forall s ensures HasRow(a[1..], s) <==> HasRow(b[1..], s) {
        RestRows(a, s);
        RestRows(b, s);
      }
      SameNames(a[1..], b[1..]);
      forall i | 0 <= i < |a| ensures a[i].name == b[i].name {
        if i > 0 {
          assert a[i] == a[1..][i - 1] && b[i] == b[1..][i - 1];
        }
      }
    }
  }

  lemma RestRows(a: seq<SuiteTotals>, s: string)
    requires a != [] && NamesAscend(a)
    ensures HasRow(a[1..], s) <==> HasRow(a, s) && s != a[0].name
  {
    if HasRow(a[1..], s) {
      var k :| 0 <= k < |a[1..]| && a[1..][k].name == s;
      PrecedesIff(a[0].name, a[k + 1].name);
      assert a[k + 1].name == s;
    }
    if HasRow(a, s) && s != a[0].name {
      var k :| 0 <= k < |a| && a[k].name == s;
      assert a[1..][k - 1].name == s;
    }
  }

  /** Whether reports merge does not depend on their order. */
  lemma VerdictOrderFree(a: seq<Option<Report>>, b: seq<Option<Report>>, expected: set<string>)
    requires multiset(a) == multiset(b)
    ensures Merge(a, expected).Ok? <==> Merge(b, expected).Ok?
  {
    MergesIff(a, expected);
    MergesIff(b, expected);
    SameListed(a, b, "");
    SameMembers(a, b);
    assert AllSound(a) <==> forall r :: r in a ==> SoundReport(r);
    assert AllSound(b) <==> forall r :: r in b ==> SoundReport(r);
  }

  /** Nor does the list of suites, or the status under which a suite holds a case. */
  lemma StatusesOrderFree(a: seq<Option<Report>>, b: seq<Option<Report>>, expected: set<string>)
    requires multiset(a) == multiset(b) && Merge(a, expected).Ok?
    ensures Merge(b, expected).Ok?
    ensures var m, n := Merge(a, expected).value, Merge(b, expected).value;
      |m.suites| == |n.suites| && forall k :: 0 <= k < |m.suites| ==>
        m.suites[k].name == n.suites[k].name && m.suites[k].tests == n.suites[k].tests &&
        Marks(m.suites[k].cases) == Marks(n.suites[k].cases)
  {
    VerdictOrderFree(a, b, expected);
    var m, n := Merge(a, expected).value, Merge(b, expected).value;
    MergedIsFaithful(a, expected);
    MergedIsFaithful(b, expected);
    SameMembers(a, b);
    forall s ensures HasRow(m.suites, s) <==> HasRow(n.suites, s) {
      assert SomeReportHas(a, s) <==> SomeReportHas(b, s);
    }
    SameNames(m.suites, n.suites);
    forall k | 0 <= k < |m.suites|
      ensures m.suites[k].tests == n.suites[k].tests && Marks(m.suites[k].cases) == Marks(n.suites[k].cases)
    {
      SameListed(a, b, m.suites[k].name);
      SettledUnique(Marks(m.suites[k].cases), Marks(n.suites[k].cases), MarksFor(m.suites[k].name, Listed(a)));
    }
  }
}
