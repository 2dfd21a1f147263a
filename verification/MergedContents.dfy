/**
 What a merged suite holds: each executed case, and each case that ran nowhere once. Stated through the
 marks of a list of cases, its names and statuses with multiplicity.
 */
module MergedContents {
  import opened Collections
  import opened Wrappers
  import opened ReportMerger
  import opened MergedReports

  type Mark = (string, string)

  function MarkOf(c: Case): Mark {
    (c.name, c.status)
  }

  function Marks(cases: seq<Case>): (m: multiset<Mark>)
    ensures |m| == |cases|
  {
    if cases == [] then multiset{} else multiset{MarkOf(cases[0])} + Marks(cases[1..])
  }

  /** A case of a suite, as some report lists it. */
  datatype Occurrence = Occurrence(suite: string, item: Case)

  function InSuite(name: string, cases: seq<Case>): seq<Occurrence> {
    if cases == [] then [] else [Occurrence(name, cases[0])] + InSuite(name, cases[1..])
  }

  function InSuites(suites: seq<Suite>): seq<Occurrence> {
    if suites == [] then [] else InSuite(suites[0].name, suites[0].cases) + InSuites(suites[1..])
  }

  function Listed(reports: seq<Option<Report>>): seq<Occurrence> {
    if reports == [] then [] else InSuites(SuitesOf(reports[0])) + Listed(reports[1..])
  }

  /** What the reports list for one suite. */
  function MarksFor(s: string, occs: seq<Occurrence>): multiset<Mark> {
    if occs == [] then multiset{}
    else (if occs[0].suite == s then multiset{MarkOf(occs[0].item)} else multiset{}) + MarksFor(s, occs[1..])
  }

  /** What of it the merged suite keeps: every run, and one idle entry for a case that ran nowhere. */
  ghost predicate Settled(m: multiset<Mark>, listed: multiset<Mark>) {
    forall n: string ::
      m[(n, "run")] == listed[(n, "run")] &&
      m[(n, "notrun")] == if listed[(n, "run")] > 0 || listed[(n, "notrun")] == 0 then 0 else 1
  }

  predicate Binary(m: multiset<Mark>) {
    forall x :: x in m ==> x.1 == "run" || x.1 == "notrun"
  }

  // ---- one case into its suite ----

  lemma {:induction false} MarksConcat(a: seq<Case>, b: seq<Case>)
    ensures Marks(a + b) == Marks(a) + Marks(b)
  {
    if a == [] {
      assert a + b == b;
    } else {
      assert (a + b)[1..] == a[1..] + b;
      MarksConcat(a[1..], b);
    }
  }

  lemma MarksOnto(cases: seq<Case>, c: Case)
    ensures Marks(cases + [c]) == Marks(cases) + multiset{MarkOf(c)}
  {
    MarksConcat(cases, [c]);
    assert Marks([c]) == multiset{MarkOf(c)};
  }

  lemma ZeroedOnto(x: Mark, m: multiset<Mark>, gone: Mark)
    ensures (multiset{x} + m)[gone := 0] == (if x == gone then multiset{} else multiset{x}) + m[gone := 0]
  {
  }

  lemma {:induction false} MarksWithoutIdle(cases: seq<Case>, name: string)
    ensures Marks(WithoutIdle(cases, name)) == Marks(cases)[(name, "notrun") := 0]
  {
    if cases == [] {
    } else {
      MarksWithoutIdle(cases[1..], name);
      var rest := WithoutIdle(cases[1..], name);
      ZeroedOnto(MarkOf(cases[0]), Marks(cases[1..]), (name, "notrun"));
      if MarkOf(cases[0]) == (name, "notrun") {
        assert WithoutIdle(cases, name) == rest;
        assert multiset{} + Marks(rest) == Marks(rest);
      } else {
        assert WithoutIdle(cases, name) == [cases[0]] + rest;
        assert ([cases[0]] + rest)[1..] == rest;
      }
    }
  }

  lemma {:induction false} HasNameMarks(cases: seq<Case>, name: string)
    requires Binary(Marks(cases))
    ensures HasName(cases, name) <==> Marks(cases)[(name, "run")] > 0 || Marks(cases)[(name, "notrun")] > 0
  {
    if cases == [] {
    } else {
      var rest := cases[1..];
      assert MarkOf(cases[0]) in Marks(cases);
      assert forall x :: x in Marks(rest) ==> x in Marks(cases);
      HasNameMarks(rest, name);
      if HasName(rest, name) {
        var k :| 0 <= k < |rest| && rest[k].name == name;
        assert cases[k + 1].name == name;
      }
      if HasName(cases, name) {
        var k :| 0 <= k < |cases| && cases[k].name == name;
        assert k > 0 ==> rest[k - 1].name == name;
      }
    }
  }

  lemma SettledOnRun(m: multiset<Mark>, listed: multiset<Mark>, n: string)
    requires Settled(m, listed)
    ensures Settled(m[(n, "notrun") := 0] + multiset{(n, "run")}, listed + multiset{(n, "run")})
  {
  }

  lemma SettledOnIdle(m: multiset<Mark>, listed: multiset<Mark>, n: string)
    requires Settled(m, listed)
    ensures if m[(n, "run")] > 0 || m[(n, "notrun")] > 0 then Settled(m, listed + multiset{(n, "notrun")})
      else Settled(m + multiset{(n, "notrun")}, listed + multiset{(n, "notrun")})
  {
  }

  /** Placing a case keeps the suite settled with one more case listed. */
  lemma PlaceSettles(cases: seq<Case>, c: Case, listed: multiset<Mark>)
    requires CaseProblem(c).None? && Binary(Marks(cases)) && Settled(Marks(cases), listed)
    ensures Binary(Marks(Place(cases, c))) && Settled(Marks(Place(cases, c)), listed + multiset{MarkOf(c)})
  {
    if c.status == "notrun" {
      HasNameMarks(cases, c.name);
      SettledOnIdle(Marks(cases), listed, c.name);
      MarksOnto(cases, c);
    } else {
      assert c.status == "run";
      MarksWithoutIdle(cases, c.name);
      SettledOnRun(Marks(cases), listed, c.name);
      MarksOnto(WithoutIdle(cases, c.name), c);
    }
  }

  // ---- the whole fold ----

  function CasesOf(suites: seq<Entry>, s: string): seq<Case> {
    match Find(suites, s) case None => [] case Some(k) => suites[k].cases
  }

  lemma {:induction false} FindFirst(suites: seq<Entry>, s: string, k: nat)
    requires k < |suites| && suites[k].name == s && forall j :: 0 <= j < k ==> suites[j].name != s
    ensures Find(suites, s) == Some(k)
  {
    if k == 0 {
    } else {
      FindFirst(suites[1..], s, k - 1);
    }
  }

  lemma NotFound(suites: seq<Entry>, s: string)
    requires forall k :: 0 <= k < |suites| ==> suites[k].name != s
    ensures Find(suites, s).None?
  {
  }

  lemma NewSuiteIsEmpty(suites: seq<Entry>, name: string, s: string)
    ensures CasesOf(WithSuite(suites, name), s) == CasesOf(suites, s)
  {
    var r := WithSuite(suites, name);
    if Find(suites, s).Some? {
      FindIn(suites, r, s);
    } else if s == name {
      FindFirst(r, s, |suites|);
    } else {
      NotFound(r, s);
    }
  }

  lemma {:induction false} FindIn(suites: seq<Entry>, longer: seq<Entry>, s: string)
    requires suites <= longer && Find(suites, s).Some?
    ensures Find(longer, s) == Find(suites, s)
  {
    if suites[0].name != s {
      assert longer[0] == suites[0] && suites[1..] <= longer[1..];
      FindIn(suites[1..], longer[1..], s);
    } else {
      assert longer[0] == suites[0];
    }
  }

  /** The suite holds what the fold has listed for it so far. */
  ghost predicate Holds(suites: seq<Entry>, s: string, listed: multiset<Mark>) {
    Binary(Marks(CasesOf(suites, s))) && Settled(Marks(CasesOf(suites, s)), listed)
  }

  lemma CaseHolds(suites: seq<Entry>, name: string, c: Case, s: string, listed: multiset<Mark>)
    requires Find(suites, name).Some? && CaseProblem(c).None? && Holds(suites, s, listed)
    ensures Holds(PlaceIn(suites, name, c), s, listed + if name == s then multiset{MarkOf(c)} else multiset{})
  {
    PlacedStillThere(suites, name, c, s);
    if name == s {
      PlaceSettles(CasesOf(suites, s), c, listed);
    } else {
      assert listed + multiset{} == listed;
    }
  }

  lemma CaseStep(st: State, name: string, c: Case, s: string, listed: multiset<Mark>) returns (st': State)
    requires Find(st.suites, name).Some? && TakeCase(st, name, c).Ok? && Holds(st.suites, s, listed)
    ensures TakeCase(st, name, c) == Ok(st') && Find(st'.suites, name).Some?
    ensures Holds(st'.suites, s, listed + if name == s then multiset{MarkOf(c)} else multiset{})
  {
    PlacedStillThere(st.suites, name, c, name);
    CaseHolds(st.suites, name, c, s, listed);
    st' := TakeCase(st, name, c).value;
  }

  lemma Sum(a: multiset<Mark>, b: multiset<Mark>, c: multiset<Mark>)
    ensures a + b + c == a + (b + c)
  {
  }

  lemma {:induction false} CasesHold(st: State, name: string, cases: seq<Case>, s: string, listed: multiset<Mark>)
    requires Find(st.suites, name).Some? && TakeCases(st, name, cases).Ok? && Holds(st.suites, s, listed)
    ensures Holds(TakeCases(st, name, cases).value.suites, s, listed + MarksFor(s, InSuite(name, cases)))
    decreases |cases|
  {
    if cases == [] {
      assert listed + multiset{} == listed;
    } else {
      var st' := CaseStep(st, name, cases[0], s, listed);
      var one := if name == s then multiset{MarkOf(cases[0])} else multiset{};
      CasesHold(st', name, cases[1..], s, listed + one);
      MarksForFirst(s, name, cases[0], InSuite(name, cases[1..]));
      Sum(listed, one, MarksFor(s, InSuite(name, cases[1..])));
    }
  }

  lemma MarksForFirst(s: string, name: string, c: Case, rest: seq<Occurrence>)
    ensures MarksFor(s, [Occurrence(name, c)] + rest) ==
      (if name == s then multiset{MarkOf(c)} else multiset{}) + MarksFor(s, rest)
  {
    assert ([Occurrence(name, c)] + rest)[1..] == rest;
  }

  lemma {:induction false} MarksForConcat(s: string, a: seq<Occurrence>, b: seq<Occurrence>)
    ensures MarksFor(s, a + b) == MarksFor(s, a) + MarksFor(s, b)
    decreases |a|
  {
    if a == [] {
      assert a + b == b;
    } else {
      assert (a + b)[1..] == a[1..] + b;
      MarksForConcat(s, a[1..], b);
    }
  }

  lemma SuiteHolds(st: State, suite: Suite, s: string, listed: multiset<Mark>)
    requires TakeSuite(st, suite).Ok? && Holds(st.suites, s, listed)
    ensures Holds(TakeSuite(st, suite).value.suites, s, listed + MarksFor(s, InSuite(suite.name, suite.cases)))
  {
    NewSuiteIsEmpty(st.suites, suite.name, s);
    CasesHold(State(WithSuite(st.suites, suite.name), st.measured), suite.name, suite.cases, s, listed);
  }

  lemma {:induction false} SuitesHold(st: State, suites: seq<Suite>, s: string, listed: multiset<Mark>)
    requires TakeSuites(st, suites).Ok? && Holds(st.suites, s, listed)
    ensures Holds(TakeSuites(st, suites).value.suites, s, listed + MarksFor(s, InSuites(suites)))
    decreases |suites|
  {
    if suites == [] {
      assert listed + multiset{} == listed;
    } else {
      var first := InSuite(suites[0].name, suites[0].cases);
      SuiteHolds(st, suites[0], s, listed);
      SuitesHold(TakeSuite(st, suites[0]).value, suites[1..], s, listed + MarksFor(s, first));
      MarksForConcat(s, first, InSuites(suites[1..]));
      assert listed + MarksFor(s, first) + MarksFor(s, InSuites(suites[1..])) == listed + MarksFor(s, InSuites(suites));
    }
  }

  lemma {:induction false} ReportsHold(st: State, reports: seq<Option<Report>>, s: string, listed: multiset<Mark>)
    requires TakeReports(st, reports).Ok? && Holds(st.suites, s, listed)
    ensures Holds(TakeReports(st, reports).value.suites, s, listed + MarksFor(s, Listed(reports)))
    decreases |reports|
  {
    if reports == [] {
      assert listed + multiset{} == listed;
    } else {
      var first := InSuites(SuitesOf(reports[0]));
      SuitesHold(st, reports[0].value.suites, s, listed);
      ReportsHold(TakeReport(st, reports[0]).value, reports[1..], s, listed + MarksFor(s, first));
      MarksForConcat(s, first, Listed(reports[1..]));
      assert listed + MarksFor(s, first) + MarksFor(s, Listed(reports[1..])) == listed + MarksFor(s, Listed(reports));
    }
  }

  /** After all reports each suite holds every run listed for it, and the idle cases that ran nowhere, once. */
  lemma MergedSuiteHolds(reports: seq<Option<Report>>, s: string)
    requires TakeReports(State([], {}), reports).Ok?
    ensures Holds(TakeReports(State([], {}), reports).value.suites, s, MarksFor(s, Listed(reports)))
  {
    ReportsHold(State([], {}), reports, s, multiset{});
    assert multiset{} + MarksFor(s, Listed(reports)) == MarksFor(s, Listed(reports));
  }

  // ---- the executed cases themselves ----

  function RunsOf(cases: seq<Case>): seq<Case> {
    if cases == [] then [] else (if cases[0].status == "run" then [cases[0]] else []) + RunsOf(cases[1..])
  }

  /** What the reports list as executed in one suite. */
  function RunsFor(s: string, occs: seq<Occurrence>): seq<Case> {
    if occs == [] then []
    else
      (if occs[0].suite == s && occs[0].item.status == "run" then [occs[0].item] else []) + RunsFor(s, occs[1..])
  }

  lemma {:induction false} RunsOnto(cases: seq<Case>, c: Case)
    ensures RunsOf(cases + [c]) == RunsOf(cases) + if c.status == "run" then [c] else []
  {
    if cases == [] {
      assert cases + [c] == [c] && [c][1..] == [];
    } else {
      var first := if cases[0].status == "run" then [cases[0]] else [];
      var last := if c.status == "run" then [c] else [];
      assert (cases + [c])[1..] == cases[1..] + [c] && (cases + [c])[0] == cases[0];
      RunsOnto(cases[1..], c);
      assert first + (RunsOf(cases[1..]) + last) == first + RunsOf(cases[1..]) + last;
    }
  }

  lemma {:induction false} RunsWithoutIdle(cases: seq<Case>, name: string)
    ensures RunsOf(WithoutIdle(cases, name)) == RunsOf(cases)
    ensures forall c :: c in WithoutIdle(cases, name) ==> c in cases
  {
    if cases == [] {
    } else {
      RunsWithoutIdle(cases[1..], name);
      var rest := WithoutIdle(cases[1..], name);
      if cases[0].name == name && cases[0].status == "notrun" {
        assert WithoutIdle(cases, name) == rest;
      } else {
        assert WithoutIdle(cases, name) == [cases[0]] + rest && ([cases[0]] + rest)[1..] == rest;
      }
    }
  }

  lemma PlaceRuns(cases: seq<Case>, c: Case)
    requires SoundCase(c)
    ensures RunsOf(Place(cases, c)) == RunsOf(cases) + if c.status == "run" then [c] else []
    ensures forall x :: x in Place(cases, c) ==> x in cases || x == c
  {
    RunsOnto(cases, c);
    RunsWithoutIdle(cases, c.name);
    RunsOnto(WithoutIdle(cases, c.name), c);
  }

  /** The suite has run what `runs` says, in that order, and holds nothing that is not among `listed`. */
  ghost predicate Keeps(suites: seq<Entry>, s: string, runs: seq<Case>, listed: set<Occurrence>) {
    RunsOf(CasesOf(suites, s)) == runs && forall c :: c in CasesOf(suites, s) ==> Occurrence(s, c) in listed
  }

  lemma OtherSuite(suites: seq<Entry>, name: string, c: Case, s: string)
    requires Find(suites, name).Some?
    ensures CasesOf(PlaceIn(suites, name, c), s) ==
      if s == name then Place(CasesOf(suites, s), c) else CasesOf(suites, s)
  {
    PlacedStillThere(suites, name, c, s);
  }

  lemma OneRun(s: string, o: Occurrence)
    ensures RunsFor(s, [o]) == if o.suite == s && o.item.status == "run" then [o.item] else []
  {
    assert [o][1..] == [];
  }

  lemma CaseKept(st: State, name: string, c: Case, s: string, runs: seq<Case>, listed: set<Occurrence>)
    returns (st': State)
    requires Find(st.suites, name).Some? && TakeCase(st, name, c).Ok? && Keeps(st.suites, s, runs, listed)
    ensures TakeCase(st, name, c) == Ok(st') && Find(st'.suites, name).Some?
    ensures Keeps(st'.suites, s, runs + RunsFor(s, [Occurrence(name, c)]), listed + {Occurrence(name, c)})
  {
    PlacedStillThere(st.suites, name, c, name);
    CaseMerges(st, name, c);
    st' := TakeCase(st, name, c).value;
    OtherSuite(st.suites, name, c, s);
    PlaceRuns(CasesOf(st.suites, name), c);
    OneRun(s, Occurrence(name, c));
  }

  lemma {:induction false} RunsForConcat(s: string, a: seq<Occurrence>, b: seq<Occurrence>)
    ensures RunsFor(s, a + b) == RunsFor(s, a) + RunsFor(s, b)
    ensures Elements(a + b) == Elements(a) + Elements(b)
    decreases |a|
  {
    ElementsConcat(a, b);
    if a == [] {
      assert a + b == b;
    } else {
      var first := if a[0].suite == s && a[0].item.status == "run" then [a[0].item] else [];
      assert (a + b)[1..] == a[1..] + b && (a + b)[0] == a[0];
      RunsForConcat(s, a[1..], b);
      assert first + (RunsFor(s, a[1..]) + RunsFor(s, b)) == first + RunsFor(s, a[1..]) + RunsFor(s, b);
    }
  }

  lemma Grouped(runs: seq<Case>, a: seq<Case>, b: seq<Case>, l: set<Occurrence>, x: set<Occurrence>,
                y: set<Occurrence>)
    ensures runs + a + b == runs + (a + b) && l + x + y == l + (x + y)
  {
  }

  lemma KeepsMore(suites: seq<Entry>, s: string, runs: seq<Case>, l: set<Occurrence>,
                  a: seq<Occurrence>, b: seq<Occurrence>)
    requires Keeps(suites, s, runs + RunsFor(s, a) + RunsFor(s, b), l + Elements(a) + Elements(b))
    ensures Keeps(suites, s, runs + RunsFor(s, a + b), l + Elements(a + b))
  {
    RunsForConcat(s, a, b);
    Grouped(runs, RunsFor(s, a), RunsFor(s, b), l, Elements(a), Elements(b));
  }

  lemma {:induction false} CasesKept(st: State, name: string, cases: seq<Case>, s: string, runs: seq<Case>,
                                     listed: set<Occurrence>)
    requires Find(st.suites, name).Some? && TakeCases(st, name, cases).Ok? && Keeps(st.suites, s, runs, listed)
    ensures Keeps(TakeCases(st, name, cases).value.suites, s, runs + RunsFor(s, InSuite(name, cases)),
                  listed + Elements(InSuite(name, cases)))
    decreases |cases|
  {
    if cases == [] {
    } else {
      var one := [Occurrence(name, cases[0])];
      var st' := CaseKept(st, name, cases[0], s, runs, listed);
      assert Elements(one) == {Occurrence(name, cases[0])};
      CasesKept(st', name, cases[1..], s, runs + RunsFor(s, one), listed + Elements(one));
      KeepsMore(TakeCases(st, name, cases).value.suites, s, runs, listed, one, InSuite(name, cases[1..]));
    }
  }

  lemma SuiteKept(st: State, suite: Suite, s: string, runs: seq<Case>, listed: set<Occurrence>)
    requires TakeSuite(st, suite).Ok? && Keeps(st.suites, s, runs, listed)
    ensures Keeps(TakeSuite(st, suite).value.suites, s, runs + RunsFor(s, InSuite(suite.name, suite.cases)),
                  listed + Elements(InSuite(suite.name, suite.cases)))
  {
    NewSuiteIsEmpty(st.suites, suite.name, s);
    CasesKept(State(WithSuite(st.suites, suite.name), st.measured), suite.name, suite.cases, s, runs, listed);
  }

  lemma {:induction false} SuitesKept(st: State, suites: seq<Suite>, s: string, runs: seq<Case>,
                                      listed: set<Occurrence>)
    requires TakeSuites(st, suites).Ok? && Keeps(st.suites, s, runs, listed)
    ensures Keeps(TakeSuites(st, suites).value.suites, s, runs + RunsFor(s, InSuites(suites)),
                  listed + Elements(InSuites(suites)))
    decreases |suites|
  {
    if suites == [] {
    } else {
      var first := InSuite(suites[0].name, suites[0].cases);
      SuiteKept(st, suites[0], s, runs, listed);
      SuitesKept(TakeSuite(st, suites[0]).value, suites[1..], s, runs + RunsFor(s, first), listed + Elements(first));
      KeepsMore(TakeSuites(st, suites).value.suites, s, runs, listed, first, InSuites(suites[1..]));
    }
  }

  lemma {:induction false} ReportsKept(st: State, reports: seq<Option<Report>>, s: string, runs: seq<Case>,
                                       listed: set<Occurrence>)
    requires TakeReports(st, reports).Ok? && Keeps(st.suites, s, runs, listed)
    ensures Keeps(TakeReports(st, reports).value.suites, s, runs + RunsFor(s, Listed(reports)),
                  listed + Elements(Listed(reports)))
    decreases |reports|
  {
    if reports == [] {
    } else {
      var first := InSuites(SuitesOf(reports[0]));
      SuitesKept(st, reports[0].value.suites, s, runs, listed);
      ReportsKept(TakeReport(st, reports[0]).value, reports[1..], s, runs + RunsFor(s, first),
                  listed + Elements(first));
      KeepsMore(TakeReports(st, reports).value.suites, s, runs, listed, first, Listed(reports[1..]));
    }
  }

  /** The executed cases of a merged suite are those the reports list, unchanged and in their order. */
  lemma RunsKept(reports: seq<Option<Report>>, s: string)
    requires TakeReports(State([], {}), reports).Ok?
    ensures var cases := CasesOf(TakeReports(State([], {}), reports).value.suites, s);
      RunsOf(cases) == RunsFor(s, Listed(reports)) && forall c :: c in cases ==> Occurrence(s, c) in Listed(reports)
  {
    ReportsKept(State([], {}), reports, s, [], {});
    assert [] + RunsFor(s, Listed(reports)) == RunsFor(s, Listed(reports));
  }

  // ---- each case name once ----

  function RanIds(occs: seq<Occurrence>): seq<string> {
    if occs == [] then []
    else (if Ran(occs[0].item) then [Identity(occs[0].item)] else []) + RanIds(occs[1..])
  }

  lemma {:induction false} RanIdsConcat(a: seq<Occurrence>, b: seq<Occurrence>)
    ensures RanIds(a + b) == RanIds(a) + RanIds(b)
  {
    if a == [] {
      assert a + b == b;
    } else {
      assert (a + b)[1..] == a[1..] + b;
      RanIdsConcat(a[1..], b);
    }
  }

  lemma {:induction false} CaseIds(name: string, cases: seq<Case>)
    ensures RanIds(InSuite(name, cases)) == Ids(cases)
  {
    if cases == [] {
    } else {
      CaseIds(name, cases[1..]);
      assert InSuite(name, cases)[1..] == InSuite(name, cases[1..]);
    }
  }

  lemma {:induction false} ListedSuiteIds(suites: seq<Suite>)
    ensures RanIds(InSuites(suites)) == SuiteIds(suites)
  {
    if suites == [] {
    } else {
      CaseIds(suites[0].name, suites[0].cases);
      ListedSuiteIds(suites[1..]);
      RanIdsConcat(InSuite(suites[0].name, suites[0].cases), InSuites(suites[1..]));
    }
  }

  lemma {:induction false} ListedIds(reports: seq<Option<Report>>)
    ensures RanIds(Listed(reports)) == Executed(reports)
  {
    if reports == [] {
    } else {
      ListedSuiteIds(SuitesOf(reports[0]));
      ListedIds(reports[1..]);
      RanIdsConcat(InSuites(SuitesOf(reports[0])), Listed(reports[1..]));
    }
  }

  predicate SameCase(a: Occurrence, b: Occurrence) {
    Ran(a.item) && Ran(b.item) && a.suite == b.suite && a.item.name == b.item.name
  }

  /** Executed cases of one suite and one name agree on their class. */
  ghost predicate OneClass(occs: seq<Occurrence>) {
    forall i, j :: 0 <= i < j < |occs| && SameCase(occs[i], occs[j]) ==>
      occs[i].item.classname == occs[j].item.classname
  }

  lemma {:induction false} RunListed(occs: seq<Occurrence>, s: string, n: string)
    ensures MarksFor(s, occs)[(n, "run")] > 0 <==>
      exists k :: 0 <= k < |occs| && occs[k].suite == s && Ran(occs[k].item) && occs[k].item.name == n
  {
    if occs == [] {
    } else {
      var rest := occs[1..];
      RunListed(rest, s, n);
      if MarksFor(s, rest)[(n, "run")] > 0 {
        var k :| 0 <= k < |rest| && rest[k].suite == s && Ran(rest[k].item) && rest[k].item.name == n;
        assert occs[k + 1] == rest[k];
      }
      if k :| 0 <= k < |occs| && occs[k].suite == s && Ran(occs[k].item) && occs[k].item.name == n {
        assert k > 0 ==> rest[k - 1] == occs[k];
      }
    }
  }

  lemma {:induction false} IdListed(occs: seq<Occurrence>, id: string)
    ensures id in RanIds(occs) <==> exists k :: 0 <= k < |occs| && Ran(occs[k].item) && Identity(occs[k].item) == id
  {
    if occs == [] {
    } else {
      var rest := occs[1..];
      IdListed(rest, id);
      if id in RanIds(rest) {
        var k :| 0 <= k < |rest| && Ran(rest[k].item) && Identity(rest[k].item) == id;
        assert occs[k + 1] == rest[k];
      }
      if k :| 0 <= k < |occs| && Ran(occs[k].item) && Identity(occs[k].item) == id {
        assert k > 0 ==> rest[k - 1] == occs[k];
      }
    }
  }

  ghost predicate RunsOnce(occs: seq<Occurrence>) {
    forall s, n :: MarksFor(s, occs)[(n, "run")] <= 1
  }

  ghost predicate Agrees(first: Occurrence, rest: seq<Occurrence>) {
    forall k :: 0 <= k < |rest| && SameCase(first, rest[k]) ==> first.item.classname == rest[k].item.classname
  }

  lemma OneClassRest(first: Occurrence, rest: seq<Occurrence>)
    ensures OneClass([first] + rest) <==> OneClass(rest) && Agrees(first, rest)
  {
    var occs := [first] + rest;
    if OneClass(rest) && Agrees(first, rest) {
      forall i, j | 0 <= i < j < |occs| && SameCase(occs[i], occs[j])
        ensures occs[i].item.classname == occs[j].item.classname
      {
        assert occs[j] == rest[j - 1] && (i > 0 ==> occs[i] == rest[i - 1]);
      }
    }
    if OneClass(occs) {
      forall i, j | 0 <= i < j < |rest| && SameCase(rest[i], rest[j])
        ensures rest[i].item.classname == rest[j].item.classname
      {
        assert rest[i] == occs[i + 1] && rest[j] == occs[j + 1];
      }
      forall k | 0 <= k < |rest| && SameCase(first, rest[k])
        ensures first.item.classname == rest[k].item.classname
      {
        assert occs[0] == first && occs[k + 1] == rest[k];
      }
    }
  }

  lemma FirstRun(occs: seq<Occurrence>, s: string, n: string)
    requires occs != []
    ensures MarksFor(s, occs)[(n, "run")] ==
      MarksFor(s, occs[1..])[(n, "run")] +
      if occs[0].suite == s && Ran(occs[0].item) && occs[0].item.name == n then 1 else 0
  {
  }

  /** With no case executed twice, a suite holds each name at most once exactly when the class is one. */
  lemma {:induction false} RunsOnceIff(occs: seq<Occurrence>)
    requires forall id :: multiset(RanIds(occs))[id] <= 1
    ensures RunsOnce(occs) <==> OneClass(occs)
  {
    if occs == [] {
    } else {
      var rest, first := occs[1..], occs[0];
      assert occs == [first] + rest;
      assert RanIds(occs) == (if Ran(first.item) then [Identity(first.item)] else []) + RanIds(rest);
      assert forall id :: multiset(RanIds(rest))[id] <= multiset(RanIds(occs))[id];
      RunsOnceIff(rest);
      OneClassRest(first, rest);
      RunsOnceRest(occs);
      if Ran(first.item) {
        FirstIdAlone(occs);
        AgreesIffAlone(first, rest);
      } else {
        assert Agrees(first, rest);
      }
    }
  }

  lemma RunsOnceRest(occs: seq<Occurrence>)
    requires occs != []
    ensures RunsOnce(occs) <==>
      RunsOnce(occs[1..]) && (Ran(occs[0].item) ==> MarksFor(occs[0].suite, occs[1..])[(occs[0].item.name, "run")] == 0)
  {
    var rest, first := occs[1..], occs[0];
    forall s, n {
      FirstRun(occs, s, n);
    }
    if RunsOnce(occs) {
      assert MarksFor(first.suite, occs)[(first.item.name, "run")] <= 1;
      forall s, n ensures MarksFor(s, rest)[(n, "run")] <= 1 {
        assert MarksFor(s, occs)[(n, "run")] <= 1;
      }
    }
  }

  lemma FirstIdAlone(occs: seq<Occurrence>)
    requires occs != [] && Ran(occs[0].item) && multiset(RanIds(occs))[Identity(occs[0].item)] <= 1
    ensures Identity(occs[0].item) !in RanIds(occs[1..])
  {
    var id, ids := Identity(occs[0].item), RanIds(occs[1..]);
    assert RanIds(occs) == [id] + ids;
    assert multiset([id] + ids)[id] == 1 + multiset(ids)[id];
    assert id in ids <==> multiset(ids)[id] > 0;
  }

  lemma OtherClass(first: Occurrence, rest: seq<Occurrence>, k: nat)
    requires Identity(first.item) !in RanIds(rest) && k < |rest| && SameCase(first, rest[k])
    ensures first.item.classname != rest[k].item.classname
  {
    IdListed(rest, Identity(first.item));
  }

  lemma AgreesIffAlone(first: Occurrence, rest: seq<Occurrence>)
    requires Ran(first.item) && Identity(first.item) !in RanIds(rest)
    ensures Agrees(first, rest) <==> MarksFor(first.suite, rest)[(first.item.name, "run")] == 0
  {
    RunListed(rest, first.suite, first.item.name);
    if k: nat :| k < |rest| && SameCase(first, rest[k]) {
      OtherClass(first, rest, k);
    }
  }
}
