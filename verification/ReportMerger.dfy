/**
 Merging the reports of a sharded test run into one: every report must be complete and free of
 failures, no case may be executed twice, and the executed cases must be the selected ones.
 */
module ReportMerger {
  import opened Wrappers
  import opened Decimal

  // ---- shard reports, as read; an absent attribute reads as the empty text ----

  datatype Time = NoNumber | NotFinite | Seconds(value: real)

  datatype Case = Case(classname: string, name: string, status: string, result: string, time: Time,
                       failure: bool, skipped: bool)

  datatype Suite = Suite(name: string, tests: string, cases: seq<Case>)

  /** `elsewhere` counts the test cases that are not a direct child of a top-level suite. */
  datatype Report = Report(tag: string, tests: string, failures: Option<string>, suites: seq<Suite>, elsewhere: nat)

  datatype Problem =
    | Unreadable
    | WrongRoot
    | WrongCount
    | UnnamedSuite
    | WrongSuiteCount
    | NamelessCase
    | NoStatus
    | NoTime
    | BadTime
    | FailedCase
    | ExecutedTwice(identity: string)
    | EmptyShard
    | WrongSelection(missing: set<string>, unexpected: set<string>)

  // ---- the merged suites so far ----

  datatype Entry = Entry(name: string, cases: seq<Case>)

  datatype State = State(suites: seq<Entry>, measured: set<string>)

  function Identity(c: Case): string {
    c.classname + "." + c.name
  }

  predicate Ran(c: Case) {
    c.status == "run"
  }

  function CaseProblem(c: Case): Option<Problem> {
    if c.classname == "" || c.name == "" then Some(NamelessCase)
    else if c.status !in ["run", "notrun"] || c.result !in ["completed", "skipped", "suppressed"] then Some(NoStatus)
    else if c.time.NoNumber? then Some(NoTime)
    else if c.time.NotFinite? || c.time.value < 0.0 then Some(BadTime)
    else if c.failure then Some(FailedCase)
    else None
  }

  function Find(suites: seq<Entry>, name: string): (at: Option<nat>)
    ensures at.Some? ==> at.value < |suites| && suites[at.value].name == name
    ensures at.None? ==> forall k :: 0 <= k < |suites| ==> suites[k].name != name
  {
    if suites == [] then None
    else if suites[0].name == name then Some(0)
    else match Find(suites[1..], name) case None => None case Some(k) => Some(k + 1)
  }

  /** The suite of that name, made if it is not there. */
  function WithSuite(suites: seq<Entry>, name: string): (r: seq<Entry>)
    ensures Find(r, name).Some?
  {
    if Find(suites, name).Some? then suites
    else
      var r := suites + [Entry(name, [])];
      assert r[|suites|].name == name;
      r
  }

  predicate HasName(cases: seq<Case>, name: string) {
    exists k :: 0 <= k < |cases| && cases[k].name == name
  }

  /** The cases without those of that name that did not run. */
  function WithoutIdle(cases: seq<Case>, name: string): seq<Case> {
    if cases == [] then []
    else
      var kept := if cases[0].name == name && cases[0].status == "notrun" then [] else [cases[0]];
      kept + WithoutIdle(cases[1..], name)
  }

  /** Where a case goes in its suite: one that ran takes the place of one that did not. */
  function Place(cases: seq<Case>, c: Case): seq<Case> {
    if c.status == "notrun" then if HasName(cases, c.name) then cases else cases + [c]
    else WithoutIdle(cases, c.name) + [c]
  }

  function PlaceIn(suites: seq<Entry>, name: string, c: Case): seq<Entry>
    requires Find(suites, name).Some?
  {
    var i := Find(suites, name).value;
    suites[i := Entry(name, Place(suites[i].cases, c))]
  }

  function TakeCase(st: State, name: string, c: Case): Result<State, Problem>
    requires Find(st.suites, name).Some?
  {
    match CaseProblem(c)
    case Some(problem) => Err(problem)
    case None =>
      if !Ran(c) then Ok(State(PlaceIn(st.suites, name, c), st.measured))
      else if Identity(c) in st.measured then Err(ExecutedTwice(Identity(c)))
      else Ok(State(PlaceIn(st.suites, name, c), st.measured + {Identity(c)}))
  }

  lemma PlacedStillThere(suites: seq<Entry>, name: string, c: Case, other: string)
    requires Find(suites, name).Some?
    ensures Find(PlaceIn(suites, name, c), other) == Find(suites, other)
  {
    FindSame(suites, PlaceIn(suites, name, c), other);
  }

  lemma {:induction false} FindSame(a: seq<Entry>, b: seq<Entry>, name: string)
    requires |a| == |b| && forall k :: 0 <= k < |a| ==> a[k].name == b[k].name
    ensures Find(a, name) == Find(b, name)
  {
    if a == [] {
    } else {
      FindSame(a[1..], b[1..], name);
    }
  }

  function TakeCases(st: State, name: string, cases: seq<Case>): (r: Result<State, Problem>)
    requires Find(st.suites, name).Some?
    decreases |cases|
  {
    if cases == [] then Ok(st)
    else match TakeCase(st, name, cases[0])
      case Err(problem) => Err(problem)
      case Ok(st') =>
        PlacedStillThere(st.suites, name, cases[0], name);
        TakeCases(st', name, cases[1..])
  }

  function TakeSuite(st: State, s: Suite): Result<State, Problem> {
    if s.name == "" then Err(UnnamedSuite)
    else if s.tests != PrintNat(|s.cases|) then Err(WrongSuiteCount)
    else TakeCases(State(WithSuite(st.suites, s.name), st.measured), s.name, s.cases)
  }

  function TakeSuites(st: State, suites: seq<Suite>): Result<State, Problem>
    decreases |suites|
  {
    if suites == [] then Ok(st)
    else match TakeSuite(st, suites[0])
      case Err(problem) => Err(problem)
      case Ok(st') => TakeSuites(st', suites[1..])
  }

  function CaseCount(suites: seq<Suite>): nat {
    if suites == [] then 0 else |suites[0].cases| + CaseCount(suites[1..])
  }

  function RunCount(cases: seq<Case>): nat {
    if cases == [] then 0 else (if Ran(cases[0]) then 1 else 0) + RunCount(cases[1..])
  }

  function RunsInSuites(suites: seq<Suite>): nat {
    if suites == [] then 0 else RunCount(suites[0].cases) + RunsInSuites(suites[1..])
  }

  function RootProblem(r: Report): Option<Problem> {
    if r.tag != "testsuites" then Some(WrongRoot)
    else if r.tests != PrintNat(CaseCount(r.suites) + r.elsewhere) || (r.failures.Some? && r.failures.value != "0")
    then Some(WrongCount)
    else None
  }

  function TakeReport(st: State, report: Option<Report>): Result<State, Problem> {
    match report
    case None => Err(Unreadable)
    case Some(r) =>
      match RootProblem(r)
      case Some(problem) => Err(problem)
      case None =>
        match TakeSuites(st, r.suites)
        case Err(problem) => Err(problem)
        case Ok(st') => if RunsInSuites(r.suites) == 0 then Err(EmptyShard) else Ok(st')
  }

  function TakeReports(st: State, reports: seq<Option<Report>>): Result<State, Problem>
    decreases |reports|
  {
    if reports == [] then Ok(st)
    else match TakeReport(st, reports[0])
      case Err(problem) => Err(problem)
      case Ok(st') => TakeReports(st', reports[1..])
  }

  // ---- the published report ----

  datatype SuiteTotals = SuiteTotals(name: string, cases: seq<Case>, tests: nat, failures: nat, disabled: nat,
                                     skipped: nat, time: real)

  datatype Merged = Merged(suites: seq<SuiteTotals>, tests: nat, failures: nat, disabled: nat, time: real)

  /** Text order, as the suites are listed by. */
  predicate AtMost(a: string, b: string) {
    a == "" || (b != "" && (a[0] < b[0] || (a[0] == b[0] && AtMost(a[1..], b[1..]))))
  }

  function InsertByName(e: Entry, sorted: seq<Entry>): (r: seq<Entry>)
    ensures |r| == |sorted| + 1
  {
    if sorted == [] || AtMost(e.name, sorted[0].name) then [e] + sorted
    else [sorted[0]] + InsertByName(e, sorted[1..])
  }

  function SortByName(suites: seq<Entry>): (r: seq<Entry>)
    ensures |r| == |suites|
  {
    if suites == [] then [] else InsertByName(suites[0], SortByName(suites[1..]))
  }

  function FailureCount(cases: seq<Case>): nat {
    if cases == [] then 0 else (if cases[0].failure then 1 else 0) + FailureCount(cases[1..])
  }

  function IdleCount(cases: seq<Case>): nat {
    if cases == [] then 0 else (if cases[0].status == "notrun" then 1 else 0) + IdleCount(cases[1..])
  }

  function SkippedCount(cases: seq<Case>): nat {
    if cases == [] then 0
    else (if cases[0].skipped || cases[0].result == "skipped" then 1 else 0) + SkippedCount(cases[1..])
  }

  function TimeTotal(cases: seq<Case>): real {
    if cases == [] then 0.0 else (if cases[0].time.Seconds? then cases[0].time.value else 0.0) + TimeTotal(cases[1..])
  }

  function Totals(e: Entry): SuiteTotals {
    SuiteTotals(e.name, e.cases, |e.cases|, FailureCount(e.cases), IdleCount(e.cases), SkippedCount(e.cases),
                TimeTotal(e.cases))
  }

  function AddSuite(m: Merged, s: SuiteTotals): Merged {
    Merged(m.suites + [s], m.tests + s.tests, m.failures + s.failures, m.disabled + s.disabled, m.time + s.time)
  }

  function Publish(m: Merged, suites: seq<Entry>): Merged
    decreases |suites|
  {
    if suites == [] then m else Publish(AddSuite(m, Totals(suites[0])), suites[1..])
  }

  const BLANK := Merged([], 0, 0, 0, 0.0)

  function Merge(reports: seq<Option<Report>>, expected: set<string>): Result<Merged, Problem> {
    match TakeReports(State([], {}), reports)
    case Err(problem) => Err(problem)
    case Ok(st) =>
      if st.measured != expected then Err(WrongSelection(expected - st.measured, st.measured - expected))
      else Ok(Publish(BLANK, SortByName(st.suites)))
  }

  // ---- the program ----

  method DropIdle(cases: seq<Case>, name: string) returns (kept: seq<Case>)
    ensures kept == WithoutIdle(cases, name)
  {
    kept := [];
    for i := 0 to |cases|
      invariant kept + WithoutIdle(cases[i..], name) == WithoutIdle(cases, name)
    {
      assert cases[i..][0] == cases[i] && cases[i..][1..] == cases[i + 1..];
      if !(cases[i].name == name && cases[i].status == "notrun") {
        kept := kept + [cases[i]];
      }
    }
  }

  method MergeCases(st: State, name: string, cases: seq<Case>)
    returns (r: Result<State, Problem>, executed: nat)
    requires Find(st.suites, name).Some?
    ensures r == TakeCases(st, name, cases)
    ensures r.Ok? ==> executed == RunCount(cases)
  {
    var now := st;
    executed := 0;
    for i := 0 to |cases|
      invariant Find(now.suites, name).Some?
      invariant TakeCases(st, name, cases) == TakeCases(now, name, cases[i..])
      invariant executed + RunCount(cases[i..]) == RunCount(cases)
    {
      var c := cases[i];
      assert cases[i..][0] == c && cases[i..][1..] == cases[i + 1..];
      var problem := CaseProblem(c);
      if problem.Some? {
        return Err(problem.value), executed;
      }
      var at := Find(now.suites, name).value;
      var suite := now.suites[at].cases;
      PlacedStillThere(now.suites, name, c, name);
      if c.status == "notrun" {
        if !HasName(suite, c.name) {
          suite := suite + [c];
        }
        now := now.(suites := now.suites[at := Entry(name, suite)]);
      } else {
        if Identity(c) in now.measured {
          return Err(ExecutedTwice(Identity(c))), executed;
        }
        suite := DropIdle(suite, c.name);
        now := State(now.suites[at := Entry(name, suite + [c])], now.measured + {Identity(c)});
        executed := executed + 1;
      }
    }
    r := Ok(now);
  }

  method MergeSuites(st: State, suites: seq<Suite>) returns (r: Result<State, Problem>, executed: nat)
    ensures r == TakeSuites(st, suites)
    ensures r.Ok? ==> executed == RunsInSuites(suites)
  {
    var now := st;
    executed := 0;
    for i := 0 to |suites|
      invariant TakeSuites(st, suites) == TakeSuites(now, suites[i..])
      invariant executed + RunsInSuites(suites[i..]) == RunsInSuites(suites)
    {
      var source := suites[i];
      assert suites[i..][0] == source && suites[i..][1..] == suites[i + 1..];
      if source.name == "" {
        return Err(UnnamedSuite), executed;
      }
      if source.tests != PrintNat(|source.cases|) {
        return Err(WrongSuiteCount), executed;
      }
      now := now.(suites := WithSuite(now.suites, source.name));
      var one, ran := MergeCases(now, source.name, source.cases);
      if one.Err? {
        return one, executed;
      }
      now := one.value;
      executed := executed + ran;
    }
    r := Ok(now);
  }

  method PublishTotals(suites: seq<Entry>) returns (m: Merged)
    ensures m == Publish(BLANK, suites)
  {
    m := BLANK;
    for i := 0 to |suites|
      invariant Publish(BLANK, suites) == Publish(m, suites[i..])
    {
      assert suites[i..][0] == suites[i] && suites[i..][1..] == suites[i + 1..];
      m := AddSuite(m, Totals(suites[i]));
    }
  }

  method MergeReports(reports: seq<Option<Report>>, expected: set<string>) returns (r: Result<Merged, Problem>)
    ensures r == Merge(reports, expected)
  {
    var st := State([], {});
    for i := 0 to |reports|
      invariant TakeReports(State([], {}), reports) == TakeReports(st, reports[i..])
    {
      assert reports[i..][0] == reports[i] && reports[i..][1..] == reports[i + 1..];
      if reports[i].None? {
        return Err(Unreadable);
      }
      var root := reports[i].value;
      var problem := RootProblem(root);
      if problem.Some? {
        return Err(problem.value);
      }
      var one, executed := MergeSuites(st, root.suites);
      if one.Err? {
        return Err(one.error);
      }
      if executed == 0 {
        return Err(EmptyShard);
      }
      st := one.value;
    }
    if st.measured != expected {
      return Err(WrongSelection(expected - st.measured, st.measured - expected));
    }
    var m := PublishTotals(SortByName(st.suites));
    r := Ok(m);
  }
}
