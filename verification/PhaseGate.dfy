/**
 The phase gate of the duration check: every reported phase against its budget, which may add up several phases,
 allow for cache misses, or be normalised to the machine; and exactly when the gate is green.
 */
module PhaseGate {
  import opened Collections
  import opened Wrappers
  import opened MachineFactor

  datatype Rule =
    | Single
    | Aggregate(members: seq<string>)
    | PerMiss(overhead: real, secondsPerMiss: real)
    | Normalised(machine: Machine)

  /** A budget of the registry; `justified` says that its reason is more than blank or the placeholder. */
  datatype Entry = Entry(job: string, phase: string, justified: bool, maxSeconds: real, rule: Rule)

  datatype Finding =
    | Unbudgeted(phase: string)
    | NoReason(job: string, phase: string)
    | Unreported(phase: string, missing: seq<string>)
    | NoCacheReport(phase: string)
    | NoFactor(phase: string)
    | OverFactor(phase: string, limit: real)
    | OverPerMiss(phase: string, misses: nat, beyondMax: bool)
    | OverMax(phase: string)
    | Recalibrate(phase: string, raw: real)
    | Accepted(finding: Finding)
    | InBudget(phase: string, seconds: real)

  datatype Report = Report(errors: seq<Finding>, notices: seq<Finding>, warnings: seq<Finding>)

  /** What a run reports: phase times, the order their names are listed in, cache misses and test durations. */
  datatype Run = Run(job: string, phases: map<string, real>, order: seq<string>, coldBuild: bool,
                     misses: map<string, nat>, durations: Option<map<string, Reading>>)

  const BUILD := "build"

  function Members(b: Entry): seq<string> {
    match b.rule
    case Aggregate(members) => members
    case _ => [b.phase]
  }

  function Missing(members: seq<string>, phases: map<string, real>): seq<string> {
    if members == [] then []
    else (if members[0] in phases then [] else [members[0]]) + Missing(members[1..], phases)
  }

  function Total(members: seq<string>, phases: map<string, real>): real
    requires forall m :: m in members ==> m in phases
  {
    if members == [] then 0.0 else phases[members[0]] + Total(members[1..], phases)
  }

  function MissLimit(overhead: real, secondsPerMiss: real, misses: nat): real {
    overhead + secondsPerMiss * misses as real
  }

  /** The complaint about a budget whose phases are all reported, if there is one. */
  function Complaint(b: Entry, seconds: real, run: Run): Option<Finding> {
    var plain := if seconds > b.maxSeconds then Some(OverMax(b.phase)) else None;
    match b.rule
    case Normalised(m) =>
      if run.durations.None? then Some(NoFactor(b.phase))
      else (match ComputeMachineFactor(m.ruler, run.durations.value, m.lo, m.hi)
        case Err(_) => Some(NoFactor(b.phase))
        case Ok(f) =>
          var limit := b.maxSeconds * f.factor;
          if seconds > limit then Some(OverFactor(b.phase, limit)) else None)
    case PerMiss(overhead, each) =>
      if b.phase in run.misses && seconds > MissLimit(overhead, each, run.misses[b.phase])
      then Some(OverPerMiss(b.phase, run.misses[b.phase], seconds > b.maxSeconds))
      else plain
    case _ => plain
  }

  /** The raw factor left its band: the ruler wants recalibrating. */
  function Drift(b: Entry, run: Run): seq<Finding> {
    if !b.rule.Normalised? || run.durations.None? then []
    else
      var m := b.rule.machine;
      match ComputeMachineFactor(m.ruler, run.durations.value, m.lo, m.hi)
      case Err(_) => []
      case Ok(f) => if InBand(m, f.raw) then [] else [Recalibrate(b.phase, f.raw)]
  }

  function Judge(b: Entry, run: Run): Report {
    var members := Members(b);
    var missing := Missing(members, run.phases);
    if missing != [] then Report([Unreported(b.phase, missing)], [], [])
    else
      NoneMissing(members, run.phases);
      var seconds := Total(members, run.phases);
      var closed := if b.rule.PerMiss? && b.phase !in run.misses then [NoCacheReport(b.phase)] else [];
      match Complaint(b, seconds, run)
      case None => Report(closed, [InBudget(b.phase, seconds)], Drift(b, run))
      case Some(c) =>
        if run.coldBuild && BUILD in members then Report(closed, [], Drift(b, run) + [Accepted(c)])
        else Report(closed + [c], [], Drift(b, run))
  }

  function Joined(a: Report, b: Report): Report {
    Report(a.errors + b.errors, a.notices + b.notices, a.warnings + b.warnings)
  }

  const EMPTY := Report([], [], [])

  function JudgeAll(budgets: seq<Entry>, run: Run): Report {
    if budgets == [] then EMPTY
    else
      var rest := JudgeAll(budgets[1..], run);
      if budgets[0].job == run.job then Joined(Judge(budgets[0], run), rest) else rest
  }

  /** Is the phase, or an aggregate it belongs to, budgeted for the job? */
  predicate Known(budgets: seq<Entry>, job: string, phase: string) {
    exists k :: 0 <= k < |budgets| && budgets[k].job == job && phase in Members(budgets[k])
  }

  function UnbudgetedIn(order: seq<string>, budgets: seq<Entry>, job: string): seq<Finding> {
    if order == [] then []
    else (if Known(budgets, job, order[0]) then [] else [Unbudgeted(order[0])]) + UnbudgetedIn(order[1..], budgets, job)
  }

  function ReasonsMissing(budgets: seq<Entry>): seq<Finding> {
    if budgets == [] then []
    else
      (if budgets[0].justified then [] else [NoReason(budgets[0].job, budgets[0].phase)]) + ReasonsMissing(budgets[1..])
  }

  function Gate(budgets: seq<Entry>, run: Run): Report {
    var r := JudgeAll(budgets, run);
    r.(errors := UnbudgetedIn(run.order, budgets, run.job) + ReasonsMissing(budgets) + r.errors)
  }

  lemma {:induction false} NoneMissing(members: seq<string>, phases: map<string, real>)
    ensures Missing(members, phases) == [] <==> forall m :: m in members ==> m in phases
  {
    if members == [] {
    } else {
      NoneMissing(members[1..], phases);
      assert forall m :: m in members <==> m == members[0] || m in members[1..];
    }
  }

  // ---- the program ----

  method FindMissing(members: seq<string>, phases: map<string, real>) returns (missing: seq<string>)
    ensures missing == Missing(members, phases)
  {
    missing := [];
    for i := 0 to |members|
      invariant missing + Missing(members[i..], phases) == Missing(members, phases)
    {
      assert members[i..][0] == members[i] && members[i..][1..] == members[i + 1..];
      var found := if members[i] in phases then [] else [members[i]];
      Regroup(missing, found, Missing(members[i + 1..], phases));
      missing := missing + found;
    }
    assert members[|members|..] == [];
  }

  method AddUp(members: seq<string>, phases: map<string, real>) returns (seconds: real)
    requires forall m :: m in members ==> m in phases
    ensures seconds == Total(members, phases)
  {
    seconds := 0.0;
    for i := 0 to |members|
      invariant seconds + Total(members[i..], phases) == Total(members, phases)
    {
      assert members[i] in members;
      assert members[i..][0] == members[i] && members[i..][1..] == members[i + 1..];
      seconds := seconds + phases[members[i]];
    }
    assert members[|members|..] == [];
  }

  /** The complaint and the warning of one budget whose phases are all reported. */
  method Examine(b: Entry, seconds: real, run: Run) returns (complaint: Option<Finding>, drift: seq<Finding>)
    ensures complaint == Complaint(b, seconds, run) && drift == Drift(b, run)
  {
    drift := [];
    complaint := if seconds > b.maxSeconds then Some(OverMax(b.phase)) else None;
    match b.rule {
      case Normalised(m) =>
        if run.durations.None? {
          return Some(NoFactor(b.phase)), [];
        }
        var f := ComputeMachineFactor(m.ruler, run.durations.value, m.lo, m.hi);
        if f.Err? {
          return Some(NoFactor(b.phase)), [];
        }
        if f.value.raw < m.lo || f.value.raw > m.hi {
          drift := [Recalibrate(b.phase, f.value.raw)];
        }
        var limit := b.maxSeconds * f.value.factor;
        complaint := if seconds > limit then Some(OverFactor(b.phase, limit)) else None;
      case PerMiss(overhead, each) =>
        if b.phase in run.misses && seconds > MissLimit(overhead, each, run.misses[b.phase]) {
          complaint := Some(OverPerMiss(b.phase, run.misses[b.phase], seconds > b.maxSeconds));
        }
      case Single =>
      case Aggregate(_) =>
    }
  }

  method CheckBudget(b: Entry, run: Run) returns (errors: seq<Finding>, notices: seq<Finding>, warnings: seq<Finding>)
    ensures Report(errors, notices, warnings) == Judge(b, run)
  {
    errors, notices, warnings := [], [], [];
    var members := Members(b);
    var missing := FindMissing(members, run.phases);
    NoneMissing(members, run.phases);
    if missing != [] {
      return [Unreported(b.phase, missing)], [], [];
    }
    var seconds := AddUp(members, run.phases);
    if b.rule.PerMiss? && b.phase !in run.misses {
      errors := [NoCacheReport(b.phase)];
    }
    var complaint, drift := Examine(b, seconds, run);
    warnings := drift;
    if complaint.None? {
      notices := [InBudget(b.phase, seconds)];
    } else if run.coldBuild && BUILD in members {
      warnings := warnings + [Accepted(complaint.value)];
    } else {
      errors := errors + [complaint.value];
    }
  }

  method ReportUnbudgeted(budgets: seq<Entry>, run: Run) returns (errors: seq<Finding>)
    ensures errors == UnbudgetedIn(run.order, budgets, run.job)
  {
    errors := [];
    for i := 0 to |run.order|
      invariant errors + UnbudgetedIn(run.order[i..], budgets, run.job) == UnbudgetedIn(run.order, budgets, run.job)
    {
      assert run.order[i..][0] == run.order[i] && run.order[i..][1..] == run.order[i + 1..];
      var found := if Known(budgets, run.job, run.order[i]) then [] else [Unbudgeted(run.order[i])];
      Regroup(errors, found, UnbudgetedIn(run.order[i + 1..], budgets, run.job));
      errors := errors + found;
    }
    assert run.order[|run.order|..] == [];
  }

  method ReportReasons(budgets: seq<Entry>) returns (errors: seq<Finding>)
    ensures errors == ReasonsMissing(budgets)
  {
    errors := [];
    for i := 0 to |budgets|
      invariant errors + ReasonsMissing(budgets[i..]) == ReasonsMissing(budgets)
    {
      assert budgets[i..][0] == budgets[i] && budgets[i..][1..] == budgets[i + 1..];
      var found := if budgets[i].justified then [] else [NoReason(budgets[i].job, budgets[i].phase)];
      Regroup(errors, found, ReasonsMissing(budgets[i + 1..]));
      errors := errors + found;
    }
    assert budgets[|budgets|..] == [];
  }

  lemma JoinedAssociates(a: Report, b: Report, c: Report)
    ensures Joined(Joined(a, b), c) == Joined(a, Joined(b, c))
  {
  }

  method CheckBudgets(budgets: seq<Entry>, run: Run) returns (r: Report)
    ensures r == JudgeAll(budgets, run)
  {
    r := EMPTY;
    for i := 0 to |budgets|
      invariant Joined(r, JudgeAll(budgets[i..], run)) == JudgeAll(budgets, run)
    {
      assert budgets[i..][0] == budgets[i] && budgets[i..][1..] == budgets[i + 1..];
      if budgets[i].job == run.job {
        var errors, notices, warnings := CheckBudget(budgets[i], run);
        JoinedAssociates(r, Report(errors, notices, warnings), JudgeAll(budgets[i + 1..], run));
        r := Joined(r, Report(errors, notices, warnings));
      }
    }
    assert budgets[|budgets|..] == [];
  }

  method CheckPhases(budgets: seq<Entry>, run: Run)
    returns (errors: seq<Finding>, notices: seq<Finding>, warnings: seq<Finding>)
    ensures Report(errors, notices, warnings) == Gate(budgets, run)
  {
    var unbudgeted := ReportUnbudgeted(budgets, run);
    var reasons := ReportReasons(budgets);
    var r := CheckBudgets(budgets, run);
    errors, notices, warnings := unbudgeted + reasons + r.errors, r.notices, r.warnings;
  }

  // ---- when the gate is green ----

  /** Does the budget cover the phase? */
  predicate Covers(b: Entry, phase: string) {
    if b.rule.Aggregate? then phase in b.rule.members else phase == b.phase
  }

  ghost predicate Reported(b: Entry, run: Run) {
    forall m :: Covers(b, m) ==> m in run.phases
  }

  function Spent(members: seq<string>, phases: map<string, real>): real
    requires forall m :: m in members ==> m in phases
  {
    if members == [] then 0.0
    else
      var last := |members| - 1;
      Spent(members[..last], phases) + phases[members[last]]
  }

  /** The seconds the budget is about. */
  ghost function SecondsOf(b: Entry, run: Run): real
    requires Reported(b, run)
  {
    if b.rule.Aggregate? then
      assert forall m :: m in b.rule.members ==> Covers(b, m);
      Spent(b.rule.members, run.phases)
    else
      assert Covers(b, b.phase);
      run.phases[b.phase]
  }

  lemma {:induction false} SpentFirst(members: seq<string>, phases: map<string, real>)
    requires members != [] && forall m :: m in members ==> m in phases
    ensures Spent(members, phases) == phases[members[0]] + Spent(members[1..], phases)
    decreases |members|
  {
    var last := |members| - 1;
    if last == 0 {
      assert members[..last] == [] && members[1..] == [];
    } else {
      assert members[..last][1..] == members[1..][..last - 1];
      SpentFirst(members[..last], phases);
    }
  }

  lemma {:induction false} TotalIsSpent(members: seq<string>, phases: map<string, real>)
    requires forall m :: m in members ==> m in phases
    ensures Total(members, phases) == Spent(members, phases)
  {
    if members == [] {
    } else {
      TotalIsSpent(members[1..], phases);
      SpentFirst(members, phases);
    }
  }

  lemma MembersAre(b: Entry, run: Run)
    ensures forall m :: m in Members(b) <==> Covers(b, m)
    ensures Missing(Members(b), run.phases) == [] <==> Reported(b, run)
    ensures Reported(b, run) ==> Total(Members(b), run.phases) == SecondsOf(b, run)
  {
    NoneMissing(Members(b), run.phases);
    assert forall m :: m in Members(b) <==> Covers(b, m);
    if Reported(b, run) {
      TotalIsSpent(Members(b), run.phases);
      assert !b.rule.Aggregate? ==> Members(b)[..0] == [];
    }
  }

  /** What is wrong with the seconds of a budget whose phases are all reported. */
  ghost predicate Complains(b: Entry, run: Run, c: Finding)
    requires Reported(b, run)
  {
    var seconds := SecondsOf(b, run);
    match b.rule
    case Normalised(m) =>
      if run.durations.None? || ComputeMachineFactor(m.ruler, run.durations.value, m.lo, m.hi).Err?
      then c == NoFactor(b.phase)
      else
        var limit := b.maxSeconds * ComputeMachineFactor(m.ruler, run.durations.value, m.lo, m.hi).value.factor;
        seconds > limit && c == OverFactor(b.phase, limit)
    case PerMiss(overhead, each) =>
      if b.phase in run.misses && seconds > overhead + each * run.misses[b.phase] as real
      then c == OverPerMiss(b.phase, run.misses[b.phase], seconds > b.maxSeconds)
      else seconds > b.maxSeconds && c == OverMax(b.phase)
    case _ => seconds > b.maxSeconds && c == OverMax(b.phase)
  }

  /** The phases add up to no more than the budget's limits allow. */
  ghost predicate WithinLimits(b: Entry, run: Run)
    requires Reported(b, run)
  {
    var seconds := SecondsOf(b, run);
    match b.rule
    case Normalised(m) =>
      run.durations.Some? &&
      var f := ComputeMachineFactor(m.ruler, run.durations.value, m.lo, m.hi);
      f.Ok? && seconds <= b.maxSeconds * f.value.factor
    case PerMiss(overhead, each) =>
      seconds <= b.maxSeconds && (b.phase in run.misses ==> seconds <= overhead + each * run.misses[b.phase] as real)
    case _ => seconds <= b.maxSeconds
  }

  /** The exception for a cold build is on, and the budget covers the build. */
  predicate Excusable(b: Entry, run: Run) {
    run.coldBuild && Covers(b, "build")
  }

  ghost predicate Passes(b: Entry, run: Run) {
    Reported(b, run) && (b.rule.PerMiss? ==> b.phase in run.misses) &&
    (WithinLimits(b, run) || Excusable(b, run))
  }

  lemma ComplaintIs(b: Entry, run: Run, f: Finding)
    requires Reported(b, run)
    ensures Complains(b, run, f) <==> Complaint(b, SecondsOf(b, run), run) == Some(f)
  {
    match b.rule {
      case Single =>
      case Aggregate(_) =>
      case PerMiss(overhead, each) =>
        if b.phase in run.misses {
          assert MissLimit(overhead, each, run.misses[b.phase]) == overhead + each * run.misses[b.phase] as real;
        }
      case Normalised(m) =>
    }
  }

  lemma ComplaintIff(b: Entry, run: Run)
    requires Reported(b, run)
    ensures var c := Complaint(b, SecondsOf(b, run), run);
      (c.None? <==> WithinLimits(b, run)) && forall f :: Complains(b, run, f) <==> c == Some(f)
  {
    forall f ensures Complains(b, run, f) <==> Complaint(b, SecondsOf(b, run), run) == Some(f) {
      ComplaintIs(b, run, f);
    }
  }

  /** The raw factor of a normalised budget can be computed and is outside its band. */
  ghost predicate Drifts(b: Entry, run: Run, f: Finding) {
    b.rule.Normalised? && run.durations.Some? &&
    var m := b.rule.machine;
    var g := ComputeMachineFactor(m.ruler, run.durations.value, m.lo, m.hi);
    g.Ok? && (g.value.raw < m.lo || g.value.raw > m.hi) && f == Recalibrate(b.phase, g.value.raw)
  }

  lemma {:induction false} MissingAre(members: seq<string>, phases: map<string, real>, m: string)
    ensures m in Missing(members, phases) <==> m in members && m !in phases
  {
    if members == [] {
    } else {
      MissingAre(members[1..], phases, m);
      assert m in members <==> m == members[0] || m in members[1..];
    }
  }

  /** The phases the budget covers and the run does not report. */
  ghost predicate NamesUnreported(b: Entry, run: Run, f: Finding) {
    f.Unreported? && f.phase == b.phase && forall m :: m in f.missing <==> Covers(b, m) && m !in run.phases
  }

  lemma UnreportedIs(b: Entry, run: Run)
    requires !Reported(b, run)
    ensures exists f :: Judge(b, run) == Report([f], [], []) && NamesUnreported(b, run, f)
  {
    MembersAre(b, run);
    var f := Unreported(b.phase, Missing(Members(b), run.phases));
    forall m ensures m in f.missing <==> Covers(b, m) && m !in run.phases {
      MissingAre(Members(b), run.phases, m);
    }
    assert Judge(b, run) == Report([f], [], []) && NamesUnreported(b, run, f);
  }

  /** Everything that is said about a budget whose phases are all reported. */
  lemma JudgeTells(b: Entry, run: Run, f: Finding)
    requires Reported(b, run)
    ensures f in Judge(b, run).errors <==>
      || (b.rule.PerMiss? && b.phase !in run.misses && f == NoCacheReport(b.phase))
      || (!Excusable(b, run) && Complains(b, run, f))
    ensures f in Judge(b, run).notices <==> WithinLimits(b, run) && f == InBudget(b.phase, SecondsOf(b, run))
    ensures f in Judge(b, run).warnings <==>
      Drifts(b, run, f) || (Excusable(b, run) && f.Accepted? && Complains(b, run, f.finding))
  {
    MembersAre(b, run);
    ComplaintIff(b, run);
    DriftIs(b, run, f);
    assert BUILD == "build";
  }

  lemma DriftIs(b: Entry, run: Run, f: Finding)
    ensures f in Drift(b, run) <==> Drifts(b, run, f)
  {
  }

  /** A budget raises an error exactly when it does not pass, and is noticed exactly when it is within its limits. */
  lemma JudgeIff(b: Entry, run: Run)
    ensures Judge(b, run).errors == [] <==> Passes(b, run)
    ensures Judge(b, run).notices != [] <==> Reported(b, run) && WithinLimits(b, run)
  {
    MembersAre(b, run);
    if Reported(b, run) {
      ComplaintIff(b, run);
    }
  }

  lemma {:induction false} JudgeAllIff(budgets: seq<Entry>, run: Run)
    ensures JudgeAll(budgets, run).errors == [] <==>
      forall k :: 0 <= k < |budgets| && budgets[k].job == run.job ==> Passes(budgets[k], run)
  {
    if budgets == [] {
    } else {
      JudgeIff(budgets[0], run);
      JudgeAllIff(budgets[1..], run);
      assert forall k :: 1 <= k < |budgets| ==> budgets[k] == budgets[1..][k - 1];
    }
  }

  /** Some budget of the job covers the phase. */
  ghost predicate Budgeted(budgets: seq<Entry>, job: string, phase: string) {
    exists k :: 0 <= k < |budgets| && budgets[k].job == job && Covers(budgets[k], phase)
  }

  lemma KnownIff(budgets: seq<Entry>, job: string, phase: string)
    ensures Known(budgets, job, phase) <==> Budgeted(budgets, job, phase)
  {
    assert forall k :: 0 <= k < |budgets| ==> (phase in Members(budgets[k]) <==> Covers(budgets[k], phase));
  }

  lemma {:induction false} UnbudgetedAre(order: seq<string>, budgets: seq<Entry>, job: string, f: Finding)
    ensures f in UnbudgetedIn(order, budgets, job) <==>
      f.Unbudgeted? && f.phase in order && !Budgeted(budgets, job, f.phase)
  {
    if order == [] {
    } else {
      KnownIff(budgets, job, order[0]);
      UnbudgetedAre(order[1..], budgets, job, f);
      assert forall p :: p in order <==> p == order[0] || p in order[1..];
    }
  }

  lemma {:induction false} ReasonsMissingAre(budgets: seq<Entry>, f: Finding)
    ensures f in ReasonsMissing(budgets) <==>
      exists k :: 0 <= k < |budgets| && !budgets[k].justified && f == NoReason(budgets[k].job, budgets[k].phase)
  {
    if budgets == [] {
    } else {
      ReasonsMissingAre(budgets[1..], f);
      assert forall k :: 1 <= k < |budgets| ==> budgets[k] == budgets[1..][k - 1];
    }
  }

  /** The findings of some budget of the job. */
  ghost predicate JudgedOf(budgets: seq<Entry>, run: Run, k: nat) {
    k < |budgets| && budgets[k].job == run.job
  }

  datatype Channel = Errors | Notices | Warnings

  function On(c: Channel, r: Report): seq<Finding> {
    match c case Errors => r.errors case Notices => r.notices case Warnings => r.warnings
  }

  lemma {:induction false} JudgedOn(c: Channel, budgets: seq<Entry>, run: Run, f: Finding)
    ensures f in On(c, JudgeAll(budgets, run)) <==>
      exists k: nat :: JudgedOf(budgets, run, k) && f in On(c, Judge(budgets[k], run))
  {
    if budgets == [] {
    } else {
      var rest := budgets[1..];
      JudgedOn(c, rest, run, f);
      if k: nat :| JudgedOf(rest, run, k) && f in On(c, Judge(rest[k], run)) {
        assert JudgedOf(budgets, run, k + 1) && budgets[k + 1] == rest[k];
      }
      if k: nat :| JudgedOf(budgets, run, k) && f in On(c, Judge(budgets[k], run)) {
        if k > 0 {
          assert JudgedOf(rest, run, k - 1) && budgets[k] == rest[k - 1];
        }
      }
      if budgets[0].job == run.job {
        assert JudgedOf(budgets, run, 0);
      }
    }
  }

  lemma JudgedAre(budgets: seq<Entry>, run: Run, f: Finding)
    ensures f in JudgeAll(budgets, run).errors <==>
      exists k: nat :: JudgedOf(budgets, run, k) && f in Judge(budgets[k], run).errors
    ensures f in JudgeAll(budgets, run).notices <==>
      exists k: nat :: JudgedOf(budgets, run, k) && f in Judge(budgets[k], run).notices
    ensures f in JudgeAll(budgets, run).warnings <==>
      exists k: nat :: JudgedOf(budgets, run, k) && f in Judge(budgets[k], run).warnings
  {
    JudgedOn(Errors, budgets, run, f);
    JudgedOn(Notices, budgets, run, f);
    JudgedOn(Warnings, budgets, run, f);
    assert forall k: nat :: JudgedOf(budgets, run, k) ==>
      On(Errors, Judge(budgets[k], run)) == Judge(budgets[k], run).errors &&
      On(Notices, Judge(budgets[k], run)) == Judge(budgets[k], run).notices &&
      On(Warnings, Judge(budgets[k], run)) == Judge(budgets[k], run).warnings;
  }

  /** Everything the gate says, finding by finding. */
  lemma GateTells(budgets: seq<Entry>, run: Run, f: Finding)
    ensures f in Gate(budgets, run).errors <==>
      || (f.Unbudgeted? && f.phase in run.order && !Budgeted(budgets, run.job, f.phase))
      || (exists k :: 0 <= k < |budgets| && !budgets[k].justified && f == NoReason(budgets[k].job, budgets[k].phase))
      || (exists k: nat :: JudgedOf(budgets, run, k) && f in Judge(budgets[k], run).errors)
    ensures f in Gate(budgets, run).notices <==>
      exists k: nat :: JudgedOf(budgets, run, k) && f in Judge(budgets[k], run).notices
    ensures f in Gate(budgets, run).warnings <==>
      exists k: nat :: JudgedOf(budgets, run, k) && f in Judge(budgets[k], run).warnings
  {
    UnbudgetedAre(run.order, budgets, run.job, f);
    ReasonsMissingAre(budgets, f);
    JudgedAre(budgets, run, f);
  }

  /** At most one complaint, behind what a missing cache report is worth, one notice, and the recalibration first. */
  lemma JudgedInOrder(b: Entry, run: Run)
    ensures var r := Judge(b, run);
      (forall i, j :: 0 <= i < j < |r.errors| ==> r.errors[i].NoCacheReport? && !r.errors[j].NoCacheReport?) &&
      |r.notices| <= 1 &&
      (forall i, j :: 0 <= i < j < |r.warnings| ==> r.warnings[i].Recalibrate? && r.warnings[j].Accepted?)
  {
    MembersAre(b, run);
    if Reported(b, run) {
      var c := Complaint(b, SecondsOf(b, run), run);
      ComplaintIff(b, run);
      assert c.Some? ==> Complains(b, run, c.value) && !c.value.NoCacheReport?;
    }
  }

  /** What one reported phase alone is worth. */
  lemma OneUnbudgeted(phase: string, budgets: seq<Entry>, job: string)
    ensures UnbudgetedIn([phase], budgets, job) == if Budgeted(budgets, job, phase) then [] else [Unbudgeted(phase)]
  {
    KnownIff(budgets, job, phase);
    assert [phase][1..] == [];
  }

  lemma {:induction false} UnbudgetedInOrder(p: seq<string>, q: seq<string>, budgets: seq<Entry>, job: string)
    ensures UnbudgetedIn(p + q, budgets, job) == UnbudgetedIn(p, budgets, job) + UnbudgetedIn(q, budgets, job)
    decreases |p|
  {
    if p == [] {
      assert p + q == q;
    } else {
      assert (p + q)[1..] == p[1..] + q && (p + q)[0] == p[0];
      UnbudgetedInOrder(p[1..], q, budgets, job);
      var first := if Known(budgets, job, p[0]) then [] else [Unbudgeted(p[0])];
      Regroup(first, UnbudgetedIn(p[1..], budgets, job), UnbudgetedIn(q, budgets, job));
    }
  }

  lemma {:induction false} ReasonsInOrder(a: seq<Entry>, b: seq<Entry>)
    ensures ReasonsMissing(a + b) == ReasonsMissing(a) + ReasonsMissing(b)
    decreases |a|
  {
    if a == [] {
      assert a + b == b;
    } else {
      assert (a + b)[1..] == a[1..] + b && (a + b)[0] == a[0];
      ReasonsInOrder(a[1..], b);
      var first := if a[0].justified then [] else [NoReason(a[0].job, a[0].phase)];
      Regroup(first, ReasonsMissing(a[1..]), ReasonsMissing(b));
    }
  }

  lemma {:induction false} BudgetsInOrder(a: seq<Entry>, b: seq<Entry>, run: Run)
    ensures JudgeAll(a + b, run) == Joined(JudgeAll(a, run), JudgeAll(b, run))
    decreases |a|
  {
    if a == [] {
      assert a + b == b;
      assert Joined(EMPTY, JudgeAll(b, run)) == JudgeAll(b, run);
    } else {
      assert (a + b)[1..] == a[1..] + b && (a + b)[0] == a[0];
      BudgetsInOrder(a[1..], b, run);
      JoinedAssociates(Judge(a[0], run), JudgeAll(a[1..], run), JudgeAll(b, run));
    }
  }

  /** What one budget alone is worth. */
  lemma OneBudget(e: Entry, run: Run)
    ensures JudgeAll([e], run) == if e.job == run.job then Judge(e, run) else EMPTY
    ensures ReasonsMissing([e]) == if e.justified then [] else [NoReason(e.job, e.phase)]
  {
    assert [e][1..] == [];
    assert Joined(Judge(e, run), EMPTY) == Judge(e, run);
  }

  /** The gate speaks first of phases, then of reasons, then of budgets, each once and in the order they are listed. */
  lemma GateInOrder(a: seq<Entry>, b: seq<Entry>, run: Run, p: seq<string>, q: seq<string>)
    requires run.order == p + q
    ensures Gate(a + b, run).errors ==
      (UnbudgetedIn(p, a + b, run.job) + UnbudgetedIn(q, a + b, run.job)) + (ReasonsMissing(a) + ReasonsMissing(b)) +
      (JudgeAll(a, run).errors + JudgeAll(b, run).errors)
    ensures Gate(a + b, run).notices == Gate(a, run).notices + Gate(b, run).notices
    ensures Gate(a + b, run).warnings == Gate(a, run).warnings + Gate(b, run).warnings
  {
    UnbudgetedInOrder(p, q, a + b, run.job);
    ReasonsInOrder(a, b);
    BudgetsInOrder(a, b, run);
  }

  /** The list of reported phases. */
  ghost predicate ListsPhases(run: Run) {
    forall p :: p in run.order <==> p in run.phases
  }

  /**
   The gate is green exactly when every reported phase is budgeted, every budget justified, and every budget of the job
   fully reported, with the cache report or ruler it needs, and within its limits, unless a cold build excuses the last.
   */
  lemma GreenIff(budgets: seq<Entry>, run: Run)
    requires ListsPhases(run)
    ensures Gate(budgets, run).errors == [] <==>
      && (forall p :: p in run.phases ==> Budgeted(budgets, run.job, p))
      && (forall k :: 0 <= k < |budgets| ==> budgets[k].justified)
      && (forall k :: 0 <= k < |budgets| && budgets[k].job == run.job ==> Passes(budgets[k], run))
  {
    JudgeAllIff(budgets, run);
    var unbudgeted, reasons := UnbudgetedIn(run.order, budgets, run.job), ReasonsMissing(budgets);
    forall p | p in run.phases ensures Unbudgeted(p) in unbudgeted <==> !Budgeted(budgets, run.job, p) {
      UnbudgetedAre(run.order, budgets, run.job, Unbudgeted(p));
    }
    forall k | 0 <= k < |budgets| && !budgets[k].justified ensures reasons != [] {
      ReasonsMissingAre(budgets, NoReason(budgets[k].job, budgets[k].phase));
    }
    if unbudgeted != [] {
      UnbudgetedAre(run.order, budgets, run.job, unbudgeted[0]);
    }
    if reasons != [] {
      ReasonsMissingAre(budgets, reasons[0]);
    }
  }

  /** Each budget of the job that is fully reported is noticed, complained about, or excused, and only one of these. */
  lemma JudgedOnce(b: Entry, run: Run)
    requires Reported(b, run)
    ensures var r := Judge(b, run);
      var complained := exists k :: 0 <= k < |r.errors| && !r.errors[k].NoCacheReport?;
      var excused := exists k :: 0 <= k < |r.warnings| && r.warnings[k].Accepted?;
      (r.notices != [] <==> !complained && !excused) && !(complained && excused) &&
      (excused <==> !WithinLimits(b, run) && Excusable(b, run))
  {
    MembersAre(b, run);
    ComplaintIff(b, run);
    var r := Judge(b, run);
    var c := Complaint(b, SecondsOf(b, run), run);
    if c.Some? {
      if run.coldBuild && BUILD in Members(b) {
        assert r.warnings[|r.warnings| - 1] == Accepted(c.value);
      } else {
        assert r.errors[|r.errors| - 1] == c.value;
      }
    }
  }

  /** On a machine-normalised budget the gate's verdict is the one that a uniform slowdown keeps. */
  lemma NormalisedIsCheck(b: Entry, run: Run)
    requires b.rule.Normalised? && Reported(b, run)
    ensures WithinLimits(b, run) <==>
      Check(Budget(b.phase, b.maxSeconds, b.rule.machine), run.phases, run.durations).Within?
  {
    assert Covers(b, b.phase);
  }
}
