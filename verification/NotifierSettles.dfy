/**
 What a run without failed calls leaves open, kind by kind; when a pass leaves nothing; and which namespace
 a run can touch.
 */
module NotifierSettles {
  import opened Wrappers
  import opened IssueTracker
  import opened NotifierRuns

  ghost predicate AllWork(f: Calls, from: nat) {
    forall k: nat :: k >= from ==> f(k) == Works
  }

  /** Nothing failed: the queue is as it was, and so is everything on disk. */
  ghost predicate Smooth(f: Calls, before: World, after: World) {
    before.calls <= after.calls && AllWork(f, after.calls) && after.state == before.state &&
      after.disk == before.disk &&
    NoneTwice(after)
  }

  /** The issues of the other legs and namespaces are as they were. */
  ghost predicate OthersSame(before: World, after: World, leg: Leg, space: Namespace) {
    forall t: Title :: t.leg != leg || t.space != space ==> after.open[t] == before.open[t]
  }

  function Kinds(w: World, leg: Leg, space: Namespace): set<Kind> {
    OpenKinds(w.open, leg, space)
  }

  function Act(open: set<Kind>, a: Action): set<Kind> {
    match a.op
    case Create => open + {a.kind}
    case Comment => open
    case Close => open - {a.kind}
  }

  function ActAll(open: set<Kind>, actions: seq<Action>): set<Kind>
    decreases |actions|
  {
    if actions == [] then open else ActAll(Act(open, actions[0]), actions[1..])
  }

  // ---- one action, one record ----

  lemma Succeeds(f: Calls, w: World, j: Job)
    requires AllWork(f, w.calls)
    ensures var title := Title(j.leg, j.action.kind, j.space);
      Apply(f, w, j) ==
        if (title in w.open) == (j.action.op == Create) then (Called(w), Moot)
        else (Do(Called(Called(w)), title, j.action.op), Applied)
  {
  }

  /** Opening or closing one title changes its own kind only. */
  lemma KindsAfter(open: multiset<Title>, t: Title)
    requires open[t] <= 1
    ensures OpenKinds(open + multiset{t}, t.leg, t.space) == OpenKinds(open, t.leg, t.space) + {t.kind}
    ensures OpenKinds(open - multiset{t}, t.leg, t.space) == OpenKinds(open, t.leg, t.space) - {t.kind}
  {
    forall k: Kind
      ensures Title(t.leg, k, t.space) in open + multiset{t} <==> Title(t.leg, k, t.space) in open || k == t.kind
      ensures Title(t.leg, k, t.space) in open - multiset{t} <==> Title(t.leg, k, t.space) in open && k != t.kind
    {
      assert Title(t.leg, k, t.space) == t <==> k == t.kind;
    }
  }

  lemma DoActs(w: World, j: Job)
    requires NoneTwice(w) && (Title(j.leg, j.action.kind, j.space) in w.open) != (j.action.op == Create)
    ensures var w' := Do(w, Title(j.leg, j.action.kind, j.space), j.action.op);
      Kinds(w', j.leg, j.space) == Act(Kinds(w, j.leg, j.space), j.action) && OthersSame(w, w', j.leg, j.space) &&
      NoneTwice(w') && w' == w.(open := w'.open, comments := w'.comments)
  {
    KindsAfter(w.open, Title(j.leg, j.action.kind, j.space));
  }

  lemma TryWorks(f: Calls, w: World, j: Job) returns (w': World)
    requires AllWork(f, w.calls) && NoneTwice(w)
    ensures Try(f, w, j) == w' && Smooth(f, w, w') && OthersSame(w, w', j.leg, j.space)
    ensures Kinds(w', j.leg, j.space) == Act(Kinds(w, j.leg, j.space), j.action)
  {
    var title := Title(j.leg, j.action.kind, j.space);
    Succeeds(f, w, j);
    if (title in w.open) == (j.action.op == Create) {
      TryTouches(f, w, j, Called(w), Moot);
      assert Act(Kinds(w, j.leg, j.space), j.action) == Kinds(w, j.leg, j.space);
      w' := Called(w).(moot := w.moot + multiset{j});
    } else {
      var w2 := Called(Called(w));
      DoActs(w2, j);
      TryTouches(f, w, j, Do(w2, title, j.action.op), Applied);
      w' := Do(w2, title, j.action.op).(applied := w.applied + multiset{j});
    }
  }

  lemma {:induction false} TryAllWorks(f: Calls, w: World, leg: Leg, space: Namespace, actions: seq<Action>)
    requires AllWork(f, w.calls) && NoneTwice(w)
    ensures var w' := TryAll(f, w, leg, space, actions);
      Smooth(f, w, w') && OthersSame(w, w', leg, space) &&
        Kinds(w', leg, space) == ActAll(Kinds(w, leg, space), actions)
    decreases |actions|
  {
    if actions == [] {
    } else {
      var j := Job(leg, space, actions[0]);
      var w1 := w.(decided := w.decided + multiset{j});
      var w2 := TryWorks(f, w1, j);
      TryAllWorks(f, w2, leg, space, actions[1..]);
    }
  }

  /** What a report leaves open of its leg, kind by kind. */
  ghost predicate Leaves(status: Status, synthetic: bool, stale: bool, before: set<Kind>, after: set<Kind>) {
    var clears := status == Passed && !synthetic;
    (Fail in after <==> status == Failed || (Fail in before && !clears)) &&
    (Error in after <==> status == Errored || (Error in before && !clears)) &&
    (Stale in after <==>
      (stale && Stale !in before && Error !in before) || (Stale in before && !RefreshesLastRealRun(status, synthetic)))
  }

  /** The same as a set. */
  function LeftOpen(status: Status, synthetic: bool, stale: bool, before: set<Kind>): (after: set<Kind>)
    ensures Leaves(status, synthetic, stale, before, after)
  {
    var kept := if status == Passed && !synthetic then {} else before * {Fail, Error};
    kept +
    (if status == Failed then {Fail} else {}) + (if status == Errored then {Error} else {}) +
    (if (stale && Stale !in before && Error !in before) || (Stale in before && !RefreshesLastRealRun(status, synthetic))
     then {Stale} else {})
  }

  lemma LeavesUnique(status: Status, synthetic: bool, stale: bool, before: set<Kind>, after: set<Kind>)
    requires Leaves(status, synthetic, stale, before, after)
    ensures after == LeftOpen(status, synthetic, stale, before)
  {
    forall k: Kind ensures k in after <==> k in LeftOpen(status, synthetic, stale, before) {
      match k {
        case Fail =>
        case Error =>
        case Stale =>
      }
    }
  }

  lemma {:induction false} ActConcat(open: set<Kind>, a: seq<Action>, b: seq<Action>)
    ensures ActAll(open, a + b) == ActAll(ActAll(open, a), b)
    decreases |a|
  {
    if a == [] {
      assert a + b == b;
    } else {
      assert (a + b)[1..] == a[1..] + b;
      ActConcat(Act(open, a[0]), a[1..], b);
    }
  }

  lemma ActOne(open: set<Kind>, a: Action)
    ensures ActAll(open, [a]) == Act(open, a)
  {
    assert [a][1..] == [];
  }

  lemma {:induction false} CloseAllCloses(kinds: seq<Kind>, found: set<Kind>, now: set<Kind>, body: string)
    ensures ActAll(now, CloseAll(kinds, found, body)) == now - set k | k in kinds && k in found
    decreases |kinds|
  {
    if kinds == [] {
    } else {
      var first := if kinds[0] in found then [Action(Close, kinds[0], body)] else [];
      var rest := CloseAll(kinds[1..], found, body);
      ActConcat(now, first, rest);
      if kinds[0] in found {
        ActOne(now, Action(Close, kinds[0], body));
      }
      CloseAllCloses(kinds[1..], found, ActAll(now, first), body);
    }
  }

  lemma DecisionLeaves(status: Status, synthetic: bool, stale: bool, open: set<Kind>, body: string)
    ensures Leaves(status, synthetic, stale, open, ActAll(open, Decide(status, synthetic, stale, open, body)))
  {
    var late := if stale && Stale !in open && Error !in open then [Action(Create, Stale, body)] else [];
    var main := Decide(status, synthetic, false, open, body);
    assert Decide(status, synthetic, stale, open, body) == main + late;
    ActConcat(open, main, late);
    var mid := ActAll(open, main);
    MainLeaves(status, synthetic, open, body);
    if late != [] {
      ActOne(mid, late[0]);
    }
  }

  /** With neither open before, one record opens both an error and a stale issue exactly when it is a stale error. */
  lemma BothOpenedIff(status: Status, synthetic: bool, stale: bool, open: set<Kind>, body: string)
    requires Error !in open && Stale !in open
    ensures var after := ActAll(open, Decide(status, synthetic, stale, open, body));
      Error in after && Stale in after <==> status == Errored && stale
  {
    DecisionLeaves(status, synthetic, stale, open, body);
  }

  lemma MainLeaves(status: Status, synthetic: bool, open: set<Kind>, body: string)
    ensures Leaves(status, synthetic, false, open, ActAll(open, Decide(status, synthetic, false, open, body)))
  {
    var main := Decide(status, synthetic, false, open, body);
    match status {
      case Failed =>
        var first := Action(if Fail in open then Comment else Create, Fail, body);
        var second := Action(Close, Stale, MeasuredAgain());
        ActOne(open, first);
        ActConcat(open, [first], [second]);
        ActOne(Act(open, first), second);
        assert main == [first] + if !synthetic && Stale in open then [second] else [];
      case Errored =>
        if Error !in open {
          ActOne(open, Action(Create, Error, body));
          assert main == [Action(Create, Error, body)];
        }
      case Passed =>
        if !synthetic {
          CloseAllCloses(KINDS, open, open, Recovered(body));
          assert main == CloseAll(KINDS, open, Recovered(body));
          assert Fail == KINDS[0] && Error == KINDS[1] && Stale == KINDS[2];
        }
      case Skipped =>
    }
  }

  lemma NotifyWorks(f: Calls, w: World, space: Namespace, rec: Record, stale: bool) returns (w': World)
    requires AllWork(f, w.calls) && NoneTwice(w)
    ensures w' == Notify(f, w, space, false, rec, stale)
    ensures Smooth(f, w, w') && OthersSame(w, w', rec.leg, space)
    ensures Leaves(rec.status, rec.synthetic, stale, Kinds(w, rec.leg, space), Kinds(w', rec.leg, space))
  {
    var found := OpenKinds(w.open, rec.leg, space);
    var actions := Decide(rec.status, rec.synthetic, stale, found, rec.body);
    TryAllWorks(f, Called(w).(judged := w.judged + multiset{(rec, stale)}), rec.leg, space, actions);
    DecisionLeaves(rec.status, rec.synthetic, stale, found, rec.body);
    w' := Notify(f, w, space, false, rec, stale);
  }

  // ---- comments ----

  predicate NoComments(actions: seq<Action>) {
    forall k :: 0 <= k < |actions| ==> actions[k].op != Comment
  }

  lemma TryComments(f: Calls, w: World, j: Job)
    requires AllWork(f, w.calls)
    ensures var title := Title(j.leg, j.action.kind, j.space);
      Try(f, w, j).comments ==
        w.comments + if j.action.op == Comment && title in w.open then multiset{title} else multiset{}
  {
    Succeeds(f, w, j);
    TryTouches(f, w, j, Apply(f, w, j).0, Apply(f, w, j).1);
  }

  lemma {:induction false} TryAllQuiet(f: Calls, w: World, leg: Leg, space: Namespace, actions: seq<Action>)
    requires AllWork(f, w.calls) && NoneTwice(w) && NoComments(actions)
    ensures TryAll(f, w, leg, space, actions).comments == w.comments
    decreases |actions|
  {
    if actions == [] {
    } else {
      var j := Job(leg, space, actions[0]);
      var w1 := w.(decided := w.decided + multiset{j});
      TryComments(f, w1, j);
      var w2 := TryWorks(f, w1, j);
      TryAllQuiet(f, w2, leg, space, actions[1..]);
    }
  }

  lemma {:induction false} ClosingIsQuiet(kinds: seq<Kind>, open: set<Kind>, body: string)
    ensures NoComments(CloseAll(kinds, open, body))
    decreases |kinds|
  {
    if kinds == [] {
    } else {
      ClosingIsQuiet(kinds[1..], open, body);
    }
  }

  lemma FailsAgain(f: Calls, w: World, leg: Leg, space: Namespace, actions: seq<Action>)
    requires AllWork(f, w.calls) && NoneTwice(w) && actions != [] && actions[0].kind == Fail && NoComments(actions[1..])
    requires actions[0].op == Comment <==> Fail in Kinds(w, leg, space)
    ensures TryAll(f, w, leg, space, actions).comments ==
      w.comments + if Fail in Kinds(w, leg, space) then multiset{Title(leg, Fail, space)} else multiset{}
  {
    var j := Job(leg, space, actions[0]);
    var w1 := w.(decided := w.decided + multiset{j});
    TryComments(f, w1, j);
    var w2 := TryWorks(f, w1, j);
    TryAllQuiet(f, w2, leg, space, actions[1..]);
  }

  /** A record comments on the fail issue when it fails again, and on nothing else. */
  lemma NotifyComments(f: Calls, w: World, space: Namespace, rec: Record, stale: bool)
    requires AllWork(f, w.calls) && NoneTwice(w)
    ensures Notify(f, w, space, false, rec, stale).comments == w.comments +
      if rec.status == Failed && Fail in Kinds(w, rec.leg, space) then multiset{Title(rec.leg, Fail, space)}
      else multiset{}
  {
    var open := OpenKinds(w.open, rec.leg, space);
    var actions := Decide(rec.status, rec.synthetic, stale, open, rec.body);
    var w1 := Called(w).(judged := w.judged + multiset{(rec, stale)});
    ClosingIsQuiet(KINDS, open, Recovered(rec.body));
    if rec.status == Failed {
      assert NoComments(actions[1..]);
      FailsAgain(f, w1, rec.leg, space, actions);
    } else {
      TryAllQuiet(f, w1, rec.leg, space, actions);
    }
  }

  // ---- one run ----

  /** Whether a leg counts as stale, given what was on disk. */
  predicate StaleNow(disk: State, o: Options, r: LegResult) {
    StaleAt(Refreshed(disk, o, r), o, r)
  }

  /** The leg's last real measurement: this run's, or the last recorded one, or the time the state was created. */
  function Measured(disk: State, o: Options, r: LegResult): int {
    if (r.status == Passed || r.status == Failed) && !o.synthetic && !o.dryRun then r.refreshedAt
    else if r.leg in disk.lastReal then disk.lastReal[r.leg]
    else o.created
  }

  /** The stale alarm is due: the leg was last measured at least so many days before the time it is judged at. */
  predicate Due(disk: State, o: Options, r: LegResult) {
    ((match o.now case Some(now) => now case None => r.checkedAt) - Measured(disk, o, r)) as real >=
      o.staleDays * 86400.0
  }

  lemma StaleWhenDue(disk: State, o: Options, r: LegResult)
    ensures StaleNow(disk, o, r) <==> Due(disk, o, r)
  {
  }

  predicate LegsDiffer(rs: seq<LegResult>) {
    forall i, j :: 0 <= i < j < |rs| ==> rs[i].leg != rs[j].leg
  }

  lemma LegWorks(f: Calls, w: World, o: Options, r: LegResult) returns (w': World)
    requires AllWork(f, w.calls) && NoneTwice(w) && !o.dryRun && w.state.pending == []
    ensures w' == RunLeg(f, w, o, r) && AllWork(f, w'.calls) && NoneTwice(w')
    ensures w'.state == Refreshed(w.state, o, r) && w'.disk == w'.state && OthersSame(w, w', r.leg, o.space)
    ensures Leaves(r.status, o.synthetic, StaleNow(w.state, o, r), Kinds(w, r.leg, o.space), Kinds(w', r.leg, o.space))
  {
    var w1 := w.(state := Refreshed(w.state, o, r));
    var stale, rec := StaleAt(w1.state, o, r), Record(r.leg, r.status, o.synthetic, r.body);
    var w2 := w1.(heard := w1.heard + multiset{(rec, stale)});
    var w3 := NotifyWorks(f, w2, o.space, rec, stale);
    w' := w3.(disk := w3.state);
  }

  lemma SameKinds(a: World, b: World, leg: Leg, space: Namespace)
    requires forall k: Kind :: a.open[Title(leg, k, space)] == b.open[Title(leg, k, space)]
    ensures Kinds(a, leg, space) == Kinds(b, leg, space)
  {
    assert forall k: Kind :: Title(leg, k, space) in a.open <==> Title(leg, k, space) in b.open;
  }

  lemma OtherLegsClock(state: State, o: Options, r: LegResult, other: LegResult)
    requires r.leg != other.leg
    ensures StaleNow(Refreshed(state, o, r), o, other) == StaleNow(state, o, other)
  {
  }

  lemma {:induction false} LegsWork(f: Calls, w: World, o: Options, rs: seq<LegResult>, k: nat)
    requires AllWork(f, w.calls) && NoneTwice(w) && !o.dryRun && w.state.pending == []
    requires k < |rs| && LegsDiffer(rs)
    ensures var w' := RunLegs(f, w, o, rs);
      w'.disk.pending == [] &&
      Leaves(rs[k].status, o.synthetic, StaleNow(w.state, o, rs[k]),
             Kinds(w, rs[k].leg, o.space), Kinds(w', rs[k].leg, o.space))
    decreases |rs|
  {
    var r := rs[0];
    var w1 := LegWorks(f, w, o, r);
    if k > 0 {
      assert rs[0].leg != rs[k].leg;
      SameKinds(w, w1, rs[k].leg, o.space);
      OtherLegsClock(w.state, o, r, rs[k]);
      var rest := rs[1..];
      assert rest[k - 1] == rs[k];
      LegsWork(f, w1, o, rest, k - 1);
    } else {
      OtherLegsWork(f, w1, o, rs[1..], r.leg);
    }
  }

  lemma {:induction false} OtherLegsWork(f: Calls, w: World, o: Options, rs: seq<LegResult>, leg: Leg)
    requires AllWork(f, w.calls) && NoneTwice(w) && !o.dryRun && w.state.pending == [] && w.disk.pending == []
    requires forall k :: 0 <= k < |rs| ==> rs[k].leg != leg
    ensures var w' := RunLegs(f, w, o, rs); w'.disk.pending == [] && Kinds(w', leg, o.space) == Kinds(w, leg, o.space)
    decreases |rs|
  {
    if rs == [] {
    } else {
      var w1 := LegWorks(f, w, o, rs[0]);
      SameKinds(w, w1, leg, o.space);
      OtherLegsWork(f, w1, o, rs[1..], leg);
    }
  }

  // ---- the queue, then the legs ----

  /** What a replayed item makes of a leg's open kinds, in a run of the namespace. */
  function AfterItem(open: set<Kind>, item: Item, leg: Leg, space: Namespace): set<Kind> {
    match item
    case Queued(j) => if j.leg == leg && j.space == space then Act(open, j.action) else open
    case Deferred(rec, stale, _) => if rec.leg == leg then LeftOpen(rec.status, rec.synthetic, stale, open) else open
  }

  function AfterQueue(open: set<Kind>, items: seq<Item>, leg: Leg, space: Namespace): set<Kind>
    decreases |items|
  {
    if items == [] then open else AfterQueue(AfterItem(open, items[0], leg, space), items[1..], leg, space)
  }

  lemma ItemWorks(f: Calls, w: World, space: Namespace, item: Item, leg: Leg) returns (w': World)
    requires AllWork(f, w.calls) && NoneTwice(w)
    ensures w' == ReplayItem(f, w, space, false, item) && Smooth(f, w, w')
    ensures Kinds(w', leg, space) == AfterItem(Kinds(w, leg, space), item, leg, space)
  {
    match item {
      case Queued(j) =>
        w' := TryWorks(f, w, j);
        if j.leg != leg || j.space != space {
          SameKinds(w, w', leg, space);
        }
      case Deferred(rec, stale, _) =>
        w' := NotifyWorks(f, w, space, rec, stale);
        LeavesUnique(rec.status, rec.synthetic, stale, Kinds(w, rec.leg, space), Kinds(w', rec.leg, space));
        if rec.leg != leg {
          SameKinds(w, w', leg, space);
        }
    }
  }

  /** With no failed call a replay empties the queue and leaves each leg as its items say, one after another. */
  lemma {:induction false} ReplayLeaves(f: Calls, w: World, space: Namespace, items: seq<Item>, leg: Leg)
    requires AllWork(f, w.calls) && NoneTwice(w)
    ensures var w' := ReplayAll(f, w, space, false, items);
      Smooth(f, w, w') && Kinds(w', leg, space) == AfterQueue(Kinds(w, leg, space), items, leg, space)
    decreases |items|
  {
    if items == [] {
    } else {
      var w1 := ItemWorks(f, w, space, items[0], leg);
      ReplayLeaves(f, w1, space, items[1..], leg);
    }
  }

  /** A leg's open kinds once the queue on disk is replayed, from what is open and queued before the run. */
  function OpenBefore(w: World, o: Options, leg: Leg): set<Kind> {
    AfterQueue(Kinds(w, leg, o.space), w.disk.pending, leg, o.space)
  }

  /** With no failed call a run empties the queue and leaves each leg as its outcome says, whatever was queued. */
  lemma RunSettles(f: Calls, w: World, o: Options, rs: seq<LegResult>, k: nat)
    requires AllWork(f, w.calls) && NoneTwice(w) && !o.dryRun && k < |rs| && LegsDiffer(rs)
    ensures var w' := Run(f, w, o, rs);
      w'.disk.pending == [] &&
      Kinds(w', rs[k].leg, o.space) ==
        LeftOpen(rs[k].status, o.synthetic, Due(w.disk, o, rs[k]), OpenBefore(w, o, rs[k].leg))
  {
    var leg := rs[k].leg;
    var w1 := w.(state := w.disk.(pending := []));
    ReplayLeaves(f, w1, o.space, w.disk.pending, leg);
    var w2 := Replay(f, w.(state := w.disk), o.space, false);
    assert w2 == ReplayAll(f, w1, o.space, false, w.disk.pending);
    assert Kinds(w1, leg, o.space) == Kinds(w, leg, o.space);
    LegsWork(f, w2, o, rs, k);
    LeavesUnique(rs[k].status, o.synthetic, StaleNow(w2.state, o, rs[k]), Kinds(w2, leg, o.space),
                 Kinds(Run(f, w, o, rs), leg, o.space));
    assert StaleNow(w2.state, o, rs[k]) == StaleNow(w.disk, o, rs[k]);
    StaleWhenDue(w.disk, o, rs[k]);
  }

  /** A stale alarm is due for the leg, and neither it nor an error is open once the queue is replayed. */
  predicate RaisesStale(w: World, o: Options, r: LegResult) {
    Due(w.disk, o, r) && Stale !in OpenBefore(w, o, r.leg) && Error !in OpenBefore(w, o, r.leg)
  }

  /** A real pass leaves its leg with no open issue, unless it raises the stale alarm itself. */
  lemma RealPassClearsIff(f: Calls, w: World, o: Options, rs: seq<LegResult>, k: nat)
    requires AllWork(f, w.calls) && NoneTwice(w) && !o.dryRun && k < |rs| && LegsDiffer(rs)
    requires rs[k].status == Passed && !o.synthetic
    ensures Kinds(Run(f, w, o, rs), rs[k].leg, o.space) == {} <==> !RaisesStale(w, o, rs[k])
  {
    RunSettles(f, w, o, rs, k);
    var after := Kinds(Run(f, w, o, rs), rs[k].leg, o.space);
    if after != {} {
      var x :| x in after;
      assert x == Fail || x == Error || x == Stale;
    }
  }

  /** A real fail leaves the fail issue open, and the stale one closed unless it raises it itself. */
  lemma RealFailLeavesIff(f: Calls, w: World, o: Options, rs: seq<LegResult>, k: nat)
    requires AllWork(f, w.calls) && NoneTwice(w) && !o.dryRun && k < |rs| && LegsDiffer(rs)
    requires rs[k].status == Failed && !o.synthetic
    ensures Fail in Kinds(Run(f, w, o, rs), rs[k].leg, o.space)
    ensures Stale !in Kinds(Run(f, w, o, rs), rs[k].leg, o.space) <==> !RaisesStale(w, o, rs[k])
  {
    RunSettles(f, w, o, rs, k);
  }

  /** The time staleness is judged at. */
  function Clock(o: Options, r: LegResult): int {
    if o.now.Some? then o.now.value else r.checkedAt
  }

  /** A real measurement refreshes the clock it is then judged by. */
  lemma MeasuredIsFresh(disk: State, o: Options, r: LegResult)
    requires RefreshesLastRealRun(r.status, o.synthetic) && !o.dryRun
    ensures Due(disk, o, r) <==> (Clock(o, r) - r.refreshedAt) as real >= o.staleDays * 86400.0
  {
  }

  /**
   From an empty queue and tracker the stale issue is open afterwards exactly when so many days have passed since the
   leg's last measurement, or since the state was created if there is none: the clock does not start at the epoch.
   */
  lemma StaleFromNothing(f: Calls, w: World, o: Options, rs: seq<LegResult>, k: nat, since: int)
    requires AllWork(f, w.calls) && NoneTwice(w) && !o.dryRun && k < |rs| && LegsDiffer(rs)
    requires w.disk.pending == [] && w.open == multiset{}
    requires since ==
      if (rs[k].status == Passed || rs[k].status == Failed) && !o.synthetic then rs[k].refreshedAt
      else if rs[k].leg in w.disk.lastReal then w.disk.lastReal[rs[k].leg]
      else o.created
    ensures Stale in Kinds(Run(f, w, o, rs), rs[k].leg, o.space) <==>
      (Clock(o, rs[k]) - since) as real >= o.staleDays * 86400.0
  {
    RunSettles(f, w, o, rs, k);
    assert OpenBefore(w, o, rs[k].leg) == {};
  }

  /**
   With nothing queued: a pass leaves something open exactly when the alarm is due and neither it nor an error was
   open.
   */
  lemma RealPassFromEmptyQueue(f: Calls, w: World, o: Options, rs: seq<LegResult>, k: nat)
    requires AllWork(f, w.calls) && NoneTwice(w) && !o.dryRun && k < |rs| && LegsDiffer(rs) && w.disk.pending == []
    requires rs[k].status == Passed && !o.synthetic
    ensures Kinds(Run(f, w, o, rs), rs[k].leg, o.space) == {} <==>
      !((Clock(o, rs[k]) - rs[k].refreshedAt) as real >= o.staleDays * 86400.0 &&
        Stale !in Kinds(w, rs[k].leg, o.space) && Error !in Kinds(w, rs[k].leg, o.space))
  {
    RealPassClearsIff(f, w, o, rs, k);
    MeasuredIsFresh(w.disk, o, rs[k]);
  }

  /** For instance: an empty tracker and queue, a week's stale period, and the clock set far ahead. */
  lemma PassLeavesStale(f: Calls, w: World)
    requires AllWork(f, w.calls) && w.open == multiset{} && w.disk == State([], map[])
    ensures var o := Options(Real, false, false, Some(10000000), 7.0, 0);
      Stale in Kinds(Run(f, w, o, [LegResult(Metal, Passed, "", 0, 0)]), Metal, Real)
  {
    var o := Options(Real, false, false, Some(10000000), 7.0, 0);
    var rs := [LegResult(Metal, Passed, "", 0, 0)];
    RunSettles(f, w, o, rs, 0);
    MeasuredIsFresh(w.disk, o, rs[0]);
    assert OpenBefore(w, o, Metal) == {};
  }

  /** On the real clock, and with less than the stale period between two readings of it, neither raises an alarm. */
  lemma RealRunSettles(f: Calls, w: World, o: Options, rs: seq<LegResult>, k: nat)
    requires AllWork(f, w.calls) && NoneTwice(w) && !o.dryRun && k < |rs| && LegsDiffer(rs)
    requires o.now.None? && !o.synthetic && (rs[k].checkedAt - rs[k].refreshedAt) as real < o.staleDays * 86400.0
    ensures var after := Kinds(Run(f, w, o, rs), rs[k].leg, o.space);
      (rs[k].status == Passed ==> after == {}) && (rs[k].status == Failed ==> Fail in after && Stale !in after)
  {
    if rs[k].status == Passed {
      MeasuredIsFresh(w.disk, o, rs[k]);
      RealPassClearsIff(f, w, o, rs, k);
    } else if rs[k].status == Failed {
      MeasuredIsFresh(w.disk, o, rs[k]);
      RealFailLeavesIff(f, w, o, rs, k);
    }
  }
}
