/**
 How long what a record left open stays open. A queued action outlives the record that supersedes it, so a leg's
 open issues last through later runs, whatever calls fail, exactly when nothing in the queue goes against them.
 */
module NotifierLasting {
  import opened Wrappers
  import opened IssueTracker
  import opened NotifierRuns
  import opened NotifierSettles

  /** The item, carried out, would leave the leg's open kinds as they are. */
  predicate Harmless(open: set<Kind>, item: Item, leg: Leg, space: Namespace) {
    AfterItem(open, item, leg, space) == open
  }

  predicate AllHarmless(open: set<Kind>, items: seq<Item>, leg: Leg, space: Namespace) {
    forall k :: 0 <= k < |items| ==> Harmless(open, items[k], leg, space)
  }

  // ---- what goes with the open issues leaves them, failures or not ----

  /** The leg's open kinds are still these, and nothing in memory goes against them. */
  ghost predicate Lasts(w: World, open: set<Kind>, leg: Leg, space: Namespace) {
    Kinds(w, leg, space) == open && AllHarmless(open, w.state.pending, leg, space)
  }

  lemma OtherTitle(a: multiset<Title>, b: multiset<Title>, t: Title, leg: Leg, space: Namespace)
    requires b == a || b == a + multiset{t} || b == a - multiset{t}
    requires t.leg != leg || t.space != space
    ensures OpenKinds(b, leg, space) == OpenKinds(a, leg, space)
  {
    forall k: Kind ensures Title(leg, k, space) in b <==> Title(leg, k, space) in a {
      assert Title(leg, k, space) != t;
    }
  }

  /** An action that goes with what is open opens and closes nothing. */
  lemma ApplyLasts(f: Calls, w: World, j: Job, leg: Leg, space: Namespace)
    requires Harmless(Kinds(w, leg, space), Queued(j), leg, space)
    ensures Kinds(Apply(f, w, j).0, leg, space) == Kinds(w, leg, space) && Apply(f, w, j).0.state == w.state
  {
    var w', how := ApplyTouches(f, w, j);
    var t := Title(j.leg, j.action.kind, j.space);
    if j.leg != leg || j.space != space {
      OtherTitle(w.open, w'.open, t, leg, space);
    } else {
      assert t in w.open <==> j.action.kind in Kinds(w, leg, space);
    }
  }

  lemma EnqueueLasts(w: World, item: Item, open: set<Kind>, leg: Leg, space: Namespace)
    requires Lasts(w, open, leg, space) && Harmless(open, item, leg, space)
    ensures Lasts(Enqueue(w, item), open, leg, space)
  {
  }

  lemma TryLasts(f: Calls, w: World, j: Job, open: set<Kind>, leg: Leg, space: Namespace)
    requires Lasts(w, open, leg, space) && Harmless(open, Queued(j), leg, space)
    ensures Lasts(Try(f, w, j), open, leg, space)
  {
    var w', how := ApplyTouches(f, w, j);
    ApplyLasts(f, w, j, leg, space);
    TryTouches(f, w, j, w', how);
    if how == Refused {
      EnqueueLasts(w', Queued(j), open, leg, space);
    }
  }

  lemma {:induction false} TryAllLasts(f: Calls, w: World, of: Leg, own: Namespace, actions: seq<Action>,
                                       open: set<Kind>, leg: Leg, space: Namespace)
    requires Lasts(w, open, leg, space)
    requires forall k :: 0 <= k < |actions| ==> Harmless(open, Queued(Job(of, own, actions[k])), leg, space)
    ensures Lasts(TryAll(f, w, of, own, actions), open, leg, space)
    decreases |actions|
  {
    if actions == [] {
    } else {
      var j := Job(of, own, actions[0]);
      var w1 := w.(decided := w.decided + multiset{j});
      TryLasts(f, w1, j, open, leg, space);
      TryAllLasts(f, Try(f, w1, j), of, own, actions[1..], open, leg, space);
    }
  }

  lemma {:induction false} CloseAllOf(kinds: seq<Kind>, open: set<Kind>, body: string)
    ensures forall a :: a in CloseAll(kinds, open, body) ==> a.op == Close && a.kind in open
    decreases |kinds|
  {
    if kinds == [] {
    } else {
      CloseAllOf(kinds[1..], open, body);
    }
  }

  /** A record that leaves the open kinds as they are decides on comments at most. */
  lemma DecisionHarmless(status: Status, synthetic: bool, stale: bool, open: set<Kind>, body: string)
    requires LeftOpen(status, synthetic, stale, open) == open
    ensures forall a :: a in Decide(status, synthetic, stale, open, body) ==> Act(open, a) == open
  {
    CloseAllOf(KINDS, open, Recovered(body));
    assert Leaves(status, synthetic, stale, open, open);
  }

  /** Judged against the open kinds themselves, for another leg, or for another namespace. */
  lemma JudgedLasts(f: Calls, w: World, own: Namespace, rec: Record, stale: bool, open: set<Kind>, leg: Leg,
                    space: Namespace)
    requires Lasts(w, open, leg, space) && (own == space ==> Harmless(open, Deferred(rec, stale, own), leg, space))
    ensures var actions := Decide(rec.status, rec.synthetic, stale, OpenKinds(w.open, rec.leg, own), rec.body);
      Lasts(TryAll(f, w, rec.leg, own, actions), open, leg, space)
  {
    var actions := Decide(rec.status, rec.synthetic, stale, OpenKinds(w.open, rec.leg, own), rec.body);
    if rec.leg == leg && own == space {
      DecisionHarmless(rec.status, rec.synthetic, stale, open, rec.body);
    }
    forall k | 0 <= k < |actions| ensures Harmless(open, Queued(Job(rec.leg, own, actions[k])), leg, space) {
      assert actions[k] in actions;
    }
    TryAllLasts(f, w, rec.leg, own, actions, open, leg, space);
  }

  /** In a run of another namespace a record matters only if it is deferred, and so may be judged in this one. */
  lemma NotifyLasts(f: Calls, w: World, own: Namespace, rec: Record, stale: bool, open: set<Kind>, leg: Leg,
                    space: Namespace)
    requires Lasts(w, open, leg, space)
    requires own == space || f(w.calls) != Works ==> Harmless(open, Deferred(rec, stale, own), leg, space)
    ensures Lasts(Notify(f, w, own, false, rec, stale), open, leg, space)
  {
    if f(w.calls) != Works {
      EnqueueLasts(Called(w), Deferred(rec, stale, own), open, leg, space);
    } else {
      JudgedLasts(f, Called(w).(judged := w.judged + multiset{(rec, stale)}), own, rec, stale, open, leg, space);
    }
  }

  lemma ItemLasts(f: Calls, w: World, own: Namespace, item: Item, open: set<Kind>, leg: Leg, space: Namespace)
    requires Lasts(w, open, leg, space) && Harmless(open, item, leg, space)
    ensures Lasts(ReplayItem(f, w, own, false, item), open, leg, space)
  {
    match item {
      case Queued(j) => TryLasts(f, w, j, open, leg, space);
      case Deferred(rec, stale, _) => NotifyLasts(f, w, own, rec, stale, open, leg, space);
    }
  }

  lemma {:induction false} ReplayLasts(f: Calls, w: World, own: Namespace, items: seq<Item>, open: set<Kind>, leg: Leg,
                                       space: Namespace)
    requires Lasts(w, open, leg, space) && AllHarmless(open, items, leg, space)
    ensures Lasts(ReplayAll(f, w, own, false, items), open, leg, space)
    decreases |items|
  {
    if items == [] {
    } else {
      ItemLasts(f, w, own, items[0], open, leg, space);
      ReplayLasts(f, ReplayItem(f, w, own, false, items[0]), own, items[1..], open, leg, space);
    }
  }

  // ---- runs ----

  /**
   No later record of the leg would leave other kinds open; of another namespace's records this is asked only of those
   that are deferred.
   */
  ghost predicate LegsAgree(f: Calls, w: World, o: Options, rs: seq<LegResult>, open: set<Kind>, leg: Leg,
                            space: Namespace)
    decreases |rs|
  {
    rs == [] ||
    ((rs[0].leg == leg && (o.space == space || f(w.calls) != Works) ==>
        LeftOpen(rs[0].status, o.synthetic, StaleAt(Refreshed(w.state, o, rs[0]), o, rs[0]), open) == open) &&
     LegsAgree(f, RunLeg(f, w, o, rs[0]), o, rs[1..], open, leg, space))
  }

  /** A dry run, or a run none of whose records could leave other kinds open. */
  ghost predicate RunAgrees(f: Calls, w: World, run: RunSpec, open: set<Kind>, leg: Leg, space: Namespace) {
    var o := run.options;
    o.dryRun ||
    (run.results != [] &&
     LegsAgree(f, Replay(f, w.(state := w.disk), o.space, false), o, run.results, open, leg, space))
  }

  ghost predicate RunsAgree(f: Calls, w: World, runs: seq<RunSpec>, open: set<Kind>, leg: Leg, space: Namespace)
    decreases |runs|
  {
    runs == [] ||
    (RunAgrees(f, w, runs[0], open, leg, space) &&
     RunsAgree(f, Run(f, w, runs[0].options, runs[0].results), runs[1..], open, leg, space))
  }

  lemma LegLasts(f: Calls, w: World, o: Options, r: LegResult, open: set<Kind>, leg: Leg, space: Namespace)
    requires Lasts(w, open, leg, space) && !o.dryRun && LegsAgree(f, w, o, [r], open, leg, space)
    ensures Lasts(RunLeg(f, w, o, r), open, leg, space) && RunLeg(f, w, o, r).disk == RunLeg(f, w, o, r).state
  {
    var w1 := w.(state := Refreshed(w.state, o, r));
    var stale, rec := StaleAt(w1.state, o, r), Record(r.leg, r.status, o.synthetic, r.body);
    NotifyLasts(f, w1.(heard := w1.heard + multiset{(rec, stale)}), o.space, rec, stale, open, leg, space);
  }

  lemma {:induction false} LegsLast(f: Calls, w: World, o: Options, rs: seq<LegResult>, open: set<Kind>, leg: Leg,
                                    space: Namespace)
    requires Lasts(w, open, leg, space) && !o.dryRun && rs != [] && LegsAgree(f, w, o, rs, open, leg, space)
    ensures Lasts(RunLegs(f, w, o, rs), open, leg, space) && RunLegs(f, w, o, rs).disk == RunLegs(f, w, o, rs).state
    decreases |rs|
  {
    LegLasts(f, w, o, rs[0], open, leg, space);
    if |rs| == 1 {
      assert rs[1..] == [];
    } else {
      LegsLast(f, RunLeg(f, w, o, rs[0]), o, rs[1..], open, leg, space);
    }
  }

  lemma RunLasts(f: Calls, w: World, run: RunSpec, leg: Leg, space: Namespace)
    requires AllHarmless(Kinds(w, leg, space), w.disk.pending, leg, space)
    requires RunAgrees(f, w, run, Kinds(w, leg, space), leg, space)
    ensures var w' := Run(f, w, run.options, run.results);
      Kinds(w', leg, space) == Kinds(w, leg, space) && AllHarmless(Kinds(w, leg, space), w'.disk.pending, leg, space)
  {
    var open := Kinds(w, leg, space);
    if run.options.dryRun {
      DryRunChangesNothing(f, w, run.options, run.results);
      return;
    }
    var o := run.options;
    ReplayLasts(f, w.(state := w.disk.(pending := [])), o.space, w.disk.pending, open, leg, space);
    LegsLast(f, Replay(f, w.(state := w.disk), o.space, false), o, run.results, open, leg, space);
  }

  /** If nothing queued goes against what is open, it stays open, over any runs that agree, whatever calls fail. */
  lemma {:induction false} RunsLast(f: Calls, w: World, runs: seq<RunSpec>, leg: Leg, space: Namespace)
    requires AllHarmless(Kinds(w, leg, space), w.disk.pending, leg, space)
    requires RunsAgree(f, w, runs, Kinds(w, leg, space), leg, space)
    ensures Kinds(RunMany(f, w, runs), leg, space) == Kinds(w, leg, space)
    decreases |runs|
  {
    if runs == [] {
    } else {
      RunLasts(f, w, runs[0], leg, space);
      RunsLast(f, Run(f, w, runs[0].options, runs[0].results), runs[1..], leg, space);
    }
  }

  // ---- one item against the open issues is enough ----

  ghost predicate SameCalls(f: Calls, g: Calls, from: nat, until: nat) {
    forall k: nat :: from <= k < until ==> f(k) == g(k)
  }

  /** A step looks at the calls it makes and at no others. */
  lemma ApplyCalls(f: Calls, g: Calls, w: World, j: Job)
    ensures w.calls < Apply(f, w, j).0.calls
    ensures SameCalls(f, g, w.calls, Apply(f, w, j).0.calls) ==> Apply(g, w, j) == Apply(f, w, j)
  {
    if SameCalls(f, g, w.calls, Apply(f, w, j).0.calls) {
      assert f(w.calls) == g(w.calls);
    }
  }

  lemma TryCalls(f: Calls, g: Calls, w: World, j: Job)
    ensures w.calls < Try(f, w, j).calls
    ensures SameCalls(f, g, w.calls, Try(f, w, j).calls) ==> Try(g, w, j) == Try(f, w, j)
  {
    ApplyCalls(f, g, w, j);
    TryTouches(f, w, j, Apply(f, w, j).0, Apply(f, w, j).1);
    TryTouches(g, w, j, Apply(g, w, j).0, Apply(g, w, j).1);
  }

  lemma {:induction false} TryAllCalls(f: Calls, g: Calls, w: World, leg: Leg, space: Namespace, actions: seq<Action>)
    ensures w.calls <= TryAll(f, w, leg, space, actions).calls
    ensures SameCalls(f, g, w.calls, TryAll(f, w, leg, space, actions).calls) ==>
      TryAll(g, w, leg, space, actions) == TryAll(f, w, leg, space, actions)
    decreases |actions|
  {
    if actions == [] {
    } else {
      var j := Job(leg, space, actions[0]);
      var w1 := w.(decided := w.decided + multiset{j});
      TryCalls(f, g, w1, j);
      TryAllCalls(f, g, Try(f, w1, j), leg, space, actions[1..]);
    }
  }

  lemma NotifyCalls(f: Calls, g: Calls, w: World, space: Namespace, rec: Record, stale: bool)
    ensures w.calls < Notify(f, w, space, false, rec, stale).calls
    ensures SameCalls(f, g, w.calls, Notify(f, w, space, false, rec, stale).calls) ==>
      Notify(g, w, space, false, rec, stale) == Notify(f, w, space, false, rec, stale)
  {
    var actions := Decide(rec.status, rec.synthetic, stale, OpenKinds(w.open, rec.leg, space), rec.body);
    TryAllCalls(f, g, Called(w).(judged := w.judged + multiset{(rec, stale)}), rec.leg, space, actions);
  }

  lemma {:induction false} ReplayCalls(f: Calls, g: Calls, w: World, space: Namespace, items: seq<Item>)
    ensures w.calls <= ReplayAll(f, w, space, false, items).calls
    ensures SameCalls(f, g, w.calls, ReplayAll(f, w, space, false, items).calls) ==>
      ReplayAll(g, w, space, false, items) == ReplayAll(f, w, space, false, items)
    decreases |items|
  {
    if items == [] {
    } else {
      match items[0] {
        case Queued(j) => TryCalls(f, g, w, j);
        case Deferred(rec, stale, _) => NotifyCalls(f, g, w, space, rec, stale);
      }
      ReplayCalls(f, g, ReplayItem(f, w, space, false, items[0]), space, items[1..]);
    }
  }

  lemma {:induction false} ReplayConcat(f: Calls, w: World, space: Namespace, a: seq<Item>, b: seq<Item>)
    ensures ReplayAll(f, w, space, false, a + b) == ReplayAll(f, ReplayAll(f, w, space, false, a), space, false, b)
    decreases |a|
  {
    if a == [] {
      assert a + b == b;
    } else {
      assert (a + b)[1..] == a[1..] + b;
      ReplayConcat(f, ReplayItem(f, w, space, false, a[0]), space, a[1..], b);
    }
  }

  ghost predicate NoneWorks(f: Calls, from: nat) {
    forall k: nat :: k >= from ==> f(k) == FailsBefore
  }

  /** With every call failing, items go back to the queue and the tracker stays as it is. */
  lemma {:induction false} ReplayStuck(f: Calls, w: World, space: Namespace, items: seq<Item>)
    requires NoneWorks(f, w.calls)
    ensures var w' := ReplayAll(f, w, space, false, items); w'.open == w.open && w'.calls >= w.calls
    decreases |items|
  {
    if items == [] {
    } else {
      ReplayStuck(f, ReplayItem(f, w, space, false, items[0]), space, items[1..]);
    }
  }

  function AlwaysWorks(): Calls {
    (k: nat) => Works
  }

  function WorksUntil(n: nat): Calls {
    (k: nat) => if k < n then Works else FailsBefore
  }

  /** A run that measures nothing, on a clock that raises no alarm. */
  function SkippedRun(w: World, leg: Leg, space: Namespace): RunSpec {
    var o := Options(space, false, false, None, 1.0, 0);
    RunSpec(o, [LegResult(leg, Skipped, "", 0, LastReal(w.disk, o, leg))])
  }

  lemma SkippedAgrees(f: Calls, w: World, leg: Leg, space: Namespace)
    ensures RunAgrees(f, w, SkippedRun(w, leg, space), Kinds(w, leg, space), leg, space)
  {
    var run, open := SkippedRun(w, leg, space), Kinds(w, leg, space);
    var w1 := Replay(f, w.(state := w.disk), space, false);
    ReplayKeepsClock(f, w.(state := w.disk.(pending := [])), space, w.disk.pending);
    assert !StaleAt(Refreshed(w1.state, run.options, run.results[0]), run.options, run.results[0]);
    assert Leaves(Skipped, false, false, open, open);
    LeavesUnique(Skipped, false, false, open, open);
    assert run.results[1..] == [];
  }

  lemma {:induction false} TryAllKeepsClock(f: Calls, w: World, leg: Leg, space: Namespace, actions: seq<Action>)
    ensures TryAll(f, w, leg, space, actions).state.lastReal == w.state.lastReal
    decreases |actions|
  {
    if actions == [] {
    } else {
      var j := Job(leg, space, actions[0]);
      var w1 := w.(decided := w.decided + multiset{j});
      var w', how := ApplyTouches(f, w1, j);
      TryTouches(f, w1, j, w', how);
      TryAllKeepsClock(f, Try(f, w1, j), leg, space, actions[1..]);
    }
  }

  lemma ItemKeepsClock(f: Calls, w: World, space: Namespace, item: Item)
    ensures ReplayItem(f, w, space, false, item).state.lastReal == w.state.lastReal
  {
    match item {
      case Queued(j) =>
        var w', how := ApplyTouches(f, w, j);
        TryTouches(f, w, j, w', how);
      case Deferred(rec, stale, _) =>
        var actions := Decide(rec.status, rec.synthetic, stale, OpenKinds(w.open, rec.leg, space), rec.body);
        TryAllKeepsClock(f, Called(w).(judged := w.judged + multiset{(rec, stale)}), rec.leg, space, actions);
    }
  }

  lemma {:induction false} ReplayKeepsClock(f: Calls, w: World, space: Namespace, items: seq<Item>)
    ensures ReplayAll(f, w, space, false, items).state.lastReal == w.state.lastReal
    decreases |items|
  {
    if items == [] {
    } else {
      ItemKeepsClock(f, w, space, items[0]);
      ReplayKeepsClock(f, ReplayItem(f, w, space, false, items[0]), space, items[1..]);
    }
  }

  lemma FirstHarmful(open: set<Kind>, items: seq<Item>, leg: Leg, space: Namespace) returns (i: nat)
    requires !AllHarmless(open, items, leg, space)
    ensures i < |items| && !Harmless(open, items[i], leg, space) && AllHarmless(open, items[..i], leg, space)
  {
    i := 0;
    while Harmless(open, items[i], leg, space)
      invariant i < |items| && AllHarmless(open, items[..i], leg, space)
      invariant exists k :: i <= k < |items| && !Harmless(open, items[k], leg, space)
      decreases |items| - i
    {
      i := i + 1;
    }
  }

  /** With every call working, the first harmful item is reached with the kinds still open, and changes them. */
  lemma HarmReached(f: Calls, w: World, items: seq<Item>, leg: Leg, space: Namespace) returns (i: nat, w': World)
    requires AllWork(f, w.calls) && NoneTwice(w) && w.state.pending == []
    requires !AllHarmless(Kinds(w, leg, space), items, leg, space)
    ensures i < |items| && w' == ReplayAll(f, w, space, false, items[..i + 1])
    ensures Kinds(w', leg, space) != Kinds(w, leg, space) && w.calls <= w'.calls
  {
    i := FirstHarmful(Kinds(w, leg, space), items, leg, space);
    ReplayLasts(f, w, space, items[..i], Kinds(w, leg, space), leg, space);
    ReplayLeaves(f, w, space, items[..i], leg);
    var w1 := ReplayAll(f, w, space, false, items[..i]);
    w' := ItemWorks(f, w1, space, items[i], leg);
    assert items[..i + 1] == items[..i] + [items[i]];
    ReplayConcat(f, w, space, items[..i], [items[i]]);
    ReplayOne(f, w1, space, items[i]);
  }

  lemma ReplayOne(f: Calls, w: World, space: Namespace, item: Item)
    ensures ReplayAll(f, w, space, false, [item]) == ReplayItem(f, w, space, false, item)
  {
    assert [item][1..] == [];
  }

  lemma StuckAfter(f: Calls, w: World, space: Namespace, front: seq<Item>, back: seq<Item>, mid: World)
    requires ReplayAll(f, w, space, false, front) == mid && NoneWorks(f, mid.calls)
    ensures var w' := ReplayAll(f, w, space, false, front + back); w'.open == mid.open && w'.calls >= mid.calls
  {
    ReplayConcat(f, w, space, front, back);
    ReplayStuck(f, mid, space, back);
  }

  lemma UntilThen(w: World, space: Namespace, front: seq<Item>, works: Calls, mid: World)
    requires AllWork(works, w.calls) && mid == ReplayAll(works, w, space, false, front)
    ensures mid == ReplayAll(WorksUntil(mid.calls), w, space, false, front) &&
      NoneWorks(WorksUntil(mid.calls), mid.calls)
  {
    ReplayCalls(works, WorksUntil(mid.calls), w, space, front);
  }

  /** Calls that work up to and including the first harmful item and then fail: the item has its effect. */
  lemma HarmDone(w: World, items: seq<Item>, leg: Leg, space: Namespace) returns (n: nat)
    requires NoneTwice(w) && w.state.pending == [] && !AllHarmless(Kinds(w, leg, space), items, leg, space)
    ensures var w' := ReplayAll(WorksUntil(n), w, space, false, items);
      Kinds(w', leg, space) != Kinds(w, leg, space) && NoneWorks(WorksUntil(n), w'.calls)
  {
    var i, mid := HarmReached(AlwaysWorks(), w, items, leg, space);
    n := mid.calls;
    CutAfter(w, space, items, i + 1, mid);
  }

  lemma CutAfter(w: World, space: Namespace, items: seq<Item>, cut: nat, mid: World)
    requires cut <= |items| && mid == ReplayAll(AlwaysWorks(), w, space, false, items[..cut])
    ensures var f := WorksUntil(mid.calls);
      NoneWorks(f, mid.calls) && ReplayAll(f, w, space, false, items).open == mid.open &&
      NoneWorks(f, ReplayAll(f, w, space, false, items).calls)
  {
    var front, back := items[..cut], items[cut..];
    UntilThen(w, space, front, AlwaysWorks(), mid);
    StuckAfter(WorksUntil(mid.calls), w, space, front, back, mid);
    assert items == front + back;
  }

  /** One queued item against the open kinds: a run that measures nothing can change them. */
  lemma HarmfulBreaks(w: World, leg: Leg, space: Namespace) returns (n: nat)
    requires NoneTwice(w) && !AllHarmless(Kinds(w, leg, space), w.disk.pending, leg, space)
    ensures var run := SkippedRun(w, leg, space);
      Kinds(Run(WorksUntil(n), w, run.options, run.results), leg, space) != Kinds(w, leg, space)
  {
    var run := SkippedRun(w, leg, space);
    var w0 := w.(state := w.disk.(pending := []));
    n := HarmDone(w0, w.disk.pending, leg, space);
    var f := WorksUntil(n);
    var w1 := Replay(f, w.(state := w.disk), space, false);
    assert f(w1.calls) == FailsBefore;
    assert run.results[1..] == [];
    assert RunLegs(f, w1, run.options, run.results) == RunLeg(f, w1, run.options, run.results[0]);
  }

  ghost predicate Stays(w: World, leg: Leg, space: Namespace) {
    forall f: Calls, runs: seq<RunSpec> :: RunsAgree(f, w, runs, Kinds(w, leg, space), leg, space) ==>
      Kinds(RunMany(f, w, runs), leg, space) == Kinds(w, leg, space)
  }

  /**
   What a leg's last record left open stays open, over all later runs whose records would leave the same and
   whatever calls fail, exactly when every queued item, carried out on its own, would leave it so.
   */
  lemma StaysIff(w: World, leg: Leg, space: Namespace)
    requires NoneTwice(w)
    ensures Stays(w, leg, space) <==> AllHarmless(Kinds(w, leg, space), w.disk.pending, leg, space)
  {
    if AllHarmless(Kinds(w, leg, space), w.disk.pending, leg, space) {
      forall f: Calls, runs: seq<RunSpec> | RunsAgree(f, w, runs, Kinds(w, leg, space), leg, space)
        ensures Kinds(RunMany(f, w, runs), leg, space) == Kinds(w, leg, space)
      {
        RunsLast(f, w, runs, leg, space);
      }
    } else {
      var n := HarmfulBreaks(w, leg, space);
      var f, runs := WorksUntil(n), [SkippedRun(w, leg, space)];
      SkippedAgrees(f, w, leg, space);
      assert runs[1..] == [];
      assert RunsAgree(f, w, runs, Kinds(w, leg, space), leg, space);
      assert RunMany(f, w, runs) == Run(f, w, runs[0].options, runs[0].results);
    }
  }

  // ---- a queued action that outlives a pass ----

  /** The second and third calls fail, all others work. */
  function TwoFail(): Calls {
    (k: nat) => if k == 1 || k == 2 then FailsBefore else Works
  }

  function Report(status: Status): RunSpec {
    RunSpec(Options(Real, false, false, None, 3.0, 0), [LegResult(Metal, status, "", 0, 0)])
  }

  const OPENS_FAIL := Queued(Job(Metal, Real, Action(Create, Fail, "")))

  /** After a run: what it called, what is open, and what is on disk. */
  ghost predicate Stands(w: World, calls: nat, pending: seq<Item>) {
    w.calls == calls && w.open == multiset{} && w.disk == State(pending, map[Metal := 0])
  }

  lemma OneLeg(f: Calls, w: World, run: RunSpec)
    requires |run.results| == 1
    ensures Run(f, w, run.options, run.results) ==
      RunLeg(f, Replay(f, w.(state := w.disk), run.options.space, run.options.dryRun), run.options, run.results[0])
  {
    var w1 := Replay(f, w.(state := w.disk), run.options.space, run.options.dryRun);
    assert run.results[1..] == [];
    assert RunLegs(f, RunLeg(f, w1, run.options, run.results[0]), run.options, []) ==
      RunLeg(f, w1, run.options, run.results[0]);
  }

  /** A fail reported with nothing open and the second call failing: its create is queued. */
  lemma CreateRefused(w: World) returns (w': World)
    requires w.calls == 0 && w.open == multiset{} && w.state.pending == []
    ensures w' == Notify(TwoFail(), w, Real, false, Record(Metal, Failed, false, ""), false)
    ensures w'.calls == 2 && w'.open == multiset{} && w'.state == w.state.(pending := [OPENS_FAIL])
  {
    var f, rec, action := TwoFail(), Record(Metal, Failed, false, ""), Action(Create, Fail, "");
    w' := Notify(f, w, Real, false, rec, false);
    assert OpenKinds(w.open, Metal, Real) == {};
    assert Decide(Failed, false, false, {}, "") == [action];
    var w1 := Called(w).(judged := w.judged + multiset{(rec, false)});
    var w2 := w1.(decided := w1.decided + multiset{Job(Metal, Real, action)});
    assert Try(f, w2, Job(Metal, Real, action)) == Enqueue(Called(w2), OPENS_FAIL);
    assert [action][1..] == [];
    assert TryAll(f, w1, Metal, Real, [action]) == TryAll(f, Enqueue(Called(w2), OPENS_FAIL), Metal, Real, []);
  }

  /** The first run fails; its create is refused and queued. */
  lemma FailQueued(w: World) returns (w': World)
    requires w.calls == 0 && w.open == multiset{} && w.disk == State([], map[])
    ensures w' == Run(TwoFail(), w, Report(Failed).options, Report(Failed).results) && Stands(w', 2, [OPENS_FAIL])
  {
    var f, run := TwoFail(), Report(Failed);
    OneLeg(f, w, run);
    var o, r := run.options, run.results[0];
    var w1 := w.(state := w.disk);
    assert Replay(f, w1, Real, false) == w1;
    var w2 := w1.(state := State([], map[Metal := 0]));
    var w3 := w2.(heard := w2.heard + multiset{(Record(Metal, Failed, false, ""), false)});
    var w4 := CreateRefused(w3);
    assert Refreshed(w1.state, o, r) == w2.state && !StaleAt(w2.state, o, r);
    w' := w4.(disk := w4.state);
  }

  /** The second passes: the queued create is refused again, and the report finds nothing to close. */
  lemma PassFindsNothing(w: World) returns (w': World)
    requires Stands(w, 2, [OPENS_FAIL])
    ensures w' == Run(TwoFail(), w, Report(Passed).options, Report(Passed).results) && Stands(w', 4, [OPENS_FAIL])
  {
    var f, run := TwoFail(), Report(Passed);
    OneLeg(f, w, run);
    w' := Run(f, w, run.options, run.results);
    ReplayOne(f, w.(state := w.disk.(pending := [])), Real, OPENS_FAIL);
    assert OpenKinds(multiset{}, Metal, Real) == {};
    var actions := Decide(Passed, false, false, {}, "");
    assert KINDS[1..][1..][1..] == [];
    assert actions == [];
    assert [] + [OPENS_FAIL] == [OPENS_FAIL];
  }

  /** The third measures nothing and opens an issue for the fail that the pass superseded. */
  lemma SupersededActionReopens(w: World)
    requires w.calls == 0 && w.open == multiset{} && w.disk == State([], map[])
    ensures var f := TwoFail();
      Kinds(RunMany(f, w, [Report(Failed), Report(Passed)]), Metal, Real) == {} &&
      Fail in Kinds(RunMany(f, w, [Report(Failed), Report(Passed), Report(Skipped)]), Metal, Real)
  {
    var f := TwoFail();
    var w1 := FailQueued(w);
    var w2 := PassFindsNothing(w1);
    OneByOne(f, w, Report(Failed), Report(Passed), Report(Skipped), w1, w2);
    SkipReopens(w2);
    assert OpenKinds(multiset{}, Metal, Real) == {};
  }

  lemma SkipReopens(w: World)
    requires Stands(w, 4, [OPENS_FAIL])
    ensures Fail in Kinds(Run(TwoFail(), w, Report(Skipped).options, Report(Skipped).results), Metal, Real)
  {
    var items := [OPENS_FAIL];
    assert items[1..] == [] && AfterQueue(Kinds(w, Metal, Real), items, Metal, Real) ==
      AfterItem(Kinds(w, Metal, Real), items[0], Metal, Real);
    RunSettles(TwoFail(), w, Report(Skipped).options, Report(Skipped).results, 0);
  }

  lemma OneByOne(f: Calls, w: World, a: RunSpec, b: RunSpec, c: RunSpec, w1: World, w2: World)
    requires w1 == Run(f, w, a.options, a.results) && w2 == Run(f, w1, b.options, b.results)
    ensures RunMany(f, w, [a, b]) == w2 && RunMany(f, w, [a, b, c]) == Run(f, w2, c.options, c.results)
  {
    assert [a, b][1..] == [b] && [b][1..] == [];
    assert [a, b, c][1..] == [b, c] && [b, c][1..] == [c] && [c][1..] == [];
    assert RunMany(f, w1, [b]) == RunMany(f, w2, []);
    assert RunMany(f, w1, [b, c]) == RunMany(f, w2, [c]) == RunMany(f, Run(f, w2, c.options, c.results), []);
  }
}
