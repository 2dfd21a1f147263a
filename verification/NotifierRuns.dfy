/**
 What holds over any sequence of runs, whatever calls fail: no title is ever open twice, and nothing decided
 or heard is lost. And what one run without failures leaves behind.
 */
module NotifierRuns {
  import opened IssueTracker

  datatype RunSpec = RunSpec(options: Options, results: seq<LegResult>)

  function RunMany(f: Calls, w: World, runs: seq<RunSpec>): World
    decreases |runs|
  {
    if runs == [] then w else RunMany(f, Run(f, w, runs[0].options, runs[0].results), runs[1..])
  }

  // ---- no title open twice ----

  ghost predicate NoneTwice(w: World) {
    forall t :: w.open[t] <= 1
  }

  /** An action touches the tracker alone, and there its own title alone; it creates only what is not open. */
  lemma ApplyTouches(f: Calls, w: World, j: Job) returns (w': World, how: How)
    ensures Apply(f, w, j) == (w', how)
    ensures w' == w.(calls := w'.calls, open := w'.open, comments := w'.comments)
    ensures var t := Title(j.leg, j.action.kind, j.space);
      (w'.open == w.open || (t !in w.open && w'.open == w.open + multiset{t}) || w'.open == w.open - multiset{t}) &&
      (w'.comments == w.comments || w'.comments == w.comments + multiset{t})
  {
    w', how := Apply(f, w, j).0, Apply(f, w, j).1;
  }

  lemma TryOnce(f: Calls, w: World, j: Job)
    requires NoneTwice(w)
    ensures NoneTwice(Try(f, w, j))
  {
    var w', how := ApplyTouches(f, w, j);
    assert NoneTwice(w');
    TryTouches(f, w, j, w', how);
  }

  lemma {:induction false} TryAllOnce(f: Calls, w: World, leg: Leg, space: Namespace, actions: seq<Action>)
    requires NoneTwice(w)
    ensures NoneTwice(TryAll(f, w, leg, space, actions))
    decreases |actions|
  {
    if actions == [] {
    } else {
      var j := Job(leg, space, actions[0]);
      var w1 := w.(decided := w.decided + multiset{j});
      TryOnce(f, w1, j);
      TryAllOnce(f, Try(f, w1, j), leg, space, actions[1..]);
    }
  }

  lemma NotifyOnce(f: Calls, w: World, space: Namespace, dryRun: bool, rec: Record, stale: bool)
    requires NoneTwice(w)
    ensures NoneTwice(Notify(f, w, space, dryRun, rec, stale))
  {
    var actions := Decide(rec.status, rec.synthetic, stale, OpenKinds(w.open, rec.leg, space), rec.body);
    TryAllOnce(f, Called(w).(judged := w.judged + multiset{(rec, stale)}), rec.leg, space, actions);
  }

  lemma {:induction false} ReplayOnce(f: Calls, w: World, space: Namespace, dryRun: bool, items: seq<Item>)
    requires NoneTwice(w)
    ensures NoneTwice(ReplayAll(f, w, space, dryRun, items))
    decreases |items|
  {
    if items == [] {
    } else {
      match items[0] {
        case Queued(j) => TryOnce(f, w, j);
        case Deferred(rec, stale, _) => NotifyOnce(f, w, space, dryRun, rec, stale);
      }
      ReplayOnce(f, ReplayItem(f, w, space, dryRun, items[0]), space, dryRun, items[1..]);
    }
  }

  lemma {:induction false} LegsOnce(f: Calls, w: World, o: Options, rs: seq<LegResult>)
    requires NoneTwice(w)
    ensures NoneTwice(RunLegs(f, w, o, rs))
    decreases |rs|
  {
    if rs == [] {
    } else {
      var r := rs[0];
      var w1 := w.(state := Refreshed(w.state, o, r));
      var stale, rec := StaleAt(w1.state, o, r), Record(r.leg, r.status, o.synthetic, r.body);
      var w2 := if o.dryRun then w1 else w1.(heard := w1.heard + multiset{(rec, stale)});
      NotifyOnce(f, w2, o.space, o.dryRun, rec, stale);
      LegsOnce(f, RunLeg(f, w, o, r), o, rs[1..]);
    }
  }

  /** Over any sequence of runs, whatever calls fail and however, no two issues with one title are open. */
  lemma {:induction false} NeverTwice(f: Calls, w: World, runs: seq<RunSpec>)
    requires NoneTwice(w)
    ensures NoneTwice(RunMany(f, w, runs))
    decreases |runs|
  {
    if runs == [] {
    } else {
      var o, rs := runs[0].options, runs[0].results;
      ReplayOnce(f, w.(state := w.disk.(pending := [])), o.space, o.dryRun, w.disk.pending);
      LegsOnce(f, Replay(f, w.(state := w.disk), o.space, o.dryRun), o, rs);
      NeverTwice(f, Run(f, w, o, rs), runs[1..]);
    }
  }

  // ---- nothing lost ----

  function QueuedJobs(items: seq<Item>): multiset<Job> {
    if items == [] then multiset{}
    else (match items[0] case Queued(j) => multiset{j} case Deferred(_, _, _) => multiset{}) + QueuedJobs(items[1..])
  }

  function DeferredRecords(items: seq<Item>): multiset<(Record, bool)> {
    if items == [] then multiset{}
    else
      (match items[0] case Queued(_) => multiset{} case Deferred(rec, stale, _) => multiset{(rec, stale)}) +
      DeferredRecords(items[1..])
  }

  lemma {:induction false} QueueConcat(a: seq<Item>, b: seq<Item>)
    ensures QueuedJobs(a + b) == QueuedJobs(a) + QueuedJobs(b)
    ensures DeferredRecords(a + b) == DeferredRecords(a) + DeferredRecords(b)
    decreases |a|
  {
    if a == [] {
      assert a + b == b;
    } else {
      assert (a + b)[1..] == a[1..] + b;
      QueueConcat(a[1..], b);
    }
  }

  /** Every decided action was applied, turned out moot, or waits; every record heard was judged or waits. */
  ghost predicate Accounted(w: World, waiting: seq<Item>) {
    w.decided == w.applied + w.moot + QueuedJobs(waiting) &&
    w.heard == w.judged + DeferredRecords(waiting)
  }

  lemma QueueOne(item: Item)
    ensures QueuedJobs([item]) == if item.Queued? then multiset{item.job} else multiset{}
    ensures DeferredRecords([item]) == if item.Deferred? then multiset{(item.rec, item.stale)} else multiset{}
  {
    assert [item][1..] == [];
  }

  lemma Insert(front: seq<Item>, item: Item, rest: seq<Item>)
    ensures QueuedJobs(front + [item] + rest) ==
      QueuedJobs(front + rest) + if item.Queued? then multiset{item.job} else multiset{}
    ensures DeferredRecords(front + [item] + rest) ==
      DeferredRecords(front + rest) + if item.Deferred? then multiset{(item.rec, item.stale)} else multiset{}
  {
    QueueConcat(front + [item], rest);
    QueueConcat(front, [item]);
    QueueConcat(front, rest);
    QueueOne(item);
  }

  /** A job to account for is accounted for once it was tried. */
  lemma TryAccounts(f: Calls, w: World, j: Job, rest: seq<Item>)
    requires w.decided == w.applied + w.moot + QueuedJobs(w.state.pending + rest) + multiset{j}
    requires w.heard == w.judged + DeferredRecords(w.state.pending + rest)
    ensures Accounted(Try(f, w, j), Try(f, w, j).state.pending + rest)
  {
    var w', how := ApplyTouches(f, w, j);
    TryTouches(f, w, j, w', how);
    match how {
      case Applied =>
      case Moot =>
      case Refused => Insert(w.state.pending, Queued(j), rest);
    }
  }

  lemma {:induction false} TryAllAccounts(f: Calls, w: World, leg: Leg, space: Namespace, actions: seq<Action>,
    rest: seq<Item>)
    requires Accounted(w, w.state.pending + rest)
    ensures var w' := TryAll(f, w, leg, space, actions); Accounted(w', w'.state.pending + rest)
    decreases |actions|
  {
    if actions == [] {
    } else {
      var j := Job(leg, space, actions[0]);
      var w1 := w.(decided := w.decided + multiset{j});
      TryAccounts(f, w1, j, rest);
      TryAllAccounts(f, Try(f, w1, j), leg, space, actions[1..], rest);
    }
  }

  /** A record to account for is accounted for once it was reported. */
  lemma NotifyAccounts(f: Calls, w: World, space: Namespace, rec: Record, stale: bool, rest: seq<Item>)
    requires w.decided == w.applied + w.moot + QueuedJobs(w.state.pending + rest)
    requires w.heard == w.judged + DeferredRecords(w.state.pending + rest) + multiset{(rec, stale)}
    ensures var w' := Notify(f, w, space, false, rec, stale); Accounted(w', w'.state.pending + rest)
  {
    if f(w.calls) != Works {
      Insert(w.state.pending, Deferred(rec, stale, space), rest);
    } else {
      var actions := Decide(rec.status, rec.synthetic, stale, OpenKinds(w.open, rec.leg, space), rec.body);
      TryAllAccounts(f, Called(w).(judged := w.judged + multiset{(rec, stale)}), rec.leg, space, actions, rest);
    }
  }

  lemma QueuedAccounts(f: Calls, w: World, j: Job, rest: seq<Item>)
    requires Accounted(w, w.state.pending + [Queued(j)] + rest)
    ensures Accounted(Try(f, w, j), Try(f, w, j).state.pending + rest)
  {
    Insert(w.state.pending, Queued(j), rest);
    TryAccounts(f, w, j, rest);
  }

  lemma ItemAccounts(f: Calls, w: World, space: Namespace, item: Item, rest: seq<Item>)
    requires Accounted(w, w.state.pending + [item] + rest)
    ensures var w' := ReplayItem(f, w, space, false, item); Accounted(w', w'.state.pending + rest)
  {
    match item {
      case Queued(j) => QueuedAccounts(f, w, j, rest);
      case Deferred(rec, stale, _) =>
        Insert(w.state.pending, item, rest);
        NotifyAccounts(f, w, space, rec, stale, rest);
    }
  }

  lemma {:induction false} ReplayAccounts(f: Calls, w: World, space: Namespace, items: seq<Item>)
    requires Accounted(w, w.state.pending + items)
    ensures var w' := ReplayAll(f, w, space, false, items); Accounted(w', w'.state.pending)
    decreases |items|
  {
    if items == [] {
      assert w.state.pending + items == w.state.pending;
    } else {
      var item, rest := items[0], items[1..];
      assert w.state.pending + items == w.state.pending + [item] + rest;
      ItemAccounts(f, w, space, item, rest);
      ReplayAccounts(f, ReplayItem(f, w, space, false, item), space, rest);
    }
  }

  lemma LegAccounts(f: Calls, w: World, o: Options, r: LegResult)
    requires !o.dryRun && Accounted(w, w.state.pending)
    ensures var w' := RunLeg(f, w, o, r); Accounted(w', w'.state.pending) && w'.disk == w'.state
  {
    var w1 := w.(state := Refreshed(w.state, o, r));
    var stale, rec := StaleAt(w1.state, o, r), Record(r.leg, r.status, o.synthetic, r.body);
    var w2 := w1.(heard := w1.heard + multiset{(rec, stale)});
    assert w2.state.pending + [] == w2.state.pending;
    NotifyAccounts(f, w2, o.space, rec, stale, []);
    var w3 := Notify(f, w2, o.space, false, rec, stale);
    assert w3.state.pending + [] == w3.state.pending;
  }

  lemma {:induction false} LegsAccount(f: Calls, w: World, o: Options, rs: seq<LegResult>)
    requires !o.dryRun && Accounted(w, w.state.pending) && (rs == [] ==> w.disk == w.state)
    ensures var w' := RunLegs(f, w, o, rs); Accounted(w', w'.disk.pending)
    decreases |rs|
  {
    if rs == [] {
    } else {
      LegAccounts(f, w, o, rs[0]);
      LegsAccount(f, RunLeg(f, w, o, rs[0]), o, rs[1..]);
    }
  }

  // ---- a dry run ----

  predicate OnlyCalled(before: World, after: World) {
    after == before.(calls := after.calls, state := after.state)
  }

  lemma {:induction false} DryReplay(f: Calls, w: World, space: Namespace, items: seq<Item>)
    ensures OnlyCalled(w, ReplayAll(f, w, space, true, items))
    decreases |items|
  {
    if items == [] {
    } else {
      DryReplay(f, ReplayItem(f, w, space, true, items[0]), space, items[1..]);
    }
  }

  lemma {:induction false} DryLegs(f: Calls, w: World, o: Options, rs: seq<LegResult>)
    requires o.dryRun
    ensures OnlyCalled(w, RunLegs(f, w, o, rs))
    decreases |rs|
  {
    if rs == [] {
    } else {
      DryLegs(f, RunLeg(f, w, o, rs[0]), o, rs[1..]);
    }
  }

  /** A dry run changes neither the tracker nor what is on disk. */
  lemma DryRunChangesNothing(f: Calls, w: World, o: Options, rs: seq<LegResult>)
    requires o.dryRun
    ensures var w' := Run(f, w, o, rs);
      w'.open == w.open && w'.comments == w.comments && w'.disk == w.disk && OnlyCalled(w, w')
  {
    DryReplay(f, w.(state := w.disk.(pending := [])), o.space, w.disk.pending);
    DryLegs(f, Replay(f, w.(state := w.disk), o.space, true), o, rs);
  }

  lemma RunAccounts(f: Calls, w: World, o: Options, rs: seq<LegResult>)
    requires Accounted(w, w.disk.pending) && rs != []
    ensures var w' := Run(f, w, o, rs); Accounted(w', w'.disk.pending)
  {
    if o.dryRun {
      DryRunChangesNothing(f, w, o, rs);
    } else {
      var w1 := w.(state := w.disk.(pending := []));
      assert w1.state.pending + w.disk.pending == w.disk.pending;
      ReplayAccounts(f, w1, o.space, w.disk.pending);
      LegsAccount(f, Replay(f, w.(state := w.disk), o.space, false), o, rs);
    }
  }

  /** Over any sequence of runs, whatever calls fail, every decided action is applied, moot or on disk. */
  lemma {:induction false} NothingLost(f: Calls, w: World, runs: seq<RunSpec>)
    requires Accounted(w, w.disk.pending) && forall k :: 0 <= k < |runs| ==> runs[k].results != []
    ensures var w' := RunMany(f, w, runs); Accounted(w', w'.disk.pending)
    decreases |runs|
  {
    if runs == [] {
    } else {
      RunAccounts(f, w, runs[0].options, runs[0].results);
      NothingLost(f, Run(f, w, runs[0].options, runs[0].results), runs[1..]);
    }
  }
}
