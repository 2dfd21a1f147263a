/**
 What one call does to the tracker when it may fail before or after its effect, what a run records of
 each leg, and what an outage leaves in the queue.
 */
module NotifierCalls {
  import opened IssueTracker
  import opened NotifierRuns
  import opened NotifierSettles
  import opened NotifierLasting

  // ---- one action ----

  /** The first call works, and the action has something to do: a create is not open yet, any other is. */
  predicate Meant(f: Calls, w: World, j: Job) {
    f(w.calls) == Works && (Title(j.leg, j.action.kind, j.space) in w.open <==> j.action.op != Create)
  }

  /** It takes effect even when the second call then fails to say so. */
  predicate TakesEffect(f: Calls, w: World, j: Job) {
    Meant(f, w, j) && f(w.calls + 1) != FailsBefore
  }

  lemma ApplyMeans(f: Calls, w: World, j: Job, t: Title)
    ensures var (w', how) := Apply(f, w, j);
      && (how == Moot <==> f(w.calls) == Works && !Meant(f, w, j))
      && (how == Applied <==> Meant(f, w, j) && f(w.calls + 1) == Works)
      && w'.calls == w.calls + if Meant(f, w, j) then 2 else 1
    ensures var w', own := Apply(f, w, j).0, TakesEffect(f, w, j) && t == Title(j.leg, j.action.kind, j.space);
      && (w'.open[t] == if own && j.action.op == Create then w.open[t] + 1
                        else if own && j.action.op == Close then w.open[t] - 1 else w.open[t])
      && w'.comments[t] == w.comments[t] + if own && j.action.op == Comment then 1 else 0
  {
  }

  // ---- what is recorded ----

  function JobsOf(leg: Leg, space: Namespace, actions: seq<Action>): multiset<Job> {
    if actions == [] then multiset{} else multiset{Job(leg, space, actions[0])} + JobsOf(leg, space, actions[1..])
  }

  lemma TryRecords(f: Calls, w: World, j: Job)
    ensures var w' := Try(f, w, j); w'.decided == w.decided && w'.heard == w.heard && w'.judged == w.judged
  {
    var w', how := ApplyTouches(f, w, j);
    TryTouches(f, w, j, w', how);
  }

  lemma Sum(a: multiset<Job>, b: multiset<Job>, c: multiset<Job>)
    ensures a + b + c == a + (b + c)
  {
  }

  lemma {:induction false} TryAllRecords(f: Calls, w: World, leg: Leg, space: Namespace, actions: seq<Action>)
    ensures var w' := TryAll(f, w, leg, space, actions);
      w'.decided == w.decided + JobsOf(leg, space, actions) && w'.heard == w.heard && w'.judged == w.judged
    decreases |actions|
  {
    if actions == [] {
      assert w.decided + multiset{} == w.decided;
    } else {
      var j := Job(leg, space, actions[0]);
      var w1 := w.(decided := w.decided + multiset{j});
      var w2 := Try(f, w1, j);
      TryRecords(f, w1, j);
      TryAllRecords(f, w2, leg, space, actions[1..]);
      Sum(w.decided, multiset{j}, JobsOf(leg, space, actions[1..]));
      assert JobsOf(leg, space, actions) == multiset{j} + JobsOf(leg, space, actions[1..]);
      assert TryAll(f, w, leg, space, actions) == TryAll(f, w2, leg, space, actions[1..]);
    }
  }

  /** A record that finds the tracker is judged, and all its actions are recorded as decided. */
  lemma NotifyDecides(f: Calls, w: World, space: Namespace, rec: Record, stale: bool)
    requires f(w.calls) == Works
    ensures var w' := Notify(f, w, space, false, rec, stale);
      var actions := Decide(rec.status, rec.synthetic, stale, Kinds(w, rec.leg, space), rec.body);
      w'.decided == w.decided + JobsOf(rec.leg, space, actions) && w'.judged == w.judged + multiset{(rec, stale)} &&
      w'.heard == w.heard
  {
    var actions := Decide(rec.status, rec.synthetic, stale, OpenKinds(w.open, rec.leg, space), rec.body);
    TryAllRecords(f, Called(w).(judged := w.judged + multiset{(rec, stale)}), rec.leg, space, actions);
  }

  lemma NotifyKeeps(f: Calls, w: World, space: Namespace, rec: Record, stale: bool)
    ensures var w' := Notify(f, w, space, false, rec, stale);
      w'.state.lastReal == w.state.lastReal && w'.heard == w.heard && w'.disk == w.disk
  {
    var actions := Decide(rec.status, rec.synthetic, stale, OpenKinds(w.open, rec.leg, space), rec.body);
    var w1 := Called(w).(judged := w.judged + multiset{(rec, stale)});
    TryAllKeepsClock(f, w1, rec.leg, space, actions);
    TryAllRecords(f, w1, rec.leg, space, actions);
    TryAllKeepsDisk(f, w1, rec.leg, space, actions);
  }

  lemma {:induction false} TryAllKeepsDisk(f: Calls, w: World, leg: Leg, space: Namespace, actions: seq<Action>)
    ensures TryAll(f, w, leg, space, actions).disk == w.disk
    decreases |actions|
  {
    if actions == [] {
    } else {
      var j := Job(leg, space, actions[0]);
      var w1 := w.(decided := w.decided + multiset{j});
      var w', how := ApplyTouches(f, w1, j);
      TryTouches(f, w1, j, w', how);
      TryAllKeepsDisk(f, Try(f, w1, j), leg, space, actions[1..]);
    }
  }

  lemma {:induction false} ReplayKeeps(f: Calls, w: World, space: Namespace, items: seq<Item>)
    ensures var w' := ReplayAll(f, w, space, false, items);
      w'.state.lastReal == w.state.lastReal && w'.heard == w.heard && w'.disk == w.disk
    decreases |items|
  {
    if items == [] {
    } else {
      match items[0] {
        case Queued(j) =>
          var w', how := ApplyTouches(f, w, j);
          TryTouches(f, w, j, w', how);
        case Deferred(rec, stale, _) =>
          NotifyKeeps(f, w, space, rec, stale);
      }
      ReplayKeeps(f, ReplayItem(f, w, space, false, items[0]), space, items[1..]);
    }
  }

  /** The leg was really measured. */
  predicate Measures(o: Options, r: LegResult) {
    (r.status == Passed || r.status == Failed) && !o.synthetic
  }

  predicate SameClock(before: State, after: State, leg: Leg) {
    (leg in after.lastReal <==> leg in before.lastReal) &&
    (leg in before.lastReal ==> after.lastReal[leg] == before.lastReal[leg])
  }

  /** The clock of a leg after a run that reports these. */
  ghost predicate ClockRight(before: State, after: State, o: Options, rs: seq<LegResult>, leg: Leg) {
    && (forall k :: 0 <= k < |rs| && rs[k].leg == leg && Measures(o, rs[k]) ==>
          leg in after.lastReal && after.lastReal[leg] == rs[k].refreshedAt)
    && ((forall k :: 0 <= k < |rs| && rs[k].leg == leg ==> !Measures(o, rs[k])) ==>
          SameClock(before, after, leg))
  }

  lemma LegKeeps(f: Calls, w: World, o: Options, r: LegResult)
    requires !o.dryRun
    ensures var w' := RunLeg(f, w, o, r);
      w'.state.lastReal == Refreshed(w.state, o, r).lastReal && w'.disk == w'.state &&
      w'.heard == w.heard + multiset{(Record(r.leg, r.status, o.synthetic, r.body), Due(w.state, o, r))}
  {
    var w1 := w.(state := Refreshed(w.state, o, r));
    var stale, rec := StaleAt(w1.state, o, r), Record(r.leg, r.status, o.synthetic, r.body);
    StaleWhenDue(w.state, o, r);
    NotifyKeeps(f, w1.(heard := w1.heard + multiset{(rec, stale)}), o.space, rec, stale);
  }

  lemma ClockFirst(before: State, mid: State, after: State, o: Options, rs: seq<LegResult>, leg: Leg)
    requires rs != [] && LegsDiffer(rs) && ClockRight(mid, after, o, rs[1..], leg)
    requires mid.lastReal ==
      if Measures(o, rs[0]) then before.lastReal[rs[0].leg := rs[0].refreshedAt] else before.lastReal
    ensures ClockRight(before, after, o, rs, leg)
  {
    var rest := rs[1..];
    assert forall k :: 1 <= k < |rs| ==> rs[k] == rest[k - 1] && rs[0].leg != rs[k].leg;
    assert forall k :: 0 <= k < |rest| ==> rest[k] == rs[k + 1];
  }

  lemma {:induction false} LegsClock(f: Calls, w: World, o: Options, rs: seq<LegResult>, leg: Leg)
    requires !o.dryRun && LegsDiffer(rs) && w.disk.lastReal == w.state.lastReal
    ensures ClockRight(w.state, RunLegs(f, w, o, rs).disk, o, rs, leg)
    decreases |rs|
  {
    if rs == [] {
    } else {
      var w1 := RunLeg(f, w, o, rs[0]);
      LegKeeps(f, w, o, rs[0]);
      LegsClock(f, w1, o, rs[1..], leg);
      ClockFirst(w.state, w1.state, RunLegs(f, w, o, rs).disk, o, rs, leg);
    }
  }

  /** Whatever calls fail, a leg's clock on disk is set by the run that measures it, and by no other. */
  lemma RunClock(f: Calls, w: World, o: Options, rs: seq<LegResult>, leg: Leg)
    requires !o.dryRun && LegsDiffer(rs)
    ensures ClockRight(w.disk, Run(f, w, o, rs).disk, o, rs, leg)
  {
    ReplayKeeps(f, w.(state := w.disk.(pending := [])), o.space, w.disk.pending);
    LegsClock(f, Replay(f, w.(state := w.disk), o.space, false), o, rs, leg);
  }

  // ---- an outage ----

  /** From this call on none works. */
  ghost predicate NoneWorks(f: Calls, from: nat) {
    forall k: nat :: k >= from ==> f(k) != Works
  }

  /** Queued again as they are, records for the namespace of the run. */
  function Requeued(items: seq<Item>, space: Namespace): seq<Item> {
    if items == [] then []
    else
      [match items[0] case Queued(j) => Queued(j) case Deferred(rec, stale, _) => Deferred(rec, stale, space)]
      + Requeued(items[1..], space)
  }

  /** The legs' records, each with whether its alarm is due. */
  function Heard(disk: State, o: Options, rs: seq<LegResult>): seq<Item> {
    if rs == [] then []
    else
      [Deferred(Record(rs[0].leg, rs[0].status, o.synthetic, rs[0].body), Due(disk, o, rs[0]), o.space)]
      + Heard(disk, o, rs[1..])
  }

  lemma {:induction false} OutageReplay(f: Calls, w: World, space: Namespace, items: seq<Item>)
    requires NoneWorks(f, w.calls)
    ensures var w' := ReplayAll(f, w, space, false, items);
      w' == w.(calls := w'.calls, state := w.state.(pending := w.state.pending + Requeued(items, space))) &&
      NoneWorks(f, w'.calls)
    decreases |items|
  {
    if items == [] {
      assert w.state.pending + [] == w.state.pending;
    } else {
      var w1 := ReplayItem(f, w, space, false, items[0]);
      var one := match items[0] case Queued(j) => Queued(j)
        case Deferred(rec, stale, _) => Deferred(rec, stale, space);
      assert w1 == Enqueue(Called(w), one);
      OutageReplay(f, w1, space, items[1..]);
      assert w.state.pending + [one] + Requeued(items[1..], space) ==
        w.state.pending + ([one] + Requeued(items[1..], space));
    }
  }

  lemma {:induction false} HeardOfOthers(before: State, after: State, o: Options, rs: seq<LegResult>)
    requires forall k :: 0 <= k < |rs| ==> SameClock(before, after, rs[k].leg)
    ensures Heard(after, o, rs) == Heard(before, o, rs)
  {
    if rs == [] {
    } else {
      assert forall k :: 0 <= k < |rs[1..]| ==> rs[1..][k] == rs[k + 1];
      assert SameClock(before, after, rs[0].leg);
      HeardOfOthers(before, after, o, rs[1..]);
    }
  }

  lemma OutageLeg(f: Calls, w: World, o: Options, r: LegResult)
    requires f(w.calls) != Works && !o.dryRun
    ensures var w' := RunLeg(f, w, o, r);
      var one := Deferred(Record(r.leg, r.status, o.synthetic, r.body), Due(w.state, o, r), o.space);
      w'.open == w.open && w'.comments == w.comments && w'.calls == w.calls + 1 && w'.disk == w'.state &&
      w'.state.pending == w.state.pending + [one] && w'.state.lastReal == Refreshed(w.state, o, r).lastReal
  {
    StaleWhenDue(w.state, o, r);
  }

  lemma OtherClocks(state: State, o: Options, r: LegResult, leg: Leg)
    requires leg != r.leg
    ensures SameClock(state, Refreshed(state, o, r), leg)
  {
  }

  lemma OutageNext(before: State, after: State, o: Options, rs: seq<LegResult>)
    requires rs != [] && LegsDiffer(rs) && after.lastReal == Refreshed(before, o, rs[0]).lastReal
    ensures Heard(after, o, rs[1..]) == Heard(before, o, rs[1..])
  {
    forall k | 0 <= k < |rs[1..]| ensures SameClock(before, after, rs[1..][k].leg) {
      assert rs[0].leg != rs[k + 1].leg;
      OtherClocks(before, o, rs[0], rs[k + 1].leg);
    }
    HeardOfOthers(before, after, o, rs[1..]);
  }

  lemma Behind(pending: seq<Item>, one: Item, more: seq<Item>)
    ensures pending + [one] + more == pending + ([one] + more)
  {
  }

  lemma {:induction false} OutageLegs(f: Calls, w: World, o: Options, rs: seq<LegResult>)
    requires NoneWorks(f, w.calls) && !o.dryRun && LegsDiffer(rs)
    ensures var w' := RunLegs(f, w, o, rs);
      w'.open == w.open && w'.comments == w.comments && w'.state.pending == w.state.pending + Heard(w.state, o, rs) &&
      (rs != [] ==> w'.disk == w'.state)
    decreases |rs|
  {
    if rs == [] {
    } else {
      var r, rest := rs[0], rs[1..];
      var w1 := RunLeg(f, w, o, r);
      var one := Deferred(Record(r.leg, r.status, o.synthetic, r.body), Due(w.state, o, r), o.space);
      OutageLeg(f, w, o, r);
      OutageNext(w.state, w1.state, o, rs);
      OutageLegs(f, w1, o, rest);
      Behind(w.state.pending, one, Heard(w.state, o, rest));
      assert RunLegs(f, w, o, rs) == RunLegs(f, w1, o, rest);
    }
  }

  /** A run that reaches nothing keeps the queue in its order, puts its own records behind, and changes no issue. */
  lemma OutageKeepsQueue(f: Calls, w: World, o: Options, rs: seq<LegResult>)
    requires NoneWorks(f, w.calls) && !o.dryRun && LegsDiffer(rs) && rs != []
    ensures var w' := Run(f, w, o, rs);
      w'.open == w.open && w'.comments == w.comments &&
      w'.disk.pending == Requeued(w.disk.pending, o.space) + Heard(w.disk, o, rs)
  {
    var w1 := Replay(f, w.(state := w.disk), o.space, false);
    OutageReplay(f, w.(state := w.disk.(pending := [])), o.space, w.disk.pending);
    assert [] + Requeued(w.disk.pending, o.space) == Requeued(w.disk.pending, o.space);
    SameHeard(w1.state, w.disk, o, rs);
    OutageLegs(f, w1, o, rs);
  }

  lemma SameHeard(a: State, b: State, o: Options, rs: seq<LegResult>)
    requires a.lastReal == b.lastReal
    ensures Heard(a, o, rs) == Heard(b, o, rs)
  {
    HeardOfOthers(b, a, o, rs);
  }
}
