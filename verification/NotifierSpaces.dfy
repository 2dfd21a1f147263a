/**
 Which namespace a run touches. A queued action keeps the namespace it was decided for; a deferred record
 does not: it is judged in the namespace of the run that replays it.
 */
module NotifierSpaces {
  import opened IssueTracker
  import opened NotifierRuns
  import opened NotifierSettles

  /** The issue was not opened, closed or commented on. */
  predicate Untouched(before: World, after: World, t: Title) {
    after.open[t] == before.open[t] && after.comments[t] == before.comments[t]
  }

  function TitleOf(j: Job): Title {
    Title(j.leg, j.action.kind, j.space)
  }

  /** No queued action names the issue. */
  predicate NoneFor(items: seq<Item>, t: Title) {
    forall k :: 0 <= k < |items| && items[k].Queued? ==> TitleOf(items[k].job) != t
  }

  lemma TryUntouched(f: Calls, w: World, j: Job, t: Title)
    requires TitleOf(j) != t
    ensures Untouched(w, Try(f, w, j), t)
  {
    var w', how := ApplyTouches(f, w, j);
    assert Untouched(w, w', t);
    TryTouches(f, w, j, w', how);
  }

  lemma TryQueue(f: Calls, w: World, j: Job)
    ensures var w' := Try(f, w, j);
      w'.state == w.state || w'.state == w.state.(pending := w.state.pending + [Queued(j)])
  {
    var w', how := ApplyTouches(f, w, j);
    TryTouches(f, w, j, w', how);
  }

  lemma {:induction false} TryAllUntouched(f: Calls, w: World, leg: Leg, own: Namespace, actions: seq<Action>, t: Title)
    requires own != t.space && NoneFor(w.state.pending, t)
    ensures var w' := TryAll(f, w, leg, own, actions); Untouched(w, w', t) && NoneFor(w'.state.pending, t)
    decreases |actions|
  {
    if actions == [] {
    } else {
      var j := Job(leg, own, actions[0]);
      var w1 := w.(decided := w.decided + multiset{j});
      TryUntouched(f, w1, j, t);
      TryQueue(f, w1, j);
      TryAllUntouched(f, Try(f, w1, j), leg, own, actions[1..], t);
    }
  }

  lemma NotifyUntouched(f: Calls, w: World, own: Namespace, dryRun: bool, rec: Record, stale: bool, t: Title)
    requires own != t.space && NoneFor(w.state.pending, t)
    ensures var w' := Notify(f, w, own, dryRun, rec, stale); Untouched(w, w', t) && NoneFor(w'.state.pending, t)
  {
    if f(w.calls) == Works && !dryRun {
      var actions := Decide(rec.status, rec.synthetic, stale, OpenKinds(w.open, rec.leg, own), rec.body);
      TryAllUntouched(f, Called(w).(judged := w.judged + multiset{(rec, stale)}), rec.leg, own, actions, t);
    }
  }

  lemma {:induction false} ReplayUntouched(f: Calls, w: World, own: Namespace, dryRun: bool, items: seq<Item>, t: Title)
    requires own != t.space && NoneFor(w.state.pending, t) && NoneFor(items, t)
    ensures var w' := ReplayAll(f, w, own, dryRun, items); Untouched(w, w', t) && NoneFor(w'.state.pending, t)
    decreases |items|
  {
    if items == [] {
    } else {
      match items[0] {
        case Queued(j) =>
          TryUntouched(f, w, j, t);
          TryQueue(f, w, j);
        case Deferred(rec, stale, _) => NotifyUntouched(f, w, own, dryRun, rec, stale, t);
      }
      ReplayUntouched(f, ReplayItem(f, w, own, dryRun, items[0]), own, dryRun, items[1..], t);
    }
  }

  lemma {:induction false} LegsUntouched(f: Calls, w: World, o: Options, rs: seq<LegResult>, t: Title)
    requires o.space != t.space && NoneFor(w.state.pending, t)
    ensures Untouched(w, RunLegs(f, w, o, rs), t)
    decreases |rs|
  {
    if rs == [] {
    } else {
      var r := rs[0];
      var w1 := w.(state := Refreshed(w.state, o, r));
      var stale, rec := StaleAt(w1.state, o, r), Record(r.leg, r.status, o.synthetic, r.body);
      var w2 := if o.dryRun then w1 else w1.(heard := w1.heard + multiset{(rec, stale)});
      NotifyUntouched(f, w2, o.space, o.dryRun, rec, stale, t);
      LegsUntouched(f, RunLeg(f, w, o, r), o, rs[1..], t);
    }
  }

  /** A run leaves every issue of another namespace alone that no queued action names. */
  lemma OtherSpaceUntouched(f: Calls, w: World, o: Options, rs: seq<LegResult>, t: Title)
    requires o.space != t.space && NoneFor(w.disk.pending, t)
    ensures Untouched(w, Run(f, w, o, rs), t)
  {
    ReplayUntouched(f, w.(state := w.disk.(pending := [])), o.space, o.dryRun, w.disk.pending, t);
    LegsUntouched(f, Replay(f, w.(state := w.disk), o.space, o.dryRun), o, rs, t);
  }

  // ---- deferred records ----

  function JobsOf(leg: Leg, space: Namespace, actions: seq<Action>): multiset<Job> {
    if actions == [] then multiset{} else multiset{Job(leg, space, actions[0])} + JobsOf(leg, space, actions[1..])
  }

  lemma {:induction false} TryAllDecides(f: Calls, w: World, leg: Leg, space: Namespace, actions: seq<Action>)
    ensures TryAll(f, w, leg, space, actions).decided == w.decided + JobsOf(leg, space, actions)
    decreases |actions|
  {
    if actions == [] {
    } else {
      var j := Job(leg, space, actions[0]);
      var w1 := w.(decided := w.decided + multiset{j});
      var w', how := ApplyTouches(f, w1, j);
      TryTouches(f, w1, j, w', how);
      TryAllDecides(f, Try(f, w1, j), leg, space, actions[1..]);
    }
  }

  lemma {:induction false} JobsIn(leg: Leg, space: Namespace, actions: seq<Action>)
    ensures forall j :: j in JobsOf(leg, space, actions) ==> j.space == space
    ensures actions != [] ==> Job(leg, space, actions[0]) in JobsOf(leg, space, actions)
  {
    if actions == [] {
    } else {
      JobsIn(leg, space, actions[1..]);
    }
  }

  /** Every action newly decided is for the namespace. */
  ghost predicate DecidedIn(before: World, after: World, space: Namespace) {
    forall j :: after.decided[j] > before.decided[j] ==> j.space == space
  }

  /** The guards of the decision, all false. */
  predicate Idle(rec: Record, stale: bool, open: set<Kind>) {
    rec.status != Failed && (rec.status == Errored ==> Error in open) &&
    (rec.status == Passed && !rec.synthetic ==> open == {}) &&
    !(stale && Stale !in open && Error !in open)
  }

  lemma {:induction false} NothingToClose(kinds: seq<Kind>, open: set<Kind>, body: string)
    ensures CloseAll(kinds, open, body) == [] <==> forall k :: k in kinds ==> k !in open
    decreases |kinds|
  {
    if kinds == [] {
    } else {
      NothingToClose(kinds[1..], open, body);
      assert forall k :: k in kinds <==> k == kinds[0] || k in kinds[1..];
    }
  }

  /** A record decides nothing exactly when every guard is false. */
  lemma DecidesNothingIff(rec: Record, stale: bool, open: set<Kind>)
    ensures Decide(rec.status, rec.synthetic, stale, open, rec.body) == [] <==> Idle(rec, stale, open)
  {
    NothingToClose(KINDS, open, Recovered(rec.body));
    assert Fail == KINDS[0] && Error == KINDS[1] && Stale == KINDS[2];
    if open != {} {
      var x :| x in open;
      assert x == Fail || x == Error || x == Stale;
    }
  }

  /**
   A deferred record that is judged on replay stays in the namespace it was deferred in exactly when the
   replaying run is of that namespace, or nothing there calls for an action.
   */
  lemma DeferredStaysIff(f: Calls, w: World, own: Namespace, rec: Record, stale: bool, home: Namespace)
    requires f(w.calls) == Works
    ensures DecidedIn(w, ReplayItem(f, w, own, false, Deferred(rec, stale, home)), home) <==>
      own == home || Idle(rec, stale, Kinds(w, rec.leg, own))
  {
    var actions := Decide(rec.status, rec.synthetic, stale, Kinds(w, rec.leg, own), rec.body);
    var after := ReplayItem(f, w, own, false, Deferred(rec, stale, home));
    TryAllDecides(f, Called(w).(judged := w.judged + multiset{(rec, stale)}), rec.leg, own, actions);
    assert after.decided == w.decided + JobsOf(rec.leg, own, actions);
    JobsIn(rec.leg, own, actions);
    DecidesNothingIff(rec, stale, Kinds(w, rec.leg, own));
    if actions != [] {
      var j := Job(rec.leg, own, actions[0]);
      assert after.decided[j] > w.decided[j];
    }
  }

  /**
   So the failing record of a drill, deferred, opens an issue in the real namespace on a real run that measures
   nothing.
   */
  lemma DrillOpensRealIssue(f: Calls, w: World, o: Options, rec: Record, r: LegResult)
    requires AllWork(f, w.calls) && NoneTwice(w) && !o.dryRun && o.space == Real
    requires r.leg == rec.leg && r.status == Skipped
    requires rec.status == Failed && rec.synthetic && w.disk.pending == [Deferred(rec, false, Drill)]
    ensures Title(rec.leg, Fail, Real) in Run(f, w, o, [r]).open
  {
    var items, open := w.disk.pending, Kinds(w, rec.leg, Real);
    assert items[0] == Deferred(rec, false, Drill) && items[1..] == [];
    assert AfterQueue(open, items, rec.leg, Real) == AfterItem(open, items[0], rec.leg, Real);
    assert Fail in OpenBefore(w, o, rec.leg);
    RunSettles(f, w, o, [r], 0);
    assert Fail in Kinds(Run(f, w, o, [r]), rec.leg, Real);
  }
}
