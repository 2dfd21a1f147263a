/**
 The notifier as the program keeps it: the tracker's calls, the state in memory and its copy on disk are
 fields, and each method does what the state machine says.
 */
module IssueNotifier {
  import opened Wrappers
  import opened IssueTracker

  class Notifier {
    const gh: Calls
    var calls: nat
    var open: multiset<Title>
    var comments: multiset<Title>
    var pending: seq<Item>
    var lastReal: map<Leg, int>
    var disk: State

    ghost var decided: multiset<Job>
    ghost var applied: multiset<Job>
    ghost var moot: multiset<Job>
    ghost var heard: multiset<(Record, bool)>
    ghost var judged: multiset<(Record, bool)>

    ghost function Now(): World
      reads this
    {
      World(calls, open, comments, State(pending, lastReal), disk, decided, applied, moot, heard, judged)
    }

    constructor (gh: Calls, open: multiset<Title>, disk: State)
      ensures this.gh == gh && this.open == open && this.disk == disk && pending == disk.pending
      ensures calls == 0 && comments == multiset{} && lastReal == disk.lastReal
      ensures decided == applied == moot == multiset{} && heard == judged == multiset{}
    {
      this.gh := gh;
      this.open, this.comments, calls := open, multiset{}, 0;
      this.disk, pending, lastReal := disk, disk.pending, disk.lastReal;
      decided, applied, moot := multiset{}, multiset{}, multiset{};
      heard, judged := multiset{}, multiset{};
    }

    /** One call to the tracker. */
    method Call() returns (out: Outcome)
      modifies this`calls
      ensures out == gh(old(calls)) && calls == old(calls) + 1
    {
      out := gh(calls);
      calls := calls + 1;
    }

    method OpenIssues(leg: Leg, space: Namespace) returns (found: Option<set<Kind>>)
      modifies this`calls
      ensures Now() == Called(old(Now()))
      ensures found == if gh(old(calls)) == Works then Some(OpenKinds(open, leg, space)) else None
    {
      var out := Call();
      found := if out == Works then Some(set k: Kind | Title(leg, k, space) in open :: k) else None;
    }

    method TakeEffect(title: Title, op: Op)
      modifies this`open, this`comments
      ensures Now() == Do(old(Now()), title, op)
    {
      match op {
        case Create => open := open + multiset{title};
        case Comment => comments := comments + multiset{title};
        case Close => open := open - multiset{title};
      }
    }

    /** The create, comment or close call itself. */
    method Act(title: Title, op: Op) returns (out: Outcome)
      modifies this`calls, this`open, this`comments
      ensures out == gh(old(calls))
      ensures Now() == if out == FailsBefore then Called(old(Now())) else Do(Called(old(Now())), title, op)
    {
      out := Call();
      assert Now() == Called(old(Now()));
      if out != FailsBefore {
        TakeEffect(title, op);
      }
    }

    method ApplyAction(j: Job) returns (how: How)
      modifies this`calls, this`open, this`comments
      ensures (Now(), how) == Apply(gh, old(Now()), j)
    {
      var found := OpenIssues(j.leg, j.space);
      if found.None? {
        return Refused;
      }
      var title := Title(j.leg, j.action.kind, j.space);
      if j.action.op == Create {
        if j.action.kind in found.value {
          return Moot;
        }
      } else {
        if j.action.kind !in found.value {
          return Moot;
        }
      }
      var out := Act(title, j.action.op);
      how := if out == Works then Applied else Refused;
    }

    method TryJob(j: Job)
      modifies this
      ensures Now() == Try(gh, old(Now()), j)
    {
      var how := ApplyAction(j);
      TryTouches(gh, old(Now()), j, Now(), how);
      match how {
        case Applied => applied := applied + multiset{j};
        case Moot => moot := moot + multiset{j};
        case Refused => Defer(Queued(j));
      }
    }

    method TryActions(leg: Leg, space: Namespace, actions: seq<Action>)
      modifies this
      ensures Now() == TryAll(gh, old(Now()), leg, space, actions)
    {
      ghost var start := Now();
      for i := 0 to |actions|
        invariant TryAll(gh, start, leg, space, actions) == TryAll(gh, Now(), leg, space, actions[i..])
      {
        assert actions[i..][0] == actions[i] && actions[i..][1..] == actions[i + 1..];
        var j := Job(leg, space, actions[i]);
        decided := decided + multiset{j};
        TryJob(j);
      }
    }

    method Judge(space: Namespace, rec: Record, stale: bool, actions: seq<Action>)
      modifies this
      ensures var w := old(Now());
        Now() == TryAll(gh, w.(judged := w.judged + multiset{(rec, stale)}), rec.leg, space, actions)
    {
      judged := judged + multiset{(rec, stale)};
      TryActions(rec.leg, space, actions);
    }

    method Defer(item: Item)
      modifies this`pending
      ensures Now() == Enqueue(old(Now()), item)
    {
      pending := pending + [item];
    }

    method NotifyLeg(space: Namespace, dryRun: bool, rec: Record, stale: bool)
      modifies this
      ensures Now() == Notify(gh, old(Now()), space, dryRun, rec, stale)
    {
      var found := OpenIssues(rec.leg, space);
      if found.None? {
        Defer(Deferred(rec, stale, space));
      } else {
        var actions := DecideNotifications(rec.status, rec.synthetic, stale, found.value, rec.body);
        if !dryRun {
          Judge(space, rec, stale, actions);
        }
      }
    }

    method ReplayPending(space: Namespace, dryRun: bool)
      modifies this
      ensures Now() == Replay(gh, old(Now()), space, dryRun)
    {
      var items := pending;
      pending := [];
      ghost var start := Now();
      for i := 0 to |items|
        invariant ReplayAll(gh, start, space, dryRun, items) == ReplayAll(gh, Now(), space, dryRun, items[i..])
      {
        assert items[i..][0] == items[i] && items[i..][1..] == items[i + 1..];
        match items[i] {
          case Queued(j) =>
            if !dryRun {
              TryJob(j);
            }
          case Deferred(rec, stale, _) =>
            NotifyLeg(space, dryRun, rec, stale);
        }
      }
    }

    method Refresh(o: Options, r: LegResult)
      modifies this`lastReal
      ensures var w := old(Now()); Now() == w.(state := Refreshed(w.state, o, r))
    {
      if RefreshesLastRealRun(r.status, o.synthetic) && !o.dryRun {
        lastReal := lastReal[r.leg := r.refreshedAt];
      }
    }

    method CheckStale(o: Options, r: LegResult) returns (stale: bool)
      ensures stale == StaleAt(Now().state, o, r)
    {
      var last := if r.leg in lastReal then lastReal[r.leg] else o.created;
      var now := if o.now.Some? then o.now.value else r.checkedAt;
      stale := IsStale(last, now, o.staleDays);
    }

    method ReportLeg(o: Options, r: LegResult)
      modifies this
      ensures Now() == RunLeg(gh, old(Now()), o, r)
    {
      Refresh(o, r);
      var stale := CheckStale(o, r);
      var rec := Record(r.leg, r.status, o.synthetic, r.body);
      if !o.dryRun {
        heard := heard + multiset{(rec, stale)};
      }
      NotifyLeg(o.space, o.dryRun, rec, stale);
      if !o.dryRun {
        disk := State(pending, lastReal);
      }
    }

    method RunGate(o: Options, results: seq<LegResult>)
      modifies this
      ensures Now() == Run(gh, old(Now()), o, results)
    {
      pending, lastReal := disk.pending, disk.lastReal;
      ReplayPending(o.space, o.dryRun);
      ghost var start := Now();
      for i := 0 to |results|
        invariant RunLegs(gh, start, o, results) == RunLegs(gh, Now(), o, results[i..])
      {
        assert results[i..][0] == results[i] && results[i..][1..] == results[i + 1..];
        ReportLeg(o, results[i]);
      }
    }
  }
}
