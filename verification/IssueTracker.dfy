/**
 The notification protocol of the scheduled gate, as state: what is open in the tracker, what waits in the
 queue, and what each step does to them when any call to the tracker may fail, before or after its effect.
 */
module IssueTracker {
  import opened Wrappers

  datatype Leg = Metal | Cuda
  datatype Kind = Fail | Error | Stale
  datatype Namespace = Real | Drill

  /** An issue's title is its fingerprint. */
  datatype Title = Title(leg: Leg, kind: Kind, space: Namespace)

  datatype Op = Create | Comment | Close
  datatype Action = Action(op: Op, kind: Kind, body: string)
  datatype Job = Job(leg: Leg, space: Namespace, action: Action)

  datatype Status = Passed | Failed | Errored | Skipped
  datatype Record = Record(leg: Leg, status: Status, synthetic: bool, body: string)

  /** An action whose call failed, or a record that could not be judged for want of a query. */
  datatype Item =
    | Queued(job: Job)
    | Deferred(rec: Record, stale: bool, space: Namespace)

  datatype Outcome = Works | FailsBefore | FailsAfter

  /** What the k-th call to the tracker does. */
  type Calls = nat -> Outcome

  datatype State = State(pending: seq<Item>, lastReal: map<Leg, int>)

  /** The tracker, the state in memory and on disk, and a ledger of what was decided and what came of it. */
  datatype World = World(
    calls: nat, open: multiset<Title>, comments: multiset<Title>,
    state: State, disk: State,
    decided: multiset<Job>, applied: multiset<Job>, moot: multiset<Job>,
    heard: multiset<(Record, bool)>, judged: multiset<(Record, bool)>)

  // ---- titles as text ----

  function LegText(l: Leg): string {
    match l case Metal => "metal" case Cuda => "cuda"
  }

  function KindText(k: Kind): string {
    match k case Fail => "fail" case Error => "error" case Stale => "stale"
  }

  function TitleText(t: Title): string {
    (if t.space == Drill then "[TEST]" else "") + "[throughput-gate] " + LegText(t.leg) + " " + KindText(t.kind)
  }

  /** For instance. */
  lemma TitleReads()
    ensures TitleText(Title(Cuda, Stale, Drill)) == "[TEST][throughput-gate] cuda stale"
  {
    assert "[TEST]" + "[throughput-gate] " == "[TEST][throughput-gate] ";
    assert "[TEST][throughput-gate] " + "cuda" == "[TEST][throughput-gate] cuda";
  }

  lemma EndsDiffer(p: string, l: Leg, k: Kind, m: Leg, n: Kind)
    requires p + LegText(l) + " " + KindText(k) == p + LegText(m) + " " + KindText(n)
    ensures l == m && k == n
  {
    var s, t := p + LegText(l) + " " + KindText(k), p + LegText(m) + " " + KindText(n);
    assert s[|p|] == LegText(l)[0] && t[|p|] == LegText(m)[0];
    assert l == m;
    var at := |p| + |LegText(l)| + 1;
    assert s[at] == KindText(k)[0] && t[at] == KindText(n)[0];
  }

  /** No two titles print alike, so finding an issue by its exact title finds the right one. */
  lemma TitlesDiffer(a: Title, b: Title)
    requires TitleText(a) == TitleText(b)
    ensures a == b
  {
    var s, t := TitleText(a), TitleText(b);
    assert a.space == Drill ==> s[1] == 'T';
    assert a.space == Real ==> s[1] == 't';
    assert b.space == Drill ==> t[1] == 'T';
    assert b.space == Real ==> t[1] == 't';
    assert a.space == b.space;
    EndsDiffer((if a.space == Drill then "[TEST]" else "") + "[throughput-gate] ", a.leg, a.kind, b.leg, b.kind);
  }

  // ---- deciding ----

  const KINDS: seq<Kind> := [Fail, Error, Stale]

  function MeasuredAgain(): string {
    "The gate measured again (fail)."
  }

  function Recovered(body: string): string {
    "Recovered: the gate passed.\n\n" + body
  }

  function CloseAll(kinds: seq<Kind>, open: set<Kind>, body: string): seq<Action> {
    if kinds == [] then []
    else (if kinds[0] in open then [Action(Close, kinds[0], body)] else []) + CloseAll(kinds[1..], open, body)
  }

  function Decide(status: Status, synthetic: bool, stale: bool, open: set<Kind>, body: string): seq<Action> {
    (match status
     case Failed =>
       [Action(if Fail in open then Comment else Create, Fail, body)] +
       (if !synthetic && Stale in open then [Action(Close, Stale, MeasuredAgain())] else [])
     case Errored => if Error !in open then [Action(Create, Error, body)] else []
     case Passed => if synthetic then [] else CloseAll(KINDS, open, Recovered(body))
     case Skipped => [])
    + (if stale && Stale !in open && Error !in open then [Action(Create, Stale, body)] else [])
  }

  lemma {:induction false} CloseAllIs(kinds: seq<Kind>, open: set<Kind>, text: string, a: Action)
    ensures a in CloseAll(kinds, open, text) <==> a.op == Close && a.kind in kinds && a.kind in open && a.body == text
    decreases |kinds|
  {
    if kinds == [] {
    } else {
      CloseAllIs(kinds[1..], open, text, a);
    }
  }

  /** The decision table, row by row. */
  lemma DecisionTable(status: Status, synthetic: bool, stale: bool, open: set<Kind>, body: string, a: Action)
    ensures a in Decide(status, synthetic, stale, open, body) <==>
      || (status == Failed && Fail !in open && a == Action(Create, Fail, body))
      || (status == Failed && Fail in open && a == Action(Comment, Fail, body))
      || (status == Failed && !synthetic && Stale in open &&
        a == Action(Close, Stale, "The gate measured again (fail)."))
      || (status == Errored && Error !in open && a == Action(Create, Error, body))
      || (status == Passed && !synthetic && a.kind in open &&
          a == Action(Close, a.kind, "Recovered: the gate passed.\n\n" + body))
      || (stale && Stale !in open && Error !in open && a == Action(Create, Stale, body))
  {
    CloseAllIs(KINDS, open, Recovered(body), a);
    assert Fail == KINDS[0] && Error == KINDS[1] && Stale == KINDS[2];
    assert a.kind in KINDS by {
      match a.kind
      case Fail =>
      case Error =>
      case Stale =>
    }
  }

  function Rank(k: Kind): nat {
    match k case Fail => 0 case Error => 1 case Stale => 2
  }

  /** No kind twice, and always in the order fail, error, stale. */
  predicate KindsRise(actions: seq<Action>) {
    forall i, j :: 0 <= i < j < |actions| ==> Rank(actions[i].kind) < Rank(actions[j].kind)
  }

  lemma {:induction false} CloseAllRises(kinds: seq<Kind>, open: set<Kind>, text: string)
    requires forall i, j :: 0 <= i < j < |kinds| ==> Rank(kinds[i]) < Rank(kinds[j])
    ensures KindsRise(CloseAll(kinds, open, text))
    decreases |kinds|
  {
    if kinds == [] {
    } else {
      CloseAllRises(kinds[1..], open, text);
      var rest := CloseAll(kinds[1..], open, text);
      forall j | 0 <= j < |rest| ensures Rank(kinds[0]) < Rank(rest[j].kind) {
        assert rest[j] in rest;
        CloseAllIs(kinds[1..], open, text, rest[j]);
      }
    }
  }

  lemma RisesOnto(actions: seq<Action>, last: Action)
    requires KindsRise(actions) && forall a :: a in actions ==> Rank(a.kind) < Rank(last.kind)
    ensures KindsRise(actions + [last])
  {
  }

  lemma PassClosesInOrder(stale: bool, open: set<Kind>, body: string)
    ensures KindsRise(Decide(Passed, false, stale, open, body))
  {
    var closes := CloseAll(KINDS, open, Recovered(body));
    CloseAllRises(KINDS, open, Recovered(body));
    assert closes + [] == closes;
    if stale && Stale !in open {
      forall a | a in closes ensures Rank(a.kind) < Rank(Stale) {
        CloseAllIs(KINDS, open, Recovered(body), a);
      }
      RisesOnto(closes, Action(Create, Stale, body));
    }
  }

  lemma DecisionOrder(status: Status, synthetic: bool, stale: bool, open: set<Kind>, body: string)
    ensures KindsRise(Decide(status, synthetic, stale, open, body))
  {
    if status == Passed && !synthetic {
      PassClosesInOrder(stale, open, body);
    }
  }

  lemma CloseAllOnto(front: seq<Kind>, k: Kind, open: set<Kind>, text: string)
    ensures CloseAll(front + [k], open, text) ==
      CloseAll(front, open, text) + if k in open then [Action(Close, k, text)] else []
  {
    if front == [] {
      assert front + [k] == [k] && [k][1..] == [];
    } else {
      assert (front + [k])[1..] == front[1..] + [k] && (front + [k])[0] == front[0];
      CloseAllOnto(front[1..], k, open, text);
      var one := if front[0] in open then [Action(Close, front[0], text)] else [];
      var rest := CloseAll(front[1..], open, text);
      var last := if k in open then [Action(Close, k, text)] else [];
      assert one + (rest + last) == (one + rest) + last;
    }
  }

  method CloseOpen(kinds: seq<Kind>, open: set<Kind>, text: string) returns (actions: seq<Action>)
    ensures actions == CloseAll(kinds, open, text)
  {
    actions := [];
    for i := 0 to |kinds|
      invariant actions == CloseAll(kinds[..i], open, text)
    {
      assert kinds[..i + 1] == kinds[..i] + [kinds[i]];
      CloseAllOnto(kinds[..i], kinds[i], open, text);
      if kinds[i] in open {
        actions := actions + [Action(Close, kinds[i], text)];
      }
    }
    assert kinds[..|kinds|] == kinds;
  }

  method DecideNotifications(status: Status, synthetic: bool, stale: bool, open: set<Kind>, body: string)
    returns (actions: seq<Action>)
    ensures actions == Decide(status, synthetic, stale, open, body)
  {
    actions := [];
    if status == Failed {
      if Fail in open {
        actions := actions + [Action(Comment, Fail, body)];
      } else {
        actions := actions + [Action(Create, Fail, body)];
      }
      if !synthetic && Stale in open {
        actions := actions + [Action(Close, Stale, MeasuredAgain())];
      }
    } else if status == Errored {
      if Error !in open {
        actions := actions + [Action(Create, Error, body)];
      }
    } else if status == Passed && !synthetic {
      actions := CloseOpen(KINDS, open, Recovered(body));
    }
    if stale && Stale !in open && Error !in open {
      actions := actions + [Action(Create, Stale, body)];
    }
  }

  // ---- one call ----

  function OpenKinds(open: multiset<Title>, leg: Leg, space: Namespace): set<Kind> {
    set k: Kind | Title(leg, k, space) in open :: k
  }

  function Called(w: World): World {
    w.(calls := w.calls + 1)
  }

  function Do(w: World, t: Title, op: Op): World {
    match op
    case Create => w.(open := w.open + multiset{t})
    case Comment => w.(comments := w.comments + multiset{t})
    case Close => w.(open := w.open - multiset{t})
  }

  datatype How = Applied | Moot | Refused

  /** An action against a fresh query: nothing to create if it is open, nothing to comment on or close if not. */
  function Apply(f: Calls, w: World, j: Job): (World, How) {
    var title := Title(j.leg, j.action.kind, j.space);
    var w1 := Called(w);
    if f(w.calls) != Works then (w1, Refused)
    else if (title in w.open) == (j.action.op == Create) then (w1, Moot)
    else
      var out := f(w1.calls);
      var w2 := Called(w1);
      (if out == FailsBefore then w2 else Do(w2, title, j.action.op), if out == Works then Applied else Refused)
  }

  function Enqueue(w: World, item: Item): World {
    w.(state := w.state.(pending := w.state.pending + [item]))
  }

  /** Try the job; queue it if the call was refused. */
  function Try(f: Calls, w: World, j: Job): World {
    var (w', how) := Apply(f, w, j);
    match how
    case Applied => w'.(applied := w'.applied + multiset{j})
    case Moot => w'.(moot := w'.moot + multiset{j})
    case Refused => Enqueue(w', Queued(j))
  }

  lemma TryTouches(f: Calls, w: World, j: Job, w': World, how: How)
    requires Apply(f, w, j) == (w', how)
    ensures Try(f, w, j) ==
      match how
      case Applied => w'.(applied := w'.applied + multiset{j})
      case Moot => w'.(moot := w'.moot + multiset{j})
      case Refused => Enqueue(w', Queued(j))
  {
  }

  function TryAll(f: Calls, w: World, leg: Leg, space: Namespace, actions: seq<Action>): World
    decreases |actions|
  {
    if actions == [] then w
    else
      var j := Job(leg, space, actions[0]);
      TryAll(f, Try(f, w.(decided := w.decided + multiset{j}), j), leg, space, actions[1..])
  }

  // ---- one record, and the queue ----

  function Notify(f: Calls, w: World, space: Namespace, dryRun: bool, rec: Record, stale: bool): World {
    var w1 := Called(w);
    if f(w.calls) != Works then Enqueue(w1, Deferred(rec, stale, space))
    else if dryRun then w1
    else
      var actions := Decide(rec.status, rec.synthetic, stale, OpenKinds(w.open, rec.leg, space), rec.body);
      TryAll(f, w1.(judged := w1.judged + multiset{(rec, stale)}), rec.leg, space, actions)
  }

  function ReplayItem(f: Calls, w: World, space: Namespace, dryRun: bool, item: Item): World {
    match item
    case Queued(j) => if dryRun then w else Try(f, w, j)
    case Deferred(rec, stale, _) => Notify(f, w, space, dryRun, rec, stale)
  }

  function ReplayAll(f: Calls, w: World, space: Namespace, dryRun: bool, items: seq<Item>): World
    decreases |items|
  {
    if items == [] then w else ReplayAll(f, ReplayItem(f, w, space, dryRun, items[0]), space, dryRun, items[1..])
  }

  function Replay(f: Calls, w: World, space: Namespace, dryRun: bool): World {
    ReplayAll(f, w.(state := w.state.(pending := [])), space, dryRun, w.state.pending)
  }

  // ---- one run ----

  datatype Options = Options(space: Namespace, synthetic: bool, dryRun: bool, now: Option<int>, staleDays: real,
    created: int)

  /** A leg's outcome, when its clock was refreshed if it was, and when staleness was checked. */
  datatype LegResult = LegResult(leg: Leg, status: Status, body: string, refreshedAt: int, checkedAt: int)

  predicate RefreshesLastRealRun(status: Status, synthetic: bool) {
    (status == Passed || status == Failed) && !synthetic
  }

  predicate IsStale(lastRealRun: int, now: int, staleDays: real) {
    (now - lastRealRun) as real >= staleDays * 86400.0
  }

  function LastReal(state: State, o: Options, leg: Leg): int {
    if leg in state.lastReal then state.lastReal[leg] else o.created
  }

  function Refreshed(state: State, o: Options, r: LegResult): State {
    if RefreshesLastRealRun(r.status, o.synthetic) && !o.dryRun
    then state.(lastReal := state.lastReal[r.leg := r.refreshedAt])
    else state
  }

  function StaleAt(state: State, o: Options, r: LegResult): bool {
    IsStale(LastReal(state, o, r.leg), if o.now.Some? then o.now.value else r.checkedAt, o.staleDays)
  }

  function RunLeg(f: Calls, w: World, o: Options, r: LegResult): World {
    var rec := Record(r.leg, r.status, o.synthetic, r.body);
    var w1 := w.(state := Refreshed(w.state, o, r));
    var stale := StaleAt(w1.state, o, r);
    var w2 := if o.dryRun then w1 else w1.(heard := w1.heard + multiset{(rec, stale)});
    var w3 := Notify(f, w2, o.space, o.dryRun, rec, stale);
    if o.dryRun then w3 else w3.(disk := w3.state)
  }

  function RunLegs(f: Calls, w: World, o: Options, rs: seq<LegResult>): World
    decreases |rs|
  {
    if rs == [] then w else RunLegs(f, RunLeg(f, w, o, rs[0]), o, rs[1..])
  }

  /** The state is read from disk, the queue replayed, then each leg reported; a dry run saves nothing. */
  function Run(f: Calls, w: World, o: Options, rs: seq<LegResult>): World {
    RunLegs(f, Replay(f, w.(state := w.disk), o.space, o.dryRun), o, rs)
  }
}
