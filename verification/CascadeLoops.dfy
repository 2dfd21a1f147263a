/**
 What the cascade check says about one loop whose body holds no inner loop and no lambda, set against
 what running the body again and again can do: a driving call made while an unhandled report is
 pending. Bodies with break, continue and return are included.
 */
module CascadeLoops {
  import opened Wrappers
  import opened Cascade

  // ---- what can happen at run time ----

  /** One step of a run: something in the body, or the jump back to the top of the loop. */
  datatype Step = Do(event: Event) | Again

  function Pass(evs: seq<Event>): (r: seq<Step>)
    ensures |r| == |evs|
  {
    seq(|evs|, i requires 0 <= i < |evs| => Do(evs[i]))
  }

  function Runs(evs: seq<Event>, n: nat): seq<Step> {
    if n == 0 then [] else Runs(evs, n - 1) + Pass(evs) + [Again]
  }

  /** A report leaves the loop only by a break or a return; a continue skips the rest of one pass. */
  ghost predicate StillPending(s: seq<Step>, p: nat, q: nat)
    requires q <= |s|
  {
    p < q && s[p].Do? && s[p].event.Report? &&
    forall k :: p < k < q && s[k].Do? && s[k].event.Guard? ==>
      s[k].event.control == Continue && exists m :: k < m < q && s[m] == Again
  }

  ghost predicate DrivesPending(s: seq<Step>, q: nat)
    requires q < |s|
  {
    s[q].Do? && s[q].event.Drives? && exists p: nat :: StillPending(s, p, q)
  }

  /** Some number of passes makes a driving call while a report is pending. */
  ghost predicate CanCascade(evs: seq<Event>) {
    exists n: nat, q: nat :: q < |Runs(evs, n)| && DrivesPending(Runs(evs, n), q)
  }

  // ---- what can be read off one pass ----

  ghost predicate GuardBetween(evs: seq<Event>, p: int, q: int) {
    exists k :: p < k < q && 0 <= k < |evs| && evs[k].Guard?
  }

  /** A report and then a driving call with no control flow between. */
  ghost predicate ForwardHit(evs: seq<Event>) {
    exists p, q :: 0 <= p < q < |evs| && evs[p].Report? && evs[q].Drives? && !GuardBetween(evs, p, q)
  }

  /** The last report has no control flow after it. */
  ghost predicate EndsArmed(evs: seq<Event>) {
    exists p :: 0 <= p < |evs| && evs[p].Report? && !GuardBetween(evs, p, |evs|)
  }

  /** The last report has no break and no return after it. */
  ghost predicate CarriesOver(evs: seq<Event>) {
    exists p :: 0 <= p < |evs| && evs[p].Report? &&
      forall k :: p < k < |evs| && evs[k].Guard? ==> evs[k].control == Continue
  }

  ghost predicate HasDrive(evs: seq<Event>) {
    exists q :: 0 <= q < |evs| && evs[q].Drives?
  }

  /** A driving call is reached before any control flow. */
  ghost predicate DrivesFirst(evs: seq<Event>) {
    exists q :: 0 <= q < |evs| && evs[q].Drives? && !GuardBetween(evs, -1, q)
  }

  // ---- the run as a machine ----

  /** Pending now, and pending once the loop jumps back to its top. */
  datatype Pending = Pending(now: bool, next: bool)

  function After(s: seq<Step>, st: Pending): Pending {
    if s == [] then st
    else
      var before := After(s[..|s| - 1], st);
      match s[|s| - 1]
      case Again => Pending(before.next, before.next)
      case Do(Report(_)) => Pending(true, true)
      case Do(Guard(Continue)) => Pending(false, before.next)
      case Do(Guard(_)) => Pending(false, false)
      case Do(_) => before
  }

  predicate Caught(s: seq<Step>, st: Pending) {
    s != [] &&
    (Caught(s[..|s| - 1], st) || (s[|s| - 1].Do? && s[|s| - 1].event.Drives? && After(s[..|s| - 1], st).now))
  }

  lemma {:induction false} AfterConcat(a: seq<Step>, b: seq<Step>, st: Pending)
    ensures After(a + b, st) == After(b, After(a, st))
    ensures Caught(a + b, st) <==> Caught(a, st) || Caught(b, After(a, st))
    decreases |b|
  {
    if b == [] {
      assert a + b == a;
    } else {
      var last := |b| - 1;
      assert (a + b)[..|a + b| - 1] == a + b[..last];
      AfterConcat(a, b[..last], st);
    }
  }

  /** No break or return after p. */
  ghost predicate Carried(s: seq<Step>, p: nat) {
    p < |s| && s[p].Do? && s[p].event.Report? &&
    forall k :: p < k < |s| && s[k].Do? && s[k].event.Guard? ==> s[k].event.control == Continue
  }

  const CALM := Pending(false, false)

  lemma {:induction false} NextMeansCarried(s: seq<Step>)
    ensures After(s, CALM).next <==> exists p: nat :: Carried(s, p)
    decreases |s|
  {
    if s == [] {
    } else {
      var last := |s| - 1;
      var front := s[..last];
      NextMeansCarried(front);
      if exists p: nat :: Carried(front, p) {
        var p: nat :| Carried(front, p);
        assert s[last] == Again || !s[last].event.Guard? || s[last].event.control == Continue ==> Carried(s, p);
      }
      if exists p: nat :: Carried(s, p) {
        var p: nat :| Carried(s, p);
        assert p < last ==> Carried(front, p);
      }
      assert s[last].Do? && s[last].event.Report? ==> Carried(s, last);
    }
  }

  lemma {:induction false} NowMeansPending(s: seq<Step>)
    ensures After(s, CALM).now <==> exists p: nat :: StillPending(s, p, |s|)
    decreases |s|
  {
    if s == [] {
    } else {
      var last := |s| - 1;
      var front := s[..last];
      NowMeansPending(front);
      if s[last] == Again {
        PendingAcrossJump(s);
      } else if s[last].event.Report? {
        assert StillPending(s, last, |s|);
      } else if s[last].event.Guard? {
        forall p: nat ensures !StillPending(s, p, |s|) {}
      } else {
        PendingStays(s, front, last);
      }
    }
  }

  lemma PendingAcrossJump(s: seq<Step>)
    requires s != [] && s[|s| - 1] == Again
    ensures After(s[..|s| - 1], CALM).next <==> exists p: nat :: StillPending(s, p, |s|)
  {
    var last := |s| - 1;
    var front := s[..last];
    NextMeansCarried(front);
    forall p: nat ensures Carried(front, p) <==> StillPending(s, p, |s|) {
      if StillPending(s, p, |s|) {
        assert Carried(front, p);
      }
    }
  }

  lemma PendingStays(s: seq<Step>, front: seq<Step>, last: nat)
    requires |s| == last + 1 && front == s[..last]
    requires s[last].Do? && !s[last].event.Guard? && !s[last].event.Report?
    ensures (exists p: nat :: StillPending(front, p, last)) <==> exists p: nat :: StillPending(s, p, |s|)
  {
    forall p: nat ensures StillPending(front, p, last) <==> StillPending(s, p, |s|) {
      if StillPending(front, p, last) {
        forall k | p < k < |s| && s[k].Do? && s[k].event.Guard?
          ensures s[k].event.control == Continue && exists m :: k < m < |s| && s[m] == Again
        {
          assert front[k].event.Guard?;
          var m :| k < m < last && front[m] == Again;
          assert s[m] == Again;
        }
      }
      if StillPending(s, p, |s|) {
        forall k | p < k < last && front[k].Do? && front[k].event.Guard?
          ensures front[k].event.control == Continue && exists m :: k < m < last && front[m] == Again
        {
          assert s[k].event.Guard?;
          var m :| k < m < |s| && s[m] == Again;
          assert front[m] == Again;
        }
      }
    }
  }

  lemma PendingOnPrefix(s: seq<Step>, q: nat)
    requires q <= |s|
    ensures forall p: nat :: StillPending(s[..q], p, q) <==> StillPending(s, p, q)
  {
    forall p: nat ensures StillPending(s[..q], p, q) <==> StillPending(s, p, q) {
      var front := s[..q];
      if StillPending(front, p, q) {
        forall k | p < k < q && s[k].Do? && s[k].event.Guard?
          ensures s[k].event.control == Continue && exists m :: k < m < q && s[m] == Again
        {
          assert front[k].event.Guard?;
          var m :| k < m < q && front[m] == Again;
          assert s[m] == Again;
        }
      }
      if StillPending(s, p, q) {
        forall k | p < k < q && front[k].Do? && front[k].event.Guard?
          ensures front[k].event.control == Continue && exists m :: k < m < q && front[m] == Again
        {
          assert s[k].event.Guard?;
          var m :| k < m < q && s[m] == Again;
          assert front[m] == Again;
        }
      }
    }
  }

  /** The machine catches exactly the driving calls made while a report is pending. */
  lemma {:induction false} CaughtMeansDrivesPending(s: seq<Step>)
    ensures Caught(s, CALM) <==> exists q: nat :: q < |s| && DrivesPending(s, q)
    decreases |s|
  {
    if s == [] {
    } else {
      var last := |s| - 1;
      var front := s[..last];
      CaughtMeansDrivesPending(front);
      NowMeansPending(front);
      PendingOnPrefix(s, last);
      forall q: nat | q < last ensures DrivesPending(front, q) <==> DrivesPending(s, q) {
        PendingOnPrefix(s, q);
        PendingOnPrefix(front, q);
        assert front[..q] == s[..q];
      }
      assert DrivesPending(s, last) <==> s[last].Do? && s[last].event.Drives? && After(front, CALM).now;
      if Caught(front, CALM) {
        var q: nat :| q < last && DrivesPending(front, q);
        assert DrivesPending(s, q);
      }
      if exists q: nat :: q < |s| && DrivesPending(s, q) {
        var q: nat :| q < |s| && DrivesPending(s, q);
        assert q < last ==> DrivesPending(front, q);
      }
    }
  }

  // ---- one pass, and many ----

  const HOT := Pending(true, true)

  /** Starting with a report pending only adds what happens before the first control flow. */
  lemma {:induction false} HotStart(evs: seq<Event>)
    ensures var s := Pass(evs);
      After(s, HOT).now == (After(s, CALM).now || !GuardBetween(evs, -1, |evs|)) &&
      (After(s, CALM).next ==> After(s, HOT).next) &&
      (Caught(s, HOT) <==> Caught(s, CALM) || DrivesFirst(evs))
  {
    if evs == [] {
    } else {
      var last := |evs| - 1;
      var front := evs[..last];
      HotStart(front);
      assert Pass(evs)[..last] == Pass(front);
      assert GuardBetween(evs, -1, |evs|) <==> GuardBetween(front, -1, last) || evs[last].Guard?;
      if DrivesFirst(front) {
        var q :| 0 <= q < last && front[q].Drives? && !GuardBetween(front, -1, q);
        assert evs[q].Drives? && !GuardBetween(evs, -1, q);
      }
      if DrivesFirst(evs) {
        var q :| 0 <= q < |evs| && evs[q].Drives? && !GuardBetween(evs, -1, q);
        assert q < last ==> front[q].Drives? && !GuardBetween(front, -1, q);
        assert q == last ==> !GuardBetween(front, -1, last);
      }
      if evs[last].Drives? && !GuardBetween(front, -1, last) {
        assert !GuardBetween(evs, -1, last);
      }
    }
  }

  lemma PassFacts(evs: seq<Event>)
    ensures After(Pass(evs), CALM).now <==> EndsArmed(evs)
    ensures After(Pass(evs), CALM).next <==> CarriesOver(evs)
    ensures Caught(Pass(evs), CALM) <==> ForwardHit(evs)
  {
    var s := Pass(evs);
    NowMeansPending(s);
    NextMeansCarried(s);
    CaughtMeansDrivesPending(s);
    PendingInPass(evs);
    assert EndsArmed(evs) <==> exists p: nat :: StillPending(s, p, |s|) by {
      if exists p: nat :: StillPending(s, p, |s|) {
        var p: nat :| StillPending(s, p, |s|);
        assert evs[p].Report? && !GuardBetween(evs, p, |evs|);
      }
    }
    assert CarriesOver(evs) <==> exists p: nat :: Carried(s, p) by {
      CarriedInPass(evs);
    }
    if Caught(s, CALM) {
      var q: nat :| q < |s| && DrivesPending(s, q);
      var p: nat :| StillPending(s, p, q);
      assert evs[p].Report? && evs[q].Drives? && !GuardBetween(evs, p, q);
    }
    if ForwardHit(evs) {
      var p, q :| 0 <= p < q < |evs| && evs[p].Report? && evs[q].Drives? && !GuardBetween(evs, p, q);
      assert StillPending(s, p, q);
      assert DrivesPending(s, q);
    }
  }

  lemma PendingInPass(evs: seq<Event>)
    ensures forall p: nat, q: nat :: q <= |evs| ==>
      (StillPending(Pass(evs), p, q) <==> p < q && evs[p].Report? && !GuardBetween(evs, p, q))
  {
    var s := Pass(evs);
    forall p: nat, q: nat | q <= |evs|
      ensures StillPending(s, p, q) <==> p < q && evs[p].Report? && !GuardBetween(evs, p, q)
    {
      assert forall k :: p < k < q ==> s[k] == Do(evs[k]) && s[k] != Again;
      if StillPending(s, p, q) {
        assert forall k :: p < k < q ==> !s[k].event.Guard?;
      }
    }
  }

  lemma CarriedInPass(evs: seq<Event>)
    ensures CarriesOver(evs) <==> exists p: nat :: Carried(Pass(evs), p)
  {
    var s := Pass(evs);
    if CarriesOver(evs) {
      var p :| 0 <= p < |evs| && evs[p].Report? &&
        forall k :: p < k < |evs| && evs[k].Guard? ==> evs[k].control == Continue;
      assert Carried(s, p);
    }
    if exists p: nat :: Carried(s, p) {
      var p: nat :| Carried(s, p);
      forall k | p < k < |evs| && evs[k].Guard? ensures evs[k].control == Continue {
        assert s[k].event.Guard?;
      }
    }
  }

  lemma {:induction false} RunsState(evs: seq<Event>, n: nat)
    ensures After(Runs(evs, n), CALM) == if n > 0 && After(Pass(evs), CALM).next then HOT else CALM
    ensures Caught(Runs(evs, n), CALM) <==>
      n > 0 && (Caught(Pass(evs), CALM) || (n > 1 && After(Pass(evs), CALM).next && Caught(Pass(evs), HOT)))
  {
    if n == 0 {
    } else {
      RunsState(evs, n - 1);
      HotStart(evs);
      OnePassMore(Runs(evs, n - 1), Pass(evs), After(Runs(evs, n - 1), CALM));
    }
  }

  /** What one more pass and the jump back to its top add to what went before. */
  lemma OnePassMore(front: seq<Step>, pass: seq<Step>, st: Pending)
    requires After(front, CALM) == st
    ensures var all := front + pass + [Again]; var next := After(pass, st).next;
      After(all, CALM) == Pending(next, next) && (Caught(all, CALM) <==> Caught(front, CALM) || Caught(pass, st))
  {
    AfterConcat(front, pass, CALM);
    AfterConcat(front + pass, [Again], CALM);
    OneJump(After(pass, st));
  }

  lemma OneJump(st: Pending)
    ensures After([Again], st) == Pending(st.next, st.next) && !Caught([Again], st)
  {
    assert [Again][..0] == [];
  }

  /** Any number of passes: a hit within one pass, or a report carried over to a driving call at the top. */
  lemma CascadeCriterion(evs: seq<Event>)
    ensures CanCascade(evs) <==> ForwardHit(evs) || (CarriesOver(evs) && DrivesFirst(evs))
  {
    PassFacts(evs);
    HotStart(evs);
    forall n: nat
      ensures Caught(Runs(evs, n), CALM) <==> exists q: nat :: q < |Runs(evs, n)| && DrivesPending(Runs(evs, n), q)
    {
      CaughtMeansDrivesPending(Runs(evs, n));
    }
    forall n: nat { RunsState(evs, n); }
    if ForwardHit(evs) || (CarriesOver(evs) && DrivesFirst(evs)) {
      assert Caught(Runs(evs, 2), CALM);
    }
    if CanCascade(evs) {
      var n: nat, q: nat :| q < |Runs(evs, n)| && DrivesPending(Runs(evs, n), q);
      assert Caught(Runs(evs, n), CALM);
    }
  }

  // ---- the frame the scanner keeps for the loop ----

  function Touch(f: Frame, e: Event): (r: (Frame, seq<Hit>))
    requires f.Loop?
    ensures r.0.Loop?
  {
    match e
    case Report(line) => (Arm(f, line), [])
    case Drives(line) => (Drive(f, line), DriveHits(f, line))
    case Guard(_) => (Disarm(f), [])
    case Nothing => (f, [])
  }

  function TouchAll(f: Frame, evs: seq<Event>): (r: (Frame, seq<Hit>))
    requires f.Loop?
    ensures r.0.Loop?
    decreases |evs|
  {
    if evs == [] then (f, [])
    else
      var (f', hits) := Touch(f, evs[0]);
      var (g, more) := TouchAll(f', evs[1..]);
      (g, hits + more)
  }

  /** Whether the check says anything about the loop. */
  predicate Reported(f: Frame, evs: seq<Event>)
    requires f.Loop?
  {
    var (g, hits) := TouchAll(f, evs);
    hits != [] || WrapHits(g) != []
  }

  predicate Fresh(f: Frame) {
    f.Loop? && !f.armed && f.marker.None? && f.firstCtx.None?
  }

  lemma {:induction false} FrameIsMachine(f: Frame, evs: seq<Event>, st: Pending)
    requires f.Loop? && f.armed == st.now
    ensures TouchAll(f, evs).0.armed == After(Pass(evs), st).now
    ensures TouchAll(f, evs).1 != [] <==> Caught(Pass(evs), st)
    ensures TouchAll(f, evs).0.firstCtx.Some? <==> f.firstCtx.Some? || HasDrive(evs)
    decreases |evs|
  {
    if evs == [] {
    } else {
      var one := [Do(evs[0])];
      assert Pass(evs) == one + Pass(evs[1..]);
      AfterConcat(one, Pass(evs[1..]), st);
      assert one[..0] == [];
      FrameIsMachine(Touch(f, evs[0]).0, evs[1..], After(one, st));
      if HasDrive(evs) {
        var q :| 0 <= q < |evs| && evs[q].Drives?;
        assert q > 0 ==> evs[1..][q - 1].Drives?;
      }
      if HasDrive(evs[1..]) {
        var q :| 0 <= q < |evs[1..]| && evs[1..][q].Drives?;
        assert evs[q + 1].Drives?;
      }
    }
  }

  predicate HasLine(e: Event) {
    e.Report? || e.Drives?
  }

  /** Reports and driving calls come on lines of their own, in order. */
  ghost predicate LinesIncrease(evs: seq<Event>) {
    forall p, q :: 0 <= p < q < |evs| && HasLine(evs[p]) && HasLine(evs[q]) ==> evs[p].line < evs[q].line
  }

  ghost predicate Before(f: Frame, evs: seq<Event>)
    requires f.Loop?
  {
    forall q :: 0 <= q < |evs| && HasLine(evs[q]) ==>
      (f.marker.Some? ==> f.marker.value < evs[q].line) && (f.firstCtx.Some? ==> f.firstCtx.value < evs[q].line)
  }

  predicate CallsBeforeMarker(f: Frame)
    requires f.Loop?
  {
    f.armed ==> f.marker.Some? && (f.firstCtx.Some? ==> f.firstCtx.value < f.marker.value)
  }

  /** Without a forward hit, a frame left armed saw its first driving call before its last report. */
  lemma {:induction false} ArmedSeesCallsBefore(f: Frame, evs: seq<Event>)
    requires f.Loop? && LinesIncrease(evs) && Before(f, evs) && CallsBeforeMarker(f)
    ensures TouchAll(f, evs).1 == [] ==> CallsBeforeMarker(TouchAll(f, evs).0)
    decreases |evs|
  {
    if evs == [] || Touch(f, evs[0]).1 != [] {
    } else {
      var f' := Touch(f, evs[0]).0;
      assert Before(f', evs[1..]) by {
        forall q | 0 <= q < |evs[1..]| && HasLine(evs[1..][q])
          ensures (f'.marker.Some? ==> f'.marker.value < evs[1..][q].line) &&
            (f'.firstCtx.Some? ==> f'.firstCtx.value < evs[1..][q].line)
        {
          assert evs[1..][q] == evs[q + 1];
          assert HasLine(evs[0]) ==> evs[0].line < evs[q + 1].line;
        }
      }
      assert LinesIncrease(evs[1..]);
      assert CallsBeforeMarker(f') by {
        if evs[0].Report? {
          assert HasLine(evs[0]);
        }
      }
      ArmedSeesCallsBefore(f', evs[1..]);
    }
  }

  /** What the check reports, in terms of one pass. */
  lemma ReportCriterion(f: Frame, evs: seq<Event>)
    requires Fresh(f) && LinesIncrease(evs)
    ensures Reported(f, evs) <==> ForwardHit(evs) || (EndsArmed(evs) && HasDrive(evs))
  {
    PassFacts(evs);
    FrameIsMachine(f, evs, CALM);
    ArmedSeesCallsBefore(f, evs);
  }

  // ---- which hits the frame leaves ----

  /** Before event q a report has no control flow after it. */
  ghost predicate PendingAt(evs: seq<Event>, q: nat)
    requires q <= |evs|
  {
    exists p :: 0 <= p < q && evs[p].Report? && !GuardBetween(evs, p, q)
  }

  ghost predicate LastReport(evs: seq<Event>, q: nat, p: nat)
    requires q <= |evs|
  {
    p < q && evs[p].Report? && forall k :: p < k < q ==> !evs[k].Report?
  }

  ghost predicate FirstCall(evs: seq<Event>, q: nat, a: nat)
    requires q <= |evs|
  {
    a < q && evs[a].Drives? && forall k :: 0 <= k < a ==> !evs[k].Drives?
  }

  /** A driving call with a report pending: its line, the last report's line, and the loop's kind. */
  ghost predicate ForwardTold(isFor: bool, evs: seq<Event>, q: nat, hit: Hit)
    requires q < |evs|
  {
    evs[q].Drives? && PendingAt(evs, q) &&
    exists p: nat :: LastReport(evs, q, p) && hit == Hit(evs[q].line, Some(evs[p].line), isFor, false)
  }

  /** A pass that ends with a report pending, its first driving call on a line before the last report. */
  ghost predicate WrapTold(isFor: bool, evs: seq<Event>, hit: Hit) {
    PendingAt(evs, |evs|) &&
    exists a: nat, p: nat :: FirstCall(evs, |evs|, a) && LastReport(evs, |evs|, p) && evs[a].line < evs[p].line &&
                             hit == Hit(evs[a].line, Some(evs[p].line), isFor, true)
  }

  /**
   From event q on: one hit for each driving call with a report pending, in order, and then the wrap-around, if any.
   */
  ghost predicate Tells(isFor: bool, evs: seq<Event>, q: nat, hits: seq<Hit>)
    requires q <= |evs|
    decreases |evs| - q
  {
    if q == |evs| then |hits| <= 1 && forall hit :: hits == [hit] <==> WrapTold(isFor, evs, hit)
    else if exists hit :: ForwardTold(isFor, evs, q, hit) then
      hits != [] && ForwardTold(isFor, evs, q, hits[0]) && Tells(isFor, evs, q + 1, hits[1..])
    else Tells(isFor, evs, q + 1, hits)
  }

  ghost predicate KnowsReport(evs: seq<Event>, q: nat, marker: Option<nat>)
    requires q <= |evs|
  {
    (marker.Some? <==> exists p: nat :: LastReport(evs, q, p)) &&
    forall p: nat :: LastReport(evs, q, p) ==> marker == Some(evs[p].line)
  }

  ghost predicate KnowsCall(evs: seq<Event>, q: nat, first: Option<nat>)
    requires q <= |evs|
  {
    (if first.Some? then exists a: nat :: FirstCall(evs, q, a) else forall a :: 0 <= a < q ==> !evs[a].Drives?) &&
    forall a: nat :: FirstCall(evs, q, a) ==> first == Some(evs[a].line)
  }

  ghost predicate Knows(isFor: bool, evs: seq<Event>, q: nat, f: Frame)
    requires q <= |evs|
  {
    f.Loop? && f.isFor == isFor && (f.armed <==> PendingAt(evs, q)) && (f.armed ==> f.marker.Some?) &&
    KnowsReport(evs, q, f.marker) && KnowsCall(evs, q, f.firstCtx)
  }

  lemma PendingLater(evs: seq<Event>, q: nat)
    requires q < |evs|
    ensures PendingAt(evs, q + 1) <==> evs[q].Report? || (PendingAt(evs, q) && !evs[q].Guard?)
  {
    if PendingAt(evs, q + 1) && !evs[q].Report? {
      var p :| 0 <= p < q + 1 && evs[p].Report? && !GuardBetween(evs, p, q + 1);
      assert p < q && !GuardBetween(evs, p, q);
    }
    if PendingAt(evs, q) && !evs[q].Guard? {
      var p :| 0 <= p < q && evs[p].Report? && !GuardBetween(evs, p, q);
      assert !GuardBetween(evs, p, q + 1);
    }
    if evs[q].Report? {
      assert !GuardBetween(evs, q, q + 1);
    }
  }

  lemma ReportLater(evs: seq<Event>, q: nat, marker: Option<nat>)
    requires q < |evs| && KnowsReport(evs, q, marker)
    ensures KnowsReport(evs, q + 1, if evs[q].Report? then Some(evs[q].line) else marker)
  {
    forall p: nat ensures LastReport(evs, q + 1, p) <==> if evs[q].Report? then p == q else LastReport(evs, q, p) {}
    if evs[q].Report? {
      assert LastReport(evs, q + 1, q);
    } else if marker.Some? {
      var p: nat :| LastReport(evs, q, p);
      assert LastReport(evs, q + 1, p);
    }
  }

  lemma CallLater(evs: seq<Event>, q: nat, first: Option<nat>)
    requires q < |evs| && KnowsCall(evs, q, first)
    ensures KnowsCall(evs, q + 1, if first.None? && evs[q].Drives? then Some(evs[q].line) else first)
  {
    if first.Some? {
      var a: nat :| FirstCall(evs, q, a);
      assert FirstCall(evs, q + 1, a);
    } else if evs[q].Drives? {
      assert FirstCall(evs, q + 1, q);
    }
  }

  lemma KnowsLater(isFor: bool, evs: seq<Event>, q: nat, f: Frame)
    requires q < |evs| && Knows(isFor, evs, q, f)
    ensures Knows(isFor, evs, q + 1, Touch(f, evs[q]).0)
  {
    PendingLater(evs, q);
    ReportLater(evs, q, f.marker);
    CallLater(evs, q, f.firstCtx);
  }

  lemma TouchTold(isFor: bool, evs: seq<Event>, q: nat, f: Frame, hit: Hit)
    requires q < |evs| && Knows(isFor, evs, q, f)
    ensures |Touch(f, evs[q]).1| <= 1
    ensures Touch(f, evs[q]).1 == [hit] <==> ForwardTold(isFor, evs, q, hit)
  {
    if f.armed {
      var p: nat :| LastReport(evs, q, p);
    }
  }

  lemma EndTold(isFor: bool, evs: seq<Event>, f: Frame, hit: Hit)
    requires Knows(isFor, evs, |evs|, f)
    ensures |WrapHits(f)| <= 1 && (WrapHits(f) == [hit] <==> WrapTold(isFor, evs, hit))
  {
    if f.armed && f.firstCtx.Some? {
      var p: nat :| LastReport(evs, |evs|, p);
      var a: nat :| FirstCall(evs, |evs|, a);
    }
  }

  lemma {:induction false} TouchAllTold(isFor: bool, evs: seq<Event>, q: nat, f: Frame)
    requires q <= |evs| && Knows(isFor, evs, q, f)
    ensures Tells(isFor, evs, q, TouchAll(f, evs[q..]).1 + WrapHits(TouchAll(f, evs[q..]).0))
    decreases |evs| - q
  {
    if q == |evs| {
      forall hit { EndTold(isFor, evs, f, hit); }
      EndTold(isFor, evs, f, Hit(0, None, isFor, true));
      assert [] + WrapHits(f) == WrapHits(f);
    } else {
      var (g, here) := Touch(f, evs[q]);
      forall hit { TouchTold(isFor, evs, q, f, hit); }
      TouchTold(isFor, evs, q, f, Hit(0, None, isFor, true));
      KnowsLater(isFor, evs, q, f);
      TouchAllTold(isFor, evs, q + 1, g);
      assert evs[q..][0] == evs[q] && evs[q..][1..] == evs[q + 1..];
      EventTold(isFor, evs, q, here, TouchAll(g, evs[q + 1..]).1, WrapHits(TouchAll(g, evs[q + 1..]).0));
    }
  }

  lemma EventTold(isFor: bool, evs: seq<Event>, q: nat, here: seq<Hit>, more: seq<Hit>, wrap: seq<Hit>)
    requires q < |evs| && |here| <= 1 && (forall hit :: here == [hit] <==> ForwardTold(isFor, evs, q, hit))
    requires Tells(isFor, evs, q + 1, more + wrap)
    ensures Tells(isFor, evs, q, (here + more) + wrap)
  {
    if here == [] {
      assert (here + more) + wrap == more + wrap;
    } else {
      assert here == [here[0]];
      assert ((here + more) + wrap)[0] == here[0] && ((here + more) + wrap)[1..] == more + wrap;
    }
  }

  /** What the frame of a loop leaves of one pass: which hits, with which lines, in which order. */
  lemma HitsTold(f: Frame, evs: seq<Event>)
    requires Fresh(f)
    ensures Tells(f.isFor, evs, 0, TouchAll(f, evs).1 + WrapHits(TouchAll(f, evs).0))
  {
    TouchAllTold(f.isFor, evs, 0, f);
    assert evs[0..] == evs;
  }

  // ---- the verdict against the runs ----

  ghost predicate Unguarded(evs: seq<Event>) {
    forall k :: 0 <= k < |evs| ==> !evs[k].Guard?
  }

  /** With no break, continue or return in the body the check is right, both ways. */
  lemma ExactWithoutControlFlow(f: Frame, evs: seq<Event>)
    requires Fresh(f) && LinesIncrease(evs) && Unguarded(evs)
    ensures Reported(f, evs) <==> CanCascade(evs)
  {
    ReportCriterion(f, evs);
    CascadeCriterion(evs);
    if HasDrive(evs) {
      var q :| 0 <= q < |evs| && evs[q].Drives?;
      assert !GuardBetween(evs, -1, q);
    }
    if CarriesOver(evs) {
      var p :| 0 <= p < |evs| && evs[p].Report? &&
        forall k :: p < k < |evs| && evs[k].Guard? ==> evs[k].control == Continue;
      assert !GuardBetween(evs, p, |evs|);
    }
    if EndsArmed(evs) {
      var p :| 0 <= p < |evs| && evs[p].Report? && !GuardBetween(evs, p, |evs|);
      assert forall k :: p < k < |evs| ==> !evs[k].Guard?;
    }
  }

  /** The report that ends the pass is unguarded, but every driving call stands behind control flow. */
  ghost predicate GuardedAtTop(evs: seq<Event>) {
    !ForwardHit(evs) && EndsArmed(evs) && HasDrive(evs) && !DrivesFirst(evs)
  }

  /** A continue after the last report silences the check but not the next pass. */
  ghost predicate ContinueHides(evs: seq<Event>) {
    !ForwardHit(evs) && CarriesOver(evs) && !EndsArmed(evs) && DrivesFirst(evs)
  }

  /** In general there is one kind of false alarm and one kind of miss, and no other. */
  lemma VerdictWrongIff(f: Frame, evs: seq<Event>)
    requires Fresh(f) && LinesIncrease(evs)
    ensures Reported(f, evs) && !CanCascade(evs) <==> GuardedAtTop(evs)
    ensures !Reported(f, evs) && CanCascade(evs) <==> ContinueHides(evs)
  {
    ReportCriterion(f, evs);
    CascadeCriterion(evs);
    if DrivesFirst(evs) {
      var q :| 0 <= q < |evs| && evs[q].Drives? && !GuardBetween(evs, -1, q);
      assert HasDrive(evs);
    }
    if EndsArmed(evs) {
      var p :| 0 <= p < |evs| && evs[p].Report? && !GuardBetween(evs, p, |evs|);
      assert forall k :: p < k < |evs| ==> !evs[k].Guard?;
      assert CarriesOver(evs);
    }
  }

  lemma MissedWhen(f: Frame, evs: seq<Event>)
    requires Fresh(f) && LinesIncrease(evs) && ContinueHides(evs)
    ensures !Reported(f, evs) && CanCascade(evs)
  {
    VerdictWrongIff(f, evs);
  }

  lemma AlarmedWhen(f: Frame, evs: seq<Event>)
    requires Fresh(f) && LinesIncrease(evs) && GuardedAtTop(evs)
    ensures Reported(f, evs) && !CanCascade(evs)
  {
    VerdictWrongIff(f, evs);
  }

  /** A call, a report, a continue: the next pass cascades and the check is silent. */
  lemma MissExists(f: Frame) returns (evs: seq<Event>)
    requires Fresh(f)
    ensures evs == [Drives(1), Report(2), Guard(Continue)] && LinesIncrease(evs)
    ensures !Reported(f, evs) && CanCascade(evs)
  {
    evs := [Drives(1), Report(2), Guard(Continue)];
    HiddenByContinue();
    MissedWhen(f, evs);
  }

  /** A continue, a call, a report: no pass cascades and the check reports. */
  lemma FalseAlarmExists(f: Frame) returns (evs: seq<Event>)
    requires Fresh(f)
    ensures evs == [Guard(Continue), Drives(1), Report(2)] && LinesIncrease(evs)
    ensures Reported(f, evs) && !CanCascade(evs)
  {
    evs := [Guard(Continue), Drives(1), Report(2)];
    AlarmAtTop();
    AlarmedWhen(f, evs);
  }

  lemma HiddenByContinue()
    ensures ContinueHides([Drives(1), Report(2), Guard(Continue)])
  {
    var hidden := [Drives(1), Report(2), Guard(Continue)];
    assert hidden[0].Drives? && !GuardBetween(hidden, -1, 0);
    assert hidden[1].Report?;
    assert hidden[2].Guard?;
    assert GuardBetween(hidden, 1, 3);
    assert CarriesOver(hidden) && DrivesFirst(hidden) && !EndsArmed(hidden) && !ForwardHit(hidden);
  }

  lemma AlarmAtTop()
    ensures GuardedAtTop([Guard(Continue), Drives(1), Report(2)])
  {
    var alarm := [Guard(Continue), Drives(1), Report(2)];
    assert alarm[0].Guard?;
    assert alarm[1].Drives? && GuardBetween(alarm, -1, 1);
    assert alarm[2].Report? && !GuardBetween(alarm, 2, 3);
    assert EndsArmed(alarm) && HasDrive(alarm) && !DrivesFirst(alarm) && !ForwardHit(alarm);
  }
}
