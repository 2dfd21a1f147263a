/**
 What the cascade check says about a whole text, read off the tables: which loop a report, a driving call or control
 flow belongs to, and which hits that makes, token by token. Loops inside loops and lambdas are included.
 */
module CascadeTold {
  import opened Wrappers
  import opened LoopScan
  import opened Cascade

  // ---- which loop a position belongs to ----

  /** The opening braces around token i, outermost first, as token numbers. */
  function Braces(toks: seq<Token>, i: nat): (r: seq<nat>)
    requires i <= |toks|
    ensures forall k :: 0 <= k < |r| ==> r[k] < i && toks[r[k]].Open?
    ensures forall j, k :: 0 <= j < k < |r| ==> r[j] < r[k]
  {
    if i == 0 then []
    else
      var r := Braces(toks, i - 1);
      match toks[i - 1]
      case Open(_) => r + [i - 1]
      case Shut => if r == [] then [] else r[..|r| - 1]
      case At(_) => r
  }

  predicate OpensLoop(t: Tables, token: Token) {
    token.Open? && (token.at in t.forOpens || token.at in t.whileOpens)
  }

  predicate OpensLambda(t: Tables, token: Token) {
    token.Open? && token.at in t.lambdaOpens && token.at !in t.forOpens && token.at !in t.whileOpens
  }

  /** Brace b is the innermost loop around token i, with no lambda in between. */
  ghost predicate Nearest(t: Tables, toks: seq<Token>, i: nat, b: nat)
    requires i < |toks|
  {
    var bs := Braces(toks, i);
    b in bs && OpensLoop(t, toks[b]) &&
    forall c :: c in bs && b < c ==> !OpensLoop(t, toks[c]) && !OpensLambda(t, toks[c])
  }

  /** A return at token i leaves loop b: no lambda in between. */
  ghost predicate Left(t: Tables, toks: seq<Token>, i: nat, b: nat)
    requires i < |toks|
  {
    var bs := Braces(toks, i);
    b in bs && OpensLoop(t, toks[b]) && forall c :: c in bs && b < c ==> !OpensLambda(t, toks[c])
  }

  ghost predicate ReportIn(t: Tables, toks: seq<Token>, i: nat, b: nat)
    requires i < |toks|
  {
    toks[i].At? && toks[i].pos in t.nonfatal && Nearest(t, toks, i, b)
  }

  predicate IsCall(t: Tables, token: Token) {
    token.At? && token.pos in t.ctx && token.pos !in t.nonfatal
  }

  ghost predicate CallIn(t: Tables, toks: seq<Token>, i: nat, b: nat)
    requires i < |toks|
  {
    IsCall(t, toks[i]) && Nearest(t, toks, i, b)
  }

  /** Control flow at token i that ends what is pending in loop b. */
  ghost predicate GuardIn(t: Tables, toks: seq<Token>, i: nat, b: nat)
    requires i < |toks|
  {
    toks[i].At? && toks[i].pos in t.control && toks[i].pos !in t.ctx && toks[i].pos !in t.nonfatal &&
    if t.control[toks[i].pos] == Return then Left(t, toks, i, b) else Nearest(t, toks, i, b)
  }

  // ---- what is pending ----

  /** Before token q a report in loop b has no control flow of that loop after it. */
  ghost predicate Pending(t: Tables, toks: seq<Token>, b: nat, q: nat)
    requires q <= |toks|
  {
    exists p :: 0 <= p < q && ReportIn(t, toks, p, b) && forall g :: p < g < q ==> !GuardIn(t, toks, g, b)
  }

  ghost predicate LastReport(t: Tables, toks: seq<Token>, b: nat, q: nat, p: nat)
    requires q <= |toks|
  {
    p < q && ReportIn(t, toks, p, b) && forall r :: p < r < q ==> !ReportIn(t, toks, r, b)
  }

  ghost predicate FirstCall(t: Tables, toks: seq<Token>, b: nat, q: nat, a: nat)
    requires q <= |toks|
  {
    a < q && CallIn(t, toks, a, b) && forall r :: 0 <= r < a ==> !CallIn(t, toks, r, b)
  }

  function Line(code: string, token: Token): nat {
    if token.At? then LineOf(code, token.pos) else 0
  }

  predicate IsFor(t: Tables, token: Token) {
    token.Open? && token.at in t.forOpens
  }

  // ---- what is said ----

  /** A driving call in a loop with a report pending: its own line, and the line of the last report before it. */
  ghost predicate CallTold(code: string, t: Tables, toks: seq<Token>, q: nat, b: nat, hit: Hit)
    requires q < |toks| && b < |toks|
  {
    CallIn(t, toks, q, b) && Pending(t, toks, b, q) &&
    exists p: nat :: LastReport(t, toks, b, q, p) &&
                     hit == Hit(Line(code, toks[q]), Some(Line(code, toks[p])), IsFor(t, toks[b]), false)
  }

  /** A loop that closes with a report pending, whose first driving call stands on a line before its last report. */
  ghost predicate WrapTold(code: string, t: Tables, toks: seq<Token>, q: nat, b: nat, hit: Hit)
    requires q < |toks| && b < |toks|
  {
    toks[q] == Shut && Braces(toks, q) != [] && b == Braces(toks, q)[|Braces(toks, q)| - 1] &&
    OpensLoop(t, toks[b]) && Pending(t, toks, b, q) &&
    exists a: nat, p: nat :: FirstCall(t, toks, b, q, a) && LastReport(t, toks, b, q, p) &&
                             Line(code, toks[a]) < Line(code, toks[p]) &&
                             hit == Hit(Line(code, toks[a]), Some(Line(code, toks[p])), IsFor(t, toks[b]), true)
  }

  ghost predicate ToldAt(code: string, t: Tables, toks: seq<Token>, q: nat, hit: Hit)
    requires q < |toks|
  {
    exists b: nat :: b < |toks| && (CallTold(code, t, toks, q, b, hit) || WrapTold(code, t, toks, q, b, hit))
  }

  /** From token q on the hits are those told of each token, in order: one, or none. */
  ghost predicate Told(code: string, t: Tables, toks: seq<Token>, q: nat, hits: seq<Hit>)
    requires q <= |toks|
    decreases |toks| - q
  {
    if q == |toks| then hits == []
    else if exists hit :: ToldAt(code, t, toks, q, hit) then
      hits != [] && ToldAt(code, t, toks, q, hits[0]) && Told(code, t, toks, q + 1, hits[1..])
    else Told(code, t, toks, q + 1, hits)
  }

  // ---- what a frame knows ----

  ghost predicate KnowsReport(code: string, t: Tables, toks: seq<Token>, b: nat, q: nat, marker: Option<nat>)
    requires b < |toks| && q <= |toks|
  {
    (marker.Some? <==> exists p: nat :: LastReport(t, toks, b, q, p)) &&
    forall p: nat :: LastReport(t, toks, b, q, p) ==> marker == Some(Line(code, toks[p]))
  }

  ghost predicate KnowsCall(code: string, t: Tables, toks: seq<Token>, b: nat, q: nat, first: Option<nat>)
    requires b < |toks| && q <= |toks|
  {
    (if first.Some? then exists a: nat :: FirstCall(t, toks, b, q, a)
     else forall a :: 0 <= a < q ==> !CallIn(t, toks, a, b)) &&
    forall a: nat :: FirstCall(t, toks, b, q, a) ==> first == Some(Line(code, toks[a]))
  }

  ghost predicate KnowsLoop(code: string, t: Tables, toks: seq<Token>, b: nat, q: nat, f: Frame)
    requires b < |toks| && q <= |toks|
  {
    f.Loop? && f.isFor == IsFor(t, toks[b]) && (f.armed <==> Pending(t, toks, b, q)) && (f.armed ==> f.marker.Some?) &&
    KnowsReport(code, t, toks, b, q, f.marker) && KnowsCall(code, t, toks, b, q, f.firstCtx)
  }

  ghost predicate Knows(code: string, t: Tables, toks: seq<Token>, b: nat, q: nat, f: Frame)
    requires b < |toks| && q <= |toks|
  {
    if OpensLoop(t, toks[b]) then KnowsLoop(code, t, toks, b, q, f)
    else f == if OpensLambda(t, toks[b]) then Lambda else Other
  }

  ghost predicate AllKnow(code: string, t: Tables, toks: seq<Token>, q: nat, stack: seq<Frame>)
    requires q <= |toks|
  {
    |stack| == |Braces(toks, q)| &&
    forall k :: 0 <= k < |stack| ==> Knows(code, t, toks, Braces(toks, q)[k], q, stack[k])
  }

  /** The braces further in than the k-th are those after it. */
  lemma Inner(toks: seq<Token>, q: nat, k: nat, c: nat)
    requires q <= |toks| && k < |Braces(toks, q)|
    ensures c in Braces(toks, q) && Braces(toks, q)[k] < c <==>
      exists j :: k < j < |Braces(toks, q)| && Braces(toks, q)[j] == c
  {
    var bs := Braces(toks, q);
    if c in bs && bs[k] < c {
      var j :| 0 <= j < |bs| && bs[j] == c;
      assert k < j;
    }
  }

  lemma FrameNearest(code: string, t: Tables, toks: seq<Token>, q: nat, stack: seq<Frame>, k: nat)
    requires q < |toks| && AllKnow(code, t, toks, q, stack) && k < |stack|
    ensures NearestLoop(stack) == Some(k) <==> Nearest(t, toks, q, Braces(toks, q)[k])
  {
    var bs := Braces(toks, q);
    NearestIsInnermost(stack, k);
    forall c: nat { Inner(toks, q, k, c); }
    if Innermost(stack, k) {
      forall c | c in bs && bs[k] < c ensures !OpensLoop(t, toks[c]) && !OpensLambda(t, toks[c]) {
        var j :| k < j < |bs| && bs[j] == c;
        assert stack[j] == Other;
      }
    }
    if Nearest(t, toks, q, bs[k]) {
      forall j | k < j < |stack| ensures stack[j] == Other {
        assert bs[j] in bs && bs[k] < bs[j];
      }
    }
  }

  lemma FrameLeft(code: string, t: Tables, toks: seq<Token>, q: nat, stack: seq<Frame>, k: nat)
    requires q < |toks| && AllKnow(code, t, toks, q, stack) && k < |stack|
    ensures stack[k].Loop? && Unshielded(stack, k) <==> Left(t, toks, q, Braces(toks, q)[k])
  {
    var bs := Braces(toks, q);
    forall c: nat { Inner(toks, q, k, c); }
    if stack[k].Loop? && Unshielded(stack, k) {
      forall c | c in bs && bs[k] < c ensures !OpensLambda(t, toks[c]) {
        var j :| k < j < |bs| && bs[j] == c;
        assert stack[j] != Lambda;
      }
    }
    if Left(t, toks, q, bs[k]) {
      forall j | k <= j < |stack| ensures stack[j] != Lambda {
        assert j > k ==> bs[j] in bs && bs[k] < bs[j];
      }
    }
  }

  // ---- one token later ----

  lemma PendingLater(t: Tables, toks: seq<Token>, b: nat, q: nat)
    requires q < |toks|
    ensures Pending(t, toks, b, q + 1) <==>
      ReportIn(t, toks, q, b) || (Pending(t, toks, b, q) && !GuardIn(t, toks, q, b))
  {
    if Pending(t, toks, b, q + 1) && !ReportIn(t, toks, q, b) {
      var p :| 0 <= p < q + 1 && ReportIn(t, toks, p, b) && forall g :: p < g < q + 1 ==> !GuardIn(t, toks, g, b);
      assert p < q;
    }
    if Pending(t, toks, b, q) && !GuardIn(t, toks, q, b) {
      var p :| 0 <= p < q && ReportIn(t, toks, p, b) && forall g :: p < g < q ==> !GuardIn(t, toks, g, b);
      assert forall g :: p < g < q + 1 ==> !GuardIn(t, toks, g, b);
    }
  }

  lemma LastLater(t: Tables, toks: seq<Token>, b: nat, q: nat, p: nat)
    requires q < |toks|
    ensures LastReport(t, toks, b, q + 1, p) <==>
      if ReportIn(t, toks, q, b) then p == q else LastReport(t, toks, b, q, p)
  {
  }

  lemma FirstLater(t: Tables, toks: seq<Token>, b: nat, q: nat, a: nat)
    requires q < |toks|
    ensures FirstCall(t, toks, b, q + 1, a) <==>
      FirstCall(t, toks, b, q, a) ||
        (a == q && CallIn(t, toks, q, b) && forall r :: 0 <= r < q ==> !CallIn(t, toks, r, b))
  {
  }

  /** What the token makes of a loop's frame. */
  ghost function Moved(code: string, t: Tables, toks: seq<Token>, b: nat, q: nat, f: Frame): Frame
    requires q < |toks| && f.Loop?
  {
    if ReportIn(t, toks, q, b) then Arm(f, Line(code, toks[q]))
    else if CallIn(t, toks, q, b) then Drive(f, Line(code, toks[q]))
    else if GuardIn(t, toks, q, b) then Disarm(f)
    else f
  }

  lemma ReportLater(code: string, t: Tables, toks: seq<Token>, b: nat, q: nat, marker: Option<nat>)
    requires b < |toks| && q < |toks| && KnowsReport(code, t, toks, b, q, marker)
    ensures KnowsReport(code, t, toks, b, q + 1, if ReportIn(t, toks, q, b) then Some(Line(code, toks[q])) else marker)
  {
    forall p: nat { LastLater(t, toks, b, q, p); }
    if ReportIn(t, toks, q, b) {
      assert LastReport(t, toks, b, q + 1, q);
    } else if marker.Some? {
      var p: nat :| LastReport(t, toks, b, q, p);
      assert LastReport(t, toks, b, q + 1, p);
    }
  }

  lemma CallLater(code: string, t: Tables, toks: seq<Token>, b: nat, q: nat, first: Option<nat>)
    requires b < |toks| && q < |toks| && KnowsCall(code, t, toks, b, q, first)
    ensures KnowsCall(code, t, toks, b, q + 1,
                      if first.None? && CallIn(t, toks, q, b) then Some(Line(code, toks[q])) else first)
  {
    forall a: nat { FirstLater(t, toks, b, q, a); }
    if first.Some? {
      var a: nat :| FirstCall(t, toks, b, q, a);
      assert FirstCall(t, toks, b, q + 1, a);
    } else if CallIn(t, toks, q, b) {
      assert FirstCall(t, toks, b, q + 1, q);
    }
  }

  lemma KnowsLater(code: string, t: Tables, toks: seq<Token>, b: nat, q: nat, f: Frame)
    requires b < |toks| && q < |toks| && KnowsLoop(code, t, toks, b, q, f)
    ensures KnowsLoop(code, t, toks, b, q + 1, Moved(code, t, toks, b, q, f))
  {
    PendingLater(t, toks, b, q);
    ReportLater(code, t, toks, b, q, f.marker);
    CallLater(code, t, toks, b, q, f.firstCtx);
  }

  /** What a position makes of the k-th frame. */
  lemma FrameAfter(code: string, t: Tables, i: nat, stack: seq<Frame>, k: nat)
    requires k < |stack|
    ensures var r, e := Effect(code, t, At(i), stack).0, EventAt(code, t, i);
      |r| == |stack| &&
      r[k] ==
        if e.Report? && NearestLoop(stack) == Some(k) then Arm(stack[k], e.line)
        else if e.Drives? && NearestLoop(stack) == Some(k) then Drive(stack[k], e.line)
        else if e == Guard(Return) && stack[k].Loop? && Unshielded(stack, k) then Disarm(stack[k])
        else if e.Guard? && e.control != Return && NearestLoop(stack) == Some(k) then Disarm(stack[k])
        else stack[k]
  {
    DisarmedAt(stack, k);
  }

  lemma PositionMoves(code: string, t: Tables, toks: seq<Token>, q: nat, stack: seq<Frame>, k: nat)
    requires q < |toks| && toks[q].At? && AllKnow(code, t, toks, q, stack) && k < |stack|
    ensures var r := Effect(code, t, toks[q], stack).0;
      |r| == |stack| && r[k] == if stack[k].Loop? then Moved(code, t, toks, Braces(toks, q)[k], q, stack[k])
        else stack[k]
  {
    FrameNearest(code, t, toks, q, stack, k);
    FrameLeft(code, t, toks, q, stack, k);
    FrameAfter(code, t, toks[q].pos, stack, k);
  }

  lemma PositionKnown(code: string, t: Tables, toks: seq<Token>, q: nat, stack: seq<Frame>)
    requires q < |toks| && toks[q].At? && AllKnow(code, t, toks, q, stack)
    ensures AllKnow(code, t, toks, q + 1, Effect(code, t, toks[q], stack).0)
  {
    var r, bs := Effect(code, t, toks[q], stack).0, Braces(toks, q);
    assert Braces(toks, q + 1) == bs;
    if stack == [] {
      assert r == [];
    } else {
      PositionMoves(code, t, toks, q, stack, 0);
    }
    forall k | 0 <= k < |r| ensures Knows(code, t, toks, bs[k], q + 1, r[k]) {
      PositionMoves(code, t, toks, q, stack, k);
      if stack[k].Loop? {
        KnowsLater(code, t, toks, bs[k], q, stack[k]);
      }
    }
  }

  /** Of a brace just opened nothing is known yet. */
  lemma NothingBefore(t: Tables, toks: seq<Token>, b: nat, i: nat)
    requires i <= b < |toks|
    ensures !ReportIn(t, toks, i, b) && !CallIn(t, toks, i, b)
  {
  }

  lemma OpenKnown(code: string, t: Tables, toks: seq<Token>, q: nat)
    requires q < |toks| && toks[q].Open?
    ensures Knows(code, t, toks, q, q + 1, FrameAt(t, toks[q].at))
  {
    forall i: nat | i <= q { NothingBefore(t, toks, q, i); }
  }

  /** A brace leaves the events of the frames below it as they are. */
  lemma BraceKeeps(code: string, t: Tables, toks: seq<Token>, b: nat, q: nat, f: Frame)
    requires b < |toks| && q < |toks| && !toks[q].At? && Knows(code, t, toks, b, q, f)
    ensures Knows(code, t, toks, b, q + 1, f)
  {
    if OpensLoop(t, toks[b]) {
      KnowsLater(code, t, toks, b, q, f);
    }
  }

  lemma BraceKnown(code: string, t: Tables, toks: seq<Token>, q: nat, stack: seq<Frame>)
    requires q < |toks| && !toks[q].At? && AllKnow(code, t, toks, q, stack)
    ensures AllKnow(code, t, toks, q + 1, Effect(code, t, toks[q], stack).0)
  {
    var r, bs, bs' := Effect(code, t, toks[q], stack).0, Braces(toks, q), Braces(toks, q + 1);
    forall k | 0 <= k < |r| ensures Knows(code, t, toks, bs'[k], q + 1, r[k]) {
      if k < |stack| {
        assert bs'[k] == bs[k] && r[k] == stack[k];
        BraceKeeps(code, t, toks, bs[k], q, stack[k]);
      } else {
        OpenKnown(code, t, toks, q);
      }
    }
  }

  // ---- the hits of one token ----

  /** The hits of a token are none or one, and that is the one told of it. */
  ghost predicate HitsAre(code: string, t: Tables, toks: seq<Token>, q: nat, hits: seq<Hit>)
    requires q < |toks|
  {
    |hits| <= 1 && forall hit :: hits == [hit] <==> ToldAt(code, t, toks, q, hit)
  }

  lemma NearestUnique(t: Tables, toks: seq<Token>, q: nat, b: nat, c: nat)
    requires q < |toks| && Nearest(t, toks, q, b) && Nearest(t, toks, q, c)
    ensures b == c
  {
  }

  lemma CallHits(code: string, t: Tables, toks: seq<Token>, q: nat, b: nat, f: Frame, hit: Hit)
    requires q < |toks| && b < |toks| && KnowsLoop(code, t, toks, b, q, f) && CallIn(t, toks, q, b)
    ensures DriveHits(f, Line(code, toks[q])) == [hit] <==> CallTold(code, t, toks, q, b, hit)
  {
    if f.armed {
      var p: nat :| LastReport(t, toks, b, q, p);
      assert f.marker == Some(Line(code, toks[p]));
    }
  }

  lemma CallTokenHits(code: string, t: Tables, toks: seq<Token>, q: nat, stack: seq<Frame>, k: nat, hit: Hit)
    requires q < |toks| && toks[q].At? && AllKnow(code, t, toks, q, stack)
    requires k < |stack| && CallIn(t, toks, q, Braces(toks, q)[k])
    ensures |Effect(code, t, toks[q], stack).1| <= 1
    ensures Effect(code, t, toks[q], stack).1 == [hit] <==> ToldAt(code, t, toks, q, hit)
  {
    var b := Braces(toks, q)[k];
    FrameNearest(code, t, toks, q, stack, k);
    CallHits(code, t, toks, q, b, stack[k], hit);
    if ToldAt(code, t, toks, q, hit) {
      var c: nat :| c < |toks| && CallTold(code, t, toks, q, c, hit);
      NearestUnique(t, toks, q, b, c);
    }
  }

  lemma OtherTokenHits(code: string, t: Tables, toks: seq<Token>, q: nat, stack: seq<Frame>)
    requires q < |toks| && toks[q].At? && AllKnow(code, t, toks, q, stack)
    requires forall k :: 0 <= k < |stack| ==> !CallIn(t, toks, q, Braces(toks, q)[k])
    ensures Effect(code, t, toks[q], stack).1 == [] && forall hit :: !ToldAt(code, t, toks, q, hit)
  {
    var near := NearestLoop(stack);
    if near.Some? {
      FrameNearest(code, t, toks, q, stack, near.value);
    }
    forall b: nat | b < |toks| ensures !CallIn(t, toks, q, b) {
      if b in Braces(toks, q) {
        var k :| 0 <= k < |Braces(toks, q)| && Braces(toks, q)[k] == b;
        assert !CallIn(t, toks, q, Braces(toks, q)[k]);
      }
    }
  }

  lemma PositionTold(code: string, t: Tables, toks: seq<Token>, q: nat, stack: seq<Frame>)
    requires q < |toks| && toks[q].At? && AllKnow(code, t, toks, q, stack)
    ensures HitsAre(code, t, toks, q, Effect(code, t, toks[q], stack).1)
  {
    if k :| 0 <= k < |stack| && CallIn(t, toks, q, Braces(toks, q)[k]) {
      forall hit { CallTokenHits(code, t, toks, q, stack, k, hit); }
      CallTokenHits(code, t, toks, q, stack, k, Hit(0, None, true, true));
    } else {
      OtherTokenHits(code, t, toks, q, stack);
    }
  }

  lemma WrapIs(code: string, t: Tables, toks: seq<Token>, q: nat, b: nat, f: Frame, hit: Hit)
    requires q < |toks| && b < |toks| && Knows(code, t, toks, b, q, f)
    requires toks[q] == Shut && Braces(toks, q) != [] && b == Braces(toks, q)[|Braces(toks, q)| - 1]
    ensures WrapHits(f) == [hit] <==> WrapTold(code, t, toks, q, b, hit)
  {
    if f.Loop? && f.armed && f.firstCtx.Some? {
      var p: nat :| LastReport(t, toks, b, q, p);
      var a: nat :| FirstCall(t, toks, b, q, a);
    }
  }

  lemma BraceTold(code: string, t: Tables, toks: seq<Token>, q: nat, stack: seq<Frame>)
    requires q < |toks| && !toks[q].At? && AllKnow(code, t, toks, q, stack)
    ensures HitsAre(code, t, toks, q, Effect(code, t, toks[q], stack).1)
  {
    var hits := Effect(code, t, toks[q], stack).1;
    forall hit ensures hits == [hit] <==> ToldAt(code, t, toks, q, hit) {
      if toks[q] == Shut && stack != [] {
        var last := |stack| - 1;
        WrapIs(code, t, toks, q, Braces(toks, q)[last], stack[last], hit);
      }
    }
  }

  // ---- the whole text ----

  lemma {:induction false} WalkTold(code: string, t: Tables, toks: seq<Token>, q: nat, stack: seq<Frame>)
    requires q <= |toks| && AllKnow(code, t, toks, q, stack)
    ensures Told(code, t, toks, q, Walk(code, t, toks[q..], stack))
    decreases |toks| - q
  {
    if q == |toks| {
    } else {
      var r, hits := Effect(code, t, toks[q], stack).0, Effect(code, t, toks[q], stack).1;
      if toks[q].At? {
        PositionKnown(code, t, toks, q, stack);
        PositionTold(code, t, toks, q, stack);
      } else {
        BraceKnown(code, t, toks, q, stack);
        BraceTold(code, t, toks, q, stack);
      }
      WalkTold(code, t, toks, q + 1, r);
      TokenTold(code, t, toks, q, hits, Walk(code, t, toks[q + 1..], r));
      assert toks[q..][0] == toks[q] && toks[q..][1..] == toks[q + 1..];
    }
  }

  lemma TokenTold(code: string, t: Tables, toks: seq<Token>, q: nat, hits: seq<Hit>, rest: seq<Hit>)
    requires q < |toks| && HitsAre(code, t, toks, q, hits) && Told(code, t, toks, q + 1, rest)
    ensures Told(code, t, toks, q, hits + rest)
  {
    if hits == [] {
      assert hits + rest == rest;
    } else {
      assert hits == [hits[0]] && (hits + rest)[0] == hits[0] && (hits + rest)[1..] == rest;
    }
  }

  /** The check's output for any text, loops in loops and lambdas included, is what is told of its tokens, in order. */
  lemma CascadeIsTold(code: string, t: Tables)
    ensures Told(code, t, Tokens(code, 0, Code), 0, Walk(code, t, Tokens(code, 0, Code), []))
  {
    var toks := Tokens(code, 0, Code);
    WalkTold(code, t, toks, 0, []);
    assert toks[0..] == toks;
  }
}
