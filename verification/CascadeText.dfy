/**
 From one pass over a loop body back to the text: how the walk crosses a braced loop body, and that
 reports and driving calls on lines of their own are met in line order.
 */
module CascadeText {
  import opened Wrappers
  import opened LoopScan
  import opened Cascade
  import opened CascadeLoops

  /** Inner braces belong to no loop and no lambda. */
  predicate Plain(t: Tables, body: seq<Token>) {
    forall k :: 0 <= k < |body| && body[k].Open? ==>
      body[k].at !in t.forOpens && body[k].at !in t.whileOpens && body[k].at !in t.lambdaOpens
  }

  predicate OpensLoop(t: Tables, o: nat) {
    o in t.forOpens || o in t.whileOpens
  }

  /** e is what the tables say position i starts. */
  predicate IsEvent(code: string, t: Tables, i: nat, e: Event) {
    (e.Report? <==> i in t.nonfatal) && (e.Drives? <==> i in t.ctx && i !in t.nonfatal) &&
    (e.Guard? <==> i in t.control && i !in t.ctx && i !in t.nonfatal) &&
    (HasLine(e) ==> e.line == LineOf(code, i)) && (e.Guard? ==> e.control == t.control[i])
  }

  /** The events of the positions among the tokens, in order. */
  predicate AreEvents(code: string, t: Tables, toks: seq<Token>, evs: seq<Event>)
    decreases |toks|
  {
    if toks == [] then evs == []
    else if toks[0].At? then
      evs != [] && IsEvent(code, t, toks[0].pos, evs[0]) && AreEvents(code, t, toks[1..], evs[1..])
    else AreEvents(code, t, toks[1..], evs)
  }

  lemma {:induction false} EventsAre(code: string, t: Tables, toks: seq<Token>)
    ensures AreEvents(code, t, toks, EventsOf(code, t, toks))
    decreases |toks|
  {
    if toks == [] {
    } else {
      EventsAre(code, t, toks[1..]);
      if toks[0].At? {
        assert EventsOf(code, t, toks)[1..] == EventsOf(code, t, toks[1..]);
      } else {
        assert EventsOf(code, t, toks) == EventsOf(code, t, toks[1..]);
      }
    }
  }

  function EventsOf(code: string, t: Tables, toks: seq<Token>): seq<Event> {
    if toks == [] then []
    else (if toks[0].At? then [EventAt(code, t, toks[0].pos)] else []) + EventsOf(code, t, toks[1..])
  }

  /** What the body does to the frames outside the loop: a return reaches them. */
  function Outside(evs: seq<Event>, below: seq<Frame>): (r: seq<Frame>)
    ensures |r| == |below|
    decreases |evs|
  {
    if evs == [] then below
    else Outside(evs[1..], if evs[0] == Guard(Return) then DisarmAll(below) else below)
  }

  predicate AllOther(others: seq<Frame>) {
    forall k :: 0 <= k < |others| ==> others[k] == Other
  }

  lemma {:induction false} NearestUnderOthers(below: seq<Frame>, f: Frame, others: seq<Frame>)
    requires f.Loop? && AllOther(others)
    ensures NearestLoop(below + [f] + others) == Some(|below|)
    ensures DisarmAll(below + [f] + others) == DisarmAll(below) + [Disarm(f)] + others
    decreases |others|
  {
    var stack := below + [f] + others;
    if others == [] {
      assert stack[..|stack| - 1] == below;
    } else {
      var fewer := others[..|others| - 1];
      assert stack[..|stack| - 1] == below + [f] + fewer;
      assert others == fewer + [Other];
      NearestUnderOthers(below, f, fewer);
      assert DisarmAll(below) + [Disarm(f)] + fewer + [Other] == DisarmAll(below) + [Disarm(f)] + others;
    }
  }

  lemma FrameInStack(below: seq<Frame>, f: Frame, others: seq<Frame>, g: Frame)
    ensures var stack := below + [f] + others;
      stack[|below|] == f && stack[|below| := g] == below + [g] + others
  {
  }

  lemma OneOutside(e: Event, below: seq<Frame>)
    ensures Outside([e], below) == if e == Guard(Return) then DisarmAll(below) else below
  {
    assert [e][1..] == [];
  }

  /** One position inside the body touches the loop's frame and nothing else but what a return reaches. */
  lemma PositionInBody(code: string, t: Tables, i: nat, below: seq<Frame>, f: Frame, others: seq<Frame>)
    requires f.Loop? && AllOther(others)
    ensures var e := EventAt(code, t, i);
      Effect(code, t, At(i), below + [f] + others) == (Outside([e], below) + [Touch(f, e).0] + others, Touch(f, e).1)
  {
    NearestUnderOthers(below, f, others);
    var e := EventAt(code, t, i);
    OneOutside(e, below);
    FrameInStack(below, f, others, Touch(f, e).0);
  }

  ghost function LoopHits(code: string, t: Tables, evs: seq<Event>, after: seq<Token>, below: seq<Frame>,
    f: Frame): seq<Hit>
    requires f.Loop?
  {
    TouchAll(f, evs).1 + WrapHits(TouchAll(f, evs).0) + Walk(code, t, after, Outside(evs, below))
  }

  lemma LoopHitsStep(code: string, t: Tables, e: Event, evs: seq<Event>, after: seq<Token>, below: seq<Frame>, f: Frame)
    requires f.Loop?
    ensures LoopHits(code, t, [e] + evs, after, below, f) ==
      Touch(f, e).1 + LoopHits(code, t, evs, after, Outside([e], below), Touch(f, e).0)
  {
    assert ([e] + evs)[1..] == evs && [e][1..] == [];
    var (g, more) := TouchAll(Touch(f, e).0, evs);
    assert TouchAll(f, [e] + evs) == (g, Touch(f, e).1 + more);
  }

  lemma WalkStep(code: string, t: Tables, token: Token, toks: seq<Token>, stack: seq<Frame>)
    ensures var (stack', hits) := Effect(code, t, token, stack);
      Walk(code, t, [token] + toks, stack) == hits + Walk(code, t, toks, stack')
  {
    assert ([token] + toks)[1..] == toks;
  }

  lemma InnerBrace(code: string, t: Tables, token: Token, below: seq<Frame>, f: Frame, others: seq<Frame>)
    returns (others': seq<Frame>)
    requires AllOther(others) && (token.Open? ==> FrameAt(t, token.at) == Other)
    requires !token.At? && (token.Shut? ==> others != [])
    ensures AllOther(others') && |others'| == if token.Open? then |others| + 1 else |others| - 1
    ensures Effect(code, t, token, below + [f] + others) == (below + [f] + others', [])
  {
    var stack := below + [f] + others;
    if token.Open? {
      others' := others + [Other];
      assert stack + [Other] == below + [f] + others';
    } else {
      others' := others[..|others| - 1];
      assert stack[..|stack| - 1] == below + [f] + others';
      assert stack[|stack| - 1] == Other;
    }
  }

  lemma LoopCloses(code: string, t: Tables, after: seq<Token>, below: seq<Frame>, f: Frame)
    requires f.Loop?
    ensures Walk(code, t, [Shut] + after, below + [f]) == LoopHits(code, t, [], after, below, f)
  {
    WalkStep(code, t, Shut, after, below + [f]);
    assert (below + [f])[..|below|] == below;
  }

  lemma {:induction false} BodyWalk(code: string, t: Tables, body: seq<Token>, after: seq<Token>,
                                    below: seq<Frame>, f: Frame, others: seq<Frame>)
    requires f.Loop? && AllOther(others) && Plain(t, body) && Nested(body, |others|)
    ensures Walk(code, t, body + ([Shut] + after), below + [f] + others) ==
      LoopHits(code, t, EventsOf(code, t, body), after, below, f)
    decreases |body|
  {
    if body == [] {
      assert below + [f] + others == below + [f];
      assert body + ([Shut] + after) == [Shut] + after;
      LoopCloses(code, t, after, below, f);
    } else {
      var rest := body[1..];
      var tail := rest + ([Shut] + after);
      assert body + ([Shut] + after) == [body[0]] + tail;
      WalkStep(code, t, body[0], tail, below + [f] + others);
      if body[0].At? {
        var e := EventAt(code, t, body[0].pos);
        PositionInBody(code, t, body[0].pos, below, f, others);
        BodyWalk(code, t, rest, after, Outside([e], below), Touch(f, e).0, others);
        LoopHitsStep(code, t, e, EventsOf(code, t, rest), after, below, f);
      } else {
        var others' := InnerBrace(code, t, body[0], below, f, others);
        BodyWalk(code, t, rest, after, below, f, others');
        assert EventsOf(code, t, body) == EventsOf(code, t, rest);
      }
    }
  }

  /** The walk over a whole loop: its own hits first, told by Reported whether there are any. */
  lemma LoopInText(code: string, t: Tables, o: nat, body: seq<Token>, after: seq<Token>, below: seq<Frame>)
    requires FrameAt(t, o).Loop? && Plain(t, body) && Nested(body, 0)
    ensures var evs := EventsOf(code, t, body);
      var hits := TouchAll(FrameAt(t, o), evs).1 + WrapHits(TouchAll(FrameAt(t, o), evs).0);
      Walk(code, t, [Open(o)] + (body + ([Shut] + after)), below) == hits + Walk(code, t, after, Outside(evs, below)) &&
      Fresh(FrameAt(t, o)) && (hits != [] <==> Reported(FrameAt(t, o), evs))
  {
    var toks := [Open(o)] + (body + ([Shut] + after));
    assert toks[1..] == body + ([Shut] + after);
    assert below + [FrameAt(t, o)] == below + [FrameAt(t, o)] + [];
    BodyWalk(code, t, body, after, below, FrameAt(t, o), []);
  }

  // ---- lines ----

  predicate Ascending(toks: seq<Token>, least: int) {
    (forall k :: 0 <= k < |toks| && toks[k].At? ==> least <= toks[k].pos) &&
    (forall j, k :: 0 <= j < k < |toks| && toks[j].At? && toks[k].At? ==> toks[j].pos < toks[k].pos)
  }

  lemma {:induction false} TokensAscend(code: string, i: nat, mode: Mode)
    ensures Ascending(Tokens(code, i, mode), i)
    decreases |code| - i
  {
    if i >= |code| {
    } else {
      var (mode', n, token) := Read(code, i, mode);
      TokensAscend(code, i + n, mode');
      if token.Some? {
        AscendOnto(token.value, Tokens(code, i + n, mode'), i, i + n);
      }
    }
  }

  lemma AscendOnto(token: Token, toks: seq<Token>, at: int, least: int)
    requires Ascending(toks, least) && at < least && (token.At? ==> token.pos == at)
    ensures Ascending([token] + toks, at)
  {
  }

  lemma {:induction false} LinesNeverFall(code: string, i: nat, j: nat)
    requires i <= j
    ensures LineOf(code, i) <= LineOf(code, j)
    decreases j
  {
    if i < j && 0 < |code| {
      if j > |code| {
        LinesNeverFall(code, if i > |code| then |code| else i, |code|);
      } else {
        LinesNeverFall(code, i, j - 1);
      }
    }
  }

  /** At most one report or driving call on a line. */
  ghost predicate OnOwnLines(code: string, t: Tables, toks: seq<Token>) {
    forall j, k | 0 <= j < k < |toks| && WithLine(code, t, toks[j]) && WithLine(code, t, toks[k]) ::
      LineOf(code, toks[j].pos) != LineOf(code, toks[k].pos)
  }

  predicate WithLine(code: string, t: Tables, token: Token) {
    token.At? && HasLine(EventAt(code, t, token.pos))
  }

  lemma {:induction false} EventLines(code: string, t: Tables, toks: seq<Token>, e: Event)
    requires e in EventsOf(code, t, toks) && HasLine(e)
    ensures exists k :: 0 <= k < |toks| && toks[k].At? && EventAt(code, t, toks[k].pos) == e
    decreases |toks|
  {
    if toks[0].At? && e == EventAt(code, t, toks[0].pos) {
    } else {
      assert e in EventsOf(code, t, toks[1..]);
      EventLines(code, t, toks[1..], e);
      var k :| 0 <= k < |toks[1..]| && toks[1..][k].At? && EventAt(code, t, toks[1..][k].pos) == e;
      assert toks[k + 1] == toks[1..][k];
    }
  }

  lemma FirstLineLeast(code: string, t: Tables, toks: seq<Token>, least: int, e: Event)
    requires toks != [] && Ascending(toks, least) && OnOwnLines(code, t, toks) && WithLine(code, t, toks[0])
    requires e in EventsOf(code, t, toks[1..]) && HasLine(e)
    ensures LineOf(code, toks[0].pos) < e.line
  {
    EventLines(code, t, toks[1..], e);
    var k :| 0 <= k < |toks[1..]| && toks[1..][k].At? && EventAt(code, t, toks[1..][k].pos) == e;
    assert toks[k + 1] == toks[1..][k];
    LinesNeverFall(code, toks[0].pos, toks[k + 1].pos);
  }

  lemma LinesIncreaseOnto(e: Event, evs: seq<Event>)
    requires LinesIncrease(evs)
    requires HasLine(e) ==> forall x :: x in evs && HasLine(x) ==> e.line < x.line
    ensures LinesIncrease([e] + evs)
  {
    forall p, q | 0 <= p < q < |[e] + evs| && HasLine(([e] + evs)[p]) && HasLine(([e] + evs)[q])
      ensures ([e] + evs)[p].line < ([e] + evs)[q].line
    {
      assert ([e] + evs)[q] == evs[q - 1];
    }
  }

  lemma {:induction false} OwnLinesIncrease(code: string, t: Tables, toks: seq<Token>, least: int)
    requires Ascending(toks, least) && OnOwnLines(code, t, toks)
    ensures LinesIncrease(EventsOf(code, t, toks))
    decreases |toks|
  {
    if toks == [] {
    } else {
      var evs := EventsOf(code, t, toks[1..]);
      OwnLinesIncrease(code, t, toks[1..], least);
      if toks[0].At? {
        var e := EventAt(code, t, toks[0].pos);
        forall x | HasLine(e) && x in evs && HasLine(x) ensures e.line < x.line {
          FirstLineLeast(code, t, toks, least, x);
        }
        LinesIncreaseOnto(e, evs);
      } else {
        assert EventsOf(code, t, toks) == evs;
      }
    }
  }

  // ---- the check's output ----

  /** The stack after some tokens. */
  function StackAfter(code: string, t: Tables, toks: seq<Token>, stack: seq<Frame>): seq<Frame>
    decreases |toks|
  {
    if toks == [] then stack else StackAfter(code, t, toks[1..], Effect(code, t, toks[0], stack).0)
  }

  lemma {:induction false} WalkConcat(code: string, t: Tables, a: seq<Token>, b: seq<Token>, stack: seq<Frame>)
    ensures Walk(code, t, a + b, stack) == Walk(code, t, a, stack) + Walk(code, t, b, StackAfter(code, t, a, stack))
    decreases |a|
  {
    if a == [] {
      assert a + b == b;
    } else {
      assert a + b == [a[0]] + (a[1..] + b);
      WalkStep(code, t, a[0], a[1..] + b, stack);
      WalkConcat(code, t, a[1..], b, Effect(code, t, a[0], stack).0);
    }
  }

  /** The loop's part of the output: there exactly when the passes can cascade, but for the two exceptions. */
  ghost predicate LoopVerdict(evs: seq<Event>, hits: seq<Hit>) {
    (hits != [] <==> (CanCascade(evs) && !ContinueHides(evs)) || GuardedAtTop(evs)) &&
    (Unguarded(evs) ==> (hits != [] <==> CanCascade(evs)))
  }

  lemma LoopHitsVerdict(f: Frame, evs: seq<Event>)
    requires Fresh(f) && LinesIncrease(evs)
    ensures LoopVerdict(evs, TouchAll(f, evs).1 + WrapHits(TouchAll(f, evs).0))
  {
    VerdictWrongIff(f, evs);
    if Unguarded(evs) {
      ExactWithoutControlFlow(f, evs);
    }
  }

  /** The tokens around one loop of a text. */
  ghost predicate LoopAt(code: string, t: Tables, pre: seq<Token>, o: nat, body: seq<Token>, after: seq<Token>) {
    Tokens(code, 0, Code) == pre + ([Open(o)] + (body + ([Shut] + after))) &&
    OpensLoop(t, o) && Plain(t, body) && Nested(body, 0) && OnOwnLines(code, t, body)
  }

  lemma BodyAscends(code: string, t: Tables, pre: seq<Token>, o: nat, body: seq<Token>, after: seq<Token>)
    requires LoopAt(code, t, pre, o, body, after)
    ensures LinesIncrease(EventsOf(code, t, body))
  {
    TokensAscend(code, 0, Code);
    var all := Tokens(code, 0, Code);
    assert forall k :: 0 <= k < |body| ==> body[k] == all[|pre| + 1 + k];
    assert Ascending(body, 0);
    OwnLinesIncrease(code, t, body, 0);
  }

  /**
   A loop in a text: the check's output is what it says before the loop, what it says of the loop, and what it says
   after it. The middle part tells each driving call made while a report is pending, with its line, the report's and
   the loop's kind; it is there exactly when the passes can cascade, but for the two exceptions.
   */
  lemma TextVerdict(code: string, t: Tables, pre: seq<Token>, o: nat, body: seq<Token>, after: seq<Token>)
    returns (evs: seq<Event>, hits: seq<Hit>)
    requires LoopAt(code, t, pre, o, body, after)
    ensures AreEvents(code, t, body, evs) && Tells(o in t.forOpens, evs, 0, hits) && LoopVerdict(evs, hits)
    ensures Walk(code, t, Tokens(code, 0, Code), []) ==
      Walk(code, t, pre, []) + (hits + Walk(code, t, after, Outside(evs, StackAfter(code, t, pre, []))))
  {
    var f, below := FrameAt(t, o), StackAfter(code, t, pre, []);
    evs := EventsOf(code, t, body);
    hits := TouchAll(f, evs).1 + WrapHits(TouchAll(f, evs).0);
    EventsAre(code, t, body);
    BodyAscends(code, t, pre, o, body, after);
    LoopInText(code, t, o, body, after, below);
    LoopHitsVerdict(f, evs);
    HitsTold(f, evs);
    WalkConcat(code, t, pre, [Open(o)] + (body + ([Shut] + after)), []);
  }
}
