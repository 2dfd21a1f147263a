/**
 The non-fatal half of the loop check: a report arms the nearest enclosing loop, a driving call while
 it is armed is a hit, control flow disarms, and a loop left armed at its closing brace is checked
 once more for the wrap-around to its first driving call.
 */
module Cascade {
  import opened Wrappers
  import opened LoopScan

  datatype Control = Return | Break | Continue

  /** Positions found beforehand. */
  datatype Tables = Tables(forOpens: map<nat, nat>, whileOpens: map<nat, nat>, lambdaOpens: set<nat>,
                           nonfatal: set<nat>, ctx: set<nat>, control: map<nat, Control>)

  datatype Frame =
    | Loop(isFor: bool, line: nat, armed: bool, marker: Option<nat>, firstCtx: Option<nat>)
    | Lambda
    | Other

  datatype Hit = Hit(lineno: nat, marker: Option<nat>, isFor: bool, wrapAround: bool)

  function FrameAt(t: Tables, i: nat): Frame {
    if i in t.forOpens then Loop(true, t.forOpens[i], false, None, None)
    else if i in t.whileOpens then Loop(false, t.whileOpens[i], false, None, None)
    else if i in t.lambdaOpens then Lambda
    else Other
  }

  /** The innermost loop frame with no lambda inside it. */
  function NearestLoop(stack: seq<Frame>): (r: Option<nat>)
    ensures r.Some? ==> r.value < |stack| && stack[r.value].Loop?
  {
    if stack == [] then None
    else match stack[|stack| - 1]
      case Loop(_, _, _, _, _) => Some(|stack| - 1)
      case Lambda => None
      case Other => NearestLoop(stack[..|stack| - 1])
  }

  /** Frame k is a loop, and above it there is no loop and no lambda. */
  ghost predicate Innermost(stack: seq<Frame>, k: nat) {
    k < |stack| && stack[k].Loop? && forall j :: k < j < |stack| ==> stack[j] == Other
  }

  lemma {:induction false} NearestIsInnermost(stack: seq<Frame>, k: nat)
    ensures NearestLoop(stack) == Some(k) <==> Innermost(stack, k)
    decreases |stack|
  {
    if stack == [] {
    } else {
      var last := |stack| - 1;
      if stack[last] == Other {
        NearestIsInnermost(stack[..last], k);
        assert k != last ==> (Innermost(stack, k) <==> Innermost(stack[..last], k));
      } else if k < last {
        assert !Innermost(stack, k);
      }
    }
  }

  method FindNearestLoop(stack: seq<Frame>) returns (at: Option<nat>)
    ensures at == NearestLoop(stack)
    ensures forall k: nat :: at == Some(k) <==> Innermost(stack, k)
  {
    forall k: nat ensures NearestLoop(stack) == Some(k) <==> Innermost(stack, k) {
      NearestIsInnermost(stack, k);
    }
    var i := |stack|;
    assert stack[..i] == stack;
    while i > 0
      invariant 0 <= i <= |stack| && NearestLoop(stack) == NearestLoop(stack[..i])
    {
      i := i - 1;
      assert stack[..i + 1][..i] == stack[..i];
      match stack[i] {
        case Lambda => return None;
        case Loop(_, _, _, _, _) => return Some(i);
        case Other =>
      }
    }
    at := None;
  }

  /** What one frame does with a report and with a driving call. */
  function Arm(f: Frame, line: nat): Frame
    requires f.Loop?
  {
    f.(armed := true, marker := Some(line))
  }

  function Drive(f: Frame, line: nat): Frame
    requires f.Loop?
  {
    if f.firstCtx.None? then f.(firstCtx := Some(line)) else f
  }

  function DriveHits(f: Frame, line: nat): seq<Hit>
    requires f.Loop?
  {
    if f.armed then [Hit(line, f.marker, f.isFor, false)] else []
  }

  function Disarm(f: Frame): Frame
    requires f.Loop?
  {
    f.(armed := false)
  }

  /** A return disarms every loop up to the nearest lambda. */
  function DisarmAll(stack: seq<Frame>): (r: seq<Frame>)
    ensures |r| == |stack|
  {
    if stack == [] then []
    else
      var last := |stack| - 1;
      match stack[last]
      case Lambda => stack
      case Other => DisarmAll(stack[..last]) + [Other]
      case Loop(_, _, _, _, _) => DisarmAll(stack[..last]) + [Disarm(stack[last])]
  }

  /** Frame k has no lambda at or above it. */
  ghost predicate Unshielded(stack: seq<Frame>, k: nat) {
    forall j :: k <= j < |stack| ==> stack[j] != Lambda
  }

  lemma {:induction false} DisarmedAt(stack: seq<Frame>, k: nat)
    requires k < |stack|
    ensures DisarmAll(stack)[k] == if stack[k].Loop? && Unshielded(stack, k) then Disarm(stack[k]) else stack[k]
    decreases |stack|
  {
    var last := |stack| - 1;
    if stack[last] == Lambda {
      assert !Unshielded(stack, k);
    } else if k < last {
      DisarmedAt(stack[..last], k);
      assert Unshielded(stack, k) <==> Unshielded(stack[..last], k) by {
        assert forall j :: k <= j < last ==> stack[..last][j] == stack[j];
      }
    }
  }

  function DisarmedFrame(stack: seq<Frame>, k: nat): Frame
    requires k < |stack|
  {
    if stack[k].Loop? then Disarm(stack[k]) else stack[k]
  }

  /** Index by index: loops with no lambda at or above them are disarmed, all else stays. */
  ghost predicate DisarmsUnshielded(stack: seq<Frame>, r: seq<Frame>) {
    |r| == |stack| && forall k: nat :: k < |stack| ==>
      r[k] == if Unshielded(stack, k) then DisarmedFrame(stack, k) else stack[k]
  }

  lemma DisarmsAll(stack: seq<Frame>, r: seq<Frame>)
    requires DisarmsUnshielded(stack, r)
    ensures r == DisarmAll(stack)
  {
    forall k: nat | k < |stack| ensures r[k] == DisarmAll(stack)[k] {
      DisarmedAt(stack, k);
    }
  }

  method DisarmToLambda(stack: seq<Frame>) returns (r: seq<Frame>)
    ensures DisarmsUnshielded(stack, r) && r == DisarmAll(stack)
  {
    r := stack;
    var i := |stack|;
    while i > 0 && stack[i - 1] != Lambda
      invariant 0 <= i <= |stack| == |r|
      invariant forall k :: 0 <= k < i ==> r[k] == stack[k]
      invariant forall k :: i <= k < |stack| ==> stack[k] != Lambda && r[k] == DisarmedFrame(stack, k)
    {
      i := i - 1;
      if stack[i].Loop? {
        r := r[i := Disarm(stack[i])];
      }
    }
    forall k: nat | k < |stack| ensures Unshielded(stack, k) <==> i <= k {
      assert i > 0 ==> stack[i - 1] == Lambda;
    }
    DisarmsAll(stack, r);
  }

  /** The hit a popped loop frame leaves: still armed, and its first driving call came before the report. */
  function WrapHits(f: Frame): seq<Hit> {
    if f.Loop? && f.armed && f.firstCtx.Some? && f.marker.Some? && f.firstCtx.value < f.marker.value
    then [Hit(f.firstCtx.value, f.marker, f.isFor, true)] else []
  }

  /** What a position starts, by the scanner's order of tests. */
  datatype Event = Report(line: nat) | Drives(line: nat) | Guard(control: Control) | Nothing

  function EventAt(code: string, t: Tables, i: nat): Event {
    if i in t.nonfatal then Report(LineOf(code, i))
    else if i in t.ctx then Drives(LineOf(code, i))
    else if i in t.control then Guard(t.control[i])
    else Nothing
  }

  /** One token: the stack after it and the hits it yields. */
  function Effect(code: string, t: Tables, token: Token, stack: seq<Frame>): (seq<Frame>, seq<Hit>) {
    match token
    case Open(i) => (stack + [FrameAt(t, i)], [])
    case Shut => if stack == [] then ([], []) else (stack[..|stack| - 1], WrapHits(stack[|stack| - 1]))
    case At(i) =>
      var near := NearestLoop(stack);
      match EventAt(code, t, i)
      case Nothing => (stack, [])
      case Guard(Return) => (DisarmAll(stack), [])
      case Guard(_) => (if near.None? then stack else stack[near.value := Disarm(stack[near.value])], [])
      case Report(line) => (if near.None? then stack else stack[near.value := Arm(stack[near.value], line)], [])
      case Drives(line) =>
        if near.None? then (stack, [])
        else (stack[near.value := Drive(stack[near.value], line)], DriveHits(stack[near.value], line))
  }

  function Walk(code: string, t: Tables, toks: seq<Token>, stack: seq<Frame>): seq<Hit> {
    if toks == [] then []
    else
      var (stack', hits) := Effect(code, t, toks[0], stack);
      hits + Walk(code, t, toks[1..], stack')
  }

  // ---- the loop over characters ----

  method TakePosition(code: string, t: Tables, i: nat, stack: seq<Frame>) returns (stack': seq<Frame>, hits: seq<Hit>)
    ensures (stack', hits) == Effect(code, t, At(i), stack)
  {
    stack', hits := stack, [];
    if i in t.nonfatal {
      var near := FindNearestLoop(stack);
      if near.Some? {
        stack' := stack[near.value := Arm(stack[near.value], LineOf(code, i))];
      }
    } else if i in t.ctx {
      var near := FindNearestLoop(stack);
      if near.Some? {
        var f := stack[near.value];
        if f.firstCtx.None? {
          stack' := stack[near.value := f.(firstCtx := Some(LineOf(code, i)))];
        } else {
          assert stack[near.value := f] == stack;
        }
        if f.armed {
          hits := [Hit(LineOf(code, i), f.marker, f.isFor, false)];
        }
      }
    } else if i in t.control {
      if t.control[i] == Return {
        stack' := DisarmToLambda(stack);
      } else {
        var near := FindNearestLoop(stack);
        if near.Some? {
          stack' := stack[near.value := Disarm(stack[near.value])];
        }
      }
    }
  }

  method Take(code: string, t: Tables, token: Token, stack: seq<Frame>) returns (stack': seq<Frame>, hits: seq<Hit>)
    ensures (stack', hits) == Effect(code, t, token, stack)
  {
    stack', hits := stack, [];
    match token {
      case Open(at) =>
        stack' := stack + [FrameAt(t, at)];
      case Shut =>
        if stack != [] {
          var frame := stack[|stack| - 1];
          stack' := stack[..|stack| - 1];
          hits := WrapHits(frame);
        }
      case At(i) =>
        stack', hits := TakePosition(code, t, i, stack);
    }
  }

  ghost function Rest(code: string, t: Tables, i: nat, mode: Mode, stack: seq<Frame>): seq<Hit> {
    Walk(code, t, Tokens(code, i, mode), stack)
  }

  lemma RestStep(code: string, t: Tables, i: nat, mode: Mode, stack: seq<Frame>)
    requires i < |code|
    ensures var (mode', n, token) := Read(code, i, mode);
      Rest(code, t, i, mode, stack) ==
        match token
        case None => Rest(code, t, i + n, mode', stack)
        case Some(x) => Effect(code, t, x, stack).1 + Rest(code, t, i + n, mode', Effect(code, t, x, stack).0)
  {
    var (mode', n, token) := Read(code, i, mode);
    var toks, rest := Tokens(code, i, mode), Tokens(code, i + n, mode');
    if token.None? {
      assert toks == rest;
    } else {
      assert toks[0] == token.value && toks[1..] == rest;
    }
  }

  method Advance(code: string, t: Tables, i: nat, mode: Mode, stack: seq<Frame>)
    returns (i': nat, mode': Mode, stack': seq<Frame>, hits: seq<Hit>)
    requires i < |code|
    ensures i < i' && Rest(code, t, i, mode, stack) == hits + Rest(code, t, i', mode', stack')
  {
    var (next, n, token) := Read(code, i, mode);
    RestStep(code, t, i, mode, stack);
    i', mode', stack', hits := i + n, next, stack, [];
    if token.Some? {
      stack', hits := Take(code, t, token.value, stack);
    }
  }

  lemma NothingLeft(code: string, t: Tables, i: nat, mode: Mode, stack: seq<Frame>)
    requires i >= |code|
    ensures Rest(code, t, i, mode, stack) == []
  {
  }

  method FindForCascadeInText(code: string, t: Tables) returns (hits: seq<Hit>)
    ensures hits == Walk(code, t, Tokens(code, 0, Code), [])
  {
    hits := [];
    var stack: seq<Frame> := [];
    var mode, i := Code, 0;
    ghost var rest := Rest(code, t, i, mode, stack);
    ghost var whole := rest;
    while i < |code|
      invariant rest == Rest(code, t, i, mode, stack) && whole == hits + rest
      decreases |code| - i
    {
      var more;
      i, mode, stack, more := Advance(code, t, i, mode, stack);
      hits := hits + more;
      rest := Rest(code, t, i, mode, stack);
    }
    NothingLeft(code, t, i, mode, stack);
  }
}
