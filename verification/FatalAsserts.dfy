/**
 The fatal-assert half of the loop check: attribute each assert to the nearest enclosing for body,
 unless a lambda body stands between them.
 */
module FatalAsserts {
  import opened Wrappers
  import opened LoopScan

  /** Positions found beforehand: for bodies with their line, lambda bodies, assert calls. */
  datatype Tables = Tables(forOpens: map<nat, nat>, lambdaOpens: set<nat>, assertStarts: set<nat>)

  datatype Frame = For(line: nat) | Lambda | Other

  datatype Hit = Hit(lineno: nat, forLine: nat)

  function FrameAt(t: Tables, i: nat): Frame {
    if i in t.forOpens then For(t.forOpens[i]) else if i in t.lambdaOpens then Lambda else Other
  }

  /** The line of the innermost for with no lambda inside it; other scopes are transparent. */
  function NearestFor(stack: seq<Frame>): Option<nat> {
    if stack == [] then None
    else match stack[|stack| - 1]
      case For(line) => Some(line)
      case Lambda => None
      case Other => NearestFor(stack[..|stack| - 1])
  }

  method FindNearestFor(stack: seq<Frame>) returns (line: Option<nat>)
    ensures line == NearestFor(stack)
  {
    var i := |stack|;
    assert stack[..i] == stack;
    while i > 0
      invariant 0 <= i <= |stack| && NearestFor(stack) == NearestFor(stack[..i])
    {
      i := i - 1;
      assert stack[..i + 1][..i] == stack[..i];
      match stack[i] {
        case Lambda => return None;
        case For(l) => return Some(l);
        case Other =>
      }
    }
    line := None;
  }

  function HitsAt(code: string, t: Tables, stack: seq<Frame>, i: nat): seq<Hit> {
    if i in t.assertStarts && NearestFor(stack).Some? then [Hit(LineOf(code, i), NearestFor(stack).value)] else []
  }

  /** The walk over tokens; an unmatched closing brace is ignored. */
  function Walk(code: string, t: Tables, toks: seq<Token>, stack: seq<Frame>): seq<Hit> {
    if toks == [] then []
    else match toks[0]
      case Open(i) => Walk(code, t, toks[1..], stack + [FrameAt(t, i)])
      case Shut => Walk(code, t, toks[1..], if stack == [] then [] else stack[..|stack| - 1])
      case At(i) => HitsAt(code, t, stack, i) + Walk(code, t, toks[1..], stack)
  }

  /** The walk's next token moves the stack and adds its hits. */
  function Push(t: Tables, token: Token, stack: seq<Frame>): seq<Frame> {
    match token
    case Open(i) => stack + [FrameAt(t, i)]
    case Shut => if stack == [] then [] else stack[..|stack| - 1]
    case At(_) => stack
  }

  method Take(code: string, t: Tables, token: Token, stack: seq<Frame>) returns (stack': seq<Frame>, hits: seq<Hit>)
    ensures stack' == Push(t, token, stack)
    ensures hits == if token.At? then HitsAt(code, t, stack, token.pos) else []
  {
    stack', hits := stack, [];
    match token {
      case Open(at) =>
        stack' := stack + [FrameAt(t, at)];
      case Shut =>
        if stack != [] {
          stack' := stack[..|stack| - 1];
        }
      case At(p) =>
        if p in t.assertStarts {
          var nearest := FindNearestFor(stack);
          if nearest.Some? {
            hits := [Hit(LineOf(code, p), nearest.value)];
          }
        }
    }
  }

  lemma WalkStep(code: string, t: Tables, i: nat, mode: Mode, stack: seq<Frame>)
    requires i < |code|
    ensures var (mode', n, token) := Read(code, i, mode);
      Walk(code, t, Tokens(code, i, mode), stack) ==
        match token
        case None => Walk(code, t, Tokens(code, i + n, mode'), stack)
        case Some(x) =>
          (if x.At? then HitsAt(code, t, stack, x.pos) else []) +
          Walk(code, t, Tokens(code, i + n, mode'), Push(t, x, stack))
  {
    var (mode', n, token) := Read(code, i, mode);
    var toks, rest := Tokens(code, i, mode), Tokens(code, i + n, mode');
    if token.None? {
      assert toks == rest;
    } else {
      assert toks[0] == token.value && toks[1..] == rest;
    }
  }

  /** What the walk still reports from a position on. */
  ghost function Rest(code: string, t: Tables, i: nat, mode: Mode, stack: seq<Frame>): seq<Hit> {
    Walk(code, t, Tokens(code, i, mode), stack)
  }

  method Advance(code: string, t: Tables, i: nat, mode: Mode, stack: seq<Frame>)
    returns (i': nat, mode': Mode, stack': seq<Frame>, hits: seq<Hit>)
    requires i < |code|
    ensures i < i' && Rest(code, t, i, mode, stack) == hits + Rest(code, t, i', mode', stack')
  {
    var (next, n, token) := Read(code, i, mode);
    WalkStep(code, t, i, mode, stack);
    i', mode', stack', hits := i + n, next, stack, [];
    if token.Some? {
      stack', hits := Take(code, t, token.value, stack);
    }
  }

  lemma NothingLeft(code: string, t: Tables, i: nat, mode: Mode, stack: seq<Frame>)
    requires i >= |code|
    ensures Rest(code, t, i, mode, stack) == []
  {
  }

  method FindViolationsInText(code: string, t: Tables) returns (hits: seq<Hit>)
    ensures hits == Walk(code, t, Tokens(code, 0, Code), [])
  {
    hits := [];
    var stack: seq<Frame> := [];
    var mode, i := Code, 0;
    ghost var rest := Rest(code, t, i, mode, stack);
    ghost var whole := rest;
    while i < |code|
      invariant rest == Rest(code, t, i, mode, stack) && whole == hits + rest
      decreases |code| - i
    {
      var more;
      i, mode, stack, more := Advance(code, t, i, mode, stack);
      hits := hits + more;
      rest := Rest(code, t, i, mode, stack);
    }
    NothingLeft(code, t, i, mode, stack);
  }

  // ---- what is reported, on the tree ----

  /** A leaf with the scopes around it, outermost first. */
  datatype Placed = Placed(pos: nat, around: seq<Frame>)

  function Leaves(t: Tables, f: Forest, around: seq<Frame>): seq<Placed> {
    match f
    case Nil => []
    case Cons(Leaf(p), rest) => [Placed(p, around)] + Leaves(t, rest, around)
    case Cons(Block(at, kids), rest) => Leaves(t, kids, around + [FrameAt(t, at)]) + Leaves(t, rest, around)
  }

  /** Scope k is the innermost for or lambda around a leaf. */
  ghost predicate Innermost(around: seq<Frame>, k: nat) {
    k < |around| && around[k] != Other && forall j :: k < j < |around| ==> around[j] == Other
  }

  /** The hit a leaf deserves: an assert whose innermost for-or-lambda ancestor is a for, with that for. */
  ghost predicate Deserves(code: string, t: Tables, leaf: Placed, hit: Hit) {
    && leaf.pos in t.assertStarts && hit.lineno == LineOf(code, leaf.pos)
    && exists k: nat :: Innermost(leaf.around, k) && leaf.around[k] == For(hit.forLine)
  }

  lemma {:induction false} NearestIsInnermost(around: seq<Frame>, line: nat)
    ensures NearestFor(around) == Some(line) <==> exists k: nat :: Innermost(around, k) && around[k] == For(line)
  {
    if around == [] {
    } else {
      var last := |around| - 1;
      NearestIsInnermost(around[..last], line);
      if around[last] == Other {
        if NearestFor(around) == Some(line) {
          var k: nat :| Innermost(around[..last], k) && around[..last][k] == For(line);
          assert Innermost(around, k);
        }
        if k: nat :| Innermost(around, k) && around[k] == For(line) {
          assert Innermost(around[..last], k);
        }
      } else {
        assert Innermost(around, last);
      }
    }
  }

  /** The hits leaf by leaf, in text order. */
  function Report(code: string, t: Tables, leaves: seq<Placed>): seq<Hit> {
    if leaves == [] then [] else HitsAt(code, t, leaves[0].around, leaves[0].pos) + Report(code, t, leaves[1..])
  }

  lemma {:induction false} ReportConcat(code: string, t: Tables, a: seq<Placed>, b: seq<Placed>)
    ensures Report(code, t, a + b) == Report(code, t, a) + Report(code, t, b)
  {
    if a == [] {
      assert a + b == b;
    } else {
      assert (a + b)[1..] == a[1..] + b;
      ReportConcat(code, t, a[1..], b);
    }
  }

  /** A leaf is reported once if it deserves a hit and not at all otherwise. */
  lemma HitIsDeserved(code: string, t: Tables, leaf: Placed)
    ensures var hits := HitsAt(code, t, leaf.around, leaf.pos);
      |hits| <= 1 && forall hit :: hits == [hit] <==> Deserves(code, t, leaf, hit)
  {
    forall hit: Hit
      ensures HitsAt(code, t, leaf.around, leaf.pos) == [hit] <==> Deserves(code, t, leaf, hit)
    {
      NearestIsInnermost(leaf.around, hit.forLine);
    }
  }

  lemma FlattenCons(tree: Tree, rest: Forest, after: seq<Token>)
    ensures Flatten(Cons(tree, rest)) + after == TreeTokens(tree) + (Flatten(rest) + after)
  {
    assert Flatten(Cons(tree, rest)) == TreeTokens(tree) + Flatten(rest);
    Onto(TreeTokens(tree), Flatten(rest), after);
  }

  lemma Onto(a: seq<Token>, b: seq<Token>, c: seq<Token>)
    ensures (a + b) + c == a + (b + c)
  {
  }

  lemma Joined(all: seq<Hit>, here: seq<Hit>, tail: seq<Hit>, there: seq<Hit>, end: seq<Hit>)
    requires all == here + tail && tail == there + end
    ensures all == here + there + end
  {
  }

  /** Hits that go leaf by leaf, in order: the hit a leaf deserves, or none if it deserves none. */
  ghost predicate LeafByLeaf(code: string, t: Tables, leaves: seq<Placed>, hits: seq<Hit>)
    decreases |leaves|
  {
    if leaves == [] then hits == []
    else if exists hit :: Deserves(code, t, leaves[0], hit) then
      hits != [] && Deserves(code, t, leaves[0], hits[0]) && LeafByLeaf(code, t, leaves[1..], hits[1..])
    else LeafByLeaf(code, t, leaves[1..], hits)
  }

  lemma {:induction false} ReportIsLeafByLeaf(code: string, t: Tables, leaves: seq<Placed>)
    ensures LeafByLeaf(code, t, leaves, Report(code, t, leaves))
    decreases |leaves|
  {
    if leaves == [] {
    } else {
      var here, rest := HitsAt(code, t, leaves[0].around, leaves[0].pos), Report(code, t, leaves[1..]);
      HitIsDeserved(code, t, leaves[0]);
      ReportIsLeafByLeaf(code, t, leaves[1..]);
      if here == [] {
        assert here + rest == rest;
      } else {
        assert here == [here[0]] && (here + rest)[0] == here[0] && (here + rest)[1..] == rest;
      }
    }
  }

  /** Walking a flattened forest reports its leaves and leaves the stack as it was. */
  lemma {:induction false} WalkReportsForest(code: string, t: Tables, f: Forest, after: seq<Token>, stack: seq<Frame>)
    ensures Walk(code, t, Flatten(f) + after, stack) ==
      Report(code, t, Leaves(t, f, stack)) + Walk(code, t, after, stack)
    decreases f
  {
    match f
    case Nil =>
      assert Flatten(f) + after == after;
    case Cons(tree, rest) =>
      var tail := Flatten(rest) + after;
      var here, there := LeavesOf(t, tree, stack), Leaves(t, rest, stack);
      FlattenCons(tree, rest, after);
      WalkReportsTree(code, t, tree, tail, stack);
      WalkReportsForest(code, t, rest, after, stack);
      ReportConcat(code, t, here, there);
      Joined(Walk(code, t, TreeTokens(tree) + tail, stack), Report(code, t, here), Walk(code, t, tail, stack),
             Report(code, t, there), Walk(code, t, after, stack));
  }

  function LeavesOf(t: Tables, tree: Tree, around: seq<Frame>): seq<Placed> {
    match tree
    case Leaf(p) => [Placed(p, around)]
    case Block(at, kids) => Leaves(t, kids, around + [FrameAt(t, at)])
  }

  function TreeTokens(tree: Tree): seq<Token> {
    match tree
    case Leaf(p) => [At(p)]
    case Block(at, kids) => [Open(at)] + Flatten(kids) + [Shut]
  }

  lemma {:induction false} WalkReportsTree(code: string, t: Tables, tree: Tree, after: seq<Token>, stack: seq<Frame>)
    ensures Walk(code, t, TreeTokens(tree) + after, stack) ==
      Report(code, t, LeavesOf(t, tree, stack)) + Walk(code, t, after, stack)
    decreases tree
  {
    match tree
    case Leaf(p) =>
      WalkLeaf(code, t, p, after, stack);
    case Block(at, kids) =>
      var inner, deeper := [Shut] + after, stack + [FrameAt(t, at)];
      assert Walk(code, t, TreeTokens(tree) + after, stack) == Walk(code, t, Flatten(kids) + inner, deeper) by {
        assert TreeTokens(tree) + after == [Open(at)] + (Flatten(kids) + inner);
        WalkOpen(code, t, at, Flatten(kids) + inner, stack);
      }
      assert Walk(code, t, inner, deeper) == Walk(code, t, after, stack) by {
        WalkShut(code, t, after, stack, FrameAt(t, at));
      }
      WalkReportsForest(code, t, kids, inner, deeper);
  }

  lemma WalkLeaf(code: string, t: Tables, p: nat, after: seq<Token>, stack: seq<Frame>)
    ensures Walk(code, t, [At(p)] + after, stack) == HitsAt(code, t, stack, p) + Walk(code, t, after, stack)
    ensures Report(code, t, [Placed(p, stack)]) == HitsAt(code, t, stack, p)
  {
    assert ([At(p)] + after)[1..] == after;
  }

  lemma WalkOpen(code: string, t: Tables, at: nat, after: seq<Token>, stack: seq<Frame>)
    ensures Walk(code, t, [Open(at)] + after, stack) == Walk(code, t, after, stack + [FrameAt(t, at)])
  {
    assert ([Open(at)] + after)[1..] == after;
  }

  lemma WalkShut(code: string, t: Tables, after: seq<Token>, stack: seq<Frame>, frame: Frame)
    ensures Walk(code, t, [Shut] + after, stack + [frame]) == Walk(code, t, after, stack)
  {
    assert ([Shut] + after)[1..] == after && (stack + [frame])[..|stack|] == stack;
  }

  // ---- the same on the tables ----

  /** A position of code with the opening braces around it, outermost first. */
  datatype Site = Site(pos: nat, braces: seq<nat>)

  function Sites(f: Forest, around: seq<nat>): seq<Site> {
    match f
    case Nil => []
    case Cons(Leaf(p), rest) => [Site(p, around)] + Sites(rest, around)
    case Cons(Block(at, kids), rest) => Sites(kids, around + [at]) + Sites(rest, around)
  }

  /** An assert some brace around which opens a for on line l, with no for and no lambda inside it. */
  ghost predicate InForAt(t: Tables, site: Site, l: nat) {
    site.pos in t.assertStarts &&
    exists k :: 0 <= k < |site.braces| && site.braces[k] in t.forOpens && t.forOpens[site.braces[k]] == l &&
                forall j :: k < j < |site.braces| ==> site.braces[j] !in t.forOpens && site.braces[j] !in t.lambdaOpens
  }

  /** The hits go site by site: one for each assert so enclosed, with its own line and the line of the for. */
  ghost predicate SiteBySite(code: string, t: Tables, sites: seq<Site>, hits: seq<Hit>)
    decreases |sites|
  {
    if sites == [] then hits == []
    else if exists l :: InForAt(t, sites[0], l) then
      hits != [] && InForAt(t, sites[0], hits[0].forLine) && hits[0].lineno == LineOf(code, sites[0].pos) &&
      SiteBySite(code, t, sites[1..], hits[1..])
    else SiteBySite(code, t, sites[1..], hits)
  }

  function Framed(t: Tables, braces: seq<nat>): (r: seq<Frame>)
    ensures |r| == |braces|
  {
    seq(|braces|, k requires 0 <= k < |braces| => FrameAt(t, braces[k]))
  }

  function AllFramed(t: Tables, sites: seq<Site>): (r: seq<Placed>)
    ensures |r| == |sites|
  {
    seq(|sites|, k requires 0 <= k < |sites| => Placed(sites[k].pos, Framed(t, sites[k].braces)))
  }

  lemma {:induction false} LeavesAreSites(t: Tables, f: Forest, around: seq<nat>)
    ensures Leaves(t, f, Framed(t, around)) == AllFramed(t, Sites(f, around))
    decreases f
  {
    match f
    case Nil =>
    case Cons(Leaf(p), rest) =>
      LeavesAreSites(t, rest, around);
    case Cons(Block(at, kids), rest) =>
      LeavesAreSites(t, kids, around + [at]);
      LeavesAreSites(t, rest, around);
      assert Framed(t, around + [at]) == Framed(t, around) + [FrameAt(t, at)];
  }

  /** Deserving a hit, read off the tables. */
  lemma DeservesIff(code: string, t: Tables, site: Site, hit: Hit)
    ensures Deserves(code, t, Placed(site.pos, Framed(t, site.braces)), hit) <==>
      InForAt(t, site, hit.forLine) && hit.lineno == LineOf(code, site.pos)
  {
    var around := Framed(t, site.braces);
    if Deserves(code, t, Placed(site.pos, around), hit) {
      var k: nat :| Innermost(around, k) && around[k] == For(hit.forLine);
      assert site.braces[k] in t.forOpens && t.forOpens[site.braces[k]] == hit.forLine;
      forall j | k < j < |site.braces| ensures site.braces[j] !in t.forOpens && site.braces[j] !in t.lambdaOpens {
        assert around[j] == Other;
      }
    }
    if InForAt(t, site, hit.forLine) && hit.lineno == LineOf(code, site.pos) {
      var k :| 0 <= k < |site.braces| && site.braces[k] in t.forOpens && t.forOpens[site.braces[k]] == hit.forLine &&
        forall j :: k < j < |site.braces| ==> site.braces[j] !in t.forOpens && site.braces[j] !in t.lambdaOpens;
      assert Innermost(around, k) && around[k] == For(hit.forLine);
    }
  }

  lemma {:induction false} SitesReported(code: string, t: Tables, sites: seq<Site>, hits: seq<Hit>)
    requires LeafByLeaf(code, t, AllFramed(t, sites), hits)
    ensures SiteBySite(code, t, sites, hits)
    decreases |sites|
  {
    if sites == [] {
    } else {
      var s, leaf := sites[0], AllFramed(t, sites)[0];
      assert AllFramed(t, sites)[1..] == AllFramed(t, sites[1..]);
      forall hit ensures Deserves(code, t, leaf, hit) <==>
        InForAt(t, s, hit.forLine) && hit.lineno == LineOf(code, s.pos)
      {
        DeservesIff(code, t, s, hit);
      }
      if exists l :: InForAt(t, s, l) {
        var l :| InForAt(t, s, l);
        assert Deserves(code, t, leaf, Hit(LineOf(code, s.pos), l));
        SitesReported(code, t, sites[1..], hits[1..]);
      } else {
        SitesReported(code, t, sites[1..], hits);
      }
    }
  }

  /**
   On any properly nested text the stack walker reports what the tables say of each position and its braces, in order.
   */
  lemma WalkerRefinesTree(code: string, t: Tables) returns (f: Forest)
    requires Nested(Tokens(code, 0, Code), 0)
    ensures Flatten(f) == Tokens(code, 0, Code)
    ensures SiteBySite(code, t, Sites(f, []), Walk(code, t, Tokens(code, 0, Code), []))
  {
    f := NestedIsTree(Tokens(code, 0, Code));
    WalkReportsForest(code, t, f, [], []);
    assert Flatten(f) + [] == Flatten(f);
    assert Walk(code, t, [], []) == [];
    assert Framed(t, []) == [];
    LeavesAreSites(t, f, []);
    ReportIsLeafByLeaf(code, t, Leaves(t, f, []));
    assert Report(code, t, Leaves(t, f, [])) + [] == Report(code, t, Leaves(t, f, []));
    SitesReported(code, t, Sites(f, []), Walk(code, t, Tokens(code, 0, Code), []));
  }
}
