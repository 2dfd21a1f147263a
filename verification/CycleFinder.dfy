/**
 The include-cycle check: a depth-first search that colours nodes grey while they are on the stack and
 black once they are done, and reports the first edge back into the stack.
 */
module CycleFinder {
  import opened Collections
  import opened Wrappers

  type Node = string

  /** An adjacency list; a node that only ever appears as a target has no entry. */
  type Graph = map<Node, seq<Node>>

  function Successors(g: Graph, n: Node): seq<Node> {
    if n in g then g[n] else []
  }

  function AllNodes(g: Graph): set<Node> {
    g.Keys + set n, s | n in g.Keys && s in g[n] :: s
  }

  ghost predicate Edge(g: Graph, a: Node, b: Node) {
    b in Successors(g, a)
  }

  ghost predicate IsPath(g: Graph, p: seq<Node>) {
    forall i :: 0 <= i < |p| - 1 ==> Edge(g, p[i], p[i + 1])
  }

  /** A walk along real edges back to where it started. */
  ghost predicate ClosedWalk(g: Graph, c: seq<Node>) {
    |c| >= 2 && c[0] == c[|c| - 1] && IsPath(g, c)
  }

  const GREY := 1
  const BLACK := 2

  /** Every successor of a ranked node is ranked lower. */
  ghost predicate Descending(g: Graph, rank: map<Node, nat>) {
    forall n, s :: n in rank && Edge(g, n, s) ==> s in rank && rank[s] < rank[n]
  }

  lemma {:induction false} RankDrops(g: Graph, rank: map<Node, nat>, p: seq<Node>, k: nat)
    requires Descending(g, rank) && IsPath(g, p) && k < |p| && p[0] in rank
    ensures p[k] in rank && rank[p[k]] + k <= rank[p[0]]
  {
    if k == 0 {
    } else {
      RankDrops(g, rank, p, k - 1);
      assert Edge(g, p[k - 1], p[k]);
    }
  }

  /** A graph whose nodes can all be ranked has no closed walk. */
  lemma RankedIsAcyclic(g: Graph, rank: map<Node, nat>, c: seq<Node>)
    requires Descending(g, rank) && g.Keys <= rank.Keys
    ensures !ClosedWalk(g, c)
  {
    if ClosedWalk(g, c) {
      assert Edge(g, c[0], c[1]);
      RankDrops(g, rank, c, |c| - 1);
    }
  }

  /**
   The invariant of the search.  Grey nodes are exactly the stack, which is a path; black nodes are
   ranked in the order they were finished, and all their edges lead to nodes finished earlier.
   */
  ghost predicate Consistent(g: Graph, state: map<Node, int>, stack: seq<Node>, rank: map<Node, nat>) {
    && state.Keys <= AllNodes(g)
    && (forall n :: n in state ==> state[n] == GREY || state[n] == BLACK)
    && (forall n :: n in stack <==> n in state && state[n] == GREY)
    && (forall n :: n in rank <==> n in state && state[n] == BLACK)
    && Distinct(stack) && IsPath(g, stack)
    && Descending(g, rank)
  }

  lemma PushKeepsConsistent(g: Graph, state: map<Node, int>, stack: seq<Node>, rank: map<Node, nat>, n: Node)
    requires Consistent(g, state, stack, rank) && n in AllNodes(g) && n !in state
    requires stack != [] ==> Edge(g, stack[|stack| - 1], n)
    ensures Consistent(g, state[n := GREY], stack + [n], rank)
  {
    var state', stack' := state[n := GREY], stack + [n];
    forall m
      ensures m in stack' <==> m in state' && state'[m] == GREY
    {
      assert m in stack' <==> m in stack || m == n;
    }
  }

  lemma PopKeepsConsistent(g: Graph, state: map<Node, int>, stack: seq<Node>, rank: map<Node, nat>, n: Node, top: nat)
    requires Consistent(g, state, stack + [n], rank)
    requires forall s :: Edge(g, n, s) ==> s in state && state[s] == BLACK
    requires forall m :: m in rank ==> rank[m] < top
    ensures Consistent(g, state[n := BLACK], stack, rank[n := top])
  {
    var grey := stack + [n];
    assert grey[|stack|] == n;
    assert n !in stack by {
      forall i | 0 <= i < |stack| ensures stack[i] != n {
        assert grey[i] == stack[i] && grey[i] != grey[|stack|];
      }
    }
    forall m
      ensures m in stack <==> m in state[n := BLACK] && state[n := BLACK][m] == GREY
    {
      assert m in grey <==> m in stack || m == n;
    }
    forall i | 0 <= i < |stack| - 1
      ensures Edge(g, stack[i], stack[i + 1])
    {
      assert grey[i] == stack[i] && grey[i + 1] == stack[i + 1];
    }
    forall i, j | 0 <= i < j < |stack|
      ensures stack[i] != stack[j]
    {
      assert grey[i] == stack[i] && grey[j] == stack[j];
    }
  }

  /** An edge from the top of the stack back into it closes a simple cycle. */
  lemma BackEdgeCloses(g: Graph, stack: seq<Node>, at: nat, n: Node)
    requires IsPath(g, stack) && Distinct(stack) && at < |stack| && stack[at] == n
    requires Edge(g, stack[|stack| - 1], n)
    ensures ClosedWalk(g, stack[at..] + [n]) && Distinct((stack[at..] + [n])[1..])
  {
    var c := stack[at..] + [n];
    forall i | 0 <= i < |c| - 1
      ensures Edge(g, c[i], c[i + 1])
    {
      assert c[i] == stack[at + i];
      assert i + 1 < |c| - 1 ==> c[i + 1] == stack[at + i + 1];
    }
    forall i, j | 0 <= i < j < |c| - 1
      ensures c[1..][i] != c[1..][j]
    {
      assert c[1..][i] == stack[at + i + 1];
      assert c[1..][j] == if j == |c| - 2 then stack[at] else stack[at + j + 1];
    }
  }

  /** What was coloured keeps its colour. */
  ghost predicate Kept(before: map<Node, int>, after: map<Node, int>) {
    forall n :: n in before ==> n in after && after[n] == before[n]
  }

  lemma EdgeInGraph(g: Graph, a: Node, b: Node)
    requires Edge(g, a, b)
    ensures b in AllNodes(g)
  {
  }

  lemma KeyInGraph(g: Graph, n: Node)
    requires n in g
    ensures n in AllNodes(g)
  {
  }

  lemma AllBlackIsRanked(g: Graph, state: map<Node, int>, rank: map<Node, nat>)
    requires Consistent(g, state, [], rank) && g.Keys <= state.Keys
    ensures Descending(g, rank) && g.Keys <= rank.Keys
  {
    forall n | n in g
      ensures n in rank
    {
      assert n !in [];
      assert state[n] == BLACK;
    }
  }

  class Search {
    const graph: Graph
    var state: map<Node, int>
    var stack: seq<Node>
    ghost var rank: map<Node, nat>
    ghost var finished: nat

    constructor (g: Graph)
      ensures graph == g && state == map[] && stack == [] && Valid()
    {
      graph, state, stack, rank, finished := g, map[], [], map[], 0;
    }

    ghost predicate Valid()
      reads this
    {
      Consistent(graph, state, stack, rank) && forall n :: n in rank ==> rank[n] < finished
    }

    method Enter(node: Node)
      requires Valid() && node in AllNodes(graph) && node !in state
      requires stack != [] ==> Edge(graph, stack[|stack| - 1], node)
      modifies this`state, this`stack
      ensures Valid() && stack == old(stack) + [node] && state == old(state)[node := GREY]
    {
      PushKeepsConsistent(graph, state, stack, rank, node);
      state := state[node := GREY];
      stack := stack + [node];
    }

    method Leave(node: Node, ghost below: seq<Node>)
      requires Valid() && stack == below + [node]
      requires forall s :: Edge(graph, node, s) ==> s in state && state[s] == BLACK
      modifies this
      ensures Valid() && stack == below && state == old(state)[node := BLACK]
    {
      PopKeepsConsistent(graph, state, below, rank, node, finished);
      stack := stack[..|stack| - 1];
      assert stack == below;
      state, rank, finished := state[node := BLACK], rank[node := finished], finished + 1;
    }

    method Visit(node: Node) returns (found: Option<seq<Node>>)
      requires Valid() && node in AllNodes(graph) && node !in state
      requires stack != [] ==> Edge(graph, stack[|stack| - 1], node)
      modifies this
      ensures found.Some? ==> ClosedWalk(graph, found.value) && Distinct(found.value[1..])
      ensures found.None? ==> Valid() && stack == old(stack) && node in state && state[node] == BLACK
      ensures found.None? ==> Kept(old(state), state)
      decreases AllNodes(graph) - state.Keys, 0
    {
      Enter(node);
      found := FollowAll(node);
      if found.None? {
        Leave(node, old(stack));
      }
    }

    /** Every edge out of the node on top of the stack, in list order. */
    method FollowAll(node: Node) returns (found: Option<seq<Node>>)
      requires Valid() && stack != [] && stack[|stack| - 1] == node
      modifies this
      ensures found.Some? ==> ClosedWalk(graph, found.value) && Distinct(found.value[1..])
      ensures found.None? ==> Valid() && stack == old(stack) && Kept(old(state), state)
      ensures found.None? ==> forall s :: Edge(graph, node, s) ==> s in state && state[s] == BLACK
      decreases AllNodes(graph) - state.Keys, 2
    {
      found := None;
      var next := Successors(graph, node);
      for k := 0 to |next|
        invariant Valid() && stack == old(stack) && Kept(old(state), state)
        invariant found.None? && forall j :: 0 <= j < k ==> next[j] in state && state[next[j]] == BLACK
      {
        ghost var before := state;
        assert Edge(graph, node, next[k]);
        found := Follow(next[k]);
        if found.Some? {
          return;
        }
        assert forall j :: 0 <= j < k ==> next[j] in before && before[next[j]] == BLACK;
      }
    }

    /** One edge out of the top of the stack: a cycle if it leads back, a visit if it leads somewhere new. */
    method Follow(nxt: Node) returns (found: Option<seq<Node>>)
      requires Valid() && stack != [] && Edge(graph, stack[|stack| - 1], nxt)
      modifies this
      ensures found.Some? ==> ClosedWalk(graph, found.value) && Distinct(found.value[1..])
      ensures found.None? ==> Valid() && stack == old(stack) && nxt in state && state[nxt] == BLACK
      ensures found.None? ==> Kept(old(state), state)
      decreases AllNodes(graph) - state.Keys, 1
    {
      if nxt in state && state[nxt] == GREY {
        var at := IndexOf(stack, nxt);
        BackEdgeCloses(graph, stack, at, nxt);
        return Some(stack[at..] + [nxt]);
      }
      found := None;
      if nxt !in state {
        EdgeInGraph(graph, stack[|stack| - 1], nxt);
        found := Visit(nxt);
      }
    }

    method VisitAll(order: seq<Node>) returns (found: Option<seq<Node>>)
      requires Valid() && stack == []
      requires forall n :: n in order ==> n in graph
      modifies this
      ensures found.Some? ==> ClosedWalk(graph, found.value) && Distinct(found.value[1..])
      ensures found.None? ==> Valid() && stack == [] && forall n :: n in order ==> n in state
    {
      found := None;
      for k := 0 to |order|
        invariant Valid() && stack == []
        invariant found.None? && forall j :: 0 <= j < k ==> order[j] in state
      {
        if order[k] !in state {
          KeyInGraph(graph, order[k]);
          found := Visit(order[k]);
          if found.Some? {
            return;
          }
        }
      }
    }
  }

  method IndexOf(s: seq<Node>, x: Node) returns (i: nat)
    requires x in s
    ensures i < |s| && s[i] == x && x !in s[..i]
  {
    i := 0;
    while s[i] != x
      invariant i < |s| && x !in s[..i]
      decreases |s| - i
    {
      i := i + 1;
    }
  }

  /**
   The script's function; `order` lists the keys (the script sorts them). A cycle is reported exactly when the graph
   has one.
   */
  method FindCycle(graph: Graph, order: seq<Node>) returns (found: Option<seq<Node>>)
    requires forall n :: n in order <==> n in graph
    ensures found.Some? ==> ClosedWalk(graph, found.value) && Distinct(found.value[1..])
    ensures found.None? <==> forall c :: !ClosedWalk(graph, c)
  {
    var search := new Search(graph);
    found := search.VisitAll(order);
    if found.None? {
      AllBlackIsRanked(graph, search.state, search.rank);
      forall c
        ensures !ClosedWalk(graph, c)
      {
        RankedIsAcyclic(graph, search.rank, c);
      }
    }
  }
}
