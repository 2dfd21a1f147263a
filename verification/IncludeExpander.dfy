/**
 Inlining of local include directives with a shared set of files already seen, so that a header
 reached from several places, or from itself, contributes its text once.

 A text is a list of items: lines, and include directives already recognised.  `Disk` holds the files
 that exist and how a directive's operand resolves against a directory.
 */
module IncludeExpander {
  import opened Collections

  type Path = string

  datatype Item = Line(text: string) | Include(rel: string)

  datatype File = File(dir: string, items: seq<Item>)

  datatype Disk = Disk(resolve: (string, string) -> Path, files: map<Path, File>)

  /** Where an output item was written: in the text handed in, or in an inlined file. */
  datatype Origin = Root | In(path: Path)

  datatype Piece = Piece(origin: Origin, item: Item)

  /** The expanded text, the files seen, and the order in which files were inlined. */
  datatype Expansion = Expansion(out: seq<Piece>, seen: set<Path>, trace: seq<Path>)

  predicate Exists(disk: Disk, dir: string, item: Item) {
    item.Include? && disk.resolve(dir, item.rel) in disk.files
  }

  function Target(disk: Disk, dir: string, item: Item): Path
    requires Exists(disk, dir, item)
  {
    disk.resolve(dir, item.rel)
  }

  /** The expander as a function of the files already seen. */
  function Expand(disk: Disk, items: seq<Item>, dir: string, origin: Origin, seen: set<Path>): (r: Expansion)
    ensures seen <= r.seen
    decreases disk.files.Keys - seen, |items|
  {
    if items == [] then Expansion([], seen, [])
    else if !Exists(disk, dir, items[0]) then
      var rest := Expand(disk, items[1..], dir, origin, seen);
      Expansion([Piece(origin, items[0])] + rest.out, rest.seen, rest.trace)
    else
      var t := Target(disk, dir, items[0]);
      if t in seen then
        Expand(disk, items[1..], dir, origin, seen)
      else
        assert t in disk.files.Keys - seen;
        var body := Expand(disk, disk.files[t].items, disk.files[t].dir, In(t), seen + {t});
        var rest := Expand(disk, items[1..], dir, origin, body.seen);
        Expansion(body.out + rest.out, rest.seen, [t] + body.trace + rest.trace)
  }

  /** One item more in front. */
  lemma ExpandFirst(disk: Disk, item: Item, tail: seq<Item>, dir: string, origin: Origin, seen: set<Path>)
    ensures var r := Expand(disk, [item] + tail, dir, origin, seen);
      if !Exists(disk, dir, item) then
        r.out == [Piece(origin, item)] + Expand(disk, tail, dir, origin, seen).out &&
        r.seen == Expand(disk, tail, dir, origin, seen).seen
      else if Target(disk, dir, item) in seen then r == Expand(disk, tail, dir, origin, seen)
      else
        var t := Target(disk, dir, item);
        var body := Expand(disk, disk.files[t].items, disk.files[t].dir, In(t), seen + {t});
        r.out == body.out + Expand(disk, tail, dir, origin, body.seen).out &&
        r.seen == Expand(disk, tail, dir, origin, body.seen).seen
  {
    assert ([item] + tail)[1..] == tail;
  }

  class Expander {
    const disk: Disk
    var seen: set<Path>

    constructor (d: Disk)
      ensures disk == d && seen == {}
    {
      disk, seen := d, {};
    }

    /** One directive: nothing, itself, or the expanded file. */
    method ExpandItem(item: Item, dir: string, origin: Origin, ghost tail: seq<Item>) returns (out: seq<Piece>)
      modifies this
      ensures old(seen) <= seen
      ensures var r, rest := Expand(disk, [item] + tail, dir, origin, old(seen)), Expand(disk, tail, dir, origin, seen);
        r.out == out + rest.out && r.seen == rest.seen
      decreases disk.files.Keys - seen, 0
    {
      ExpandFirst(disk, item, tail, dir, origin, seen);
      out := [];
      if !Exists(disk, dir, item) {
        out := [Piece(origin, item)];
      } else {
        var t := Target(disk, dir, item);
        if t !in seen {
          assert t in disk.files.Keys - seen;
          seen := seen + {t};
          out := ResolveLocalIncludes(disk.files[t].items, disk.files[t].dir, In(t));
        }
      }
    }

    /** The replacement over a text, directive by directive. */
    method ResolveLocalIncludes(items: seq<Item>, dir: string, origin: Origin) returns (out: seq<Piece>)
      modifies this
      ensures var r := Expand(disk, items, dir, origin, old(seen)); out == r.out && seen == r.seen
      decreases disk.files.Keys - seen, 1
    {
      out := [];
      ghost var rest := Expand(disk, items, dir, origin, seen);
      ghost var whole := rest;
      assert items[0..] == items;
      for i := 0 to |items|
        invariant old(seen) <= seen && rest == Expand(disk, items[i..], dir, origin, seen)
        invariant whole.out == out + rest.out && whole.seen == rest.seen
      {
        assert items[i..] == [items[i]] + items[i + 1..];
        assert disk.files.Keys - seen <= disk.files.Keys - old(seen);
        var piece := ExpandItem(items[i], dir, origin, items[i + 1..]);
        out := out + piece;
        rest := Expand(disk, items[i + 1..], dir, origin, seen);
      }
    }
  }

  // ---- which files are inlined ----

  function Targets(disk: Disk, items: seq<Item>, dir: string): set<Path> {
    set item | item in items && Exists(disk, dir, item) :: Target(disk, dir, item)
  }

  function Successors(disk: Disk, p: Path): set<Path> {
    if p in disk.files then Targets(disk, disk.files[p].items, disk.files[p].dir) else {}
  }

  lemma TargetsCons(disk: Disk, items: seq<Item>, dir: string)
    requires items != []
    ensures Targets(disk, items, dir) ==
      Targets(disk, items[1..], dir) + if Exists(disk, dir, items[0]) then {Target(disk, dir, items[0])} else {}
  {
    assert items == [items[0]] + items[1..];
    forall item | item in items
      ensures item == items[0] || item in items[1..]
    {
    }
  }

  /** A chain of includes from one of the files in `start` to p. */
  ghost predicate Chain(disk: Disk, start: set<Path>, chain: seq<Path>, p: Path) {
    && chain != [] && chain[0] in start && chain[|chain| - 1] == p
    && forall i :: 0 <= i < |chain| - 1 ==> chain[i + 1] in Successors(disk, chain[i])
  }

  ghost predicate Reachable(disk: Disk, start: set<Path>, p: Path) {
    exists chain :: Chain(disk, start, chain, p)
  }

  lemma ReachStep(disk: Disk, start: set<Path>, p: Path, q: Path)
    requires Reachable(disk, start, p) && q in Successors(disk, p)
    ensures Reachable(disk, start, q)
  {
    var chain :| Chain(disk, start, chain, p);
    assert Chain(disk, start, chain + [q], q);
  }

  lemma ReachStart(disk: Disk, start: set<Path>, p: Path)
    requires p in start
    ensures Reachable(disk, start, p)
  {
    assert Chain(disk, start, [p], p);
  }

  /** A set of files closed under inclusion, apart from those in `open`. */
  ghost predicate ClosedBut(disk: Disk, seen: set<Path>, open: set<Path>) {
    forall p :: p in seen && p !in open ==> Successors(disk, p) <= seen
  }

  lemma {:induction false} ChainStaysInside(disk: Disk, start: set<Path>, seen: set<Path>, chain: seq<Path>, k: nat)
    requires start <= seen && ClosedBut(disk, seen, {}) && k < |chain|
    requires chain[0] in start && forall i :: 0 <= i < |chain| - 1 ==> chain[i + 1] in Successors(disk, chain[i])
    ensures chain[k] in seen
  {
    if k == 0 {
    } else {
      ChainStaysInside(disk, start, seen, chain, k - 1);
    }
  }

  lemma DistinctConcat(a: seq<Path>, b: seq<Path>)
    requires Distinct(a) && Distinct(b) && Elements(a) !! Elements(b)
    ensures Distinct(a + b)
  {
    forall i, j | 0 <= i < j < |a + b|
      ensures (a + b)[i] != (a + b)[j]
    {
      if i < |a| <= j {
        assert a[i] in Elements(a) && b[j - |a|] in Elements(b);
      }
    }
  }

  /** The trace names each newly seen file once. */
  lemma {:induction false} TraceIsNew(disk: Disk, items: seq<Item>, dir: string, origin: Origin, seen: set<Path>)
    ensures var r := Expand(disk, items, dir, origin, seen);
      Distinct(r.trace) && r.seen == seen + Elements(r.trace) && seen !! Elements(r.trace)
    decreases disk.files.Keys - seen, |items|
  {
    if items == [] {
    } else {
      if !Exists(disk, dir, items[0]) {
        TraceIsNew(disk, items[1..], dir, origin, seen);
      } else {
        var t := Target(disk, dir, items[0]);
        if t in seen {
          TraceIsNew(disk, items[1..], dir, origin, seen);
        } else {
          assert t in disk.files.Keys - seen;
          var f := disk.files[t];
          TraceIsNew(disk, f.items, f.dir, In(t), seen + {t});
          var body := Expand(disk, f.items, f.dir, In(t), seen + {t});
          TraceIsNew(disk, items[1..], dir, origin, body.seen);
          var rest := Expand(disk, items[1..], dir, origin, body.seen);
          DistinctConcat([t], body.trace);
          ElementsConcat([t], body.trace);
          DistinctConcat([t] + body.trace, rest.trace);
          ElementsConcat([t] + body.trace, rest.trace);
        }
      }
    }
  }

  /** After an expansion every directive's target has been seen, and so have all targets of the new files. */
  lemma {:induction false} ExpandCloses(disk: Disk, items: seq<Item>, dir: string, origin: Origin, seen: set<Path>,
    open: set<Path>)
    requires ClosedBut(disk, seen, open)
    ensures var r := Expand(disk, items, dir, origin, seen);
      Targets(disk, items, dir) <= r.seen && ClosedBut(disk, r.seen, open)
    decreases disk.files.Keys - seen, |items|
  {
    if items == [] {
    } else {
      TargetsCons(disk, items, dir);
      if !Exists(disk, dir, items[0]) {
        ExpandCloses(disk, items[1..], dir, origin, seen, open);
      } else {
        var t := Target(disk, dir, items[0]);
        if t in seen {
          ExpandCloses(disk, items[1..], dir, origin, seen, open);
        } else {
          assert t in disk.files.Keys - seen;
          var f := disk.files[t];
          ExpandCloses(disk, f.items, f.dir, In(t), seen + {t}, open + {t});
          var body := Expand(disk, f.items, f.dir, In(t), seen + {t});
          assert ClosedBut(disk, body.seen, open);
          ExpandCloses(disk, items[1..], dir, origin, body.seen, open);
        }
      }
    }
  }

  lemma {:induction false} TraceIsReachable(disk: Disk, items: seq<Item>, dir: string, origin: Origin, seen: set<Path>,
    start: set<Path>)
    requires forall p :: p in Targets(disk, items, dir) ==> Reachable(disk, start, p)
    ensures var r := Expand(disk, items, dir, origin, seen);
      forall p :: p in r.trace ==> p in disk.files && Reachable(disk, start, p)
    decreases disk.files.Keys - seen, |items|
  {
    if items == [] {
    } else {
      TargetsCons(disk, items, dir);
      if !Exists(disk, dir, items[0]) {
        TraceIsReachable(disk, items[1..], dir, origin, seen, start);
      } else {
        var t := Target(disk, dir, items[0]);
        if t in seen {
          TraceIsReachable(disk, items[1..], dir, origin, seen, start);
        } else {
          assert t in disk.files.Keys - seen;
          var f := disk.files[t];
          forall p | p in Targets(disk, f.items, f.dir)
            ensures Reachable(disk, start, p)
          {
            ReachStep(disk, start, t, p);
          }
          TraceIsReachable(disk, f.items, f.dir, In(t), seen + {t}, start);
          var body := Expand(disk, f.items, f.dir, In(t), seen + {t});
          TraceIsReachable(disk, items[1..], dir, origin, body.seen, start);
        }
      }
    }
  }

  /** From a fresh start the files inlined are exactly those reachable, each once. */
  lemma InlinesExactlyReachable(disk: Disk, items: seq<Item>, dir: string)
    ensures var r := Expand(disk, items, dir, Root, {});
      Distinct(r.trace) && forall p :: p in r.trace <==> Reachable(disk, Targets(disk, items, dir), p)
  {
    var r, start := Expand(disk, items, dir, Root, {}), Targets(disk, items, dir);
    TraceIsNew(disk, items, dir, Root, {});
    ExpandCloses(disk, items, dir, Root, {}, {});
    forall p | p in start
      ensures Reachable(disk, start, p)
    {
      ReachStart(disk, start, p);
    }
    TraceIsReachable(disk, items, dir, Root, {}, start);
    forall p | Reachable(disk, start, p)
      ensures p in r.trace
    {
      var chain :| Chain(disk, start, chain, p);
      ChainStaysInside(disk, start, r.seen, chain, |chain| - 1);
      assert p in Elements(r.trace);
    }
  }

  // ---- the order: first encounters of the unfolded include tree ----

  /** The files met by unfolding every directive, cutting a branch only where a file includes itself. */
  function Unfold(disk: Disk, items: seq<Item>, dir: string, above: set<Path>): seq<Path>
    decreases disk.files.Keys - above, |items|
  {
    if items == [] then []
    else
      var rest := Unfold(disk, items[1..], dir, above);
      if !Exists(disk, dir, items[0]) || Target(disk, dir, items[0]) in above then rest
      else
        var t := Target(disk, dir, items[0]);
        assert t in disk.files.Keys - above;
        [t] + Unfold(disk, disk.files[t].items, disk.files[t].dir, above + {t}) + rest
  }

  /** The first occurrence of each file not in `seen`. */
  function FirstNew(s: seq<Path>, seen: set<Path>): seq<Path> {
    if s == [] then []
    else if s[0] in seen then FirstNew(s[1..], seen)
    else [s[0]] + FirstNew(s[1..], seen + {s[0]})
  }

  lemma {:induction false} FirstNewConcat(a: seq<Path>, b: seq<Path>, seen: set<Path>)
    ensures FirstNew(a + b, seen) == FirstNew(a, seen) + FirstNew(b, seen + Elements(a))
  {
    if a == [] {
      assert a + b == b && seen + Elements(a) == seen;
    } else {
      assert (a + b)[1..] == a[1..] + b;
      assert Elements(a) == {a[0]} + Elements(a[1..]);
      if a[0] in seen {
        FirstNewConcat(a[1..], b, seen);
        assert seen + Elements(a[1..]) == seen + Elements(a);
      } else {
        FirstNewConcat(a[1..], b, seen + {a[0]});
        assert seen + {a[0]} + Elements(a[1..]) == seen + Elements(a);
      }
    }
  }

  lemma {:induction false} FirstNewOfSeen(s: seq<Path>, seen: set<Path>)
    requires Elements(s) <= seen
    ensures FirstNew(s, seen) == []
  {
    if s == [] {
    } else {
      assert s[0] in Elements(s);
      assert Elements(s[1..]) <= Elements(s);
      FirstNewOfSeen(s[1..], seen);
    }
  }

  /** Unfolding files that are all seen, closed but for the branch above, meets nothing new. */
  lemma {:induction false} UnfoldInside(disk: Disk, items: seq<Item>, dir: string, above: set<Path>, seen: set<Path>)
    requires Targets(disk, items, dir) <= seen && ClosedBut(disk, seen, above)
    ensures Elements(Unfold(disk, items, dir, above)) <= seen
    decreases disk.files.Keys - above, |items|
  {
    if items == [] {
    } else {
      TargetsCons(disk, items, dir);
      UnfoldInside(disk, items[1..], dir, above, seen);
      if Exists(disk, dir, items[0]) && Target(disk, dir, items[0]) !in above {
        var t := Target(disk, dir, items[0]);
        assert t in disk.files.Keys - above;
        var f := disk.files[t];
        assert Targets(disk, f.items, f.dir) == Successors(disk, t);
        UnfoldInside(disk, f.items, f.dir, above + {t}, seen);
        var deep, rest := Unfold(disk, f.items, f.dir, above + {t}), Unfold(disk, items[1..], dir, above);
        ElementsConcat([t], deep);
        ElementsConcat([t] + deep, rest);
      }
    }
  }

  /** The seen-set expansion inlines files in the order the unfolded include tree first meets them. */
  lemma {:induction false} TraceIsFirstEncounter(disk: Disk, items: seq<Item>, dir: string, origin: Origin,
    seen: set<Path>, above: set<Path>)
    requires above <= seen && ClosedBut(disk, seen, above)
    ensures var r, u := Expand(disk, items, dir, origin, seen), Unfold(disk, items, dir, above);
      r.trace == FirstNew(u, seen) && r.seen == seen + Elements(u)
    decreases disk.files.Keys - seen, |items|
  {
    if items == [] {
    } else {
      var tail := Unfold(disk, items[1..], dir, above);
      if !Exists(disk, dir, items[0]) {
        TraceIsFirstEncounter(disk, items[1..], dir, origin, seen, above);
      } else {
        var t := Target(disk, dir, items[0]);
        var f := disk.files[t];
        if t in seen {
          TraceIsFirstEncounter(disk, items[1..], dir, origin, seen, above);
          if t !in above {
            assert Targets(disk, f.items, f.dir) == Successors(disk, t);
            UnfoldInside(disk, f.items, f.dir, above + {t}, seen);
            var head := [t] + Unfold(disk, f.items, f.dir, above + {t});
            SkipSeen(head, tail, seen);
          }
        } else {
          assert t in disk.files.Keys - seen;
          TraceIsFirstEncounter(disk, f.items, f.dir, In(t), seen + {t}, above + {t});
          ExpandCloses(disk, f.items, f.dir, In(t), seen + {t}, above + {t});
          var body, deep := Expand(disk, f.items, f.dir, In(t), seen + {t}), Unfold(disk, f.items, f.dir, above + {t});
          assert ClosedBut(disk, body.seen, above);
          TraceIsFirstEncounter(disk, items[1..], dir, origin, body.seen, above);
          TakeNew(t, deep, tail, seen);
        }
      }
    }
  }

  lemma SkipSeen(head: seq<Path>, tail: seq<Path>, seen: set<Path>)
    requires Elements(head) <= seen
    ensures FirstNew(head + tail, seen) == FirstNew(tail, seen) && seen + Elements(head + tail) == seen + Elements(tail)
  {
    FirstNewConcat(head, tail, seen);
    FirstNewOfSeen(head, seen);
    ElementsConcat(head, tail);
    assert seen + Elements(head) == seen;
  }

  lemma TakeNew(t: Path, deep: seq<Path>, tail: seq<Path>, seen: set<Path>)
    requires t !in seen
    ensures FirstNew([t] + deep + tail, seen) ==
      [t] + FirstNew(deep, seen + {t}) + FirstNew(tail, seen + {t} + Elements(deep))
    ensures Elements([t] + deep + tail) == {t} + Elements(deep) + Elements(tail)
  {
    assert ([t] + deep + tail)[1..] == deep + tail;
    FirstNewConcat(deep, tail, seen + {t});
    ElementsConcat([t], deep);
    ElementsConcat([t] + deep, tail);
  }

  /** From a fresh start: depth-first, first-encounter order. */
  lemma DepthFirstOrder(disk: Disk, items: seq<Item>, dir: string)
    ensures Expand(disk, items, dir, Root, {}).trace == FirstNew(Unfold(disk, items, dir, {}), {})
  {
    TraceIsFirstEncounter(disk, items, dir, Root, {}, {});
  }

  // ---- what the output holds ----

  function DirOf(disk: Disk, dir: string, origin: Origin): string {
    match origin
    case Root => dir
    case In(p) => if p in disk.files then disk.files[p].dir else dir
  }

  /** The output's pieces that were written in one place, in order. */
  function Only(out: seq<Piece>, origin: Origin): seq<Piece> {
    if out == [] then []
    else (if out[0].origin == origin then [out[0]] else []) + Only(out[1..], origin)
  }

  /** A text without the directives whose target exists. */
  function Own(disk: Disk, items: seq<Item>, dir: string, origin: Origin): seq<Piece> {
    if items == [] then []
    else (if Exists(disk, dir, items[0]) then [] else [Piece(origin, items[0])]) + Own(disk, items[1..], dir, origin)
  }

  lemma {:induction false} OnlyConcat(a: seq<Piece>, b: seq<Piece>, origin: Origin)
    ensures Only(a + b, origin) == Only(a, origin) + Only(b, origin)
  {
    if a == [] {
      assert a + b == b;
    } else {
      assert (a + b)[1..] == a[1..] + b && (a + b)[0] == a[0];
      OnlyConcat(a[1..], b, origin);
      var first := if a[0].origin == origin then [a[0]] else [];
      assert first + (Only(a[1..], origin) + Only(b, origin)) == (first + Only(a[1..], origin)) + Only(b, origin);
    }
  }

  /**
   What the expansion of a text owes each place: its own remaining items if it was newly inlined, nothing otherwise.
   */
  ghost predicate Contributes(disk: Disk, items: seq<Item>, dir: string, origin: Origin, seen: set<Path>, q: Origin) {
    var r := Expand(disk, items, dir, origin, seen);
    Only(r.out, q) ==
      if q == origin then Own(disk, items, dir, origin)
      else if q.In? && q.path in disk.files && q.path in r.seen && q.path !in seen then
        Own(disk, disk.files[q.path].items, disk.files[q.path].dir, q)
      else []
  }

  lemma {:induction false} EachPlaceOnce(disk: Disk, items: seq<Item>, dir: string, origin: Origin, seen: set<Path>,
    q: Origin)
    requires origin.In? ==> origin.path in seen
    ensures Contributes(disk, items, dir, origin, seen, q)
    decreases disk.files.Keys - seen, |items|
  {
    if items == [] {
    } else {
      if !Exists(disk, dir, items[0]) {
        EachPlaceOnce(disk, items[1..], dir, origin, seen, q);
        var rest := Expand(disk, items[1..], dir, origin, seen);
        OnlyConcat([Piece(origin, items[0])], rest.out, q);
      } else {
        var t := Target(disk, dir, items[0]);
        if t in seen {
          EachPlaceOnce(disk, items[1..], dir, origin, seen, q);
        } else {
          assert t in disk.files.Keys - seen;
          var f := disk.files[t];
          var body := Expand(disk, f.items, f.dir, In(t), seen + {t});
          EachPlaceOnce(disk, f.items, f.dir, In(t), seen + {t}, q);
          EachPlaceOnce(disk, items[1..], dir, origin, body.seen, q);
          OnlyConcat(body.out, Expand(disk, items[1..], dir, origin, body.seen).out, q);
        }
      }
    }
  }

  /** No directive with an existing target survives, wherever it was written. */
  lemma {:induction false} NoLiveDirective(disk: Disk, items: seq<Item>, dir: string, origin: Origin, seen: set<Path>,
    rootDir: string)
    requires DirOf(disk, rootDir, origin) == dir
    ensures forall x :: x in Expand(disk, items, dir, origin, seen).out ==>
      !Exists(disk, DirOf(disk, rootDir, x.origin), x.item)
    decreases disk.files.Keys - seen, |items|
  {
    if items == [] {
    } else {
      if !Exists(disk, dir, items[0]) {
        NoLiveDirective(disk, items[1..], dir, origin, seen, rootDir);
      } else {
        var t := Target(disk, dir, items[0]);
        if t in seen {
          NoLiveDirective(disk, items[1..], dir, origin, seen, rootDir);
        } else {
          assert t in disk.files.Keys - seen;
          var f := disk.files[t];
          NoLiveDirective(disk, f.items, f.dir, In(t), seen + {t}, rootDir);
          var body := Expand(disk, f.items, f.dir, In(t), seen + {t});
          NoLiveDirective(disk, items[1..], dir, origin, body.seen, rootDir);
        }
      }
    }
  }

  /** The whole promise on a fresh start: every reachable file once, nothing else, and no live directive left. */
  lemma InlinedOnce(disk: Disk, items: seq<Item>, dir: string, p: Path)
    ensures var r := Expand(disk, items, dir, Root, {});
      && Only(r.out, Root) == Own(disk, items, dir, Root)
      && Only(r.out, In(p)) == (if Reachable(disk, Targets(disk, items, dir), p) && p in disk.files
                                then Own(disk, disk.files[p].items, disk.files[p].dir, In(p)) else [])
      && forall x :: x in r.out ==> !Exists(disk, DirOf(disk, dir, x.origin), x.item)
  {
    EachPlaceOnce(disk, items, dir, Root, {}, Root);
    EachPlaceOnce(disk, items, dir, Root, {}, In(p));
    InlinesExactlyReachable(disk, items, dir);
    TraceIsNew(disk, items, dir, Root, {});
    NoLiveDirective(disk, items, dir, Root, {}, dir);
    var r := Expand(disk, items, dir, Root, {});
    assert p in r.seen <==> p in Elements(r.trace);
  }
}
