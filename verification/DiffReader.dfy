/**
 Which lines of which files a printed diff adds, read positionally: a header is a header only between
 the line that opens a file section and that section's first hunk.
 */
module DiffReader {
  import opened Wrappers
  import opened DiffText

  type LineSets = map<string, set<nat>>

  datatype Reader = Reader(path: Option<string>, lineno: nat, inHunk: bool, afterOld: bool, added: LineSets)

  function AddLine(m: LineSets, p: string, n: nat): LineSets {
    m[p := (if p in m then m[p] else {}) + {n}]
  }

  function Target(t: string): Option<string> {
    if t == "/dev/null" then None
    else if StartsWith(t, "b/") then Some(t[2..])
    else Some(t)
  }

  /** What a line starts with, as far as the reader tests it. */
  datatype Look = Look(opening: bool, newName: bool, target: Option<string>, at: bool, start: Option<nat>,
                       plus: bool, formerName: bool)

  function LookAt(line: string): Look {
    var newName := StartsWith(line, "+++ ");
    Look(StartsWith(line, "diff --git "), newName, if newName then Target(line[4..]) else None,
         StartsWith(line, "@@"), HunkStart(line), StartsWith(line, "+"), StartsWith(line, "--- "))
  }

  lemma HeaderStartsAt(line: string)
    requires HunkStart(line).Some?
    ensures StartsWith(line, "@@")
  {
    assert "@@" + " -" == "@@ -";
    StartsWithShorter(line, "@@", " -");
  }

  lemma NewNameStartsPlus(line: string)
    requires StartsWith(line, "+++ ")
    ensures StartsWith(line, "+")
  {
    assert "+" + "++ " == "+++ ";
    StartsWithShorter(line, "+", "++ ");
  }

  /** Prefixes with different first characters exclude each other. */
  lemma OnePrefix(line: string, a: string, b: string)
    requires a != "" && b != "" && a[0] != b[0]
    ensures !(StartsWith(line, a) && StartsWith(line, b))
  {
    if StartsWith(line, a) {
      FirstCharacter(line, a);
      if StartsWith(line, b) {
        FirstCharacter(line, b);
      }
    }
  }

  /** A line starts in one way only, but for the plus of a new name. */
  lemma OneLook(line: string)
    ensures var k := LookAt(line);
      (k.opening ==> !k.plus && !k.at && !k.formerName) && (k.at ==> !k.plus && !k.formerName) &&
      (k.plus ==> !k.formerName) && (k.newName ==> k.plus) && (k.start.Some? ==> k.at)
  {
    OnePrefix(line, "diff --git ", "+");
    OnePrefix(line, "diff --git ", "@@");
    OnePrefix(line, "diff --git ", "--- ");
    OnePrefix(line, "@@", "+");
    OnePrefix(line, "@@", "--- ");
    OnePrefix(line, "+", "--- ");
    if HunkStart(line).Some? {
      HeaderStartsAt(line);
    }
    if StartsWith(line, "+++ ") {
      NewNameStartsPlus(line);
    }
  }

  function Step(r: Reader, k: Look): Reader {
    if k.opening then r.(path := None, inHunk := false, afterOld := false)
    else
      var r' :=
        if !r.inHunk && r.afterOld && k.newName then r.(path := k.target)
        else if k.at then
          match k.start
          case None => r
          case Some(n) => r.(lineno := n, inHunk := true)
        else if r.path.Some? && r.path.value != "" && k.plus then
          r.(lineno := r.lineno + 1, added := AddLine(r.added, r.path.value, r.lineno))
        else r;
      r'.(afterOld := !r'.inHunk && k.formerName)
  }

  function Feed(r: Reader, line: string): Reader {
    Step(r, LookAt(line))
  }

  function FeedAll(r: Reader, lines: seq<string>): Reader
    decreases |lines|
  {
    if lines == [] then r else FeedAll(Feed(r, lines[0]), lines[1..])
  }

  const BEGIN := Reader(None, 0, false, false, map[])

  method FeedLine(line: string, path: Option<string>, lineno: nat, inHunk: bool, afterOld: bool, result: LineSets)
    returns (path': Option<string>, lineno': nat, inHunk': bool, afterOld': bool, result': LineSets)
    ensures Reader(path', lineno', inHunk', afterOld', result') ==
      Feed(Reader(path, lineno, inHunk, afterOld, result), line)
  {
    path', lineno', inHunk', afterOld', result' := path, lineno, inHunk, afterOld, result;
    if StartsWith(line, "diff --git ") {
      path', inHunk', afterOld' := None, false, false;
      return;
    }
    if !inHunk && afterOld && StartsWith(line, "+++ ") {
      path' := Target(line[4..]);
    } else if StartsWith(line, "@@") {
      var m := HunkStart(line);
      if m.Some? {
        lineno', inHunk' := m.value, true;
      }
    } else if path.Some? && path.value != "" && StartsWith(line, "+") {
      var known := if path.value in result then result[path.value] else {};
      result' := result[path.value := known + {lineno}];
      lineno' := lineno + 1;
    }
    afterOld' := !inHunk' && StartsWith(line, "--- ");
  }

  method AddedLines(out: string) returns (result: LineSets)
    ensures result == FeedAll(BEGIN, SplitLines(out)).added
  {
    result := map[];
    var path: Option<string> := None;
    var lineno, inHunk, afterOld := 0, false, false;
    var lines := SplitLines(out);
    ghost var rest := lines;
    for i := 0 to |lines|
      invariant rest == lines[i..]
      invariant FeedAll(BEGIN, lines) == FeedAll(Reader(path, lineno, inHunk, afterOld, result), rest)
    {
      path, lineno, inHunk, afterOld, result := FeedLine(lines[i], path, lineno, inHunk, afterOld, result);
      rest := rest[1..];
    }
  }

  // ---- what is printed ----

  datatype Payload = Removed(text: string) | Added(text: string) | NoNewline

  datatype Hunk = Hunk(oldStart: nat, newStart: nat, heading: string, lines: seq<Payload>)

  /** The old name of a file, if it had one, and the new. */
  datatype Files = Files(former: Option<string>, path: string)

  datatype Section = Section(names: string, headers: seq<string>, files: Option<Files>, hunks: seq<Hunk>)

  function Show(p: Payload): string {
    match p
    case Removed(t) => "-" + t
    case Added(t) => "+" + t
    case NoNewline => "\\ No newline at end of file"
  }

  function ShowAll(ps: seq<Payload>): seq<string> {
    if ps == [] then [] else [Show(ps[0])] + ShowAll(ps[1..])
  }

  function AddedCount(ps: seq<Payload>): nat {
    if ps == [] then 0 else (if ps[0].Added? then 1 else 0) + AddedCount(ps[1..])
  }

  function RemovedCount(ps: seq<Payload>): nat {
    if ps == [] then 0 else (if ps[0].Removed? then 1 else 0) + RemovedCount(ps[1..])
  }

  lemma CountsWithLast(ps: seq<Payload>, p: Payload)
    ensures AddedCount(ps + [p]) == AddedCount(ps) + if p.Added? then 1 else 0
    ensures RemovedCount(ps + [p]) == RemovedCount(ps) + if p.Removed? then 1 else 0
  {
    if ps == [] {
      assert ps + [p] == [p];
    } else {
      assert (ps + [p])[1..] == ps[1..] + [p];
      CountsWithLast(ps[1..], p);
    }
  }

  function AddedAt(ps: seq<Payload>): set<nat> {
    set k | 0 <= k < |ps| && ps[k].Added?
  }

  function RemovedAt(ps: seq<Payload>): set<nat> {
    set k | 0 <= k < |ps| && ps[k].Removed?
  }

  lemma PlacesWithLast(ps: seq<Payload>, p: Payload)
    ensures AddedAt(ps + [p]) == AddedAt(ps) + (if p.Added? then {|ps|} else {}) && |ps| !in AddedAt(ps)
    ensures RemovedAt(ps + [p]) == RemovedAt(ps) + (if p.Removed? then {|ps|} else {}) && |ps| !in RemovedAt(ps)
  {
  }

  /** The counts of a hunk header. */
  lemma {:induction false} CountsAre(ps: seq<Payload>)
    ensures AddedCount(ps) == |AddedAt(ps)| && RemovedCount(ps) == |RemovedAt(ps)|
  {
    if ps == [] {
    } else {
      var last := |ps| - 1;
      CountsAre(ps[..last]);
      assert ps == ps[..last] + [ps[last]];
      CountsWithLast(ps[..last], ps[last]);
      PlacesWithLast(ps[..last], ps[last]);
    }
  }

  function HeaderLine(h: Hunk): string {
    HunkHeader(h.oldStart, RemovedCount(h.lines), h.newStart, AddedCount(h.lines)) + h.heading
  }

  function HunkLines(h: Hunk): seq<string> {
    [HeaderLine(h)] + ShowAll(h.lines)
  }

  function AllHunkLines(hs: seq<Hunk>): seq<string> {
    if hs == [] then [] else HunkLines(hs[0]) + AllHunkLines(hs[1..])
  }

  // ---- names ----

  /** Does a name with this character print in quotes? */
  predicate NeedsQuotes(c: char) {
    c < ' ' || c == '"' || c == '\\' || c == '\U{7F}'
  }

  /** As a quoted name prints it. */
  function Escaped(c: char): (s: string)
    ensures s != "" && forall k :: 0 <= k < |s| && IsBreak(s[k]) ==> s == [c] && !NeedsQuotes(c)
    ensures NeedsQuotes(c) ==> |s| >= 2
  {
    match c as int
    case 7 => "\\a"
    case 8 => "\\b"
    case 9 => "\\t"
    case 10 => "\\n"
    case 11 => "\\v"
    case 12 => "\\f"
    case 13 => "\\r"
    case 34 => "\\\""
    case 92 => "\\\\"
    case n => if NeedsQuotes(c) then ['\\', OctalDigit(n / 64), OctalDigit(n / 8 % 8), OctalDigit(n % 8)] else [c]
  }

  function OctalDigit(n: nat): (c: char)
    requires n < 8
    ensures '0' <= c <= '7'
  {
    '0' + n as char
  }

  function AllEscaped(p: string): string {
    if p == "" then "" else Escaped(p[0]) + AllEscaped(p[1..])
  }

  predicate QuotedName(p: string) {
    exists k :: 0 <= k < |p| && NeedsQuotes(p[k])
  }

  /** How a name prints after the signs of its side; a tab follows a name with a space. */
  function Label(side: string, p: string): string {
    (if QuotedName(p) then "\"" + side + AllEscaped(p) + "\"" else side + p) + Tab(p)
  }

  function Tab(p: string): string {
    if ' ' in p then "\t" else ""
  }

  /** The name the reader takes the lines of p for. */
  function ReadName(p: string): string {
    if QuotedName(p) then Label("b/", p) else p + Tab(p)
  }

  /** A name that holds a break which does not print in quotes: the line of its name breaks too. */
  predicate BreaksLine(p: string) {
    exists k :: 0 <= k < |p| && IsBreak(p[k]) && !NeedsQuotes(p[k])
  }

  lemma {:induction false} EscapedOneLine(p: string)
    requires !BreaksLine(p)
    ensures OneLine(AllEscaped(p))
  {
    if p == "" {
    } else {
      assert !BreaksLine(p[1..]) by {
        assert forall k :: 0 <= k < |p[1..]| ==> p[1..][k] == p[k + 1];
      }
      EscapedOneLine(p[1..]);
      OneLineConcat(Escaped(p[0]), AllEscaped(p[1..]));
    }
  }

  lemma LabelOneLine(side: string, p: string)
    requires OneLine(side) && !BreaksLine(p)
    ensures OneLine(Label(side, p))
  {
    EscapedOneLine(p);
    OneLineConcat("\"", side);
    OneLineConcat("\"" + side, AllEscaped(p));
    OneLineConcat("\"" + side + AllEscaped(p), "\"");
    OneLineConcat("\"" + side + AllEscaped(p) + "\"", Tab(p));
    if !QuotedName(p) {
      assert OneLine(p);
      OneLineConcat(side, p);
      OneLineConcat(side + p, Tab(p));
    }
  }

  /** Whatever the name, the reader takes it for the one given by ReadName. */
  lemma TargetOfLabel(p: string)
    ensures Target(Label("b/", p)) == Some(ReadName(p))
  {
    var l := Label("b/", p);
    if QuotedName(p) {
      assert l[0] == '"';
    } else {
      assert l[0] == 'b';
      assert l == "b/" + (p + Tab(p));
      Drop("b/", p + Tab(p));
    }
  }

  function OldLine(f: Files): string {
    "--- " + match f.former case None => "/dev/null" case Some(p) => Label("a/", p)
  }

  function NewLine(f: Files): string {
    "+++ " + Label("b/", f.path)
  }

  /** A section down to its old name: the opening line, mode, index, similarity and rename lines. */
  function Head(s: Section): seq<string> {
    ["diff --git " + s.names] + (s.headers + match s.files case None => [] case Some(f) => [OldLine(f)])
  }

  /** A section down to its new name. */
  function NameLines(s: Section): seq<string> {
    match s.files case None => Head(s) case Some(f) => Head(s) + [NewLine(f)]
  }

  function SectionLines(s: Section): seq<string> {
    match s.files case None => NameLines(s) case Some(_) => NameLines(s) + AllHunkLines(s.hunks)
  }

  function DiffLines(d: seq<Section>): seq<string> {
    if d == [] then [] else SectionLines(d[0]) + DiffLines(d[1..])
  }

  // ---- heads ----

  /** Having read the pieces, is the reader in a hunk? */
  function InHunkAfter(inHunk: bool, pieces: seq<string>): bool
    decreases |pieces|
  {
    if pieces == [] then inHunk
    else
      InHunkAfter(!StartsWith(pieces[0], "diff --git ") && (HunkStart(pieces[0]).Some? || inHunk), pieces[1..])
  }

  predicate NoNewName(pieces: seq<string>) {
    forall k :: 0 <= k < |pieces| ==> !StartsWith(pieces[k], "+++ ")
  }

  function HeadPieces(s: Section): (ps: seq<string>)
    ensures ps != []
  {
    Pieces("diff --git " + s.names) + AllPieces(Head(s)[1..])
  }

  /**
   The reader hears the new name after this head: its last piece is an old name, and no piece since the last that
   opens a section is a hunk header.
   */
  predicate Heard(s: Section) {
    StartsWith(HeadPieces(s)[|HeadPieces(s)| - 1], "--- ") && !InHunkAfter(false, HeadPieces(s))
  }

  /** The new name is on one line, and nothing in the head breaks into a new name. */
  predicate Printable(s: Section) {
    NoNewName(HeadPieces(s)) && (s.files.Some? ==> !BreaksLine(s.files.value.path) && s.files.value.path != "")
  }

  // ---- text with breaks of its own ----

  /** A piece that a reader inside a hunk passes over. */
  predicate Harmless(piece: string) {
    !StartsWith(piece, "diff --git ") && !StartsWith(piece, "+") && HunkStart(piece).None?
  }

  /** Nothing after the first break in the text looks like a line of a diff. */
  predicate HarmlessText(text: string) {
    forall k :: 1 <= k < |Pieces(text)| ==> Harmless(Pieces(text)[k])
  }

  predicate HarmlessHunk(h: Hunk) {
    HarmlessText(h.heading) && forall k :: 0 <= k < |h.lines| && !h.lines[k].NoNewline? ==>
      HarmlessText(h.lines[k].text)
  }

  predicate InHunkOf(r: Reader, p: string) {
    r.path == Some(p) && p != "" && r.inHunk && !r.afterOld
  }

  /** Inside a hunk a piece leaves the reader alone exactly when it is no diff line that matters. */
  lemma PassedOverIff(r: Reader, p: string, piece: string)
    requires InHunkOf(r, p)
    ensures Feed(r, piece) == r <==>
      !StartsWith(piece, "diff --git ") && !StartsWith(piece, "+") &&
      (HunkStart(piece).Some? ==> HunkStart(piece).value == r.lineno)
  {
    OneLook(piece);
  }

  lemma {:induction false} FeedConcat(r: Reader, a: seq<string>, b: seq<string>)
    ensures FeedAll(r, a + b) == FeedAll(FeedAll(r, a), b)
    decreases |a|
  {
    if a == [] {
      assert a + b == b;
    } else {
      assert (a + b)[1..] == a[1..] + b;
      FeedConcat(Feed(r, a[0]), a[1..], b);
    }
  }

  lemma {:induction false} PassedOver(r: Reader, p: string, pieces: seq<string>)
    requires InHunkOf(r, p) && forall k :: 0 <= k < |pieces| ==> Harmless(pieces[k])
    ensures FeedAll(r, pieces) == r
    decreases |pieces|
  {
    if pieces == [] {
    } else {
      PassedOverIff(r, p, pieces[0]);
      PassedOver(r, p, pieces[1..]);
    }
  }

  /** The pieces of a first line, then those of the rest. */
  lemma FeedLines(r: Reader, line: string, lines: seq<string>)
    ensures FeedAll(r, AllPieces([line] + lines)) == FeedAll(FeedAll(r, Pieces(line)), AllPieces(lines))
  {
    assert ([line] + lines)[1..] == lines;
    FeedConcat(r, Pieces(line), AllPieces(lines));
  }

  lemma FeedBlocks(r: Reader, a: seq<string>, b: seq<string>)
    ensures FeedAll(r, AllPieces(a + b)) == FeedAll(FeedAll(r, AllPieces(a)), AllPieces(b))
  {
    PiecesOfConcat(a, b);
    FeedConcat(r, AllPieces(a), AllPieces(b));
  }

  /** A line without breaks is read as it is. */
  lemma FeedOneLine(r: Reader, line: string)
    requires OneLine(line)
    ensures FeedAll(r, Pieces(line)) == Feed(r, line)
  {
    OneLineIsOnePiece(line);
    assert FeedAll(r, [line]) == FeedAll(Feed(r, line), []);
  }

  /** A prefix and a harmless text: read as its first piece alone. */
  lemma ReadAsFirstPiece(r: Reader, p: string, prefix: string, text: string)
    requires OneLine(prefix) && HarmlessText(text) && InHunkOf(Feed(r, prefix + Pieces(text)[0]), p)
    ensures FeedAll(r, Pieces(prefix + text)) == Feed(r, prefix + Pieces(text)[0])
  {
    PrefixOnFirstPiece(prefix, text);
    var more := Pieces(text)[1..];
    FeedConcat(r, [prefix + Pieces(text)[0]], more);
    assert forall k :: 0 <= k < |more| ==> more[k] == Pieces(text)[k + 1];
    PassedOver(Feed(r, prefix + Pieces(text)[0]), p, more);
  }

  // ---- reading a hunk ----

  function AddRange(m: LineSets, p: string, n: nat, count: nat): LineSets
    decreases count
  {
    if count == 0 then m else AddRange(AddLine(m, p, n), p, n + 1, count - 1)
  }

  lemma FeedAddition(r: Reader, p: string, line: string)
    requires InHunkOf(r, p) && StartsWith(line, "+")
    ensures Feed(r, line) == r.(lineno := r.lineno + 1, added := AddLine(r.added, p, r.lineno))
  {
    OneLook(line);
  }

  lemma RemovedRead(r: Reader, p: string, text: string)
    requires InHunkOf(r, p) && HarmlessText(text)
    ensures FeedAll(r, Pieces("-" + text)) == r
  {
    var first := "-" + Pieces(text)[0];
    assert first[0] == '-';
    PassedOverIff(r, p, first);
    ReadAsFirstPiece(r, p, "-", text);
  }

  lemma AddedRead(r: Reader, p: string, text: string)
    requires InHunkOf(r, p) && HarmlessText(text)
    ensures FeedAll(r, Pieces("+" + text)) == r.(lineno := r.lineno + 1, added := AddLine(r.added, p, r.lineno))
  {
    FeedAddition(r, p, "+" + Pieces(text)[0]);
    ReadAsFirstPiece(r, p, "+", text);
  }

  lemma NoteRead(r: Reader, p: string, note: string)
    requires InHunkOf(r, p) && OneLine(note) && note != "" && note[0] == '\\'
    ensures FeedAll(r, Pieces(note)) == r
  {
    FeedOneLine(r, note);
    PassedOverIff(r, p, note);
  }

  lemma PayloadLine(r: Reader, p: string, line: Payload)
    requires InHunkOf(r, p) && (!line.NoNewline? ==> HarmlessText(line.text))
    ensures FeedAll(r, Pieces(Show(line))) ==
      if line.Added? then r.(lineno := r.lineno + 1, added := AddLine(r.added, p, r.lineno)) else r
  {
    match line {
      case Removed(t) => RemovedRead(r, p, t);
      case Added(t) => AddedRead(r, p, t);
      case NoNewline => NoteRead(r, p, Show(line));
    }
  }

  lemma PayloadHead(r: Reader, p: string, lines: seq<Payload>) returns (r': Reader)
    requires InHunkOf(r, p) && lines != [] && (!lines[0].NoNewline? ==> HarmlessText(lines[0].text))
    ensures FeedAll(r, AllPieces(ShowAll(lines))) == FeedAll(r', AllPieces(ShowAll(lines[1..])))
    ensures r' == if lines[0].Added? then r.(lineno := r.lineno + 1, added := AddLine(r.added, p, r.lineno)) else r
  {
    FeedLines(r, Show(lines[0]), ShowAll(lines[1..]));
    PayloadLine(r, p, lines[0]);
    r' := FeedAll(r, Pieces(Show(lines[0])));
  }

  function AfterPayload(r: Reader, p: string, count: nat): Reader {
    r.(lineno := r.lineno + count, added := AddRange(r.added, p, r.lineno, count))
  }

  lemma AfterFirst(r: Reader, p: string, lines: seq<Payload>, r': Reader)
    requires lines != []
    requires r' == if lines[0].Added? then r.(lineno := r.lineno + 1, added := AddLine(r.added, p, r.lineno)) else r
    ensures AfterPayload(r, p, AddedCount(lines)) == AfterPayload(r', p, AddedCount(lines[1..]))
  {
  }

  lemma {:induction false} PayloadRead(r: Reader, p: string, lines: seq<Payload>)
    requires InHunkOf(r, p)
    requires forall k :: 0 <= k < |lines| && !lines[k].NoNewline? ==> HarmlessText(lines[k].text)
    ensures FeedAll(r, AllPieces(ShowAll(lines))) == AfterPayload(r, p, AddedCount(lines))
    decreases |lines|
  {
    if lines == [] {
    } else {
      var r' := PayloadHead(r, p, lines);
      PayloadRead(r', p, lines[1..]);
      AfterFirst(r, p, lines, r');
    }
  }

  lemma FeedHeader(r: Reader, line: string, n: nat)
    requires HunkStart(line) == Some(n)
    ensures Feed(r, line) == r.(lineno := n, inHunk := true, afterOld := false)
  {
    OneLook(line);
  }

  lemma HeaderFirstPiece(h: Hunk) returns (header: string)
    ensures HeaderLine(h) == header + h.heading && OneLine(header)
    ensures HunkStart(header + Pieces(h.heading)[0]) == Some(h.newStart)
  {
    var n, m := RemovedCount(h.lines), AddedCount(h.lines);
    header := HunkHeader(h.oldStart, n, h.newStart, m);
    HeaderOneLine(h.oldStart, n, h.newStart, m);
    HeaderReadsBack(h.oldStart, n, h.newStart, m, Pieces(h.heading)[0]);
  }

  lemma HeaderRead(r: Reader, p: string, h: Hunk)
    requires r.path == Some(p) && p != "" && HarmlessText(h.heading)
    ensures FeedAll(r, Pieces(HeaderLine(h))) == r.(lineno := h.newStart, inHunk := true, afterOld := false)
  {
    var header := HeaderFirstPiece(h);
    FeedHeader(r, header + Pieces(h.heading)[0], h.newStart);
    ReadAsFirstPiece(r, p, header, h.heading);
  }

  lemma HunkRead(r: Reader, p: string, h: Hunk)
    requires r.path == Some(p) && p != "" && HarmlessHunk(h)
    ensures FeedAll(r, AllPieces(HunkLines(h))) ==
      Reader(Some(p), h.newStart + AddedCount(h.lines), true, false,
        AddRange(r.added, p, h.newStart, AddedCount(h.lines)))
  {
    FeedLines(r, HeaderLine(h), ShowAll(h.lines));
    HeaderRead(r, p, h);
    PayloadRead(r.(lineno := h.newStart, inHunk := true, afterOld := false), p, h.lines);
  }

  function AddHunks(m: LineSets, p: string, hs: seq<Hunk>): LineSets
    decreases |hs|
  {
    if hs == [] then m else AddHunks(AddRange(m, p, hs[0].newStart, AddedCount(hs[0].lines)), p, hs[1..])
  }

  lemma {:induction false} HunksRead(r: Reader, p: string, hs: seq<Hunk>)
    requires r.path == Some(p) && p != "" && forall k :: 0 <= k < |hs| ==> HarmlessHunk(hs[k])
    ensures FeedAll(r, AllPieces(AllHunkLines(hs))).added == AddHunks(r.added, p, hs)
    decreases |hs|
  {
    if hs == [] {
    } else {
      HunkRead(r, p, hs[0]);
      FeedBlocks(r, HunkLines(hs[0]), AllHunkLines(hs[1..]));
      HunksRead(FeedAll(r, AllPieces(HunkLines(hs[0]))), p, hs[1..]);
    }
  }

  // ---- reading a head ----

  /** Where no path is known, pieces without a new name move nothing but the marks for hunk and old name. */
  lemma {:induction false} HeadFed(r: Reader, pieces: seq<string>)
    requires r.path.None? && NoNewName(pieces)
    ensures var r' := FeedAll(r, pieces);
      r'.path.None? && r'.added == r.added && r'.inHunk == InHunkAfter(r.inHunk, pieces) &&
      (pieces != [] ==> r'.afterOld == (!r'.inHunk && StartsWith(pieces[|pieces| - 1], "--- ")))
    decreases |pieces|
  {
    if pieces == [] {
    } else {
      OneLook(pieces[0]);
      HeadFed(Feed(r, pieces[0]), pieces[1..]);
    }
  }

  /** The first piece of a head opens the section, whatever came before. */
  lemma HeadOpens(s: Section) returns (names: string)
    ensures HeadPieces(s)[0] == "diff --git " + names
    ensures AllPieces(Head(s)) == HeadPieces(s)
  {
    names := Pieces(s.names)[0];
    PrefixOnFirstPiece("diff --git ", s.names);
  }

  lemma FeedOpening(r: Reader, names: string)
    ensures Feed(r, "diff --git " + names) == r.(path := None, inHunk := false, afterOld := false)
  {
    Drop("diff --git ", names);
  }

  lemma HeadRead(r: Reader, s: Section) returns (r': Reader)
    requires NoNewName(HeadPieces(s))
    ensures r' == FeedAll(r, AllPieces(Head(s)))
    ensures r'.path.None? && r'.added == r.added && r'.afterOld == Heard(s) && (r'.afterOld ==> !r'.inHunk)
  {
    var names := HeadOpens(s);
    var ps := HeadPieces(s);
    FeedOpening(r, names);
    Drop("diff --git ", names);
    HeadFed(Feed(r, ps[0]), ps[1..]);
    r' := FeedAll(r, ps);
    assert |ps| == 1 ==> InHunkAfter(false, ps[1..]) == false;
    OneLook(ps[0]);
  }

  lemma FeedNewName(r: Reader, f: Files)
    requires r.path.None? && (r.afterOld ==> !r.inHunk)
    ensures Feed(r, NewLine(f)) ==
      if r.afterOld then r.(path := Some(ReadName(f.path)), afterOld := false) else r
  {
    Drop("+++ ", Label("b/", f.path));
    TargetOfLabel(f.path);
    OneLook(NewLine(f));
  }

  lemma NewNameRead(r: Reader, f: Files)
    requires r.path.None? && (r.afterOld ==> !r.inHunk) && !BreaksLine(f.path)
    ensures FeedAll(r, Pieces(NewLine(f))) ==
      if r.afterOld then r.(path := Some(ReadName(f.path)), afterOld := false) else r
  {
    LabelOneLine("b/", f.path);
    OneLineConcat("+++ ", Label("b/", f.path));
    FeedOneLine(r, NewLine(f));
    FeedNewName(r, f);
  }

  // ---- hunks of a file whose name went unheard ----

  predicate Unnamed(r: Reader) {
    r.path.None? && r.inHunk
  }

  lemma {:induction false} Ignored(r: Reader, pieces: seq<string>)
    requires Unnamed(r) && forall k :: 0 <= k < |pieces| ==> !StartsWith(pieces[k], "diff --git ")
    ensures Unnamed(FeedAll(r, pieces)) && FeedAll(r, pieces).added == r.added
    decreases |pieces|
  {
    if pieces == [] {
    } else {
      OneLook(pieces[0]);
      Ignored(Feed(r, pieces[0]), pieces[1..]);
    }
  }

  /** A line that opens no section, with a harmless text, is ignored piece by piece. */
  lemma LineIgnored(r: Reader, prefix: string, text: string)
    requires Unnamed(r) && prefix != "" && prefix[0] != 'd' && OneLine(prefix) && HarmlessText(text)
    ensures Unnamed(FeedAll(r, Pieces(prefix + text))) && FeedAll(r, Pieces(prefix + text)).added == r.added
  {
    PrefixOnFirstPiece(prefix, text);
    var first := prefix + Pieces(text)[0];
    assert first[0] == prefix[0];
    OnePrefix(first, "diff --git ", prefix[..1]);
    StartsWithMeans(first, prefix[..1]);
    Ignored(r, Pieces(prefix + text));
  }

  lemma PayloadLineIgnored(r: Reader, line: Payload)
    requires Unnamed(r) && (!line.NoNewline? ==> HarmlessText(line.text))
    ensures Unnamed(FeedAll(r, Pieces(Show(line)))) && FeedAll(r, Pieces(Show(line))).added == r.added
  {
    match line {
      case Removed(t) => LineIgnored(r, "-", t);
      case Added(t) => LineIgnored(r, "+", t);
      case NoNewline =>
        OneLineIsOnePiece("");
        LineIgnored(r, Show(line), "");
        assert Show(line) + "" == Show(line);
    }
  }

  lemma {:induction false} PayloadIgnored(r: Reader, lines: seq<Payload>)
    requires Unnamed(r) && forall k :: 0 <= k < |lines| && !lines[k].NoNewline? ==> HarmlessText(lines[k].text)
    ensures var r' := FeedAll(r, AllPieces(ShowAll(lines))); Unnamed(r') && r'.added == r.added
    decreases |lines|
  {
    if lines == [] {
    } else {
      FeedLines(r, Show(lines[0]), ShowAll(lines[1..]));
      PayloadLineIgnored(r, lines[0]);
      PayloadIgnored(FeedAll(r, Pieces(Show(lines[0]))), lines[1..]);
    }
  }

  lemma HeaderIgnored(r: Reader, h: Hunk)
    requires r.path.None? && HarmlessText(h.heading)
    ensures var r' := FeedAll(r, Pieces(HeaderLine(h))); Unnamed(r') && r'.added == r.added
  {
    var header := HeaderFirstPiece(h);
    PrefixOnFirstPiece(header, h.heading);
    FirstIgnored(r, header + Pieces(h.heading)[0], Pieces(h.heading)[1..], h.newStart);
  }

  lemma FirstIgnored(r: Reader, first: string, more: seq<string>, n: nat)
    requires r.path.None? && HunkStart(first) == Some(n)
    requires forall k :: 0 <= k < |more| ==> !StartsWith(more[k], "diff --git ")
    ensures var r' := FeedAll(r, [first] + more); Unnamed(r') && r'.added == r.added
  {
    FeedHeader(r, first, n);
    assert ([first] + more)[1..] == more;
    Ignored(Feed(r, first), more);
  }

  lemma {:induction false} HunksIgnored(r: Reader, hs: seq<Hunk>)
    requires r.path.None? && forall k :: 0 <= k < |hs| ==> HarmlessHunk(hs[k])
    ensures FeedAll(r, AllPieces(AllHunkLines(hs))).added == r.added
    decreases |hs|
  {
    if hs == [] {
    } else {
      var h := hs[0];
      FeedBlocks(r, HunkLines(h), AllHunkLines(hs[1..]));
      FeedLines(r, HeaderLine(h), ShowAll(h.lines));
      HeaderIgnored(r, h);
      PayloadIgnored(FeedAll(r, Pieces(HeaderLine(h))), h.lines);
      HunksIgnored(FeedAll(r, AllPieces(HunkLines(h))), hs[1..]);
    }
  }

  // ---- reading a section ----

  function AddSection(m: LineSets, s: Section): LineSets {
    match s.files
    case None => m
    case Some(f) => if Heard(s) then AddHunks(m, ReadName(f.path), s.hunks) else m
  }

  predicate HarmlessSection(s: Section) {
    forall k :: 0 <= k < |s.hunks| ==> HarmlessHunk(s.hunks[k])
  }

  lemma NameRead(r: Reader, s: Section) returns (r': Reader)
    requires Printable(s)
    ensures r' == FeedAll(r, AllPieces(NameLines(s))) && r'.added == r.added
    ensures r'.path == if s.files.Some? && Heard(s) then Some(ReadName(s.files.value.path)) else None
  {
    r' := HeadRead(r, s);
    if s.files.Some? {
      var f, r1 := s.files.value, r';
      FeedBlocks(r, Head(s), [NewLine(f)]);
      OnlyLine(r1, NewLine(f));
      NewNameRead(r1, f);
      r' := FeedAll(r1, Pieces(NewLine(f)));
    }
  }

  lemma OnlyLine(r: Reader, line: string)
    ensures FeedAll(r, AllPieces([line])) == FeedAll(r, Pieces(line))
  {
    assert [line] + [] == [line];
    FeedLines(r, line, []);
  }

  lemma BodyRead(r: Reader, s: Section)
    requires HarmlessSection(s) && s.files.Some? && s.files.value.path != ""
    requires r.path == if Heard(s) then Some(ReadName(s.files.value.path)) else None
    ensures FeedAll(r, AllPieces(AllHunkLines(s.hunks))).added == AddSection(r.added, s)
  {
    if Heard(s) {
      HunksRead(r, ReadName(s.files.value.path), s.hunks);
    } else {
      HunksIgnored(r, s.hunks);
    }
  }

  lemma SectionRead(r: Reader, s: Section)
    requires Printable(s) && HarmlessSection(s)
    ensures FeedAll(r, AllPieces(SectionLines(s))).added == AddSection(r.added, s)
  {
    var r1 := NameRead(r, s);
    if s.files.Some? {
      FeedBlocks(r, NameLines(s), AllHunkLines(s.hunks));
      BodyRead(r1, s);
    }
  }

  function AddSections(m: LineSets, d: seq<Section>): LineSets
    decreases |d|
  {
    if d == [] then m else AddSections(AddSection(m, d[0]), d[1..])
  }

  lemma {:induction false} DiffRead(r: Reader, d: seq<Section>)
    requires forall k :: 0 <= k < |d| ==> Printable(d[k]) && HarmlessSection(d[k])
    ensures FeedAll(r, AllPieces(DiffLines(d))).added == AddSections(r.added, d)
    decreases |d|
  {
    if d == [] {
    } else {
      SectionRead(r, d[0]);
      FeedBlocks(r, SectionLines(d[0]), DiffLines(d[1..]));
      DiffRead(FeedAll(r, AllPieces(SectionLines(d[0]))), d[1..]);
    }
  }

  // ---- what it means ----

  predicate Has(m: LineSets, p: string, n: nat) {
    p in m && n in m[p]
  }

  /** No path is listed without a line. */
  predicate NoneEmpty(m: LineSets) {
    forall p :: p in m ==> m[p] != {}
  }

  predicate HunkAdds(h: Hunk, n: nat) {
    h.newStart <= n < h.newStart + AddedCount(h.lines)
  }

  predicate SectionAdds(s: Section, n: nat) {
    s.files.Some? && exists k :: 0 <= k < |s.hunks| && HunkAdds(s.hunks[k], n)
  }

  /** The diff adds line n of the file p. */
  predicate DiffAdds(d: seq<Section>, p: string, n: nat) {
    exists k :: 0 <= k < |d| && SectionAdds(d[k], n) && d[k].files.value.path == p
  }

  /** The diff adds line n of a file whose name is heard and taken for p. */
  predicate DiffTells(d: seq<Section>, p: string, n: nat) {
    exists k :: 0 <= k < |d| && SectionAdds(d[k], n) && Heard(d[k]) && ReadName(d[k].files.value.path) == p
  }

  lemma {:induction false} RangeHas(m: LineSets, p: string, start: nat, count: nat, q: string, n: nat)
    ensures Has(AddRange(m, p, start, count), q, n) <==> Has(m, q, n) || (q == p && start <= n < start + count)
    decreases count
  {
    if count == 0 {
    } else {
      RangeHas(AddLine(m, p, start), p, start + 1, count - 1, q, n);
    }
  }

  lemma {:induction false} RangeNoneEmpty(m: LineSets, p: string, start: nat, count: nat)
    requires NoneEmpty(m)
    ensures NoneEmpty(AddRange(m, p, start, count))
    decreases count
  {
    if count == 0 {
    } else {
      assert start in AddLine(m, p, start)[p];
      RangeNoneEmpty(AddLine(m, p, start), p, start + 1, count - 1);
    }
  }

  lemma {:induction false} HunksHave(m: LineSets, p: string, hs: seq<Hunk>, q: string, n: nat)
    requires NoneEmpty(m)
    ensures Has(AddHunks(m, p, hs), q, n) <==>
      Has(m, q, n) || (q == p && exists k :: 0 <= k < |hs| && HunkAdds(hs[k], n))
    ensures NoneEmpty(AddHunks(m, p, hs))
    decreases |hs|
  {
    if hs == [] {
    } else {
      var m' := AddRange(m, p, hs[0].newStart, AddedCount(hs[0].lines));
      RangeHas(m, p, hs[0].newStart, AddedCount(hs[0].lines), q, n);
      RangeNoneEmpty(m, p, hs[0].newStart, AddedCount(hs[0].lines));
      HunksHave(m', p, hs[1..], q, n);
      assert (exists k :: 0 <= k < |hs| && HunkAdds(hs[k], n)) <==>
        HunkAdds(hs[0], n) || (exists k :: 0 <= k < |hs[1..]| && HunkAdds(hs[1..][k], n))
      by {
        assert forall k :: 1 <= k < |hs| ==> hs[k] == hs[1..][k - 1];
      }
    }
  }

  lemma {:induction false} SectionsHave(m: LineSets, d: seq<Section>, q: string, n: nat)
    requires NoneEmpty(m)
    ensures Has(AddSections(m, d), q, n) <==> Has(m, q, n) || DiffTells(d, q, n)
    ensures NoneEmpty(AddSections(m, d))
    decreases |d|
  {
    if d == [] {
    } else {
      if d[0].files.Some? {
        HunksHave(m, ReadName(d[0].files.value.path), d[0].hunks, q, n);
      }
      SectionsHave(AddSection(m, d[0]), d[1..], q, n);
      assert DiffTells(d, q, n) <==>
        (SectionAdds(d[0], n) && Heard(d[0]) && ReadName(d[0].files.value.path) == q) || DiffTells(d[1..], q, n) by {
        assert forall k :: 1 <= k < |d| ==> d[k] == d[1..][k - 1];
      }
    }
  }

  function ReadDiff(d: seq<Section>): LineSets {
    FeedAll(BEGIN, SplitLines(Printed(DiffLines(d)))).added
  }

  /**
   Reading a printed diff back gives, for each name as the reader takes it, the union of the new-file ranges of the
   sections whose name it hears, whatever the payload, lines that print as file headers included, as long as no text
   breaks into something live.
   */
  lemma ReadsBack(d: seq<Section>)
    requires forall k :: 0 <= k < |d| ==> Printable(d[k]) && HarmlessSection(d[k])
    ensures NoneEmpty(ReadDiff(d)) && forall p: string, n: nat :: Has(ReadDiff(d), p, n) <==> DiffTells(d, p, n)
  {
    PrintedSplits(DiffLines(d));
    DiffRead(BEGIN, d);
    forall p: string, n: nat ensures Has(AddSections(map[], d), p, n) <==> DiffTells(d, p, n) {
      SectionsHave(map[], d, p, n);
    }
    SectionsHave(map[], d, "", 0);
  }

  // ---- deleted files ----

  /** In a hunk without a name no line is recorded until the next file section opens. */
  lemma {:induction false} NamelessHunk(r: Reader, lines: seq<string>)
    requires r.path.None? && r.inHunk && forall k :: 0 <= k < |lines| ==> !StartsWith(lines[k], "diff --git ")
    ensures FeedAll(r, lines).added == r.added
    decreases |lines|
  {
    if lines == [] {
    } else {
      NamelessHunk(Feed(r, lines[0]), lines[1..]);
    }
  }

  lemma DeletedName(r: Reader)
    requires !r.inHunk && r.afterOld
    ensures Feed(r, "+++ /dev/null") == r.(path := None, afterOld := false)
  {
    var name := "+++ /dev/null";
    Drop("+++ ", "/dev/null");
    assert name == "+++ " + "/dev/null";
    OneLook(name);
    assert LookAt(name).target.None?;
  }

  lemma HeaderOpens(r: Reader, header: string)
    requires HunkStart(header).Some? && r.path.None? && !r.afterOld
    ensures var r' := Feed(r, header); r'.path.None? && r'.inHunk && r'.added == r.added
  {
    OneLook(header);
  }

  lemma FeedTwo(r: Reader, a: string, b: string, lines: seq<string>)
    ensures FeedAll(r, [a] + ([b] + lines)) == FeedAll(Feed(Feed(r, a), b), lines)
  {
    assert ([a] + ([b] + lines))[1..] == [b] + lines && ([b] + lines)[1..] == lines;
  }

  /** The section of a deleted file records nothing, whatever its hunks hold. */
  lemma DeletedAddsNothing(r: Reader, header: string, lines: seq<string>)
    requires !r.inHunk && r.afterOld && HunkStart(header).Some?
    requires forall k :: 0 <= k < |lines| ==> !StartsWith(lines[k], "diff --git ")
    ensures FeedAll(r, ["+++ /dev/null"] + ([header] + lines)).added == r.added
  {
    var r1 := r.(path := None, afterOld := false);
    DeletedName(r);
    HeaderOpens(r1, header);
    FeedTwo(r, "+++ /dev/null", header, lines);
    NamelessHunk(Feed(r1, header), lines);
  }
}
