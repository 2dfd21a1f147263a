/**
 Which file names are read back: those that print as they are. A name with a space is followed by a tab, a name
 with a control character, a quote or a backslash prints in quotes, and a name with a wider line break breaks its
 own line; the reader takes each of these for another file. And after an old name that breaks its line the new name
 may not be heard at all.
 */
module DiffPaths {
  import opened Wrappers
  import opened DiffText
  import opened DiffReader

  /** Each line the diff adds is recorded under its file's name, and nothing else is. */
  ghost predicate ReadRight(d: seq<Section>) {
    forall p: string, n: nat :: Has(ReadDiff(d), p, n) <==> DiffAdds(d, p, n)
  }

  predicate PlainCharacter(c: char) {
    c != ' ' && !NeedsQuotes(c) && !IsBreak(c)
  }

  predicate PlainName(p: string) {
    forall k :: 0 <= k < |p| ==> PlainCharacter(p[k])
  }

  lemma {:induction false} EscapedIsLonger(p: string)
    ensures |AllEscaped(p)| >= |p|
  {
    if p == "" {
    } else {
      EscapedIsLonger(p[1..]);
    }
  }

  /** A name on one line is taken for itself exactly when it is plain, and for a longer name otherwise. */
  lemma ReadNameIff(p: string)
    requires !BreaksLine(p)
    ensures ReadName(p) == p <==> PlainName(p)
    ensures ReadName(p) != p ==> |ReadName(p)| > |p|
  {
    if QuotedName(p) {
      EscapedIsLonger(p);
      assert |ReadName(p)| > |p|;
    } else if ' ' in p {
      assert |ReadName(p)| > |p|;
    } else {
      assert forall k :: 0 <= k < |p| ==> p[k] in p;
      assert ReadName(p) == p;
    }
  }

  // ---- no recorded name holds a break ----

  predicate OneLineNames(r: Reader) {
    (r.path.Some? ==> OneLine(r.path.value)) && forall p :: p in r.added ==> OneLine(p)
  }

  ghost predicate AllOneLine(lines: seq<string>) {
    forall k :: 0 <= k < |lines| ==> OneLine(lines[k])
  }

  lemma TargetOneLine(line: string)
    requires OneLine(line)
    ensures var k := LookAt(line); k.target.Some? ==> OneLine(k.target.value)
  {
  }

  lemma OneLineStep(r: Reader, k: Look)
    requires OneLineNames(r) && (k.target.Some? ==> OneLine(k.target.value))
    ensures OneLineNames(Step(r, k))
  {
  }

  lemma {:induction false} OneLineFeeds(r: Reader, lines: seq<string>)
    requires OneLineNames(r) && AllOneLine(lines)
    ensures OneLineNames(FeedAll(r, lines))
    decreases |lines|
  {
    if lines == [] {
    } else {
      TargetOneLine(lines[0]);
      OneLineStep(r, LookAt(lines[0]));
      OneLineFeeds(Feed(r, lines[0]), lines[1..]);
    }
  }

  lemma OneMore(line: string, lines: seq<string>)
    requires OneLine(line) && AllOneLine(lines)
    ensures AllOneLine([line] + lines)
  {
  }

  lemma {:induction false} SplitsIntoOneLines(s: string)
    ensures AllOneLine(SplitLines(s))
    decreases |s|
  {
    var k := NextBreak(s);
    if k == |s| {
      if s != "" {
        OneMore(s, []);
      }
    } else {
      var n := BreakLength(s, k);
      SplitStep(s, k, n, s[k + n..]);
      SplitsIntoOneLines(s[k + n..]);
      OneMore(s[..k], SplitLines(s[k + n..]));
    }
  }

  /** Of any text whatever, the reader records no name that holds a line break. */
  lemma RecordsOneLineNames(s: string, p: string)
    requires p in FeedAll(BEGIN, SplitLines(s)).added
    ensures OneLine(p)
  {
    SplitsIntoOneLines(s);
    OneLineFeeds(BEGIN, SplitLines(s));
  }

  // ---- when every line is found under its file's name ----

  /** A section that prints line by line and breaks into nothing live. */
  predicate WellPrinted(s: Section) {
    Printable(s) && HarmlessSection(s)
  }

  /** A section that adds a line to a file whose name breaks the line. */
  ghost predicate AddsUnderBreak(s: Section) {
    (exists n: nat :: SectionAdds(s, n)) && BreaksLine(s.files.value.path)
  }

  lemma BrokenNotRead(d: seq<Section>, k: nat, n: nat)
    requires k < |d| && SectionAdds(d[k], n) && BreaksLine(d[k].files.value.path)
    ensures !ReadRight(d)
  {
    var p := d[k].files.value.path;
    assert DiffAdds(d, p, n);
    if p in ReadDiff(d) {
      RecordsOneLineNames(Printed(DiffLines(d)), p);
      assert false;
    }
    assert !Has(ReadDiff(d), p, n);
  }

  /** A diff has one section for a file. */
  predicate OneSectionEach(d: seq<Section>) {
    forall i, j :: 0 <= i < j < |d| && d[i].files.Some? && d[j].files.Some? ==>
      d[i].files.value.path != d[j].files.value.path
  }

  /** A section whose new name is heard and taken for itself. */
  predicate ReadAsItself(s: Section)
    requires s.files.Some?
  {
    Heard(s) && PlainName(s.files.value.path)
  }

  /** A line lost can only be put there by a file taken for this one, which has a shorter name and is misread too. */
  lemma {:induction false} LostNotRead(d: seq<Section>, k: nat, n: nat)
    requires OneSectionEach(d) && forall i :: 0 <= i < |d| ==> WellPrinted(d[i])
    requires k < |d| && SectionAdds(d[k], n) && !ReadAsItself(d[k])
    ensures !ReadRight(d)
    decreases if k < |d| && d[k].files.Some? then |d[k].files.value.path| else 0
  {
    var p := d[k].files.value.path;
    ReadsBack(d);
    assert DiffAdds(d, p, n);
    if ReadRight(d) {
      assert Has(ReadDiff(d), p, n);
      var i :| 0 <= i < |d| && SectionAdds(d[i], n) && Heard(d[i]) && ReadName(d[i].files.value.path) == p;
      assert WellPrinted(d[i]) && WellPrinted(d[k]);
      ReadNameIff(p);
      ReadNameIff(d[i].files.value.path);
      if d[i].files.value.path != p {
        LostNotRead(d, i, n);
      }
    }
  }

  lemma PlainRead(d: seq<Section>)
    requires forall k :: 0 <= k < |d| ==> WellPrinted(d[k])
    requires forall k, n: nat :: 0 <= k < |d| && SectionAdds(d[k], n) ==> ReadAsItself(d[k])
    ensures ReadRight(d)
  {
    ReadsBack(d);
    forall p: string, n: nat ensures DiffTells(d, p, n) <==> DiffAdds(d, p, n) {
      forall k | 0 <= k < |d| && SectionAdds(d[k], n)
        ensures Heard(d[k]) && ReadName(d[k].files.value.path) == d[k].files.value.path
      {
        assert WellPrinted(d[k]) && ReadAsItself(d[k]);
        ReadNameIff(d[k].files.value.path);
      }
    }
  }

  /**
   Every added line is found under its file's name, and nothing else is, exactly when every file that gains a line
   has a plain name and a head after which it is heard.
   */
  lemma NamesReadIff(d: seq<Section>)
    requires OneSectionEach(d) && forall k :: 0 <= k < |d| ==> WellPrinted(d[k]) || AddsUnderBreak(d[k])
    ensures ReadRight(d) <==> forall k, n: nat :: 0 <= k < |d| && SectionAdds(d[k], n) ==> ReadAsItself(d[k])
  {
    if k :| 0 <= k < |d| && AddsUnderBreak(d[k]) {
      var n: nat :| SectionAdds(d[k], n);
      BrokenNotRead(d, k, n);
      assert !PlainName(d[k].files.value.path);
    } else if k, n: nat :| 0 <= k < |d| && SectionAdds(d[k], n) && !ReadAsItself(d[k]) {
      LostNotRead(d, k, n);
    } else {
      PlainRead(d);
    }
  }

  // ---- which heads are heard ----

  /** A mode, index, similarity or rename line. */
  predicate PlainHeader(line: string) {
    OneLine(line) && HunkStart(line).None? && !StartsWith(line, "+++ ")
  }

  lemma {:induction false} NoHunkHeader(pieces: seq<string>)
    requires forall k :: 0 <= k < |pieces| ==> HunkStart(pieces[k]).None?
    ensures !InHunkAfter(false, pieces)
    decreases |pieces|
  {
    if pieces == [] {
    } else {
      NoHunkHeader(pieces[1..]);
    }
  }

  lemma {:induction false} PlainLines(lines: seq<string>)
    requires forall k :: 0 <= k < |lines| ==> OneLine(lines[k])
    ensures AllPieces(lines) == lines
  {
    if lines == [] {
    } else {
      OneLineIsOnePiece(lines[0]);
      PlainLines(lines[1..]);
    }
  }

  lemma OpeningPlain(names: string)
    requires OneLine(names)
    ensures PlainHeader("diff --git " + names)
  {
    OneLineConcat("diff --git ", names);
    Drop("diff --git ", names);
    OneLook("diff --git " + names);
  }

  lemma OldLinePlain(f: Files)
    requires f.former.Some? ==> !BreaksLine(f.former.value)
    ensures PlainHeader(OldLine(f)) && StartsWith(OldLine(f), "--- ")
  {
    var name := match f.former case None => "/dev/null" case Some(p) => Label("a/", p);
    if f.former.Some? {
      LabelOneLine("a/", f.former.value);
    }
    OneLineConcat("--- ", name);
    Drop("--- ", name);
    OneLook(OldLine(f));
  }

  /** After a head whose names are on one line each the new name is heard. */
  lemma PlainHeadHeard(s: Section)
    requires OneLine(s.names) && (forall k :: 0 <= k < |s.headers| ==> PlainHeader(s.headers[k])) && s.files.Some?
    requires s.files.value.former.Some? ==> !BreaksLine(s.files.value.former.value)
    ensures Heard(s) && NoNewName(HeadPieces(s))
  {
    OpeningPlain(s.names);
    OldLinePlain(s.files.value);
    assert forall k :: 0 <= k < |Head(s)| ==> PlainHeader(Head(s)[k]);
    PlainLines(Head(s));
    var names := HeadOpens(s);
    NoHunkHeader(HeadPieces(s));
  }

  // ---- names that are misread ----

  /** What is read of a diff of one section that adds one line. */
  lemma OneSectionRead(s: Section, n: nat)
    requires WellPrinted(s) && s.files.Some? && forall m: nat :: SectionAdds(s, m) <==> m == n
    ensures forall q: string, m: nat ::
      Has(ReadDiff([s]), q, m) <==> Heard(s) && m == n && q == ReadName(s.files.value.path)
    ensures ReadRight([s]) <==> ReadAsItself(s)
  {
    var d := [s];
    ReadsBack(d);
    forall q: string, m: nat
      ensures DiffTells(d, q, m) <==> Heard(s) && m == n && q == ReadName(s.files.value.path)
    {
      assert d[0] == s;
    }
    NamesReadIff(d);
    assert d[0] == s && SectionAdds(d[0], n);
  }

  /** A section that adds one line to a file. */
  function AddsOne(former: Option<string>, path: string, text: string): Section {
    Section("", [], Some(Files(former, path)), [Hunk(0, 1, "", [Added(text)])])
  }

  lemma AddsOneAdds(former: Option<string>, path: string, text: string) returns (s: Section)
    requires OneLine(text)
    ensures s == AddsOne(former, path, text) && HarmlessSection(s) && forall n: nat :: SectionAdds(s, n) <==> n == 1
  {
    s := AddsOne(former, path, text);
    var h := s.hunks[0];
    assert h.lines == [Added(text)] && h.lines[1..] == [];
    assert AddedCount(h.lines) == 1 && HunkAdds(s.hunks[0], 1);
    OneLineIsOnePiece("");
    OneLineIsOnePiece(text);
  }

  lemma SpacedName(p: string)
    requires p == "a b"
    ensures !BreaksLine(p) && !PlainName(p) && ReadName(p) == "a b\t"
  {
    assert p[1] == ' ';
  }

  /** A line added to a file named `a b` is recorded under that name and a tab, and under the file's own not at all. */
  lemma SpaceMisread(text: string)
    requires OneLine(text)
    ensures var d := [AddsOne(None, "a b", text)];
      !ReadRight(d) && Has(ReadDiff(d), "a b\t", 1) && !Has(ReadDiff(d), "a b", 1)
  {
    var s := AddsOneAdds(None, "a b", text);
    PlainHeadHeard(s);
    SpacedName(s.files.value.path);
    OneSectionRead(s, 1);
  }

  const RENAMED := "x\U{2028}y"

  lemma RenamedPrints(f: Files)
    requires f.former == Some(RENAMED)
    ensures OldLine(f) == "--- a/x\U{2028}y"
  {
    assert RENAMED[1] == '\U{2028}';
    assert !QuotedName(RENAMED) && ' ' !in RENAMED;
  }

  /** A line that breaks once falls into its two sides. */
  lemma TwoPieces(front: string, mark: char, back: string)
    requires OneLine(front) && OneLine(back) && IsBreak(mark) && mark != '\r'
    ensures Pieces(front + ([mark] + back)) == [front, back]
  {
    var rest := back + "\n";
    var s := [mark] + rest;
    assert s[0] == mark && s[..0] == "" && s[1..] == rest;
    FirstBreak(s, 0);
    BreakBehindPrefix(front, s);
    RestBehindPrefix(front, s, 0);
    SplitStep(front + s, |front|, 1, rest);
    WithNewline(front, [mark], back);
    OneLineIsOnePiece(back);
  }

  lemma WithNewline(a: string, b: string, c: string)
    ensures a + (b + c) + "\n" == a + (b + (c + "\n"))
  {
  }

  /** The old name breaks its line in two, and the second half is no old name. */
  lemma RenamedBreaks(line: string)
    requires line == "--- a/x\U{2028}y"
    ensures Pieces(line) == ["--- a/x", "y"]
  {
    assert line == "--- a/x" + (['\U{2028}'] + "y");
    TwoPieces("--- a/x", '\U{2028}', "y");
  }

  lemma RenamedPieces(s: Section)
    requires s.names == "" && s.headers == [] && s.files.Some? && s.files.value.former == Some(RENAMED)
    ensures HeadPieces(s) == ["diff --git ", "--- a/x", "y"]
  {
    var line := OldLine(s.files.value);
    RenamedPrints(s.files.value);
    RenamedBreaks(line);
    assert "diff --git " + s.names == "diff --git ";
    OneLineIsOnePiece("diff --git ");
    assert Head(s)[1..] == [line] && [line][1..] == [];
    assert AllPieces([line]) == Pieces(line) + AllPieces([]);
  }

  lemma NoPlus(pieces: seq<string>)
    requires forall k :: 0 <= k < |pieces| ==> pieces[k] != "" && pieces[k][0] != '+'
    ensures NoNewName(pieces)
  {
    forall k | 0 <= k < |pieces| ensures !StartsWith(pieces[k], "+++ ") {
      if StartsWith(pieces[k], "+++ ") {
        FirstCharacter(pieces[k], "+++ ");
      }
    }
  }

  lemma NotOldName(piece: string)
    requires piece != "" && piece[0] != '-'
    ensures !StartsWith(piece, "--- ")
  {
    if StartsWith(piece, "--- ") {
      FirstCharacter(piece, "--- ");
    }
  }

  lemma RenamedUnheard(s: Section, pieces: seq<string>)
    requires pieces == HeadPieces(s) && pieces == ["diff --git ", "--- a/x", "y"]
    ensures !Heard(s) && NoNewName(pieces)
  {
    NoPlus(pieces);
    NotOldName(pieces[2]);
  }

  lemma OneLineName(p: string)
    requires PlainName(p)
    ensures !BreaksLine(p)
  {
  }

  /** What is added to a plainly named file renamed from this name is lost. */
  lemma RenamedLost(s: Section, n: nat)
    requires s.names == "" && s.headers == [] && s.files.Some? && s.files.value.former == Some(RENAMED)
    requires HarmlessSection(s) && PlainName(s.files.value.path) && s.files.value.path != ""
    requires forall m: nat :: SectionAdds(s, m) <==> m == n
    ensures !ReadRight([s]) && forall p: string, m: nat :: !Has(ReadDiff([s]), p, m)
  {
    RenamedPieces(s);
    RenamedUnheard(s, HeadPieces(s));
    OneLineName(s.files.value.path);
    OneSectionRead(s, n);
  }

  /**
   A line added to a plainly named file is not recorded at all when it is renamed from a name with a line separator.
   */
  lemma RenameMisread(text: string)
    requires OneLine(text)
    ensures var d := [AddsOne(Some(RENAMED), "new", text)];
      PlainName("new") && !ReadRight(d) && forall p: string, n: nat :: !Has(ReadDiff(d), p, n)
  {
    var s := AddsOneAdds(Some(RENAMED), "new", text);
    RenamedLost(s, 1);
  }
}
