/**
 Exactly which payload texts are read back in every diff: those with nothing live after a break of
 their own. A form feed is enough to break a line, and then what follows is read as a diff line.
 */
module DiffExact {
  import opened Wrappers
  import opened DiffText
  import opened DiffReader
  import opened DiffPaths

  /** A one-file, one-hunk diff that adds the text and then more lines. */
  function AddsText(path: string, n: nat, text: string, more: seq<Payload>): seq<Section> {
    [Section(path, [], Some(Files(Some(path), path)), [Hunk(0, n, "", [Added(text)] + more)])]
  }

  predicate PlainPayload(ps: seq<Payload>) {
    forall k :: 0 <= k < |ps| && !ps[k].NoNewline? ==> OneLine(ps[k].text)
  }

  /** The text is read back wherever it is added and whatever plain lines come after it. */
  ghost predicate SafeText(text: string) {
    forall path: string, n: nat, more: seq<Payload> :: path != "" && PlainName(path) && PlainPayload(more) ==>
      ReadRight(AddsText(path, n, text, more))
  }

  lemma OneLineHarmless(text: string)
    requires OneLine(text)
    ensures HarmlessText(text)
  {
    OneLineIsOnePiece(text);
  }

  lemma HarmlessIsSafe(text: string)
    requires HarmlessText(text)
    ensures SafeText(text)
  {
    forall path: string, n: nat, more: seq<Payload> | path != "" && PlainName(path) && PlainPayload(more)
      ensures ReadRight(AddsText(path, n, text, more))
    {
      var d := AddsText(path, n, text, more);
      var h := d[0].hunks[0];
      OneLineHarmless("");
      forall k | 0 <= k < |h.lines| && !h.lines[k].NoNewline? ensures HarmlessText(h.lines[k].text) {
        if k > 0 {
          assert h.lines[k] == more[k - 1];
          OneLineHarmless(h.lines[k].text);
        }
      }
      PlainHeadHeard(d[0]);
      assert WellPrinted(d[0]) && ReadAsItself(d[0]);
      PlainRead(d);
    }
  }

  // ---- reading the diff up to the text ----

  /** Down to its hunk the diff leaves the reader with the path and nothing added. */
  lemma NamesRead(path: string, n: nat, text: string, more: seq<Payload>) returns (r: Reader)
    requires path != "" && PlainName(path)
    ensures r.path == Some(path) && r.added == map[]
    ensures ReadDiff(AddsText(path, n, text, more)) ==
      FeedAll(r, AllPieces(HunkLines(Hunk(0, n, "", [Added(text)] + more)))).added
  {
    var d := AddsText(path, n, text, more);
    var s := d[0];
    PrintedSplits(DiffLines(d));
    assert d[1..] == [] && DiffLines(d) == SectionLines(s);
    PlainHeadHeard(s);
    ReadNameIff(path);
    r := NameRead(BEGIN, s);
    assert s.hunks[1..] == [] && AllHunkLines(s.hunks) == HunkLines(s.hunks[0]);
    FeedBlocks(BEGIN, NameLines(s), HunkLines(s.hunks[0]));
  }

  lemma UpToPayload(path: string, n: nat, text: string, more: seq<Payload>)
    requires path != "" && PlainName(path)
    ensures ReadDiff(AddsText(path, n, text, more)) ==
      FeedAll(Reader(Some(path), n, true, false, map[]), AllPieces(ShowAll([Added(text)] + more))).added
  {
    var h := Hunk(0, n, "", [Added(text)] + more);
    var r := NamesRead(path, n, text, more);
    OneLineHarmless("");
    FeedLines(r, HeaderLine(h), ShowAll(h.lines));
    HeaderRead(r, path, h);
  }

  /** In the hunk, with line n of the file read. */
  function HavingRead(path: string, n: nat): Reader {
    Reader(Some(path), n + 1, true, false, map[path := {n}])
  }

  lemma FirstPieceRead(path: string, n: nat, text: string)
    requires path != ""
    ensures FeedAll(Reader(Some(path), n, true, false, map[]), Pieces("+" + text)) ==
      FeedAll(HavingRead(path, n), Pieces(text)[1..])
  {
    var r := Reader(Some(path), n, true, false, map[]);
    PrefixOnFirstPiece("+", text);
    var first := "+" + Pieces(text)[0];
    FeedAddition(r, path, first);
    assert {} + {n} == {n};
    assert AddLine(map[], path, n) == map[path := {n}];
    var ps := [first] + Pieces(text)[1..];
    assert ps[0] == first && ps[1..] == Pieces(text)[1..];
  }

  /** The text's own pieces, the first of which adds line n. */
  lemma UpToBreak(path: string, n: nat, text: string, more: seq<Payload>)
    requires path != "" && PlainName(path)
    ensures ReadDiff(AddsText(path, n, text, more)) ==
      FeedAll(HavingRead(path, n), Pieces(text)[1..] + AllPieces(ShowAll(more))).added
  {
    UpToPayload(path, n, text, more);
    var r := Reader(Some(path), n, true, false, map[]);
    var lines := [Added(text)] + more;
    assert lines[1..] == more;
    assert ShowAll(lines) == ["+" + text] + ShowAll(more);
    FeedLines(r, "+" + text, ShowAll(more));
    FirstPieceRead(path, n, text);
    FeedConcat(HavingRead(path, n), Pieces(text)[1..], AllPieces(ShowAll(more)));
  }

  // ---- a live piece shows somewhere ----

  lemma {:induction false} NeverForgets(r: Reader, pieces: seq<string>, p: string, n: nat)
    requires Has(r.added, p, n)
    ensures Has(FeedAll(r, pieces).added, p, n)
    decreases |pieces|
  {
    if pieces == [] {
    } else {
      NeverForgets(Feed(r, pieces[0]), pieces[1..], p, n);
    }
  }

  /** No piece is longer than the bound or a hunk header with a larger start. */
  predicate Within(pieces: seq<string>, bound: nat) {
    forall k :: 0 <= k < |pieces| ==>
      |pieces[k]| <= bound && (HunkStart(pieces[k]).Some? ==> HunkStart(pieces[k]).value <= bound)
  }

  function Bound(pieces: seq<string>): (b: nat)
    ensures Within(pieces, b)
  {
    if pieces == [] then 0
    else
      var rest := Bound(pieces[1..]);
      var m := match HunkStart(pieces[0]) case None => 0 case Some(n) => n;
      var b := rest + m + |pieces[0]|;
      assert forall k :: 1 <= k < |pieces| ==> pieces[k] == pieces[1..][k - 1];
      b
  }

  /** The reader has lost line n of the file and will not reach it within so many pieces. */
  predicate Lost(r: Reader, path: string, n: nat, left: nat) {
    !Has(r.added, path, n) && (r.path == Some(path) ==> r.lineno + left <= n)
  }

  lemma LostStep(r: Reader, k: Look, path: string, n: nat, left: nat)
    requires Lost(r, path, n, left + 1) && k.target != Some(path)
    requires k.start.Some? ==> k.start.value + left <= n
    ensures Lost(Step(r, k), path, n, left)
  {
  }

  lemma {:induction false} StaysLost(r: Reader, pieces: seq<string>, path: string, n: nat, bound: nat)
    requires Lost(r, path, n, |pieces|) && Within(pieces, bound) && bound < |path| && bound + |pieces| <= n
    ensures !Has(FeedAll(r, pieces).added, path, n)
    decreases |pieces|
  {
    if pieces == [] {
    } else {
      var k := LookAt(pieces[0]);
      assert k.target.Some? ==> |k.target.value| <= |pieces[0]|;
      LostStep(r, k, path, n, |pieces| - 1);
      StaysLost(Feed(r, pieces[0]), pieces[1..], path, n, bound);
    }
  }

  function Name(length: nat): (s: string)
    ensures |s| == length && PlainName(s)
  {
    seq(length, _ => 'n')
  }

  lemma FirstLive(text: string) returns (i: nat)
    requires !HarmlessText(text)
    ensures 1 <= i < |Pieces(text)| && !Harmless(Pieces(text)[i])
    ensures forall k :: 1 <= k < i ==> Harmless(Pieces(text)[k])
  {
    i := 1;
    while Harmless(Pieces(text)[i])
      invariant 1 <= i < |Pieces(text)|
      invariant forall k :: 1 <= k < i ==> Harmless(Pieces(text)[k])
      decreases |Pieces(text)| - i
    {
      i := i + 1;
    }
  }

  lemma FeedPast(r: Reader, p: string, quiet: seq<string>, x: string, tail: seq<string>)
    requires InHunkOf(r, p) && forall k :: 0 <= k < |quiet| ==> Harmless(quiet[k])
    ensures FeedAll(r, quiet + ([x] + tail)) == FeedAll(Feed(r, x), tail)
  {
    FeedConcat(r, quiet, [x] + tail);
    PassedOver(r, p, quiet);
    assert ([x] + tail)[1..] == tail;
  }

  lemma Around(ps: seq<string>, i: nat, more: seq<string>)
    requires 1 <= i < |ps|
    ensures ps[1..] + more == ps[1..i] + ([ps[i]] + (ps[i + 1..] + more))
  {
  }

  /** The pieces before the first live one leave the reader where the text's line left it. */
  lemma UpToLive(path: string, n: nat, text: string, more: seq<Payload>, i: nat)
    requires path != "" && PlainName(path) && 1 <= i < |Pieces(text)|
    requires forall k :: 1 <= k < i ==> Harmless(Pieces(text)[k])
    ensures ReadDiff(AddsText(path, n, text, more)) ==
      FeedAll(Feed(HavingRead(path, n), Pieces(text)[i]), Pieces(text)[i + 1..] + AllPieces(ShowAll(more))).added
  {
    UpToBreak(path, n, text, more);
    var ps := Pieces(text);
    Around(ps, i, AllPieces(ShowAll(more)));
    FeedPast(HavingRead(path, n), path, ps[1..i], ps[i], ps[i + 1..] + AllPieces(ShowAll(more)));
  }

  lemma OneLineTotal(path: string, n: nat, text: string, m: nat)
    ensures DiffAdds(AddsText(path, n, text, []), path, m) <==> m == n
  {
    var d := AddsText(path, n, text, []);
    var h := d[0].hunks[0];
    assert h.lines == [Added(text)] && h.lines[1..] == [];
    assert AddedCount(h.lines) == 1;
    assert d[0].hunks[0] == h;
    assert m == n ==> HunkAdds(d[0].hunks[0], m) && SectionAdds(d[0], m);
  }

  lemma TwoLinesTotal(path: string, n: nat, text: string)
    ensures DiffAdds(AddsText(path, n, text, [Added("")]), path, n + 1)
  {
    var d := AddsText(path, n, text, [Added("")]);
    var lines := d[0].hunks[0].lines;
    assert lines[1..] == [Added("")] && lines[1..][1..] == [];
    assert AddedCount(lines) == 1 + AddedCount(lines[1..]);
    assert HunkAdds(d[0].hunks[0], n + 1);
    assert SectionAdds(d[0], n + 1);
  }

  lemma PlusSticks(path: string, n: nat, piece: string, after: seq<string>)
    requires path != "" && StartsWith(piece, "+")
    ensures Has(FeedAll(Feed(HavingRead(path, n), piece), after).added, path, n + 1)
  {
    var r := HavingRead(path, n);
    FeedAddition(r, path, piece);
    NeverForgets(r.(lineno := n + 2, added := AddLine(r.added, path, n + 1)), after, path, n + 1);
  }

  /** A piece read as an addition puts a line too many. */
  lemma PlusShows(text: string, i: nat)
    requires 1 <= i < |Pieces(text)| && StartsWith(Pieces(text)[i], "+")
    requires forall k :: 1 <= k < i ==> Harmless(Pieces(text)[k])
    ensures !SafeText(text)
  {
    var path, n := Name(1), 0;
    var ps := Pieces(text);
    UpToLive(path, n, text, [], i);
    PlusSticks(path, n, ps[i], ps[i + 1..] + AllPieces(ShowAll([])));
    OneLineTotal(path, n, text, n + 1);
    assert !ReadRight(AddsText(path, n, text, []));
  }

  lemma OpeningLoses(path: string, n: nat, piece: string, left: nat)
    requires path != "" && StartsWith(piece, "diff --git ")
    ensures Lost(Feed(HavingRead(path, n), piece), path, n + 1, left)
  {
    var k := LookAt(piece);
    assert k.opening;
    var r := Step(HavingRead(path, n), k);
    assert r.path.None? && r.added == map[path := {n}];
  }

  lemma HeaderLoses(path: string, n: nat, piece: string, left: nat)
    requires path != "" && HunkStart(piece).Some? && HunkStart(piece).value + left <= n + 1
    ensures Lost(Feed(HavingRead(path, n), piece), path, n + 1, left)
  {
    FeedHeader(HavingRead(path, n), piece, HunkStart(piece).value);
  }

  lemma JumpLoses(path: string, n: nat, piece: string, left: nat)
    requires path != "" && !Harmless(piece) && !StartsWith(piece, "+")
    requires HunkStart(piece).Some? ==> HunkStart(piece).value + left <= n + 1
    ensures Lost(Feed(HavingRead(path, n), piece), path, n + 1, left)
  {
    if StartsWith(piece, "diff --git ") {
      OpeningLoses(path, n, piece, left);
    } else {
      HeaderLoses(path, n, piece, left);
    }
  }

  lemma WithinParts(piece: string, after: seq<string>, bound: nat)
    requires Within([piece] + after, bound)
    ensures HunkStart(piece).Some? ==> HunkStart(piece).value <= bound
    ensures Within(after, bound)
  {
    assert ([piece] + after)[0] == piece;
    assert forall k :: 0 <= k < |after| ==> after[k] == ([piece] + after)[k + 1];
  }

  lemma FarAway(piece: string, after: seq<string>) returns (path: string, n: nat)
    requires !Harmless(piece) && !StartsWith(piece, "+")
    ensures path != "" && PlainName(path)
    ensures !Has(FeedAll(Feed(HavingRead(path, n), piece), after).added, path, n + 1)
  {
    var bound := Bound([piece] + after);
    path, n := Name(bound + 1), bound + |after|;
    WithinParts(piece, after, bound);
    JumpLoses(path, n, piece, |after|);
    StaysLost(Feed(HavingRead(path, n), piece), after, path, n + 1, bound);
  }

  /** A piece read as a section opening or a hunk header loses the next line, in a file far enough away. */
  lemma JumpShows(text: string, i: nat)
    requires 1 <= i < |Pieces(text)| && !Harmless(Pieces(text)[i]) && !StartsWith(Pieces(text)[i], "+")
    requires forall k :: 1 <= k < i ==> Harmless(Pieces(text)[k])
    ensures !SafeText(text)
  {
    var ps := Pieces(text);
    var more := [Added("")];
    var path, n := FarAway(ps[i], ps[i + 1..] + AllPieces(ShowAll(more)));
    UpToLive(path, n, text, more, i);
    TwoLinesTotal(path, n, text);
    assert !ReadRight(AddsText(path, n, text, more));
  }

  /** A payload text is read back in every diff exactly when nothing after its breaks looks like a diff line. */
  lemma SafeIff(text: string)
    ensures SafeText(text) <==> HarmlessText(text)
  {
    if HarmlessText(text) {
      HarmlessIsSafe(text);
    } else {
      var i := FirstLive(text);
      if StartsWith(Pieces(text)[i], "+") {
        PlusShows(text, i);
      } else {
        JumpShows(text, i);
      }
    }
  }

  /** For instance: a form feed and then a plus. */
  lemma FormFeedIsUnsafe()
    ensures !SafeText("\U{0C}+")
  {
    var text := "\U{0C}+";
    var s := text + "\n";
    assert |s| == 3 && IsBreak(s[0]) && !IsBreak(s[1]) && s[2] == '\n';
    FirstBreak(s, 0);
    var rest := s[1..];
    assert rest == "+\n";
    FirstBreak(rest, 1);
    assert rest[..1] == "+";
    assert SplitLines(rest) == ["+"] + SplitLines(rest[2..]);
    assert Pieces(text)[1] == "+";
    assert !Harmless(Pieces(text)[1]);
    SafeIff(text);
  }
}
