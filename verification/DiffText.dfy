/**
 Diff text: how a text falls into lines, and how a hunk header gives its line number.
 */
module DiffText {

  import opened Wrappers
  import opened Decimal

  predicate StartsWith(s: string, prefix: string): (yes: bool)
    ensures yes ==> |prefix| <= |s|
  {
    prefix == "" || (s != "" && s[0] == prefix[0] && StartsWith(s[1..], prefix[1..]))
  }

  lemma {:induction false} StartsWithMeans(s: string, prefix: string)
    ensures StartsWith(s, prefix) <==> prefix <= s
  {
    if prefix == "" || s == "" {
    } else {
      StartsWithMeans(s[1..], prefix[1..]);
      if prefix <= s {
        assert prefix[0] == s[0] && prefix[1..] <= s[1..];
      }
      if s[0] == prefix[0] && prefix[1..] <= s[1..] {
        assert prefix == [prefix[0]] + prefix[1..] && s == [s[0]] + s[1..];
      }
    }
  }

  lemma StartsWithShorter(s: string, a: string, b: string)
    requires StartsWith(s, a + b)
    ensures StartsWith(s, a)
  {
    StartsWithMeans(s, a + b);
    StartsWithMeans(s, a);
    assert (a + b)[..|a|] == a && s[..|a + b|][..|a|] == s[..|a|];
  }

  lemma FirstCharacter(s: string, prefix: string)
    requires prefix != "" && StartsWith(s, prefix)
    ensures s != "" && s[0] == prefix[0]
  {
    StartsWithMeans(s, prefix);
  }

  lemma Drop(u: string, v: string)
    ensures (u + v)[|u|..] == v && StartsWith(u + v, u)
  {
    StartsWithMeans(u + v, u);
  }

  // ---- lines ----

  /** Every character a text is split at, not only the newline. */
  predicate IsBreak(c: char) {
    var n := c as int;
    0x0A <= n <= 0x0D || 0x1C <= n <= 0x1E || n == 0x85 || n == 0x2028 || n == 0x2029
  }

  /** Line feed to carriage return, the three separators, next line, line separator, paragraph separator. */
  lemma BreaksAre(c: char)
    ensures IsBreak(c) <==> c as int in {10, 11, 12, 13, 28, 29, 30, 0x85, 0x2028, 0x2029}
  {
  }

  function NextBreak(s: string): (k: nat)
    ensures k <= |s| && (k < |s| ==> IsBreak(s[k]))
    ensures forall j :: 0 <= j < k ==> !IsBreak(s[j])
  {
    if s == "" || IsBreak(s[0]) then 0 else 1 + NextBreak(s[1..])
  }

  /** A carriage return and the newline after it are one break. */
  function BreakLength(s: string, k: nat): (n: nat)
    requires k < |s|
    ensures 1 <= n && k + n <= |s|
  {
    if k + 1 < |s| && s[k] == '\r' && s[k + 1] == '\n' then 2 else 1
  }

  function SplitLines(s: string): (lines: seq<string>)
    ensures s == "" <==> lines == []
    decreases |s|
  {
    if s == "" then []
    else
      var k := NextBreak(s);
      if k == |s| then [s] else [s[..k]] + SplitLines(s[k + BreakLength(s, k)..])
  }

  predicate OneLine(s: string) {
    forall j :: 0 <= j < |s| ==> !IsBreak(s[j])
  }

  /** The first break is where it is, whatever follows. */
  lemma FirstBreak(s: string, k: nat)
    requires k <= |s| && (k < |s| ==> IsBreak(s[k]))
    requires forall j :: 0 <= j < k ==> !IsBreak(s[j])
    ensures NextBreak(s) == k
  {
  }

  lemma SplitStep(s: string, k: nat, n: nat, rest: string)
    requires k < |s| && k == NextBreak(s) && n == BreakLength(s, k) && rest == s[k + n..]
    ensures SplitLines(s) == [s[..k]] + SplitLines(rest)
  {
  }

  lemma SameFirstBreak(t: string, b: string) returns (k: nat, n: nat)
    requires t != "" && t[|t| - 1] == '\n'
    ensures k < |t| && k == NextBreak(t) == NextBreak(t + b)
    ensures n == BreakLength(t, k) == BreakLength(t + b, k)
  {
    k := NextBreak(t);
    assert forall j :: 0 <= j < |t| ==> (t + b)[j] == t[j];
    FirstBreak(t + b, k);
    n := BreakLength(t, k);
  }

  lemma CutFront(t: string, b: string, k: nat, m: nat, rest: string)
    requires k <= m <= |t| && rest == t[m..]
    ensures (t + b)[m..] == rest + b && (t + b)[..k] == t[..k]
    ensures rest != "" ==> rest[|rest| - 1] == t[|t| - 1]
  {
  }

  lemma Associate(a: seq<string>, b: seq<string>, c: seq<string>)
    ensures a + (b + c) == (a + b) + c
  {
  }

  lemma {:induction false} SplitAtNewline(t: string, b: string)
    requires t != "" && t[|t| - 1] == '\n'
    ensures SplitLines(t + b) == SplitLines(t) + SplitLines(b)
    decreases |t|
  {
    var k, n := SameFirstBreak(t, b);
    var rest := t[k + n..];
    CutFront(t, b, k, k + n, rest);
    SplitStep(t, k, n, rest);
    SplitStep(t + b, k, n, rest + b);
    if rest == "" {
      assert rest + b == b;
    } else {
      SplitAtNewline(rest, b);
    }
    Associate([t[..k]], SplitLines(rest), SplitLines(b));
  }

  /** The pieces one printed line is read as; more than one when it holds a break of its own. */
  function Pieces(line: string): (ps: seq<string>)
    ensures ps != []
  {
    SplitLines(line + "\n")
  }

  lemma OneLineIsOnePiece(line: string)
    requires OneLine(line)
    ensures Pieces(line) == [line]
  {
    var s := line + "\n";
    FirstBreak(s, |line|);
    assert s[..|line|] == line && s[|line| + 1..] == "";
  }

  lemma BreakBehindPrefix(u: string, s: string)
    requires OneLine(u) && NextBreak(s) < |s|
    ensures NextBreak(u + s) == |u| + NextBreak(s)
  {
    var t, k := u + s, NextBreak(s);
    forall j | 0 <= j < |u| + k ensures !IsBreak(t[j]) {
      assert t[j] == if j < |u| then u[j] else s[j - |u|];
    }
    assert t[|u| + k] == s[k];
    FirstBreak(t, |u| + k);
  }

  lemma RestBehindPrefix(u: string, s: string, k: nat)
    requires k < |s|
    ensures BreakLength(u + s, |u| + k) == BreakLength(s, k)
    ensures (u + s)[|u| + k + BreakLength(s, k)..] == s[k + BreakLength(s, k)..]
    ensures (u + s)[..|u| + k] == u + s[..k]
  {
  }

  lemma FirstPieceAt(line: string, s: string, k: nat, n: nat, rest: string)
    requires s == line + "\n" && k < |s| && k == NextBreak(s) && n == BreakLength(s, k) && rest == s[k + n..]
    ensures Pieces(line) == [s[..k]] + SplitLines(rest)
  {
    SplitStep(s, k, n, rest);
  }

  lemma BreakInLine(line: string) returns (s: string, k: nat, n: nat, rest: string)
    ensures s == line + "\n" && k < |s| && k == NextBreak(s) && n == BreakLength(s, k) && rest == s[k + n..]
  {
    s := line + "\n";
    assert s[|line|] == '\n';
    k := NextBreak(s);
    assert k < |s|;
    n := BreakLength(s, k);
    rest := s[k + n..];
  }

  lemma SameTail(a: string, b: string, ps: seq<string>, qs: seq<string>, more: seq<string>)
    requires ps == [a] + more && qs == [b] + more
    ensures ps[0] == a && qs == [b] + ps[1..]
  {
  }

  lemma BothPieces(u: string, line: string) returns (first: string, rest: string)
    requires OneLine(u)
    ensures Pieces(line) == [first] + SplitLines(rest) && Pieces(u + line) == [u + first] + SplitLines(rest)
  {
    var s, k, n, tail := BreakInLine(line);
    first, rest := s[..k], tail;
    FirstPieceAt(line, s, k, n, rest);
    var t := u + s;
    assert t == u + line + "\n";
    BreakBehindPrefix(u, s);
    RestBehindPrefix(u, s, k);
    FirstPieceAt(u + line, t, |u| + k, n, rest);
  }

  /** Text put in front lengthens the first piece and leaves the others. */
  lemma PrefixOnFirstPiece(u: string, line: string)
    requires OneLine(u)
    ensures Pieces(u + line) == [u + Pieces(line)[0]] + Pieces(line)[1..]
  {
    var first, rest := BothPieces(u, line);
    SameTail(first, u + first, Pieces(line), Pieces(u + line), SplitLines(rest));
  }

  function Printed(lines: seq<string>): string {
    if lines == [] then "" else lines[0] + "\n" + Printed(lines[1..])
  }

  function AllPieces(lines: seq<string>): seq<string> {
    if lines == [] then [] else Pieces(lines[0]) + AllPieces(lines[1..])
  }

  lemma {:induction false} PrintedSplits(lines: seq<string>)
    ensures SplitLines(Printed(lines)) == AllPieces(lines)
  {
    if lines == [] {
    } else {
      PrintedSplits(lines[1..]);
      SplitAtNewline(lines[0] + "\n", Printed(lines[1..]));
    }
  }

  lemma {:induction false} PiecesOfConcat(a: seq<string>, b: seq<string>)
    ensures AllPieces(a + b) == AllPieces(a) + AllPieces(b)
  {
    if a == [] {
      assert a + b == b;
    } else {
      assert (a + b)[1..] == a[1..] + b;
      PiecesOfConcat(a[1..], b);
    }
  }

  // ---- numbers and hunk headers ----

  function LeadingDigits(s: string): (k: nat)
    ensures k <= |s| && (forall j :: 0 <= j < k ==> IsDigit(s[j])) && (k < |s| ==> !IsDigit(s[k]))
  {
    if s == "" || !IsDigit(s[0]) then 0 else 1 + LeadingDigits(s[1..])
  }

  /** A start with an optional count: the start and what follows. */
  function ReadRange(s: string): Option<(nat, string)> {
    var k := LeadingDigits(s);
    if k == 0 then None
    else
      var rest := s[k..];
      var m := if StartsWith(rest, ",") then LeadingDigits(rest[1..]) else 0;
      Some((Number(s[..k]), if m > 0 then rest[1 + m..] else rest))
  }

  /** The new-file line number of a hunk header, if the line is one. */
  function HunkStart(line: string): Option<nat> {
    if !StartsWith(line, "@@ -") then None
    else match ReadRange(line[4..])
      case None => None
      case Some((_, afterOld)) =>
        if !StartsWith(afterOld, " +") then None
        else match ReadRange(afterOld[2..])
          case None => None
          case Some((start, afterNew)) => if StartsWith(afterNew, " @@") then Some(start) else None
  }

  function PrintRange(start: nat, count: nat): string {
    if count == 1 then PrintNat(start) else PrintNat(start) + "," + PrintNat(count)
  }

  lemma {:induction false} DigitsThen(s: string, rest: string)
    requires forall j :: 0 <= j < |s| ==> IsDigit(s[j])
    requires rest == "" || !IsDigit(rest[0])
    ensures LeadingDigits(s + rest) == |s|
  {
    if s == "" {
      assert s + rest == rest;
    } else {
      assert (s + rest)[1..] == s[1..] + rest;
      DigitsThen(s[1..], rest);
    }
  }

  lemma StartReadsBack(start: nat, rest: string)
    requires rest != "" && !IsDigit(rest[0]) && rest[0] != ','
    ensures ReadRange(PrintNat(start) + rest) == Some((start, rest))
  {
    var a := PrintNat(start);
    NumberOfPrinted(start);
    DigitsThen(a, rest);
    assert (a + rest)[..|a|] == a && (a + rest)[|a|..] == rest;
  }

  lemma SkipsCount(b: string, rest: string)
    requires b != "" && (forall j :: 0 <= j < |b| ==> IsDigit(b[j])) && rest != "" && !IsDigit(rest[0])
    ensures var tail := "," + (b + rest);
      StartsWith(tail, ",") && LeadingDigits(tail[1..]) == |b| && tail[1 + |b|..] == rest
  {
    Drop(",", b + rest);
    DigitsThen(b, rest);
    assert (b + rest)[|b|..] == rest;
  }

  lemma StartAndCountReadBack(start: nat, tail: string, m: nat)
    requires StartsWith(tail, ",") && !IsDigit(tail[0]) && m > 0 && LeadingDigits(tail[1..]) == m
    ensures ReadRange(PrintNat(start) + tail) == Some((start, tail[1 + m..]))
  {
    var a := PrintNat(start);
    NumberOfPrinted(start);
    DigitsThen(a, tail);
    Parts(a, tail);
  }

  lemma Parts(a: string, tail: string)
    ensures (a + tail)[..|a|] == a && (a + tail)[|a|..] == tail
  {
  }

  lemma RangeReadsBack(start: nat, count: nat, rest: string)
    requires rest != "" && !IsDigit(rest[0]) && rest[0] != ','
    ensures ReadRange(PrintRange(start, count) + rest) == Some((start, rest))
  {
    if count == 1 {
      StartReadsBack(start, rest);
    } else {
      var a, b := PrintNat(start), PrintNat(count);
      assert a + "," + b + rest == a + ("," + (b + rest));
      SkipsCount(b, rest);
      StartAndCountReadBack(start, "," + (b + rest), |b|);
    }
  }

  function HunkHeader(oldStart: nat, oldCount: nat, newStart: nat, newCount: nat): string {
    "@@ -" + (PrintRange(oldStart, oldCount) + (" +" + (PrintRange(newStart, newCount) + " @@")))
  }

  lemma HeaderInParts(line: string, was: string, afterOld: string, now: string, afterNew: string, heading: string)
    requires line == "@@ -" + (was + afterOld) && afterOld == " +" + (now + afterNew) && afterNew == " @@" + heading
    ensures StartsWith(line, "@@ -") && line[4..] == was + afterOld
    ensures StartsWith(afterOld, " +") && afterOld[2..] == now + afterNew && afterOld[0] == ' '
    ensures StartsWith(afterNew, " @@") && afterNew[0] == ' '
  {
    Drop("@@ -", was + afterOld);
    Drop(" +", now + afterNew);
    Drop(" @@", heading);
  }

  lemma HeaderWith(was: string, now: string, heading: string)
    ensures "@@ -" + (was + (" +" + (now + " @@"))) + heading == "@@ -" + (was + (" +" + (now + (" @@" + heading))))
  {
  }

  /** A printed header gives its new-file start back, whatever heading follows. */
  lemma HeaderReadsBack(oldStart: nat, oldCount: nat, newStart: nat, newCount: nat, heading: string)
    ensures HunkStart(HunkHeader(oldStart, oldCount, newStart, newCount) + heading) == Some(newStart)
  {
    var was, now := PrintRange(oldStart, oldCount), PrintRange(newStart, newCount);
    HeaderWith(was, now, heading);
    var line := HunkHeader(oldStart, oldCount, newStart, newCount) + heading;
    var afterNew := " @@" + heading;
    var afterOld := " +" + (now + afterNew);
    HeaderInParts(line, was, afterOld, now, afterNew, heading);
    RangeReadsBack(oldStart, oldCount, afterOld);
    RangeReadsBack(newStart, newCount, afterNew);
  }

  lemma OneLineConcat(a: string, b: string)
    requires OneLine(a) && OneLine(b)
    ensures OneLine(a + b)
  {
  }

  lemma RangeOneLine(start: nat, count: nat)
    ensures OneLine(PrintRange(start, count))
  {
    assert OneLine(PrintNat(start)) && OneLine(PrintNat(count));
    OneLineConcat(PrintNat(start), ",");
    OneLineConcat(PrintNat(start) + ",", PrintNat(count));
  }

  lemma HeaderOneLine(oldStart: nat, oldCount: nat, newStart: nat, newCount: nat)
    ensures OneLine(HunkHeader(oldStart, oldCount, newStart, newCount))
  {
    var was, now := PrintRange(oldStart, oldCount), PrintRange(newStart, newCount);
    RangeOneLine(oldStart, oldCount);
    RangeOneLine(newStart, newCount);
    OneLineConcat(now, " @@");
    OneLineConcat(" +", now + " @@");
    OneLineConcat(was, " +" + (now + " @@"));
    OneLineConcat("@@ -", was + (" +" + (now + " @@")));
  }
}
