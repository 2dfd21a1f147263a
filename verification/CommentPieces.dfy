/**
 What the two comment strippers make of a text, told without their states: every text is a run of
 single characters, comments and literals, and the output is put together piece by piece.
 */
module CommentPieces {
  import opened Wrappers
  import CommentStrip
  import CommentDelete

  datatype Piece =
    | Single(c: char)
    | Line(body: string)
    | Block(body: string)
    | Quoted(quote: char, body: string)
    | RawText(delim: string, body: string)

  /** How a text ends: after a piece, or inside one, be it inside an escape. */
  datatype Ending =
    | Done
    | OpenLine(body: string)
    | OpenBlock(body: string)
    | OpenQuoted(quote: char, body: string, escape: bool)
    | OpenRaw(delim: string, body: string)

  /** What a stripper knows of raw strings and digit separators: the blanking one nothing. */
  type Knowledge = Option<CommentDelete.Classes>

  // ---- spelling ----

  function Closer(delim: string): string {
    ")" + delim + "\""
  }

  function Written(p: Piece): string {
    match p
    case Single(c) => [c]
    case Line(body) => "//" + body + "\n"
    case Block(body) => "/*" + body + "*/"
    case Quoted(q, body) => [q] + body + [q]
    case RawText(delim, body) => "R\"" + delim + "(" + body + Closer(delim)
  }

  function WrittenEnd(e: Ending): string {
    match e
    case Done => ""
    case OpenLine(body) => "//" + body
    case OpenBlock(body) => "/*" + body
    case OpenQuoted(q, body, escape) => [q] + body + if escape then "\\" else ""
    case OpenRaw(delim, body) => "R\"" + delim + "(" + body
  }

  function Spelled(ps: seq<Piece>, e: Ending): string {
    if ps == [] then WrittenEnd(e) else Written(ps[0]) + Spelled(ps[1..], e)
  }

  // ---- where a piece can stand ----

  predicate Delim(d: string) {
    |d| <= 16 && forall c :: c in d ==> c !in "()\\\t\n\r " && c as int != 11 && c as int != 12
  }

  /** Does a raw string go on like this after its R? */
  ghost predicate OpensRaw(next: string) {
    exists d :: Delim(d) && "\"" + d + "(" <= next
  }

  predicate AfterIdent(knows: Knowledge, prev: Option<char>) {
    knows.Some? && prev.Some? && knows.value.isIdent(prev.value)
  }

  /** Does a quote between these separate digits? */
  predicate Separates(knows: Knowledge, prev: Option<char>, next: string) {
    knows.Some? && prev.Some? && knows.value.isDigit(prev.value) && next != "" && knows.value.isIdent(next[0])
  }

  /** Nothing in the body ends it before what follows the body does. */
  predicate Before(closer: string, body: string, rest: string) {
    forall i :: 0 <= i < |body| ==> !(closer <= (body + rest)[i..])
  }

  /** Closed by no quote and with every escape complete. */
  predicate LiteralBody(s: string, quote: char) {
    s == "" ||
    (if s[0] == '\\' then |s| > 1 && LiteralBody(s[2..], quote) else s[0] != quote && LiteralBody(s[1..], quote))
  }

  ghost predicate Stands(knows: Knowledge, p: Piece, prev: Option<char>, next: string) {
    match p
    case Single(c) =>
      && c != '"' && (c == '\'' ==> Separates(knows, prev, next))
      && (c == '/' ==> !("/" <= next) && !("*" <= next))
      && (c == 'R' && knows.Some? && !AfterIdent(knows, prev) ==> !OpensRaw(next))
    case Line(body) => '\n' !in body
    case Block(body) => Before("*/", body, "*/")
    case Quoted(q, body) =>
      LiteralBody(body, q) && (q == '"' || (q == '\'' && !Separates(knows, prev, body + [q])))
    case RawText(delim, body) =>
      knows.Some? && !AfterIdent(knows, prev) && Delim(delim) && Before(Closer(delim), body, Closer(delim))
  }

  ghost predicate EndStands(knows: Knowledge, e: Ending, prev: Option<char>) {
    match e
    case Done => true
    case OpenLine(body) => '\n' !in body
    case OpenBlock(body) => Before("*/", body, "")
    case OpenQuoted(q, body, escape) =>
      LiteralBody(body, q) &&
      (q == '"' || (q == '\'' && !Separates(knows, prev, body + if escape then "\\" else "")))
    case OpenRaw(delim, body) =>
      knows.Some? && !AfterIdent(knows, prev) && Delim(delim) && Before(Closer(delim), body, "")
  }

  /** The last character of code a piece leaves behind; comments leave none. */
  function Last(p: Piece): Option<char> {
    match p
    case Single(c) => Some(c)
    case Line(_) => None
    case Block(_) => None
    case Quoted(q, _) => Some(q)
    case RawText(_, _) => Some('"')
  }

  ghost predicate AllStand(knows: Knowledge, ps: seq<Piece>, e: Ending, prev: Option<char>) {
    if ps == [] then EndStands(knows, e, prev)
    else Stands(knows, ps[0], prev, Spelled(ps[1..], e)) && AllStand(knows, ps[1..], e, Last(ps[0]))
  }

  // ---- what becomes of it ----

  function Spaces(s: string): string {
    seq(|s|, i requires 0 <= i < |s| => if s[i] == '\n' then '\n' else ' ')
  }

  /** The line breaks of s. */
  function Breaks(s: string): string {
    if s == "" then "" else (if s[0] == '\n' then "\n" else "") + Breaks(s[1..])
  }

  function BlankedPiece(p: Piece): string {
    if p.Line? || p.Block? then Spaces(Written(p)) else Written(p)
  }

  function BlankedEnd(e: Ending): string {
    if e.OpenLine? || e.OpenBlock? then Spaces(WrittenEnd(e)) else WrittenEnd(e)
  }

  function BlankedText(ps: seq<Piece>, e: Ending): string {
    if ps == [] then BlankedEnd(e) else BlankedPiece(ps[0]) + BlankedText(ps[1..], e)
  }

  function KeptPiece(p: Piece): string {
    if p.Line? || p.Block? then Breaks(Written(p)) else Written(p)
  }

  function KeptEnd(e: Ending): string {
    if e.OpenLine? || e.OpenBlock? then Breaks(WrittenEnd(e)) else WrittenEnd(e)
  }

  function KeptText(ps: seq<Piece>, e: Ending): string {
    if ps == [] then KeptEnd(e) else KeptPiece(ps[0]) + KeptText(ps[1..], e)
  }

  lemma SpacesConcat(a: string, b: string)
    ensures Spaces(a + b) == Spaces(a) + Spaces(b)
  {
  }

  lemma Regroup(a: string, b: string, c: string)
    ensures a + (b + c) == a + b + c
  {
  }

  lemma {:induction false} BreaksConcat(a: string, b: string)
    ensures Breaks(a + b) == Breaks(a) + Breaks(b)
  {
    if a == "" {
      assert a + b == b;
    } else {
      var first := if a[0] == '\n' then "\n" else "";
      assert (a + b)[1..] == a[1..] + b && (a + b)[0] == a[0];
      BreaksConcat(a[1..], b);
      Regroup(first, Breaks(a[1..]), Breaks(b));
    }
  }

  lemma {:induction false} NoBreaks(s: string)
    requires '\n' !in s
    ensures Breaks(s) == ""
  {
    if s == "" {
    } else {
      NoBreaks(s[1..]);
    }
  }

  // ---- every text is made of pieces ----

  lemma BeforeTail(closer: string, body: string, rest: string)
    requires body != ""
    ensures Before(closer, body, rest) <==> !(closer <= body + rest) && Before(closer, body[1..], rest)
  {
    assert (body + rest)[0..] == body + rest;
    assert forall i :: 1 <= i < |body| ==> (body + rest)[i..] == (body[1..] + rest)[i - 1..];
    assert forall i :: 0 <= i < |body[1..]| ==> (body[1..] + rest)[i..] == (body + rest)[i + 1..];
  }

  /** What stands behind a closed body does not matter. */
  lemma BeforeMore(closer: string, body: string, next: string)
    ensures Before(closer, body, closer) <==> Before(closer, body, closer + next)
  {
    forall i | 0 <= i < |body| ensures closer <= (body + closer)[i..] <==> closer <= (body + (closer + next))[i..] {
      assert (body + (closer + next))[i..] == (body + closer)[i..] + next;
    }
  }

  lemma {:induction false} SplitAtCloser(closer: string, t: string) returns (closed: bool, body: string, rest: string)
    requires closer != ""
    ensures closed ==> t == body + closer + rest && Before(closer, body, closer)
    ensures !closed ==> t == body && rest == "" && Before(closer, body, "")
  {
    if closer <= t {
      closed, body, rest := true, "", t[|closer|..];
    } else if t == "" {
      closed, body, rest := false, "", "";
    } else {
      closed, body, rest := SplitAtCloser(closer, t[1..]);
      var tail := body;
      body := [t[0]] + tail;
      assert body[1..] == tail;
      if closed {
        assert t == body + (closer + rest);
        BeforeMore(closer, tail, rest);
        BeforeTail(closer, body, closer + rest);
        BeforeMore(closer, body, rest);
      } else {
        assert t == body + "";
        BeforeTail(closer, body, "");
      }
    }
  }

  lemma {:induction false} SplitLiteral(q: char, t: string) returns (closed: bool, body: string, rest: string)
    ensures LiteralBody(body, q)
    ensures closed ==> t == body + [q] + rest
    ensures !closed ==> t == body + rest && (rest == "" || rest == "\\")
    decreases |t|
  {
    if t == "" || t == "\\" {
      closed, body, rest := false, "", t;
    } else if t[0] != '\\' && t[0] == q {
      closed, body, rest := true, "", t[1..];
    } else {
      var n := if t[0] == '\\' then 2 else 1;
      closed, body, rest := SplitLiteral(q, t[n..]);
      assert t == t[..n] + t[n..] && (t[..n] + body)[n..] == body;
      body := t[..n] + body;
    }
  }

  lemma PieceFirst(p: Piece, ps: seq<Piece>, e: Ending)
    ensures Spelled([p] + ps, e) == Written(p) + Spelled(ps, e)
    ensures forall knows, prev :: AllStand(knows, [p] + ps, e, prev) <==>
      Stands(knows, p, prev, Spelled(ps, e)) && AllStand(knows, ps, e, Last(p))
  {
    assert ([p] + ps)[1..] == ps;
  }

  /** Does s start with this piece, standing there, or end like this? */
  ghost predicate Starts(knows: Knowledge, s: string, prev: Option<char>, p: Option<Piece>, e: Ending, rest: string) {
    match p
    case Some(piece) => s == Written(piece) + rest && Stands(knows, piece, prev, rest)
    case None => s == WrittenEnd(e) && EndStands(knows, e, prev)
  }

  lemma FirstPiece(knows: Knowledge, s: string, prev: Option<char>) returns (p: Option<Piece>, e: Ending, rest: string)
    requires s != ""
    ensures Starts(knows, s, prev, p, e, rest)
  {
    var c, t := s[0], s[1..];
    assert s == [c] + t;
    if c == '/' && "/" <= t {
      assert s == "//" + t[1..];
      p, e, rest := FirstLine(knows, t[1..], prev);
    } else if c == '/' && "*" <= t {
      assert s == "/*" + t[1..];
      p, e, rest := FirstBlock(knows, t[1..], prev);
    } else if c == '"' || (c == '\'' && !Separates(knows, prev, t)) {
      p, e, rest := FirstQuoted(knows, c, t, prev);
    } else if c == 'R' && knows.Some? && !AfterIdent(knows, prev) && OpensRaw(t) {
      p, e, rest := FirstRaw(knows, t, prev);
    } else {
      p, e, rest := Some(Single(c)), Done, t;
    }
  }

  lemma FirstLine(knows: Knowledge, t: string, prev: Option<char>)
    returns (p: Option<Piece>, e: Ending, rest: string)
    ensures Starts(knows, "//" + t, prev, p, e, rest)
  {
    var closed, body, after := SplitAtCloser("\n", t);
    assert '\n' !in body by {
      forall i | 0 <= i < |body| ensures body[i] != '\n' {
        assert t[i..][0] == t[i] == body[i];
        assert closed ==> (body + "\n")[i..][0] == body[i];
        assert !closed ==> (body + "")[i..][0] == body[i];
      }
    }
    p, e, rest := if closed then Some(Line(body)) else None, OpenLine(body), after;
    assert closed ==> "//" + t == Written(Line(body)) + after;
  }

  lemma FirstBlock(knows: Knowledge, t: string, prev: Option<char>)
    returns (p: Option<Piece>, e: Ending, rest: string)
    ensures Starts(knows, "/*" + t, prev, p, e, rest)
  {
    var closed, body, after := SplitAtCloser("*/", t);
    p, e, rest := if closed then Some(Block(body)) else None, OpenBlock(body), after;
    assert closed ==> "/*" + t == Written(Block(body)) + after;
  }

  lemma FirstQuoted(knows: Knowledge, q: char, t: string, prev: Option<char>)
    returns (p: Option<Piece>, e: Ending, rest: string)
    requires q == '"' || (q == '\'' && !Separates(knows, prev, t))
    ensures Starts(knows, [q] + t, prev, p, e, rest)
  {
    var closed, body, after := SplitLiteral(q, t);
    p, e, rest := if closed then Some(Quoted(q, body)) else None, OpenQuoted(q, body, after != ""), after;
    if closed {
      assert (body + [q])[0] == t[0];
      assert [q] + t == Written(Quoted(q, body)) + after;
    } else {
      Regroup([q], body, after);
    }
  }

  lemma FirstRaw(knows: Knowledge, t: string, prev: Option<char>)
    returns (p: Option<Piece>, e: Ending, rest: string)
    requires OpensRaw(t) && knows.Some? && !AfterIdent(knows, prev)
    ensures Starts(knows, ['R'] + t, prev, p, e, rest)
  {
    var d :| Delim(d) && "\"" + d + "(" <= t;
    var u := t[|d| + 2..];
    var opener := "R\"" + d + "(";
    assert ['R'] + t == opener + u;
    var closed, body, after := SplitAtCloser(Closer(d), u);
    p, e, rest := if closed then Some(RawText(d, body)) else None, OpenRaw(d, body), after;
    if closed {
      Regroup(opener, body + Closer(d), after);
      Regroup(opener, body, Closer(d));
    }
  }

  /** Every text is a run of standing pieces with an ending, for either stripper. */
  lemma {:induction false} EveryText(knows: Knowledge, s: string, prev: Option<char>)
    returns (ps: seq<Piece>, e: Ending)
    ensures Spelled(ps, e) == s && AllStand(knows, ps, e, prev)
    decreases |s|
  {
    if s == "" {
      ps, e := [], Done;
    } else {
      var p, end, rest := FirstPiece(knows, s, prev);
      if p.None? {
        ps, e := [], end;
      } else {
        ps, e := EveryText(knows, rest, Last(p.value));
        PieceFirst(p.value, ps, e);
        ps := [p.value] + ps;
      }
    }
  }

  // ---- blanking ----

  lemma OffsetStep(s: string, st: CommentStrip.State)
    requires s != ""
    ensures var (st', n) := CommentStrip.Step(s, st);
      CommentStrip.Offset(s, st) == CommentStrip.Emitted(s, st) + CommentStrip.Offset(s[n..], st')
  {
  }

  lemma {:induction false} LineBlanked(body: string, rest: string)
    requires '\n' !in body
    ensures CommentStrip.Offset(body + rest, CommentStrip.LineComment) ==
      Spaces(body) + CommentStrip.Offset(rest, CommentStrip.LineComment)
  {
    if body == "" {
      assert body + rest == rest;
    } else {
      FirstOf(body, rest);
      OffsetStep(body + rest, CommentStrip.LineComment);
      LineBlanked(body[1..], rest);
      SpacesConcat(body[..1], body[1..]);
      Regroup(Spaces(body[..1]), Spaces(body[1..]), CommentStrip.Offset(rest, CommentStrip.LineComment));
      assert body == body[..1] + body[1..];
    }
  }

  /** A character of a block comment that does not end it. */
  lemma InBlock(s: string)
    requires s != "" && !("*/" <= s)
    ensures CommentStrip.Offset(s, CommentStrip.BlockComment) ==
      Spaces(s[..1]) + CommentStrip.Offset(s[1..], CommentStrip.BlockComment)
  {
    assert |s| > 1 && s[0] == '*' && s[1] == '/' ==> "*/" <= s;
    OffsetStep(s, CommentStrip.BlockComment);
  }

  lemma FirstOf(body: string, rest: string)
    requires body != ""
    ensures (body + rest)[0] == body[0] && (body + rest)[..1] == body[..1] && (body + rest)[1..] == body[1..] + rest
  {
  }

  lemma {:induction false} BlockBlanked(body: string, rest: string)
    requires Before("*/", body, rest)
    ensures CommentStrip.Offset(body + rest, CommentStrip.BlockComment) ==
      Spaces(body) + CommentStrip.Offset(rest, CommentStrip.BlockComment)
  {
    if body == "" {
      assert body + rest == rest;
    } else {
      BeforeTail("*/", body, rest);
      FirstOf(body, rest);
      InBlock(body + rest);
      BlockBlanked(body[1..], rest);
      SpacesConcat(body[..1], body[1..]);
      Regroup(Spaces(body[..1]), Spaces(body[1..]), CommentStrip.Offset(rest, CommentStrip.BlockComment));
      assert body == body[..1] + body[1..];
    }
  }

  function Inside(q: char): CommentStrip.State {
    if q == '"' then CommentStrip.Str else CommentStrip.Chr
  }

  lemma InsideStep(q: char, s: string)
    requires (q == '"' || q == '\'') && s != "" && (if s[0] == '\\' then |s| > 1 else s[0] != q)
    ensures var n := if s[0] == '\\' then 2 else 1;
      CommentStrip.Offset(s, Inside(q)) == s[..n] + CommentStrip.Offset(s[n..], Inside(q))
  {
    OffsetStep(s, Inside(q));
  }

  lemma {:induction false} LiteralUntouched(q: char, body: string, rest: string)
    requires (q == '"' || q == '\'') && LiteralBody(body, q)
    ensures CommentStrip.Offset(body + rest, Inside(q)) == body + CommentStrip.Offset(rest, Inside(q))
    decreases |body|
  {
    if body == "" {
      assert body + rest == rest;
    } else {
      var n := if body[0] == '\\' then 2 else 1;
      var s := body + rest;
      assert s[0] == body[0] && s[n..] == body[n..] + rest && s[..n] == body[..n];
      InsideStep(q, s);
      LiteralUntouched(q, body[n..], rest);
      Regroup(body[..n], body[n..], CommentStrip.Offset(rest, Inside(q)));
      assert body == body[..n] + body[n..];
    }
  }

  lemma TwoThen(a: string, b: string)
    requires |a| == 2
    ensures (a + b)[..2] == a && (a + b)[2..] == b && (a + b)[0] == a[0] && (a + b)[1] == a[1]
  {
  }

  lemma SingleBlanked(c: char, prev: Option<char>, next: string)
    requires Stands(None, Single(c), prev, next)
    ensures CommentStrip.Offset([c] + next, CommentStrip.Code) == [c] + CommentStrip.Offset(next, CommentStrip.Code)
  {
    var s := [c] + next;
    assert s[0] == c && s[1..] == next && s[..1] == [c];
    assert |s| > 1 ==> s[1] == next[0];
    OffsetStep(s, CommentStrip.Code);
  }

  lemma OpenerBlanked(opener: string, t: string)
    requires opener == "//" || opener == "/*"
    ensures CommentStrip.Offset(opener + t, CommentStrip.Code) ==
      Spaces(opener) +
        CommentStrip.Offset(t, if opener == "//" then CommentStrip.LineComment else CommentStrip.BlockComment)
  {
    TwoThen(opener, t);
    OffsetStep(opener + t, CommentStrip.Code);
  }

  lemma BreakEnds(next: string)
    ensures CommentStrip.Offset("\n" + next, CommentStrip.LineComment) ==
      Spaces("\n") + CommentStrip.Offset(next, CommentStrip.Code)
  {
    var t := "\n" + next;
    assert t[1..] == next && t[..1] == "\n";
    OffsetStep(t, CommentStrip.LineComment);
  }

  lemma StarEnds(next: string)
    ensures CommentStrip.Offset("*/" + next, CommentStrip.BlockComment) ==
      Spaces("*/") + CommentStrip.Offset(next, CommentStrip.Code)
  {
    TwoThen("*/", next);
    OffsetStep("*/" + next, CommentStrip.BlockComment);
  }

  lemma QuoteBlanked(q: char, next: string, opening: bool)
    requires q == '"' || q == '\''
    ensures CommentStrip.Offset([q] + next, if opening then CommentStrip.Code else Inside(q)) ==
      [q] + CommentStrip.Offset(next, if opening then Inside(q) else CommentStrip.Code)
  {
    var t := [q] + next;
    assert t[1..] == next && t[..1] == [q];
    OffsetStep(t, if opening then CommentStrip.Code else Inside(q));
  }

  lemma CommentPiece(opener: string, body: string, closer: string, next: string)
    ensures opener + body + closer + next == opener + (body + (closer + next))
    ensures Spaces(opener + body + closer) + next == Spaces(opener) + (Spaces(body) + (Spaces(closer) + next))
  {
    SpacesConcat(opener + body, closer);
    SpacesConcat(opener, body);
  }

  lemma PieceBlanked(p: Piece, prev: Option<char>, next: string)
    requires Stands(None, p, prev, next)
    ensures CommentStrip.Offset(Written(p) + next, CommentStrip.Code) ==
      BlankedPiece(p) + CommentStrip.Offset(next, CommentStrip.Code)
  {
    var rest := CommentStrip.Offset(next, CommentStrip.Code);
    match p {
      case Single(c) =>
        SingleBlanked(c, prev, next);
      case Line(body) =>
        CommentPiece("//", body, "\n", next);
        CommentPiece("//", body, "\n", rest);
        OpenerBlanked("//", body + ("\n" + next));
        LineBlanked(body, "\n" + next);
        BreakEnds(next);
      case Block(body) =>
        CommentPiece("/*", body, "*/", next);
        CommentPiece("/*", body, "*/", rest);
        OpenerBlanked("/*", body + ("*/" + next));
        BeforeMore("*/", body, next);
        BlockBlanked(body, "*/" + next);
        StarEnds(next);
      case Quoted(q, body) =>
        CommentPiece([q], body, [q], next);
        CommentPiece([q], body, [q], rest);
        QuoteBlanked(q, body + ([q] + next), true);
        LiteralUntouched(q, body, [q] + next);
        QuoteBlanked(q, next, false);
    }
  }

  lemma EndBlanked(e: Ending, prev: Option<char>)
    requires EndStands(None, e, prev)
    ensures CommentStrip.Offset(WrittenEnd(e), CommentStrip.Code) == BlankedEnd(e)
  {
    match e {
      case Done =>
      case OpenLine(body) =>
        OpenerBlanked("//", body);
        assert body + "" == body;
        LineBlanked(body, "");
        SpacesConcat("//", body);
      case OpenBlock(body) =>
        OpenerBlanked("/*", body);
        assert body + "" == body;
        BlockBlanked(body, "");
        SpacesConcat("/*", body);
      case OpenQuoted(q, body, escape) =>
        var t := if escape then "\\" else "";
        Regroup([q], body, t);
        QuoteBlanked(q, body + t, true);
        LiteralUntouched(q, body, t);
        LoneEscape(q, t);
    }
  }

  lemma LoneEscape(q: char, t: string)
    requires t == "" || t == "\\"
    ensures CommentStrip.Offset(t, Inside(q)) == t
  {
    if t != "" {
      assert t[1..] == "" && t[..1] == t;
      OffsetStep(t, Inside(q));
    }
  }

  /** The blanking stripper: comments become spaces, their line breaks stay, and every other piece is kept. */
  lemma {:induction false} PiecesBlanked(ps: seq<Piece>, e: Ending, prev: Option<char>)
    requires AllStand(None, ps, e, prev)
    ensures CommentStrip.Offset(Spelled(ps, e), CommentStrip.Code) == BlankedText(ps, e)
  {
    if ps == [] {
      EndBlanked(e, prev);
    } else {
      PieceBlanked(ps[0], prev, Spelled(ps[1..], e));
      PiecesBlanked(ps[1..], e, Last(ps[0]));
    }
  }

  // ---- deleting ----

  /** What is left of s when the deleting stripper reads it as code. */
  function Left(k: CommentDelete.Classes, s: string, prev: Option<char>): string {
    CommentDelete.Delete(k, s, CommentDelete.Plain(CommentStrip.Code), prev)
  }

  function LeftIn(k: CommentDelete.Classes, s: string, st: CommentStrip.State, prev: Option<char>): string {
    CommentDelete.Delete(k, s, CommentDelete.Plain(st), prev)
  }

  lemma {:induction false} LineDeleted(k: CommentDelete.Classes, body: string, rest: string, prev: Option<char>)
    requires '\n' !in body
    ensures LeftIn(k, body + rest, CommentStrip.LineComment, prev) == LeftIn(k, rest, CommentStrip.LineComment, prev)
  {
    if body == "" {
      assert body + rest == rest;
    } else {
      var s := body + rest;
      assert s[0] == body[0] && s[1..] == body[1..] + rest;
      CommentDelete.DeleteStep(k, s, CommentDelete.Plain(CommentStrip.LineComment), prev);
      LineDeleted(k, body[1..], rest, prev);
    }
  }

  lemma InBlockLeft(k: CommentDelete.Classes, s: string, prev: Option<char>)
    requires s != "" && !("*/" <= s)
    ensures LeftIn(k, s, CommentStrip.BlockComment, prev) ==
      (if s[0] == '\n' then "\n" else "") + LeftIn(k, s[1..], CommentStrip.BlockComment, prev)
  {
    assert |s| > 1 && s[0] == '*' && s[1] == '/' ==> "*/" <= s;
    CommentDelete.DeleteStep(k, s, CommentDelete.Plain(CommentStrip.BlockComment), prev);
  }

  lemma {:induction false} BlockDeleted(k: CommentDelete.Classes, body: string, rest: string, prev: Option<char>)
    requires Before("*/", body, rest)
    ensures LeftIn(k, body + rest, CommentStrip.BlockComment, prev) ==
      Breaks(body) + LeftIn(k, rest, CommentStrip.BlockComment, prev)
  {
    if body == "" {
      assert body + rest == rest;
    } else {
      BeforeTail("*/", body, rest);
      FirstOf(body, rest);
      InBlockLeft(k, body + rest, prev);
      BlockDeleted(k, body[1..], rest, prev);
      Regroup(if body[0] == '\n' then "\n" else "", Breaks(body[1..]),
              LeftIn(k, rest, CommentStrip.BlockComment, prev));
    }
  }

  lemma InsideTurn(k: CommentDelete.Classes, q: char, s: string, prev: Option<char>) returns (prev': Option<char>)
    requires (q == '"' || q == '\'') && s != "" && (if s[0] == '\\' then |s| > 1 else s[0] != q)
    ensures var n := if s[0] == '\\' then 2 else 1;
      LeftIn(k, s, Inside(q), prev) == s[..n] + LeftIn(k, s[n..], Inside(q), prev')
  {
    CommentDelete.DeleteStep(k, s, CommentDelete.Plain(Inside(q)), prev);
    prev' := CommentDelete.TurnOf(k, s, CommentDelete.Plain(Inside(q)), prev).prev;
  }

  lemma {:induction false} LiteralLeft(k: CommentDelete.Classes, q: char, body: string, rest: string,
                                       prev: Option<char>) returns (prev': Option<char>)
    requires (q == '"' || q == '\'') && LiteralBody(body, q)
    ensures LeftIn(k, body + rest, Inside(q), prev) == body + LeftIn(k, rest, Inside(q), prev')
    decreases |body|
  {
    if body == "" {
      assert body + rest == rest;
      prev' := prev;
    } else {
      var n := if body[0] == '\\' then 2 else 1;
      var s := body + rest;
      assert s[0] == body[0] && s[n..] == body[n..] + rest && s[..n] == body[..n];
      prev' := InsideTurn(k, q, s, prev);
      prev' := LiteralLeft(k, q, body[n..], rest, prev');
      Regroup(body[..n], body[n..], LeftIn(k, rest, Inside(q), prev'));
      assert body == body[..n] + body[n..];
    }
  }

  lemma {:induction false} RawLeft(k: CommentDelete.Classes, delim: string, body: string, rest: string,
                                   prev: Option<char>) returns (prev': Option<char>)
    requires Before(Closer(delim), body, rest)
    ensures CommentDelete.Delete(k, body + rest, CommentDelete.Raw(delim), prev) ==
      body + CommentDelete.Delete(k, rest, CommentDelete.Raw(delim), prev')
  {
    if body == "" {
      assert body + rest == rest;
      prev' := prev;
    } else {
      var s := body + rest;
      BeforeTail(Closer(delim), body, rest);
      assert s[0] == body[0] && s[1..] == body[1..] + rest;
      CommentDelete.DeleteStep(k, s, CommentDelete.Raw(delim), prev);
      prev' := RawLeft(k, delim, body[1..], rest, Some(body[0]));
      Regroup([body[0]], body[1..], CommentDelete.Delete(k, rest, CommentDelete.Raw(delim), prev'));
      assert body == [body[0]] + body[1..];
    }
  }

  /** The delimiter read is the longest run of up to sixteen characters that do not stop it. */
  lemma {:induction false} DelimRun(s: string, from: nat, count: nat)
    requires from <= |s| && count <= 16
    ensures var j := CommentDelete.DelimEnd(s, from, count);
      (forall i :: from <= i < j ==> !CommentDelete.StopsDelim(s[i])) && j - from <= 16 - count &&
      (j < |s| && j - from < 16 - count ==> CommentDelete.StopsDelim(s[j]))
    decreases |s| - from
  {
    if from < |s| && !CommentDelete.StopsDelim(s[from]) && count < 16 {
      DelimRun(s, from + 1, count + 1);
    }
  }

  lemma DelimIff(d: string)
    ensures Delim(d) <==> |d| <= 16 && forall i :: 0 <= i < |d| ==> !CommentDelete.StopsDelim(d[i])
  {
    assert forall c :: CommentDelete.StopsDelim(c) <==> c in "()\\\t\n\r " || c as int == 11 || c as int == 12;
    assert forall i :: 0 <= i < |d| ==> d[i] in d;
  }

  /** A raw string is opened exactly by a delimiter between the quote and the parenthesis. */
  lemma OpenerIs(d: string, u: string)
    requires Delim(d)
    ensures CommentDelete.RawOpener("R\"" + d + "(" + u) == |d| + 3
  {
    var s := "R\"" + d + "(" + u;
    DelimIff(d);
    DelimRun(s, 2, 0);
    assert s[2 + |d|] == '(' && forall i :: 2 <= i < 2 + |d| ==> s[i] == d[i - 2];
    var j := CommentDelete.DelimEnd(s, 2, 0);
    assert j == 2 + |d|;
  }

  lemma OpenerOpens(next: string)
    requires CommentDelete.RawOpener(['R'] + next) > 0
    ensures OpensRaw(next)
  {
    var s := ['R'] + next;
    var d := s[2..CommentDelete.RawOpener(s) - 1];
    DelimRun(s, 2, 0);
    DelimIff(d);
    assert next[..|d| + 2] == "\"" + d + "(";
  }

  lemma SingleLeft(k: CommentDelete.Classes, c: char, prev: Option<char>, next: string)
    requires Stands(Some(k), Single(c), prev, next)
    ensures Left(k, [c] + next, prev) == [c] + Left(k, next, Some(c))
  {
    var s := [c] + next;
    assert s[0] == c && s[1..] == next;
    assert |s| > 1 ==> s[1] == next[0];
    if CommentDelete.RawOpener(['R'] + next) > 0 {
      OpenerOpens(next);
    }
    CommentDelete.DeleteStep(k, s, CommentDelete.Plain(CommentStrip.Code), prev);
  }

  lemma OpenerDeleted(k: CommentDelete.Classes, opener: string, t: string, prev: Option<char>)
    requires opener == "//" || opener == "/*"
    ensures Left(k, opener + t, prev) ==
      LeftIn(k, t, if opener == "//" then CommentStrip.LineComment else CommentStrip.BlockComment, None)
  {
    TwoThen(opener, t);
    CommentDelete.DeleteStep(k, opener + t, CommentDelete.Plain(CommentStrip.Code), prev);
  }

  lemma BreakLeft(k: CommentDelete.Classes, next: string, prev: Option<char>)
    ensures LeftIn(k, "\n" + next, CommentStrip.LineComment, prev) == "\n" + Left(k, next, None)
  {
    var t := "\n" + next;
    assert t[1..] == next;
    CommentDelete.DeleteStep(k, t, CommentDelete.Plain(CommentStrip.LineComment), prev);
  }

  lemma StarDeleted(k: CommentDelete.Classes, next: string, prev: Option<char>)
    ensures LeftIn(k, "*/" + next, CommentStrip.BlockComment, prev) == Left(k, next, None)
  {
    TwoThen("*/", next);
    CommentDelete.DeleteStep(k, "*/" + next, CommentDelete.Plain(CommentStrip.BlockComment), prev);
  }

  lemma QuoteOpens(k: CommentDelete.Classes, q: char, t: string, prev: Option<char>)
    requires q == '"' || (q == '\'' && !Separates(Some(k), prev, t))
    ensures Left(k, [q] + t, prev) == [q] + LeftIn(k, t, Inside(q), Some(q))
  {
    var s := [q] + t;
    assert s[1..] == t && (|s| > 1 ==> s[1] == t[0]);
    CommentDelete.DeleteStep(k, s, CommentDelete.Plain(CommentStrip.Code), prev);
  }

  lemma QuoteCloses(k: CommentDelete.Classes, q: char, next: string, prev: Option<char>)
    requires q == '"' || q == '\''
    ensures LeftIn(k, [q] + next, Inside(q), prev) == [q] + Left(k, next, Some(q))
  {
    var s := [q] + next;
    assert s[1..] == next;
    CommentDelete.DeleteStep(k, s, CommentDelete.Plain(Inside(q)), prev);
  }

  lemma RawOpens(k: CommentDelete.Classes, d: string, u: string, prev: Option<char>)
    requires Delim(d) && !AfterIdent(Some(k), prev)
    ensures Left(k, "R\"" + d + "(" + u, prev) ==
      "R\"" + d + "(" + CommentDelete.Delete(k, u, CommentDelete.Raw(d), Some('('))
  {
    var opener := "R\"" + d + "(";
    var s := opener + u;
    OpenerIs(d, u);
    assert s[0] == 'R' && s[1] == '"' && s[2..|d| + 2] == d && s[..|d| + 3] == opener && s[|d| + 3..] == u;
    CommentDelete.DeleteStep(k, s, CommentDelete.Plain(CommentStrip.Code), prev);
  }

  lemma RawCloses(k: CommentDelete.Classes, d: string, next: string, prev: Option<char>)
    ensures CommentDelete.Delete(k, Closer(d) + next, CommentDelete.Raw(d), prev) ==
      Closer(d) + Left(k, next, Some('"'))
  {
    var s := Closer(d) + next;
    assert Closer(d) <= s && s[|Closer(d)|..] == next;
    CommentDelete.DeleteStep(k, s, CommentDelete.Raw(d), prev);
  }

  lemma BreaksOfComments(body: string)
    ensures Breaks("/*" + body + "*/") == Breaks(body) == Breaks("/*" + body)
    ensures '\n' !in body ==> Breaks("//" + body + "\n") == "\n"
  {
    NoBreaks("/*");
    NoBreaks("*/");
    BreaksConcat("/*", body);
    BreaksConcat("/*" + body, "*/");
    if '\n' !in body {
      NoBreaks("//" + body);
      BreaksConcat("//" + body, "\n");
      assert Breaks("\n") == "\n";
    }
  }

  lemma LineLeft(k: CommentDelete.Classes, body: string, prev: Option<char>, next: string)
    requires '\n' !in body
    ensures Left(k, Written(Line(body)) + next, prev) == Breaks(Written(Line(body))) + Left(k, next, None)
  {
    CommentPiece("//", body, "\n", next);
    OpenerDeleted(k, "//", body + ("\n" + next), prev);
    LineDeleted(k, body, "\n" + next, None);
    BreakLeft(k, next, None);
    BreaksOfComments(body);
  }

  lemma BlockLeft(k: CommentDelete.Classes, body: string, prev: Option<char>, next: string)
    requires Before("*/", body, "*/")
    ensures Left(k, Written(Block(body)) + next, prev) == Breaks(Written(Block(body))) + Left(k, next, None)
  {
    CommentPiece("/*", body, "*/", next);
    OpenerDeleted(k, "/*", body + ("*/" + next), prev);
    BeforeMore("*/", body, next);
    BlockDeleted(k, body, "*/" + next, None);
    StarDeleted(k, next, None);
    BreaksOfComments(body);
  }

  lemma QuotedLeft(k: CommentDelete.Classes, q: char, body: string, prev: Option<char>, next: string)
    requires Stands(Some(k), Quoted(q, body), prev, next)
    ensures Left(k, Written(Quoted(q, body)) + next, prev) == Written(Quoted(q, body)) + Left(k, next, Some(q))
  {
    CommentPiece([q], body, [q], next);
    CommentPiece([q], body, [q], Left(k, next, Some(q)));
    var t := body + ([q] + next);
    assert t[0] == (body + [q])[0];
    QuoteOpens(k, q, t, prev);
    var prev' := LiteralLeft(k, q, body, [q] + next, Some(q));
    QuoteCloses(k, q, next, prev');
  }

  lemma RawPieceLeft(k: CommentDelete.Classes, d: string, body: string, prev: Option<char>, next: string)
    requires Stands(Some(k), RawText(d, body), prev, next)
    ensures Left(k, Written(RawText(d, body)) + next, prev) ==
      Written(RawText(d, body)) + Left(k, next, Some('"'))
  {
    var opener := "R\"" + d + "(";
    CommentPiece(opener, body, Closer(d), next);
    CommentPiece(opener, body, Closer(d), Left(k, next, Some('"')));
    RawOpens(k, d, body + (Closer(d) + next), prev);
    BeforeMore(Closer(d), body, next);
    var prev' := RawLeft(k, d, body, Closer(d) + next, Some('('));
    RawCloses(k, d, next, prev');
  }

  lemma PieceLeft(k: CommentDelete.Classes, p: Piece, prev: Option<char>, next: string)
    requires Stands(Some(k), p, prev, next)
    ensures Left(k, Written(p) + next, prev) == KeptPiece(p) + Left(k, next, Last(p))
  {
    match p {
      case Single(c) => SingleLeft(k, c, prev, next);
      case Line(body) => LineLeft(k, body, prev, next);
      case Block(body) => BlockLeft(k, body, prev, next);
      case Quoted(q, body) => QuotedLeft(k, q, body, prev, next);
      case RawText(d, body) => RawPieceLeft(k, d, body, prev, next);
    }
  }

  lemma LoneEscapeLeft(k: CommentDelete.Classes, q: char, t: string, prev: Option<char>)
    requires (t == "" || t == "\\") && (q == '"' || q == '\'')
    ensures LeftIn(k, t, Inside(q), prev) == t
  {
    if t != "" {
      assert t[1..] == "";
      CommentDelete.DeleteStep(k, t, CommentDelete.Plain(Inside(q)), prev);
    }
  }

  lemma EndLeft(k: CommentDelete.Classes, e: Ending, prev: Option<char>)
    requires EndStands(Some(k), e, prev)
    ensures Left(k, WrittenEnd(e), prev) == KeptEnd(e)
  {
    match e {
      case Done =>
      case OpenLine(body) =>
        OpenerDeleted(k, "//", body, prev);
        assert body + "" == body;
        LineDeleted(k, body, "", None);
        NoBreaks("//" + body);
      case OpenBlock(body) =>
        OpenerDeleted(k, "/*", body, prev);
        assert body + "" == body;
        BlockDeleted(k, body, "", None);
        BreaksOfComments(body);
      case OpenQuoted(q, body, escape) =>
        var t := if escape then "\\" else "";
        Regroup([q], body, t);
        QuoteOpens(k, q, body + t, prev);
        var prev' := LiteralLeft(k, q, body, t, Some(q));
        LoneEscapeLeft(k, q, t, prev');
      case OpenRaw(d, body) =>
        RawOpens(k, d, body, prev);
        assert body + "" == body;
        var prev' := RawLeft(k, d, body, "", Some('('));
    }
  }

  /** The deleting stripper: of comments only the line breaks stay, and every other piece is kept. */
  lemma {:induction false} PiecesLeft(k: CommentDelete.Classes, ps: seq<Piece>, e: Ending, prev: Option<char>)
    requires AllStand(Some(k), ps, e, prev)
    ensures CommentDelete.Delete(k, Spelled(ps, e), CommentDelete.Plain(CommentStrip.Code), prev) == KeptText(ps, e)
  {
    if ps == [] {
      EndLeft(k, e, prev);
    } else {
      PieceLeft(k, ps[0], prev, Spelled(ps[1..], e));
      PiecesLeft(k, ps[1..], e, Last(ps[0]));
    }
  }

  // ---- counting ----

  function BreaksBefore(s: string, i: nat): nat
    requires i <= |s|
  {
    |Breaks(s[..i])|
  }

  /** The numbers of the lines on which something visible stands. */
  function VisibleLines(k: CommentDelete.Classes, s: string): set<nat> {
    set i | 0 <= i < |s| && s[i] != '\n' && !k.isSpace(s[i]) :: BreaksBefore(s, i)
  }

  function Numbers(flags: seq<bool>): set<nat> {
    set n | 0 <= n < |flags| && flags[n]
  }

  lemma NumbersOnto(flags: seq<bool>, b: bool)
    ensures Numbers(flags + [b]) == Numbers(flags) + (if b then {|flags|} else {}) && |flags| !in Numbers(flags)
  {
  }

  lemma {:induction false} TruesAre(flags: seq<bool>)
    ensures CommentDelete.Trues(flags) == |Numbers(flags)|
  {
    if flags == [] {
    } else {
      var last := |flags| - 1;
      TruesAre(flags[..last]);
      TruesOnto(flags[..last], flags[last]);
      NumbersOnto(flags[..last], flags[last]);
      assert flags == flags[..last] + [flags[last]];
    }
  }

  lemma {:induction false} TruesOnto(flags: seq<bool>, b: bool)
    ensures CommentDelete.Trues(flags + [b]) == CommentDelete.Trues(flags) + if b then 1 else 0
  {
    if flags == [] {
      assert flags + [b] == [b] && [b][1..] == [];
    } else {
      assert (flags + [b])[1..] == flags[1..] + [b];
      TruesOnto(flags[1..], b);
    }
  }

  lemma BreaksBeforeTail(s: string, i: nat)
    requires 0 < i <= |s|
    ensures BreaksBefore(s, i) == (if s[0] == '\n' then 1 else 0) + BreaksBefore(s[1..], i - 1)
  {
    assert s[..i][1..] == s[1..][..i - 1];
  }

  lemma {:induction false} FlagsAre(k: CommentDelete.Classes, s: string)
    ensures Numbers(CommentDelete.LineFlags(k, s)) == VisibleLines(k, s)
  {
    if s == "" {
    } else {
      FlagsAre(k, s[1..]);
      forall n: nat ensures n in Numbers(CommentDelete.LineFlags(k, s)) <==> n in VisibleLines(k, s) {
        FlagsOfFirst(k, s, n);
        VisibleOfFirst(k, s, n);
      }
    }
  }

  /** Something visible stands on line n, at position i. */
  predicate StandsOn(k: CommentDelete.Classes, s: string, i: nat, n: nat) {
    i < |s| && s[i] != '\n' && !k.isSpace(s[i]) && n == BreaksBefore(s, i)
  }

  lemma StandsTail(k: CommentDelete.Classes, s: string, i: nat, n: nat)
    requires s != "" && i > 0
    ensures var step := if s[0] == '\n' then 1 else 0;
      StandsOn(k, s, i, n) <==> n >= step && StandsOn(k, s[1..], i - 1, n - step)
  {
    if i < |s| {
      BreaksBeforeTail(s, i);
    }
  }

  lemma VisibleMeans(k: CommentDelete.Classes, s: string, n: nat)
    ensures n in VisibleLines(k, s) <==> exists i: nat :: StandsOn(k, s, i, n)
  {
    if n in VisibleLines(k, s) {
      var i :| 0 <= i < |s| && s[i] != '\n' && !k.isSpace(s[i]) && n == BreaksBefore(s, i);
      assert StandsOn(k, s, i, n);
    }
  }

  /** A line break moves the lines of the rest down by one; any other character stands on the first of them. */
  lemma VisibleOfFirst(k: CommentDelete.Classes, s: string, n: nat)
    requires s != ""
    ensures var step := if s[0] == '\n' then 1 else 0;
      n in VisibleLines(k, s) <==>
        (s[0] != '\n' && !k.isSpace(s[0]) && n == 0) || (n >= step && n - step in VisibleLines(k, s[1..]))
  {
    var step := if s[0] == '\n' then 1 else 0;
    var t := s[1..];
    VisibleMeans(k, s, n);
    assert s[..0] == "" && BreaksBefore(s, 0) == 0;
    if i: nat :| StandsOn(k, s, i, n) {
      if i > 0 {
        StandsTail(k, s, i, n);
        VisibleMeans(k, t, n - step);
      }
    }
    if s[0] != '\n' && !k.isSpace(s[0]) && n == 0 {
      assert StandsOn(k, s, 0, n);
    }
    if n >= step {
      var m := n - step;
      VisibleMeans(k, t, m);
      if i: nat :| StandsOn(k, t, i, m) {
        StandsTail(k, s, i + 1, n);
      }
    }
  }

  lemma FlagsOfFirst(k: CommentDelete.Classes, s: string, n: nat)
    requires s != ""
    ensures var step := if s[0] == '\n' then 1 else 0;
      n in Numbers(CommentDelete.LineFlags(k, s)) <==>
        (s[0] != '\n' && !k.isSpace(s[0]) && n == 0) ||
        (n >= step && n - step in Numbers(CommentDelete.LineFlags(k, s[1..])))
  {
  }

  /** The count is of the lines on which something visible stands. */
  lemma CountIsOfLines(k: CommentDelete.Classes, s: string)
    ensures CommentDelete.CountLines(k, s) == |VisibleLines(k, s)|
  {
    TruesAre(CommentDelete.LineFlags(k, s));
    FlagsAre(k, s);
  }
}
