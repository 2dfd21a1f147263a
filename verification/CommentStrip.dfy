/**
 Two independently written comment strippers for C++ text.  One keeps every offset by blanking
 comment characters; the other deletes them, and also knows raw strings and digit separators.
 */
module CommentStrip {

  datatype State = Code | LineComment | BlockComment | Str | Chr

  function Head(s: string, c: char): bool {
    |s| > 0 && s[0] == c
  }

  function Second(s: string, c: char): bool {
    |s| > 1 && s[1] == c
  }

  // ---- the offset-preserving stripper ----

  /** The state after the next token and the token's length. */
  function Step(s: string, st: State): (r: (State, nat))
    requires s != ""
    ensures 1 <= r.1 <= 2 && r.1 <= |s|
  {
    match st
    case Code =>
      if s[0] == '/' && Second(s, '/') then (LineComment, 2)
      else if s[0] == '/' && Second(s, '*') then (BlockComment, 2)
      else if s[0] == '"' then (Str, 1)
      else if s[0] == '\'' then (Chr, 1)
      else (Code, 1)
    case LineComment => (if s[0] == '\n' then Code else LineComment, 1)
    case BlockComment => if s[0] == '*' && Second(s, '/') then (Code, 2) else (BlockComment, 1)
    case Str =>
      if s[0] == '\\' && |s| > 1 then (Str, 2)
      else (if s[0] == '"' then Code else Str, 1)
    case Chr =>
      if s[0] == '\\' && |s| > 1 then (Chr, 2)
      else (if s[0] == '\'' then Code else Chr, 1)
  }

  /** Is the next token part of a comment? */
  predicate InComment(s: string, st: State)
    requires s != ""
  {
    st == LineComment || st == BlockComment || (st == Code && s[0] == '/' && (Second(s, '/') || Second(s, '*')))
  }

  function Blanked(s: string): (r: string)
    ensures |r| == |s|
  {
    seq(|s|, i requires 0 <= i < |s| => if s[i] == '\n' then '\n' else ' ')
  }

  /** The text with comments blanked to spaces, newlines kept. */
  function Offset(s: string, st: State): string
    decreases |s|
  {
    if s == "" then ""
    else
      var (st', n) := Step(s, st);
      Emitted(s, st) + Offset(s[n..], st')
  }

  /** What one token leaves in the output. */
  function Emitted(s: string, st: State): string
    requires s != ""
  {
    var token := s[..Step(s, st).1];
    if InComment(s, st) then Blanked(token) else token
  }

  /** One turn of the stripper's loop. */
  method Turn(text: string, i: nat, st: State) returns (j: nat, st': State, emitted: string)
    requires i < |text|
    ensures (st', j - i) == Step(text[i..], st) && i < j <= |text|
    ensures emitted == Emitted(text[i..], st)
  {
    var c := text[i];
    var nxt := if i + 1 < |text| then [text[i + 1]] else "";
    ghost var s := text[i..];
    assert |s| > 1 ==> s[1] == text[i + 1];
    j, st' := i + 1, st;
    match st {
      case Code =>
        if c == '/' && nxt == "/" {
          j, st', emitted := i + 2, LineComment, "  ";
        } else if c == '/' && nxt == "*" {
          j, st', emitted := i + 2, BlockComment, "  ";
        } else {
          if c == '"' {
            st' := Str;
          } else if c == '\'' {
            st' := Chr;
          }
          emitted := [c];
        }
      case LineComment =>
        emitted := if c == '\n' then "\n" else " ";
        if c == '\n' {
          st' := Code;
        }
      case BlockComment =>
        emitted := if c == '\n' then "\n" else " ";
        if c == '*' && nxt == "/" {
          emitted := emitted + " ";
          j, st' := i + 2, Code;
        }
      case _ =>
        emitted := [c];
        if c == '\\' && nxt != "" {
          emitted := emitted + nxt;
          j := i + 2;
        } else if (st == Str && c == '"') || (st == Chr && c == '\'') {
          st' := Code;
        }
    }
  }

  lemma Advance(text: string, i: nat, j: nat, st: State, st': State, done: string, emitted: string)
    requires i < j <= |text| && (st', j - i) == Step(text[i..], st) && emitted == Emitted(text[i..], st)
    ensures done + Offset(text[i..], st) == (done + emitted) + Offset(text[j..], st')
  {
    var s, rest := text[i..], Offset(text[j..], st');
    assert s[j - i..] == text[j..];
    assert Offset(s, st) == emitted + rest;
    assert done + (emitted + rest) == (done + emitted) + rest;
  }

  method StripKeepingOffsets(text: string) returns (stripped: string)
    ensures stripped == Offset(text, Code)
  {
    var i, state := 0, Code;
    stripped := "";
    ghost var whole := Offset(text, Code);
    assert text[0..] == text;
    while i < |text|
      invariant 0 <= i <= |text|
      invariant whole == stripped + Offset(text[i..], state)
    {
      var j, st', emitted := Turn(text, i, state);
      Advance(text, i, j, state, st', stripped, emitted);
      i, state, stripped := j, st', stripped + emitted;
    }
  }

  // ---- what the offset-preserving stripper promises ----

  /** Which positions belong to comments. */
  function Mask(s: string, st: State): (m: seq<bool>)
    ensures |m| == |s|
    decreases |s|
  {
    if s == "" then []
    else
      var (st', n) := Step(s, st);
      seq(n, _ => InComment(s, st)) + Mask(s[n..], st')
  }

  function Hidden(c: char, masked: bool): char {
    if masked && c != '\n' then ' ' else c
  }

  function BlankAt(s: string, m: seq<bool>): (r: string)
    requires |m| == |s|
    ensures |r| == |s|
  {
    seq(|s|, i requires 0 <= i < |s| => Hidden(s[i], m[i]))
  }

  /** Offsets and newlines stay, comment characters become spaces, everything else is verbatim. */
  lemma {:induction false} OffsetsPreserved(s: string, st: State)
    ensures Offset(s, st) == BlankAt(s, Mask(s, st))
    decreases |s|
  {
    if s == "" {
    } else {
      var (st', n) := Step(s, st);
      OffsetsPreserved(s[n..], st');
      assert s == s[..n] + s[n..];
      BlankConcat(s[..n], s[n..], seq(n, _ => InComment(s, st)), Mask(s[n..], st'));
      assert Emitted(s, st) == BlankAt(s[..n], seq(n, _ => InComment(s, st)));
    }
  }

  lemma BlankConcat(a: string, b: string, m: seq<bool>, n: seq<bool>)
    requires |m| == |a| && |n| == |b|
    ensures BlankAt(a + b, m + n) == BlankAt(a, m) + BlankAt(b, n)
  {
  }

  lemma LengthAndNewlines(text: string)
    ensures |Offset(text, Code)| == |text|
    ensures forall i :: 0 <= i < |text| ==> (Offset(text, Code)[i] == '\n' <==> text[i] == '\n')
  {
    OffsetsPreserved(text, Code);
  }

  /** The state a second pass is in where the first was in `st`: comments have become blank code. */
  function Settled(st: State): State {
    if st == LineComment || st == BlockComment then Code else st
  }

  predicate Clear(m: seq<bool>) {
    forall i :: 0 <= i < |m| ==> !m[i]
  }

  lemma ClearStep(o: string, st: State)
    requires o != "" && !InComment(o, st) && Clear(Mask(o[Step(o, st).1..], Step(o, st).0))
    ensures Clear(Mask(o, st))
  {
    var (st', n) := Step(o, st);
    assert Mask(o, st) == seq(n, _ => false) + Mask(o[n..], st');
  }

  /** Blanks and newlines read as code leave the scanner in code. */
  lemma {:induction false} BlanksAreClear(blanks: string, rest: string)
    requires forall i :: 0 <= i < |blanks| ==> blanks[i] == ' ' || blanks[i] == '\n'
    requires Clear(Mask(rest, Code))
    ensures Clear(Mask(blanks + rest, Code))
  {
    if blanks == "" {
      assert blanks + rest == rest;
    } else {
      var o := blanks + rest;
      assert o[1..] == blanks[1..] + rest;
      BlanksAreClear(blanks[1..], rest);
      ClearStep(o, Code);
    }
  }

  /** Outside comments the first character of the output is the first character of the text. */
  lemma FirstKept(s: string, st: State)
    requires s != "" && !InComment(s, st)
    ensures Offset(s, st) != "" && Offset(s, st)[0] == s[0]
  {
  }

  lemma NextKept(s: string)
    requires |s| > 1 && s[0] == '/' && !InComment(s, Code)
    ensures var o := Offset(s[1..], Code); o != "" && o[0] != '/' && o[0] != '*'
  {
    assert s[1..][0] == s[1];
    FirstKept(s[1..], Code);
  }

  /** A token that is not a comment is read the same way in the stripped text. */
  lemma SameToken(s: string, st: State)
    requires s != "" && !InComment(s, st)
    ensures var (st', n) := Step(s, st);
      var o := s[..n] + Offset(s[n..], st');
      Step(o, st) == (st', n) && !InComment(o, st)
  {
    var (st', n) := Step(s, st);
    var o := s[..n] + Offset(s[n..], st');
    assert o[0] == s[0];
    OffsetsPreserved(s[n..], st');
    if st == Code && s[0] == '/' && |s| > 1 {
      NextKept(s);
      assert o[1] == Offset(s[1..], Code)[0];
    }
  }

  /** The stripped text holds no comment at all. */
  lemma {:induction false} NoCommentLeft(s: string, st: State)
    ensures Clear(Mask(Offset(s, st), Settled(st)))
    decreases |s|
  {
    if s == "" {
    } else {
      var (st', n) := Step(s, st);
      var rest := Offset(s[n..], st');
      NoCommentLeft(s[n..], st');
      if InComment(s, st) {
        BlanksAreClear(Blanked(s[..n]), rest);
        assert Offset(s, st) == Blanked(s[..n]) + rest;
      } else {
        SameToken(s, st);
        var o := s[..n] + rest;
        assert o[n..] == rest;
        assert Settled(st') == st' && Offset(s, st) == o;
        ClearStep(o, st);
      }
    }
  }

  lemma ClearKeepsAll(s: string, st: State)
    requires Clear(Mask(s, st))
    ensures Offset(s, st) == s
  {
    OffsetsPreserved(s, st);
  }

  /** Stripping twice is stripping once. */
  lemma Idempotent(text: string)
    ensures Offset(Offset(text, Code), Code) == Offset(text, Code)
  {
    NoCommentLeft(text, Code);
    ClearKeepsAll(Offset(text, Code), Code);
  }
}
