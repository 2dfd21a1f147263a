/**
 The other stripper: it deletes comments, keeps their newlines, reads bare raw string literals and
 digit separators, and feeds the count of non-blank lines.  Below it, the comparison with the
 offset-preserving stripper.
 */
module CommentDelete {
  import opened Wrappers
  import opened CommentStrip

  /** The character classes the script takes from Python. */
  datatype Classes = Classes(isDigit: char -> bool, isIdent: char -> bool, isSpace: char -> bool)

  datatype Reader = Plain(st: State) | Raw(delim: string)

  /** The effect of one turn of the loop: new state, last character of code, characters read, output. */
  datatype Effect = Effect(reader: Reader, prev: Option<char>, n: nat, out: string)

  const MAX_RAW_DELIM_LEN := 16

  predicate StopsDelim(c: char) {
    c == '(' || c == ')' || c == '\\' || c == '\t' || c == '\n' || c as int == 11 || c as int == 12 || c == '\r' ||
      c == ' '
  }

  /** Where a raw string's delimiter that starts at `from` ends. */
  function DelimEnd(s: string, from: nat, count: nat): (j: nat)
    requires from <= |s|
    ensures from <= j <= |s|
    decreases |s| - from
  {
    if from < |s| && !StopsDelim(s[from]) && count < MAX_RAW_DELIM_LEN then DelimEnd(s, from + 1, count + 1) else from
  }

  predicate IsIdent(k: Classes, p: Option<char>) {
    p.Some? && k.isIdent(p.value)
  }

  predicate IsDigit(k: Classes, p: Option<char>) {
    p.Some? && k.isDigit(p.value)
  }

  /** Does s open a raw string, and if so with how many characters? */
  function RawOpener(s: string): (n: nat)
    ensures n <= |s|
  {
    if Head(s, 'R') && Second(s, '"') then
      var j := DelimEnd(s, 2, 0);
      if j < |s| && s[j] == '(' then j + 1 else 0
    else 0
  }

  function TurnOf(k: Classes, s: string, r: Reader, prev: Option<char>): (e: Effect)
    requires s != ""
    ensures 1 <= e.n <= |s|
  {
    var c := s[0];
    match r
    case Plain(Code) =>
      if c == 'R' && Second(s, '"') && !IsIdent(k, prev) then
        var n := RawOpener(s);
        if n > 0 then Effect(Raw(s[2..n - 1]), Some('('), n, s[..n]) else Effect(Plain(Code), Some(c), 1, [c])
      else if c == '/' && Second(s, '/') then Effect(Plain(LineComment), None, 2, "")
      else if c == '/' && Second(s, '*') then Effect(Plain(BlockComment), None, 2, "")
      else if c == '"' then Effect(Plain(Str), Some(c), 1, [c])
      else if c == '\'' then
        if IsDigit(k, prev) && |s| > 1 && k.isIdent(s[1]) then Effect(Plain(Code), Some(c), 1, [c])
        else Effect(Plain(Chr), Some(c), 1, [c])
      else Effect(Plain(Code), Some(c), 1, [c])
    case Plain(LineComment) =>
      if c == '\n' then Effect(Plain(Code), None, 1, [c]) else Effect(r, prev, 1, "")
    case Plain(BlockComment) =>
      if c == '*' && Second(s, '/') then Effect(Plain(Code), None, 2, "")
      else Effect(r, prev, 1, if c == '\n' then [c] else "")
    case Plain(Str) =>
      if c == '\\' && |s| > 1 then Effect(r, Some(s[1]), 2, s[..2])
      else Effect(if c == '"' then Plain(Code) else r, Some(c), 1, [c])
    case Plain(Chr) =>
      if c == '\\' && |s| > 1 then Effect(r, Some(s[1]), 2, s[..2])
      else Effect(if c == '\'' then Plain(Code) else r, Some(c), 1, [c])
    case Raw(delim) =>
      var closer := ")" + delim + "\"";
      if closer <= s then Effect(Plain(Code), Some('"'), |closer|, closer) else Effect(r, Some(c), 1, [c])
  }

  function Delete(k: Classes, s: string, r: Reader, prev: Option<char>): string
    decreases |s|
  {
    if s == "" then ""
    else
      var e := TurnOf(k, s, r, prev);
      e.out + Delete(k, s[e.n..], e.reader, e.prev)
  }

  // ---- the loop ----

  method ScanDelim(src: string, i: nat) returns (j: nat)
    requires i + 2 <= |src|
    ensures i + 2 <= j <= |src| && j - i == DelimEnd(src[i..], 2, 0)
  {
    j := i + 2;
    var count := 0;
    ghost var s := src[i..];
    while j < |src| && !StopsDelim(src[j]) && count < MAX_RAW_DELIM_LEN
      invariant i + 2 <= j <= |src|
      invariant DelimEnd(s, 2, 0) == DelimEnd(s, j - i, count)
    {
      assert s[j - i] == src[j];
      j, count := j + 1, count + 1;
    }
    assert j < |src| ==> s[j - i] == src[j];
  }

  method Turn(k: Classes, src: string, i: nat, r: Reader, prev: Option<char>) returns (e: Effect)
    requires i < |src|
    ensures e == TurnOf(k, src[i..], r, prev)
  {
    var c := src[i];
    var d := if i + 1 < |src| then [src[i + 1]] else "";
    ghost var s := src[i..];
    assert |s| > 1 ==> s[1] == src[i + 1] && s[..2] == [c, src[i + 1]];
    match r {
      case Plain(Code) =>
        if c == 'R' && d == "\"" && !IsIdent(k, prev) {
          var j := ScanDelim(src, i);
          if j < |src| && src[j] == '(' {
            assert s[..j + 1 - i] == src[i..j + 1] && s[2..j - i] == src[i + 2..j];
            return Effect(Raw(src[i + 2..j]), Some('('), j + 1 - i, src[i..j + 1]);
          }
          return Effect(Plain(Code), Some(c), 1, [c]);
        }
        if c == '/' && d == "/" {
          return Effect(Plain(LineComment), None, 2, "");
        }
        if c == '/' && d == "*" {
          return Effect(Plain(BlockComment), None, 2, "");
        }
        if c == '"' {
          return Effect(Plain(Str), Some(c), 1, [c]);
        }
        if c == '\'' {
          if IsDigit(k, prev) && d != "" && k.isIdent(d[0]) {
            return Effect(Plain(Code), Some(c), 1, [c]);
          }
          return Effect(Plain(Chr), Some(c), 1, [c]);
        }
        e := Effect(Plain(Code), Some(c), 1, [c]);
      case Plain(LineComment) =>
        e := if c == '\n' then Effect(Plain(Code), None, 1, [c]) else Effect(r, prev, 1, "");
      case Plain(BlockComment) =>
        if c == '*' && d == "/" {
          return Effect(Plain(Code), None, 2, "");
        }
        e := Effect(r, prev, 1, if c == '\n' then [c] else "");
      case Plain(Str) =>
        if c == '\\' && d != "" {
          return Effect(r, Some(d[0]), 2, [c] + d);
        }
        e := Effect(if c == '"' then Plain(Code) else r, Some(c), 1, [c]);
      case Plain(Chr) =>
        if c == '\\' && d != "" {
          return Effect(r, Some(d[0]), 2, [c] + d);
        }
        e := Effect(if c == '\'' then Plain(Code) else r, Some(c), 1, [c]);
      case Raw(delim) =>
        var closer := ")" + delim + "\"";
        if closer <= src[i..] {
          return Effect(Plain(Code), Some('"'), |closer|, closer);
        }
        e := Effect(r, Some(c), 1, [c]);
    }
  }

  lemma DeleteStep(k: Classes, s: string, r: Reader, prev: Option<char>)
    requires s != ""
    ensures var e := TurnOf(k, s, r, prev);
      Delete(k, s, r, prev) == e.out + Delete(k, s[e.n..], e.reader, e.prev)
  {
  }

  lemma Regroup(a: string, b: string, c: string)
    ensures a + (b + c) == (a + b) + c
  {
  }

  lemma Advance(k: Classes, src: string, i: nat, r: Reader, prev: Option<char>, e: Effect, done: string)
    requires i < |src| && e == TurnOf(k, src[i..], r, prev)
    ensures done + Delete(k, src[i..], r, prev) == (done + e.out) + Delete(k, src[i + e.n..], e.reader, e.prev)
  {
    var s := src[i..];
    assert s[e.n..] == src[i + e.n..];
    DeleteStep(k, s, r, prev);
    Regroup(done, e.out, Delete(k, s[e.n..], e.reader, e.prev));
  }

  /** One turn, and what it leaves for the rest of the text. */
  method TurnAndKeep(k: Classes, src: string, i: nat, r: Reader, prev: Option<char>, out: string) returns (e: Effect)
    requires i < |src|
    ensures 1 <= e.n <= |src| - i
    ensures out + Delete(k, src[i..], r, prev) == (out + e.out) + Delete(k, src[i + e.n..], e.reader, e.prev)
  {
    e := Turn(k, src, i, r, prev);
    Advance(k, src, i, r, prev, e, out);
  }

  lemma NothingLeft(k: Classes, s: string, r: Reader, prev: Option<char>)
    requires s == ""
    ensures Delete(k, s, r, prev) == ""
  {
  }

  method StripComments(k: Classes, src: string) returns (out: string)
    ensures out == Delete(k, src, Plain(Code), None)
    ensures Thinned(out, src) && Newlines(out) == Newlines(src)
  {
    var i, reader, prev: Option<char> := 0, Plain(Code), None;
    out := "";
    ghost var rest := Delete(k, src, reader, prev);
    ghost var whole := rest;
    assert src[0..] == src;
    while i < |src|
      invariant 0 <= i <= |src| && rest == Delete(k, src[i..], reader, prev) && whole == out + rest
    {
      var e := TurnAndKeep(k, src, i, reader, prev, out);
      i, reader, prev, out := i + e.n, e.reader, e.prev, out + e.out;
      rest := Delete(k, src[i..], reader, prev);
    }
    NothingLeft(k, src[i..], reader, prev);
    DeleteKeepsLines(k, src, Plain(Code), None);
  }

  // ---- counting lines ----

  /** Is each line visible, that is, does it hold a character that is not white space? */
  function LineFlags(k: Classes, s: string): (flags: seq<bool>)
    ensures flags != []
  {
    if s == "" then [false]
    else
      var rest := LineFlags(k, s[1..]);
      if s[0] == '\n' then [false] + rest
      else [rest[0] || !k.isSpace(s[0])] + rest[1..]
  }

  function Trues(flags: seq<bool>): nat {
    if flags == [] then 0 else (if flags[0] then 1 else 0) + Trues(flags[1..])
  }

  function CountLines(k: Classes, s: string): nat {
    Trues(LineFlags(k, s))
  }

  method CountText(k: Classes, src: string) returns (count: nat)
    ensures count == CountLines(k, Delete(k, src, Plain(Code), None))
  {
    var stripped := StripComments(k, src);
    count := CountLines(k, stripped);
  }

  // ---- the two strippers side by side ----

  /** The characters of s that are not comment, and the newlines. */
  function Remaining(s: string, m: seq<bool>): string
    requires |m| == |s|
  {
    if s == "" then "" else (if m[0] && s[0] != '\n' then "" else [s[0]]) + Remaining(s[1..], m[1..])
  }

  lemma {:induction false} RemainingConcat(a: string, b: string, m: seq<bool>, n: seq<bool>)
    requires |m| == |a| && |n| == |b|
    ensures Remaining(a + b, m + n) == Remaining(a, m) + Remaining(b, n)
  {
    if a == "" {
      assert a + b == b && m + n == n;
    } else {
      var head := if m[0] && a[0] != '\n' then "" else [a[0]];
      assert (a + b)[1..] == a[1..] + b && (m + n)[1..] == m[1..] + n;
      RemainingConcat(a[1..], b, m[1..], n);
      assert Remaining(a + b, m + n) == head + (Remaining(a[1..], m[1..]) + Remaining(b, n));
      assert Remaining(a, m) == head + Remaining(a[1..], m[1..]);
    }
  }

  /** Where the deleting stripper knows more: in code, a raw string opener or a digit separator. */
  predicate Special(k: Classes, s: string, st: State, prev: Option<char>) {
    st == Code &&
    ((RawOpener(s) > 0 && !IsIdent(k, prev)) || (Head(s, '\'') && IsDigit(k, prev) && |s| > 1 && k.isIdent(s[1])))
  }

  /** The last character of code after the next token, as the deleting stripper remembers it. */
  function NextPrev(s: string, st: State, prev: Option<char>): Option<char>
    requires s != ""
  {
    var (st', n) := Step(s, st);
    if !InComment(s, st) then Some(s[n - 1])
    else if st == Code || st' == Code then None
    else prev
  }

  /** No token read as code is a raw string opener or a digit separator. */
  predicate Simple(k: Classes, s: string, st: State, prev: Option<char>)
    decreases |s|
  {
    s == "" ||
    (!Special(k, s, st, prev) && var (st', n) := Step(s, st); Simple(k, s[n..], st', NextPrev(s, st, prev)))
  }

  /** Turn by turn, the state after it and the characters read. */
  function TurnsKeeping(s: string, st: State): seq<(Reader, nat)>
    decreases |s|
  {
    if s == "" then []
    else
      var (st', n) := Step(s, st);
      [(Plain(st'), n)] + TurnsKeeping(s[n..], st')
  }

  function TurnsDeleting(k: Classes, s: string, r: Reader, prev: Option<char>): seq<(Reader, nat)>
    decreases |s|
  {
    if s == "" then []
    else
      var e := TurnOf(k, s, r, prev);
      [(e.reader, e.n)] + TurnsDeleting(k, s[e.n..], e.reader, e.prev)
  }

  /** One turn of either stripper reads the same characters into the same state, unless the token is special. */
  lemma SameTurnIff(k: Classes, s: string, st: State, prev: Option<char>)
    requires s != ""
    ensures var (st', n), e := Step(s, st), TurnOf(k, s, Plain(st), prev);
      (e.reader == Plain(st') && e.n == n) <==> !Special(k, s, st, prev)
    ensures !Special(k, s, st, prev) ==> TurnOf(k, s, Plain(st), prev).prev == NextPrev(s, st, prev)
  {
  }

  /** The two strippers go through a text in the same states exactly when it is simple. */
  lemma {:induction false} SameReadingIff(k: Classes, s: string, st: State, prev: Option<char>)
    ensures TurnsKeeping(s, st) == TurnsDeleting(k, s, Plain(st), prev) <==> Simple(k, s, st, prev)
    decreases |s|
  {
    if s == "" {
    } else {
      var (st', n) := Step(s, st);
      var e := TurnOf(k, s, Plain(st), prev);
      SameTurnIff(k, s, st, prev);
      assert TurnsKeeping(s, st)[0] == (Plain(st'), n) && TurnsDeleting(k, s, Plain(st), prev)[0] == (e.reader, e.n);
      if !Special(k, s, st, prev) {
        SameReadingIff(k, s[n..], st', e.prev);
        assert TurnsKeeping(s, st)[1..] == TurnsKeeping(s[n..], st');
        assert TurnsDeleting(k, s, Plain(st), prev)[1..] == TurnsDeleting(k, s[n..], Plain(st'), e.prev);
      }
    }
  }

  /** What a turn that is not special leaves: its characters, or of a comment's the newline. */
  lemma TurnOutput(k: Classes, s: string, st: State, prev: Option<char>)
    requires s != "" && !Special(k, s, st, prev)
    ensures var n := Step(s, st).1;
      TurnOf(k, s, Plain(st), prev).out == if !InComment(s, st) then s[..n] else if s[0] == '\n' then [s[0]] else ""
  {
  }

  /** A token of two characters in a comment holds no newline. */
  lemma TokenInComment(s: string, st: State)
    requires s != "" && InComment(s, st) && Step(s, st).1 != 1
    ensures Step(s, st).1 == 2 && s[0] != '\n' && s[1] != '\n'
  {
  }

  lemma SameOutput(k: Classes, s: string, st: State, prev: Option<char>)
    requires s != "" && !Special(k, s, st, prev)
    ensures TurnOf(k, s, Plain(st), prev).out ==
      Remaining(s[..Step(s, st).1], seq(Step(s, st).1, _ => InComment(s, st)))
  {
    var n, masked := Step(s, st).1, InComment(s, st);
    TurnOutput(k, s, st, prev);
    if n == 1 {
      assert s[..n] == [s[0]];
      RemainingOne(s[0], masked);
    } else {
      assert s[..n] == [s[0], s[1]];
      RemainingTwo(s[0], s[1], masked);
      if masked { TokenInComment(s, st); }
    }
  }

  lemma RemainingOne(c: char, masked: bool)
    ensures Remaining([c], seq(1, _ => masked)) == if masked && c != '\n' then "" else [c]
  {
    assert seq(1, _ => masked) == [masked];
  }

  lemma RemainingTwo(c: char, d: char, masked: bool)
    ensures Remaining([c, d], seq(2, _ => masked)) ==
      (if masked && c != '\n' then "" else [c]) + (if masked && d != '\n' then "" else [d])
  {
    assert seq(2, _ => masked) == seq(1, _ => masked) + seq(1, _ => masked) && [c, d] == [c] + [d];
    RemainingConcat([c], [d], seq(1, _ => masked), seq(1, _ => masked));
    RemainingOne(c, masked);
    RemainingOne(d, masked);
  }

  lemma RemainingStep(s: string, st: State)
    requires s != ""
    ensures var (st', n) := Step(s, st);
      Remaining(s, Mask(s, st)) ==
        Remaining(s[..n], seq(n, _ => InComment(s, st))) + Remaining(s[n..], Mask(s[n..], st'))
  {
    var (st', n) := Step(s, st);
    assert s == s[..n] + s[n..];
    RemainingConcat(s[..n], s[n..], seq(n, _ => InComment(s, st)), Mask(s[n..], st'));
  }

  /** On simple text the deleting stripper keeps exactly what the blanking stripper does not blank. */
  lemma {:induction false} DeletesWhatTheOtherBlanks(k: Classes, s: string, st: State, prev: Option<char>)
    requires Simple(k, s, st, prev)
    ensures Delete(k, s, Plain(st), prev) == Remaining(s, Mask(s, st))
    decreases |s|
  {
    if s == "" {
    } else {
      var (st', n) := Step(s, st);
      var e := TurnOf(k, s, Plain(st), prev);
      SameTurnIff(k, s, st, prev);
      SameOutput(k, s, st, prev);
      DeletesWhatTheOtherBlanks(k, s[n..], st', e.prev);
      assert Delete(k, s, Plain(st), prev) == e.out + Delete(k, s[n..], Plain(st'), e.prev);
      RemainingStep(s, st);
    }
  }

  lemma {:induction false} RemainingOfBlanked(s: string, m: seq<bool>)
    requires |m| == |s|
    ensures Remaining(BlankAt(s, m), m) == Remaining(s, m)
  {
    if s == "" {
    } else {
      assert BlankAt(s, m)[1..] == BlankAt(s[1..], m[1..]);
      RemainingOfBlanked(s[1..], m[1..]);
    }
  }

  /** Deleting the blanked comment positions of one stripper's output gives the other's. */
  lemma StrippersAgree(k: Classes, text: string)
    requires Simple(k, text, Code, None)
    ensures |Offset(text, Code)| == |Mask(text, Code)|
    ensures Remaining(Offset(text, Code), Mask(text, Code)) == Delete(k, text, Plain(Code), None)
  {
    OffsetsPreserved(text, Code);
    DeletesWhatTheOtherBlanks(k, text, Code, None);
    RemainingOfBlanked(text, Mask(text, Code));
  }

  lemma {:induction false} SameFlags(k: Classes, s: string, m: seq<bool>)
    requires |m| == |s| && k.isSpace(' ')
    ensures LineFlags(k, BlankAt(s, m)) == LineFlags(k, Remaining(s, m))
  {
    if s == "" {
    } else {
      var b, r := BlankAt(s, m), Remaining(s[1..], m[1..]);
      assert b[1..] == BlankAt(s[1..], m[1..]);
      SameFlags(k, s[1..], m[1..]);
      if m[0] && s[0] != '\n' {
        assert Remaining(s, m) == r;
        assert LineFlags(k, b) == [LineFlags(k, b[1..])[0]] + LineFlags(k, b[1..])[1..];
      } else {
        assert ([s[0]] + r)[1..] == r;
      }
    }
  }

  /** Line by line the two strippers leave the same lines visible, so they count the same. */
  lemma SameLineCount(k: Classes, text: string)
    requires Simple(k, text, Code, None) && k.isSpace(' ')
    ensures LineFlags(k, Offset(text, Code)) == LineFlags(k, Delete(k, text, Plain(Code), None))
    ensures CountLines(k, Offset(text, Code)) == CountLines(k, Delete(k, text, Plain(Code), None))
  {
    OffsetsPreserved(text, Code);
    DeletesWhatTheOtherBlanks(k, text, Code, None);
    SameFlags(k, text, Mask(text, Code));
  }

  /** No raw string opener and no digit separator is spelled anywhere, comments and literals included. */
  ghost predicate Unspelled(k: Classes, s: string) {
    && (forall i :: 0 <= i < |s| - 1 ==> !(s[i] == 'R' && s[i + 1] == '"'))
    && (forall i :: 0 <= i < |s| - 1 ==> !(k.isDigit(s[i]) && s[i + 1] == '\''))
  }

  lemma UnspelledTail(k: Classes, s: string, n: nat)
    requires Unspelled(k, s) && n <= |s|
    ensures Unspelled(k, s[n..])
    ensures 0 < n < |s| && k.isDigit(s[n - 1]) ==> s[n..][0] != '\''
  {
    var t := s[n..];
    forall i | 0 <= i < |t| - 1
      ensures !(t[i] == 'R' && t[i + 1] == '"') && !(k.isDigit(t[i]) && t[i + 1] == '\'')
    {
      assert t[i] == s[n + i] && t[i + 1] == s[n + i + 1];
    }
  }

  /** Text in which neither is spelled is simple. */
  lemma {:induction false} UnspelledIsSimple(k: Classes, s: string, st: State, prev: Option<char>)
    requires Unspelled(k, s) && (IsDigit(k, prev) ==> !Head(s, '\'')) &&
      (st == LineComment || st == BlockComment ==> prev.None?)
    ensures Simple(k, s, st, prev)
    decreases |s|
  {
    if s == "" {
    } else {
      var (st', n) := Step(s, st);
      UnspelledTail(k, s, n);
      assert !Special(k, s, st, prev);
      UnspelledIsSimple(k, s[n..], st', NextPrev(s, st, prev));
    }
  }

  // ---- line numbering ----

  /** t is s with some characters deleted, no newline among them. */
  predicate Thinned(t: string, s: string) {
    if s == "" then t == ""
    else (t != "" && t[0] == s[0] && Thinned(t[1..], s[1..])) || (s[0] != '\n' && Thinned(t, s[1..]))
  }

  function Newlines(s: string): nat {
    if s == "" then 0 else (if s[0] == '\n' then 1 else 0) + Newlines(s[1..])
  }

  lemma {:induction false} ThinnedKeepsLines(t: string, s: string)
    requires Thinned(t, s)
    ensures Newlines(t) == Newlines(s)
  {
    if s == "" {
    } else {
      if t != "" && t[0] == s[0] && Thinned(t[1..], s[1..]) {
        ThinnedKeepsLines(t[1..], s[1..]);
      } else {
        ThinnedKeepsLines(t, s[1..]);
      }
    }
  }

  lemma {:induction false} ThinnedSelf(s: string)
    ensures Thinned(s, s)
  {
    if s == "" {
    } else {
      ThinnedSelf(s[1..]);
    }
  }

  lemma {:induction false} ThinnedConcat(t: string, s: string, u: string, v: string)
    requires Thinned(t, s) && Thinned(u, v)
    ensures Thinned(t + u, s + v)
    decreases |s|
  {
    if s == "" {
      assert t + u == u && s + v == v;
    } else {
      assert (s + v)[1..] == s[1..] + v;
      if t != "" && t[0] == s[0] && Thinned(t[1..], s[1..]) {
        assert (t + u)[1..] == t[1..] + u;
        ThinnedConcat(t[1..], s[1..], u, v);
      } else {
        ThinnedConcat(t, s[1..], u, v);
      }
    }
  }

  lemma TurnThins(k: Classes, s: string, r: Reader, prev: Option<char>)
    requires s != ""
    ensures var e := TurnOf(k, s, r, prev); Thinned(e.out, s[..e.n])
  {
    var e := TurnOf(k, s, r, prev);
    ThinnedSelf(s[..e.n]);
    if e.out != s[..e.n] {
      assert e.out == "";
      assert s[..e.n] == if e.n == 1 then [s[0]] else [s[0], s[1]];
      NothingKept(s[..e.n]);
    }
  }

  lemma {:induction false} NothingKept(s: string)
    requires forall i :: 0 <= i < |s| ==> s[i] != '\n'
    ensures Thinned("", s)
  {
    if s == "" {
    } else {
      NothingKept(s[1..]);
    }
  }

  lemma {:induction false} DeleteThins(k: Classes, s: string, r: Reader, prev: Option<char>)
    ensures Thinned(Delete(k, s, r, prev), s)
    decreases |s|
  {
    if s == "" {
    } else {
      var e := TurnOf(k, s, r, prev);
      var head, tail, rest := s[..e.n], s[e.n..], Delete(k, s[e.n..], e.reader, e.prev);
      DeleteStep(k, s, r, prev);
      TurnThins(k, s, r, prev);
      DeleteThins(k, tail, e.reader, e.prev);
      ThinnedConcat(e.out, head, rest, tail);
      assert s == head + tail;
    }
  }

  /** Whatever the text, only characters other than newlines are deleted, so every line keeps its number. */
  lemma DeleteKeepsLines(k: Classes, s: string, r: Reader, prev: Option<char>)
    ensures Thinned(Delete(k, s, r, prev), s) && Newlines(Delete(k, s, r, prev)) == Newlines(s)
  {
    DeleteThins(k, s, r, prev);
    ThinnedKeepsLines(Delete(k, s, r, prev), s);
  }

  // ---- where they differ ----

  lemma MaskToken(c: char, rest: string, st: State, st': State)
    requires st != LineComment && st != BlockComment && c != '/' && c != '\\'
    requires Step([c] + rest, st) == (st', 1)
    ensures Mask([c] + rest, st) == [false] + Mask(rest, st')
  {
    assert ([c] + rest)[1..] == rest;
    assert seq(1, _ => false) == [false];
  }

  lemma RawEnds(k: Classes, tail: string, prev: Option<char>)
    ensures Delete(k, ")\"" + tail, Raw(""), prev) == ")\"" + Delete(k, tail, Plain(Code), Some('"'))
  {
    var s := ")\"" + tail;
    assert ")" + "" + "\"" == ")\"" && ")\"" <= s && s[2..] == tail;
    DeleteStep(k, s, Raw(""), prev);
  }

  lemma RawGoesOn(k: Classes, c: char, s: string, prev: Option<char>)
    requires c != ')'
    ensures Delete(k, [c] + s, Raw(""), prev) == [c] + Delete(k, s, Raw(""), Some(c))
  {
    assert (")" + "" + "\"")[0] == ')' && ([c] + s)[1..] == s;
    DeleteStep(k, [c] + s, Raw(""), prev);
  }

  /** What stands in a raw string before its end is kept, whatever is left of the rest. */
  lemma {:induction false} RawKept(k: Classes, body: string, end: string, kept: string, prev: Option<char>)
    requires ')' !in body && forall p :: Delete(k, end, Raw(""), p) == kept
    ensures Delete(k, body + end, Raw(""), prev) == body + kept
    decreases |body|
  {
    if body == "" {
      assert body + end == end && body + kept == kept;
    } else {
      var c, more := body[0], body[1..];
      assert c in body && body == [c] + more;
      Regroup([c], more, end);
      Regroup([c], more, kept);
      RawGoesOn(k, c, more + end, prev);
      RawKept(k, more, end, kept, Some(c));
    }
  }

  lemma OpenerKept(k: Classes, u: string)
    ensures var t := ['R', '"', '('] + u; Delete(k, t, Plain(Code), None) == t[..3] + Delete(k, u, Raw(""), Some('('))
  {
    var t := ['R', '"', '('] + u;
    assert DelimEnd(t, 2, 0) == 2;
    assert RawOpener(t) == 3 && t[2..2] == "" && t[3..] == u;
  }

  /** Of a line comment nothing remains, so what does begins with the newline after it. */
  lemma {:induction false} LineDropped(s: string)
    ensures var rest := Remaining(s, Mask(s, LineComment)); rest == "" || rest[0] == '\n'
  {
    if s == "" || s[0] == '\n' {
    } else {
      RemainingStep(s, LineComment);
      assert s[..1] == [s[0]];
      RemainingOne(s[0], true);
      LineDropped(s[1..]);
    }
  }

  lemma RemainingToken(c: char, rest: string, st: State, st': State)
    requires st != LineComment && st != BlockComment && c != '/' && c != '\\'
    requires Step([c] + rest, st) == (st', 1)
    ensures Remaining([c] + rest, Mask([c] + rest, st)) == [c] + Remaining(rest, Mask(rest, st'))
  {
    var s := [c] + rest;
    MaskToken(c, rest, st, st');
    assert s[1..] == rest && ([false] + Mask(rest, st'))[1..] == Mask(rest, st');
  }

  /** Read without raw strings, the two slashes after the second quote open a comment. */
  lemma SlashesDropped(v: string)
    ensures var t := ['R'] + (['"'] + (['('] + (['"'] + (['/', '/'] + v)))); var kept := Remaining(t, Mask(t, Code));
      |kept| > 4 ==> kept[4] == '\n'
  {
    var t0 := ['/', '/'] + v;
    var t1 := ['"'] + t0;
    var t2 := ['('] + t1;
    var t3 := ['"'] + t2;
    RemainingToken('"', t0, Str, Code);
    RemainingToken('(', t1, Str, Str);
    RemainingToken('"', t2, Code, Str);
    RemainingToken('R', t3, Code, Code);
    RemainingStep(t0, Code);
    assert t0[..2] == ['/', '/'] && t0[2..] == v;
    RemainingTwo('/', '/', true);
    LineDropped(v);
    var kept := ['R'] + (['"'] + (['('] + (['"'] + Remaining(v, Mask(v, LineComment)))));
    assert |kept| > 4 ==> kept[4] == Remaining(v, Mask(v, LineComment))[0];
  }

  /** A literal whose body opens with a quote and two slashes. */
  function SlashLiteral(body: string): string {
    ['R', '"', '('] + (['"', '/', '/'] + body) + ")\""
  }

  lemma Nested(a: string, b: string, c: string, d: string)
    ensures a + b + c + d == a + (b + (c + d))
  {
  }

  lemma LiteralKept(k: Classes, body: string, tail: string)
    requires ')' !in body
    ensures Delete(k, SlashLiteral(body) + tail, Plain(Code), None) ==
      SlashLiteral(body) + Delete(k, tail, Plain(Code), Some('"'))
  {
    var opener, inner, closer, rest := ['R', '"', '('], ['"', '/', '/'] + body, ")\"",
      Delete(k, tail, Plain(Code), Some('"'));
    Nested(opener, inner, closer, tail);
    Nested(opener, inner, closer, rest);
    OpenerKept(k, inner + (closer + tail));
    forall p ensures Delete(k, closer + tail, Raw(""), p) == closer + rest {
      RawEnds(k, tail, p);
    }
    RawKept(k, inner, closer + tail, closer + rest, Some('('));
    assert (opener + (inner + (closer + tail)))[..3] == opener;
  }

  /** The first six characters one by one, and the rest. */
  lemma SixFirst(body: string, tail: string) returns (v: string)
    ensures SlashLiteral(body) + tail == ['R'] + (['"'] + (['('] + (['"'] + (['/', '/'] + v))))
    ensures (SlashLiteral(body) + tail)[4] == '/'
  {
    v := body + (")\"" + tail);
    Nested(['R', '"', '('], ['"', '/', '/'] + body, ")\"", tail);
    assert (['"', '/', '/'] + body) + (")\"" + tail) == ['"'] + (['/', '/'] + v);
    var w := ['"'] + (['/', '/'] + v);
    assert ['R', '"', '('] + w == ['R'] + (['"'] + (['('] + w));
  }

  lemma FourthKept(t: string, v: string, m: seq<bool>)
    requires t == ['R'] + (['"'] + (['('] + (['"'] + (['/', '/'] + v)))) && m == Mask(t, Code)
    ensures |Offset(t, Code)| == |m| == |t| &&
      (|Remaining(Offset(t, Code), m)| > 4 ==> Remaining(Offset(t, Code), m)[4] == '\n')
  {
    OffsetsPreserved(t, Code);
    RemainingOfBlanked(t, m);
    SlashesDropped(v);
  }

  /** One stripper keeps such a literal, the other drops what follows the slashes on their line. */
  lemma RawStringDisagrees(k: Classes, body: string, tail: string)
    requires ')' !in body
    ensures var t := SlashLiteral(body) + tail;
      && Delete(k, t, Plain(Code), None) == SlashLiteral(body) + Delete(k, tail, Plain(Code), Some('"'))
      && |Offset(t, Code)| == |Mask(t, Code)|
      && Remaining(Offset(t, Code), Mask(t, Code)) != Delete(k, t, Plain(Code), None)
  {
    var t := SlashLiteral(body) + tail;
    LiteralKept(k, body, tail);
    var v := SixFirst(body, tail);
    FourthKept(t, v, Mask(t, Code));
    var v' := SixFirst(body, Delete(k, tail, Plain(Code), Some('"')));
  }
}
