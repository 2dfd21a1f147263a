/**
 Printing bytes as a C string literal, and reading such a literal back the way a C++ compiler does
 (ISO/IEC 14882:2017, sections 5.13.3 and 5.13.5: escape sequences, octal escapes of up to three
 digits, adjacent literals concatenated).
 */
module CLiteral {
  import opened Wrappers

  type Byte = b: int | 0 <= b < 256

  // ---- printing ----

  function Digit(d: int): char
    requires 0 <= d < 8
  {
    '0' + d as char
  }

  function Octal(b: Byte): string {
    ['\\', Digit(b / 64), Digit(b / 8 % 8), Digit(b % 8)]
  }

  function EscapeByte(b: Byte): string {
    if b == 0x5C then "\\\\"
    else if b == 0x22 then "\\\""
    else if b == 0x0A then "\\n\"\n\""
    else if b == 0x09 then "\\t"
    else if b == 0x0D then "\\r"
    else if 0x20 <= b < 0x7F then [b as char]
    else Octal(b)
  }

  function Body(s: seq<Byte>): string {
    if s == [] then "" else EscapeByte(s[0]) + Body(s[1..])
  }

  function Literal(s: seq<Byte>): string {
    "\"" + Body(s) + "\""
  }

  method CEscape(src: seq<Byte>) returns (literal: string)
    ensures literal == Literal(src)
  {
    var out := "\"";
    for i := 0 to |src|
      invariant "\"" + Body(src) == out + Body(src[i..])
    {
      out := out + EscapeByte(src[i]);
      assert src[i..][1..] == src[i + 1..];
    }
    literal := out + "\"";
  }

  /** Space to tilde. */
  predicate Visible(c: char) {
    ' ' <= c <= '~'
  }

  function CountOf(c: char, s: string): nat {
    if s == "" then 0 else (if s[0] == c then 1 else 0) + CountOf(c, s[1..])
  }

  function CountOfByte(b: Byte, s: seq<Byte>): nat {
    if s == [] then 0 else (if s[0] == b then 1 else 0) + CountOfByte(b, s[1..])
  }

  lemma {:induction false} CountConcat(c: char, a: string, b: string)
    ensures CountOf(c, a + b) == CountOf(c, a) + CountOf(c, b)
  {
    if a == "" {
      assert a + b == b;
    } else {
      assert (a + b)[1..] == a[1..] + b && (a + b)[0] == a[0];
      CountConcat(c, a[1..], b);
    }
  }

  lemma NoneCounted(c: char, s: string)
    requires c !in s
    ensures CountOf(c, s) == 0
  {
  }

  /** A byte prints in visible characters, a newline with one line break among them. */
  lemma ByteIsVisible(b: Byte)
    ensures var s := EscapeByte(b);
      (forall c :: c in s ==> Visible(c) || (c == '\n' && b == 0x0A)) &&
      CountOf('\n', s) == if b == 0x0A then 1 else 0
  {
    if b == 0x0A {
      CountConcat('\n', "\\n\"", "\n\"");
      NoneCounted('\n', "\\n\"");
      assert "\n\""[1..] == "\"";
      assert "\\n\"" + "\n\"" == EscapeByte(b);
    } else {
      NoneCounted('\n', EscapeByte(b));
    }
  }

  /** The literal is plain visible text, broken into one line more than the source has line breaks. */
  lemma {:induction false} LiteralIsVisible(s: seq<Byte>)
    ensures forall c :: c in Literal(s) ==> Visible(c) || c == '\n'
    ensures CountOf('\n', Literal(s)) == CountOfByte(0x0A, s)
  {
    BodyIsVisible(s);
    CountConcat('\n', "\"" + Body(s), "\"");
    CountConcat('\n', "\"", Body(s));
    NoneCounted('\n', "\"");
  }

  lemma {:induction false} BodyIsVisible(s: seq<Byte>)
    ensures forall c :: c in Body(s) ==> Visible(c) || c == '\n'
    ensures CountOf('\n', Body(s)) == CountOfByte(0x0A, s)
  {
    if s == [] {
    } else {
      BodyIsVisible(s[1..]);
      ByteIsVisible(s[0]);
      CountConcat('\n', EscapeByte(s[0]), Body(s[1..]));
    }
  }

  // ---- reading ----

  predicate IsOctal(c: char) {
    '0' <= c <= '7'
  }

  /** The octal digits at the front of s, three at most. */
  function OctalRun(s: string): (n: nat)
    ensures n <= 3 && n <= |s|
  {
    if |s| < 1 || !IsOctal(s[0]) then 0
    else if |s| < 2 || !IsOctal(s[1]) then 1
    else if |s| < 3 || !IsOctal(s[2]) then 2
    else 3
  }

  function DigitValue(c: char): nat
    requires IsOctal(c)
  {
    c as int - '0' as int
  }

  function OctalValue(s: string): nat
    requires forall i :: 0 <= i < |s| ==> IsOctal(s[i])
  {
    if s == "" then 0 else 8 * OctalValue(s[..|s| - 1]) + DigitValue(s[|s| - 1])
  }

  function Prepend(b: int, r: Option<seq<Byte>>): Option<seq<Byte>> {
    match r
    case None => None
    case Some(v) => if 0 <= b < 256 then Some([b] + v) else None
  }

  /** Between literals: white space and opening quotes. */
  function ReadOutside(s: string): Option<seq<Byte>>
    decreases |s|
  {
    if s == "" then Some([])
    else if s[0] == '"' then ReadInside(s[1..])
    else if s[0] == '\n' || s[0] == ' ' || s[0] == '\t' then ReadOutside(s[1..])
    else None
  }

  /** Inside a literal; a bare newline or the end of the text is an error. */
  function ReadInside(s: string): Option<seq<Byte>>
    decreases |s|
  {
    if s == "" || s[0] == '\n' then None
    else if s[0] == '"' then ReadOutside(s[1..])
    else if s[0] != '\\' then Prepend(s[0] as int, ReadInside(s[1..]))
    else if |s| == 1 then None
    else
      var n := OctalRun(s[1..]);
      if n > 0 then Prepend(OctalValue(s[1..][..n]), ReadInside(s[1..][n..]))
      else if s[1] == 'n' then Prepend(0x0A, ReadInside(s[2..]))
      else if s[1] == 't' then Prepend(0x09, ReadInside(s[2..]))
      else if s[1] == 'r' then Prepend(0x0D, ReadInside(s[2..]))
      else if s[1] == '\\' || s[1] == '"' then Prepend(s[1] as int, ReadInside(s[2..]))
      else None
  }

  // ---- the round trip ----

  lemma OctalReads(b: Byte, rest: string)
    ensures ReadInside(Octal(b) + rest) == Prepend(b, ReadInside(rest))
  {
    var s := Octal(b) + rest;
    var d0, d1, d2 := Digit(b / 64), Digit(b / 8 % 8), Digit(b % 8);
    assert s[1..] == [d0, d1, d2] + rest;
    assert OctalRun(s[1..]) == 3;
    assert s[1..][..3] == [d0, d1, d2] && s[1..][3..] == rest;
    OctalOfDigits(d0, d1, d2);
    assert b == 64 * (b / 64) + 8 * (b / 8 % 8) + b % 8;
  }

  lemma OctalOfDigits(d0: char, d1: char, d2: char)
    requires IsOctal(d0) && IsOctal(d1) && IsOctal(d2)
    ensures OctalValue([d0, d1, d2]) == 64 * DigitValue(d0) + 8 * DigitValue(d1) + DigitValue(d2)
  {
    assert [d0, d1, d2][..2] == [d0, d1] && [d0, d1][..1] == [d0] && [d0][..0] == [];
    assert OctalValue([d0]) == DigitValue(d0);
    assert OctalValue([d0, d1]) == 8 * DigitValue(d0) + DigitValue(d1);
  }

  lemma LiteralBreakReads(rest: string)
    ensures ReadInside("\"\n\"" + rest) == ReadInside(rest)
  {
    var s2, s3, s4 := "\"\n\"" + rest, "\n\"" + rest, "\"" + rest;
    assert s2[1..] == s3 && s3[1..] == s4 && s4[1..] == rest;
    assert ReadInside(s2) == ReadOutside(s3);
    assert ReadOutside(s3) == ReadOutside(s4);
  }

  /** A newline closes its literal and opens the next on a new line. */
  lemma NewlineReads(rest: string)
    ensures ReadInside("\\n\"\n\"" + rest) == Prepend(0x0A, ReadInside(rest))
  {
    var s := "\\n\"\n\"" + rest;
    assert s[2..] == "\"\n\"" + rest;
    LiteralBreakReads(rest);
  }

  /** Whatever follows, the printed form of one byte reads back as that byte. */
  lemma ByteReads(b: Byte, rest: string)
    ensures ReadInside(EscapeByte(b) + rest) == Prepend(b, ReadInside(rest))
  {
    var s := EscapeByte(b) + rest;
    if b == 0x0A {
      NewlineReads(rest);
    } else if b == 0x5C || b == 0x22 || b == 0x09 || b == 0x0D {
      assert s[2..] == rest;
      assert OctalRun(s[1..]) == 0;
    } else if 0x20 <= b < 0x7F {
      assert s[1..] == rest;
    } else {
      OctalReads(b, rest);
    }
  }

  lemma {:induction false} BodyReads(s: seq<Byte>)
    ensures ReadInside(Body(s) + "\"") == Some(s)
  {
    if s == [] {
      ReadsEmpty();
    } else {
      var rest := Body(s[1..]) + "\"";
      assert Body(s) + "\"" == EscapeByte(s[0]) + rest;
      BodyReads(s[1..]);
      ByteReads(s[0], rest);
      assert [s[0]] + s[1..] == s;
    }
  }

  lemma ReadsEmpty()
    ensures ReadInside("\"") == Some([])
  {
    assert ReadInside("\"") == ReadOutside("\""[1..]);
    assert "\""[1..] == "";
  }

  /** Compiling the printed literal gives the bytes back, for every byte string. */
  lemma RoundTrip(s: seq<Byte>)
    ensures ReadOutside(Literal(s)) == Some(s)
  {
    assert Literal(s)[1..] == Body(s) + "\"";
    BodyReads(s);
  }
}
