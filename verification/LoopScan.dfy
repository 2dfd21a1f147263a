/**
 The character walk both loop checks share: string and character literals are skipped, braces open
 and close scopes, and every other character position may start something the check knows.
 */
module LoopScan {
  import opened Wrappers

  datatype Mode = Code | InString | InChar

  /** What the walk meets in code: an opening brace, a closing brace, or any other position. */
  datatype Token = Open(at: nat) | Shut | At(pos: nat)

  /** One character: the mode after it, how far to move, and the token it yields, if any. */
  function Read(code: string, i: nat, mode: Mode): (r: (Mode, nat, Option<Token>))
    requires i < |code|
    ensures r.1 == 1 || r.1 == 2
  {
    var c := code[i];
    match mode
    case Code =>
      if c == '"' then (InString, 1, None)
      else if c == '\'' then (InChar, 1, None)
      else if c == '{' then (Code, 1, Some(Open(i)))
      else if c == '}' then (Code, 1, Some(Shut))
      else (Code, 1, Some(At(i)))
    case InString =>
      if c == '\\' then (InString, 2, None) else (if c == '"' then Code else InString, 1, None)
    case InChar =>
      if c == '\\' then (InChar, 2, None) else (if c == '\'' then Code else InChar, 1, None)
  }

  function Tokens(code: string, i: nat, mode: Mode): seq<Token>
    decreases |code| - i
  {
    if i >= |code| then []
    else
      var (mode', n, t) := Read(code, i, mode);
      (match t case None => [] case Some(token) => [token]) + Tokens(code, i + n, mode')
  }

  /** The 1-based line a position is on. */
  function LineOf(code: string, i: nat): nat
  {
    if i == 0 || |code| == 0 then 1
    else if i > |code| then LineOf(code, |code|)
    else LineOf(code, i - 1) + if code[i - 1] == '\n' then 1 else 0
  }

  /** That is one more than the newlines before it. */
  lemma {:induction false} LineOfCounts(code: string, i: nat)
    ensures LineOf(code, i) == 1 + |set k: nat | k < i && k < |code| && code[k] == '\n'|
    decreases i
  {
    var breaks := set k: nat | k < i && k < |code| && code[k] == '\n';
    if i == 0 || |code| == 0 {
      assert breaks == {};
    } else {
      var fewer := set k: nat | k < i - 1 && k < |code| && code[k] == '\n';
      LineOfCounts(code, i - 1);
      if i - 1 < |code| && code[i - 1] == '\n' {
        assert breaks == fewer + {i - 1};
      } else {
        assert breaks == fewer;
      }
      LineStep(code, i);
    }
  }

  lemma LineStep(code: string, i: nat)
    requires i > 0 && |code| > 0
    ensures LineOf(code, i) == LineOf(code, i - 1) + if i - 1 < |code| && code[i - 1] == '\n' then 1 else 0
  {
    if i > |code| + 1 {
      assert LineOf(code, i) == LineOf(code, |code|) == LineOf(code, i - 1);
    }
  }

  // ---- what is code ----

  /** The inside of a literal: a backslash takes the next character with it, and no bare quote is inside. */
  predicate LiteralBody(s: string, quote: char) {
    s == "" ||
    (if s[0] == '\\' then |s| > 1 && LiteralBody(s[2..], quote) else s[0] != quote && LiteralBody(s[1..], quote))
  }

  function ModeOf(quote: char): Mode {
    if quote == '"' then InString else InChar
  }

  /** Within a literal nothing is code up to the end of its body. */
  lemma {:induction false} BodySkipped(code: string, i: nat, body: string, quote: char)
    requires quote == '"' || quote == '\''
    requires LiteralBody(body, quote) && i + |body| <= |code| && code[i..i + |body|] == body
    ensures Tokens(code, i, ModeOf(quote)) == Tokens(code, i + |body|, ModeOf(quote))
    decreases |body|
  {
    if body == "" {
    } else {
      var n := if body[0] == '\\' then 2 else 1;
      assert code[i] == body[0];
      assert code[i + n..i + |body|] == body[n..];
      BodySkipped(code, i + n, body[n..], quote);
    }
  }

  /** A literal in code yields no token, and code goes on behind it. */
  lemma LiteralSkipped(code: string, i: nat, body: string, quote: char)
    requires (quote == '"' || quote == '\'') && LiteralBody(body, quote)
    requires i + |body| + 2 <= |code| && code[i..i + |body| + 2] == [quote] + body + [quote]
    ensures Tokens(code, i, Code) == Tokens(code, i + |body| + 2, Code)
  {
    var all := code[i..i + |body| + 2];
    assert code[i] == all[0] == quote && code[i + 1 + |body|] == all[|body| + 1] == quote;
    assert forall k :: 0 <= k < |body| ==> code[i + 1 + k] == all[k + 1] == body[k];
    assert code[i + 1..i + 1 + |body|] == body;
    BodySkipped(code, i + 1, body, quote);
  }

  /** A literal that does not end, be it within an escape, yields nothing to the end of the text. */
  lemma LiteralUnclosed(code: string, i: nat, body: string, quote: char)
    requires (quote == '"' || quote == '\'') && LiteralBody(body, quote) && i < |code|
    requires code[i] == quote && (code[i + 1..] == body || code[i + 1..] == body + "\\")
    ensures Tokens(code, i, Code) == []
  {
    var end := i + 1 + |body|;
    assert code[i + 1..end] == body by {
      assert code[i + 1..][..|body|] == body;
    }
    BodySkipped(code, i + 1, body, quote);
    if end < |code| {
      assert code[end] == code[i + 1..][|body|] == '\\' && |code| == end + 1;
    }
  }

  /** Any other character of code yields its own token. */
  lemma CodeCharacter(code: string, i: nat)
    requires i < |code| && code[i] != '"' && code[i] != '\''
    ensures Tokens(code, i, Code) ==
      [if code[i] == '{' then Open(i) else if code[i] == '}' then Shut else At(i)] + Tokens(code, i + 1, Code)
  {
  }

  // ---- nesting ----

  /** Every brace closes: `depth` scopes are open before the tokens, none after. */
  predicate Nested(toks: seq<Token>, depth: nat) {
    if toks == [] then depth == 0
    else match toks[0]
      case Open(_) => Nested(toks[1..], depth + 1)
      case Shut => depth > 0 && Nested(toks[1..], depth - 1)
      case At(_) => Nested(toks[1..], depth)
  }

  datatype Forest = Nil | Cons(tree: Tree, rest: Forest)

  datatype Tree = Leaf(pos: nat) | Block(at: nat, kids: Forest)

  function Flatten(f: Forest): seq<Token> {
    match f
    case Nil => []
    case Cons(Leaf(p), rest) => [At(p)] + Flatten(rest)
    case Cons(Block(at, kids), rest) => [Open(at)] + Flatten(kids) + [Shut] + Flatten(rest)
  }

  /** Read siblings up to an unmatched closing brace or the end. */
  function Parse(toks: seq<Token>): (r: (Forest, seq<Token>))
    ensures |r.1| <= |toks| && (r.1 == [] || r.1[0] == Shut)
    decreases |toks|
  {
    if toks == [] || toks[0] == Shut then (Nil, toks)
    else if toks[0].At? then
      var (f, rest) := Parse(toks[1..]);
      (Cons(Leaf(toks[0].pos), f), rest)
    else
      var (kids, inner) := Parse(toks[1..]);
      if inner == [] then (Nil, [])
      else
        var (f, rest) := Parse(inner[1..]);
        (Cons(Block(toks[0].at, kids), f), rest)
  }

  lemma {:induction false} ParseFlattens(toks: seq<Token>, depth: nat)
    requires Nested(toks, depth)
    ensures var (f, rest) := Parse(toks);
      toks == Flatten(f) + rest && (if depth == 0 then rest == [] else rest != [] && Nested(rest[1..], depth - 1))
    decreases |toks|
  {
    if toks != [] && toks[0] != Shut {
      if toks[0].At? {
        ParseFlattens(toks[1..], depth);
      } else {
        ParseFlattens(toks[1..], depth + 1);
        var (kids, inner) := Parse(toks[1..]);
        ParseFlattens(inner[1..], depth);
        var (f, rest) := Parse(inner[1..]);
        BlockOnto(toks[0].at, kids, f, rest);
        assert inner == [Shut] + (Flatten(f) + rest);
        assert toks == [toks[0]] + toks[1..];
      }
    }
  }

  /** A block's tokens, nested to the right. */
  lemma BlockOnto(at: nat, kids: Forest, rest: Forest, after: seq<Token>)
    ensures Flatten(Cons(Block(at, kids), rest)) + after ==
      [Open(at)] + (Flatten(kids) + ([Shut] + (Flatten(rest) + after)))
  {
    Reassociate([Open(at)], Flatten(kids), [Shut], Flatten(rest), after);
  }

  lemma Reassociate(a: seq<Token>, b: seq<Token>, c: seq<Token>, d: seq<Token>, e: seq<Token>)
    ensures (a + b + c + d) + e == a + (b + (c + (d + e)))
  {
  }

  /** Every properly nested token stream is a tree. */
  lemma NestedIsTree(toks: seq<Token>) returns (f: Forest)
    requires Nested(toks, 0)
    ensures toks == Flatten(f)
  {
    ParseFlattens(toks, 0);
    f := Parse(toks).0;
  }
}
