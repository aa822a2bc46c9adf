/** A reference lexer for the quoting rules of the SQL validator: '...' and "..." with
    doubled quotes and backslash escapes, `...` with doubled backticks only. */
module SqlLexer {
  datatype Elem =
    | Plain(c: char)
    | Doubled
    | Escaped(c: char)

  datatype Token =
    | Text(c: char)
    | Quoted(quote: char, body: seq<Elem>, closed: bool)

  predicate IsQuote(c: char) {
    c == '\'' || c == '"' || c == '`'
  }

  predicate Escapes(quote: char) {
    quote != '`'
  }

  /** Reads the body of a literal: its elements, the text after the literal, and whether
      the closing quote was found. */
  function LexBody(s: string, quote: char): (r: (seq<Elem>, string, bool))
    ensures |r.1| <= |s|
    decreases |s|
  {
    if s == [] then ([], [], false)
    else if s[0] == quote then
      if |s| > 1 && s[1] == quote then
        var (body, rest, closed) := LexBody(s[2..], quote); ([Doubled] + body, rest, closed)
      else ([], s[1..], true)
    else if s[0] == '\\' && Escapes(quote) && |s| > 1 then
      var (body, rest, closed) := LexBody(s[2..], quote); ([Escaped(s[1])] + body, rest, closed)
    else
      var (body, rest, closed) := LexBody(s[1..], quote); ([Plain(s[0])] + body, rest, closed)
  }

  function Lex(s: string): seq<Token>
    decreases |s|
  {
    if s == [] then []
    else if IsQuote(s[0]) then
      var (body, rest, closed) := LexBody(s[1..], s[0]);
      [Quoted(s[0], body, closed)] + Lex(rest)
    else [Text(s[0])] + Lex(s[1..])
  }

  // ---- Back to text ----

  function ElemSource(e: Elem, quote: char): string {
    match e
    case Plain(c) => [c]
    case Doubled => [quote, quote]
    case Escaped(c) => ['\\', c]
  }

  function BodySource(body: seq<Elem>, quote: char): string {
    if body == [] then [] else ElemSource(body[0], quote) + BodySource(body[1..], quote)
  }

  function Closing(quote: char, closed: bool): string {
    if closed then [quote] else []
  }

  function TokenSource(t: Token): string {
    match t
    case Text(c) => [c]
    case Quoted(quote, body, closed) => [quote] + BodySource(body, quote) + Closing(quote, closed)
  }

  function Source(ts: seq<Token>): string {
    if ts == [] then [] else TokenSource(ts[0]) + Source(ts[1..])
  }

  lemma LexBodyStep(s: string, quote: char)
    requires LexBody(s, quote).0 != []
    ensures var (body, rest, closed) := LexBody(s, quote);
            var step := if body[0].Plain? then 1 else 2;
            step <= |s| && s == ElemSource(body[0], quote) + s[step..] &&
            LexBody(s[step..], quote) == (body[1..], rest, closed)
  {
    var body := LexBody(s, quote).0;
    var step := if body[0].Plain? then 1 else 2;
    assert body == [body[0]] + LexBody(s[step..], quote).0;
  }

  lemma {:induction false} LexBodySource(s: string, quote: char)
    ensures var (body, rest, closed) := LexBody(s, quote);
            BodySource(body, quote) + Closing(quote, closed) + rest == s
    decreases |s|
  {
    var (body, rest, closed) := LexBody(s, quote);
    if body != [] {
      var step := if body[0].Plain? then 1 else 2;
      LexBodySource(s[step..], quote);
      LexBodyStep(s, quote);
      hide LexBody, ElemSource;
      var tail := LexBody(s[step..], quote).0;
      assert BodySource(body, quote) == ElemSource(body[0], quote) + BodySource(tail, quote);
    }
  }

  /** The tokens spell out the text they were read from. */
  lemma {:induction false} LexSource(s: string)
    ensures Source(Lex(s)) == s
    decreases |s|
  {
    if s != [] {
      if IsQuote(s[0]) {
        LexBodySource(s[1..], s[0]);
        LexSource(LexBody(s[1..], s[0]).1);
      } else {
        LexSource(s[1..]);
      }
    }
  }

  // ---- The lexer is the only reading ----

  /** A body that reads back as itself: plain characters are neither the quote nor, unless
      they end an unclosed literal, an escaping backslash; only '...' and "..." escape. */
  predicate BodyOk(body: seq<Elem>, quote: char, closed: bool) {
    forall k :: 0 <= k < |body| ==>
      match body[k]
      case Plain(c) => c != quote && (c == '\\' && Escapes(quote) ==> !closed && k == |body| - 1)
      case Doubled => true
      case Escaped(_) => Escapes(quote)
  }

  /** What may follow a literal: nothing after an unclosed one, not its own quote after a
      closed one. */
  predicate FollowsOk(quote: char, closed: bool, rest: string) {
    if closed then rest == [] || rest[0] != quote else rest == []
  }

  /** Token lists that are the lexer's reading of some text. */
  predicate WellFormed(ts: seq<Token>) {
    ts == [] ||
    (WellFormed(ts[1..]) &&
     match ts[0]
     case Text(c) => !IsQuote(c)
     case Quoted(quote, body, closed) =>
       IsQuote(quote) && BodyOk(body, quote, closed) && FollowsOk(quote, closed, Source(ts[1..])))
  }

  lemma {:induction false} ReadBody(body: seq<Elem>, quote: char, closed: bool, rest: string)
    requires IsQuote(quote) && BodyOk(body, quote, closed) && FollowsOk(quote, closed, rest)
    ensures LexBody(BodySource(body, quote) + Closing(quote, closed) + rest, quote) == (body, rest, closed)
    decreases |body|
  {
    var s := BodySource(body, quote) + Closing(quote, closed) + rest;
    if body == [] {
      if closed {
        assert s[1..] == rest;
      }
    } else {
      var tail := BodySource(body[1..], quote) + Closing(quote, closed) + rest;
      BodyTailOk(body, quote, closed);
      ReadBody(body[1..], quote, closed, rest);
      assert s == ElemSource(body[0], quote) + tail;
      assert body == [body[0]] + body[1..];
      match body[0]
      case Plain(c) =>
        assert s[0] == c && s[1..] == tail;
        if c == '\\' && Escapes(quote) {
          assert body[1..] == [];
        }
      case Doubled =>
        assert s[0] == quote && s[1] == quote && s[2..] == tail;
      case Escaped(c) =>
        assert s[0] == '\\' && s[1] == c && s[2..] == tail;
    }
  }

  lemma BodyTailOk(body: seq<Elem>, quote: char, closed: bool)
    requires body != [] && BodyOk(body, quote, closed)
    ensures BodyOk(body[1..], quote, closed)
  {
  }

  lemma LexText(c: char, rest: string)
    requires !IsQuote(c)
    ensures Lex([c] + rest) == [Text(c)] + Lex(rest)
  {
    assert ([c] + rest)[1..] == rest;
  }

  lemma LexQuoted(quote: char, body: seq<Elem>, closed: bool, rest: string)
    requires IsQuote(quote) && BodyOk(body, quote, closed) && FollowsOk(quote, closed, rest)
    ensures Lex(TokenSource(Quoted(quote, body, closed)) + rest) == [Quoted(quote, body, closed)] + Lex(rest)
  {
    var s := TokenSource(Quoted(quote, body, closed)) + rest;
    ReadBody(body, quote, closed, rest);
    assert s[1..] == BodySource(body, quote) + Closing(quote, closed) + rest;
  }

  /** Lexing the text of a well-formed token list gives that list back. */
  lemma {:induction false} LexUndoesSource(ts: seq<Token>)
    requires WellFormed(ts)
    ensures Lex(Source(ts)) == ts
    decreases |ts|
  {
    hide LexBody, BodySource;
    if ts != [] {
      LexUndoesSource(ts[1..]);
      assert ts == [ts[0]] + ts[1..];
      match ts[0]
      case Text(c) => LexText(c, Source(ts[1..]));
      case Quoted(quote, body, closed) => LexQuoted(quote, body, closed, Source(ts[1..]));
    }
  }

  lemma {:induction false} LexedBodyOk(s: string, quote: char)
    ensures var (body, rest, closed) := LexBody(s, quote);
            BodyOk(body, quote, closed) && FollowsOk(quote, closed, rest)
    decreases |s|
  {
    var (body, rest, closed) := LexBody(s, quote);
    if body != [] {
      var step := if body[0].Plain? then 1 else 2;
      LexedBodyOk(s[step..], quote);
      assert body[1..] == LexBody(s[step..], quote).0;
    }
  }

  /** The lexer's tokens are well formed: with LexUndoesSource and LexSource, texts and
      well-formed token lists correspond one to one. */
  lemma {:induction false} LexWellFormed(s: string)
    ensures WellFormed(Lex(s))
    decreases |s|
  {
    if s != [] {
      if IsQuote(s[0]) {
        var (body, rest, closed) := LexBody(s[1..], s[0]);
        LexedBodyOk(s[1..], s[0]);
        LexWellFormed(rest);
        LexSource(rest);
        assert Lex(s)[1..] == Lex(rest);
      } else {
        LexWellFormed(s[1..]);
        assert Lex(s)[1..] == Lex(s[1..]);
      }
    }
  }

  // ---- Which positions lie outside literals ----

  function Repeat<T>(n: nat, x: T): (r: seq<T>)
    ensures |r| == n && forall k :: 0 <= k < n ==> r[k] == x
  {
    seq(n, _ => x)
  }

  /** One flag per character of the source: outside every literal, its quotes included? */
  function TokenMask(t: Token): seq<bool> {
    Repeat(|TokenSource(t)|, t.Text?)
  }

  function Mask(ts: seq<Token>): seq<bool> {
    if ts == [] then [] else TokenMask(ts[0]) + Mask(ts[1..])
  }

  function OutsideMask(s: string): seq<bool> {
    Mask(Lex(s))
  }

  lemma {:induction false} MaskLength(ts: seq<Token>)
    ensures |Mask(ts)| == |Source(ts)|
  {
    if ts != [] {
      MaskLength(ts[1..]);
    }
  }

  lemma OutsideLength(s: string)
    ensures |OutsideMask(s)| == |s|
  {
    LexSource(s);
    MaskLength(Lex(s));
  }
}
