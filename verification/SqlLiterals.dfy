/** Where a literal ends and what stripping leaves of it, stated on the text alone: in '...' and
    "..." by the run of backslashes before a quote and by doubling, in `...` by doubling alone. */
module SqlLiterals {
  import opened SqlLexer
  import opened SqlStripper
  import opened Text

  /** The number of backslashes right before position k. */
  function Backslashes(a: string, k: nat): nat
    requires k <= |a|
  {
    if k > 0 && a[k - 1] == '\\' then 1 + Backslashes(a, k - 1) else 0
  }

  /** A stretch of the inside of a literal without an end in it: in '...' and "..." every quote
      has an odd number of backslashes right before it; in `...` there is no backtick. */
  predicate NoEndInside(a: string, quote: char) {
    forall k :: 0 <= k < |a| && a[k] == quote ==> quote != '`' && Backslashes(a, k) % 2 == 1
  }

  /** The quote that follows the stretch is not escaped. */
  predicate EndsOpen(a: string, quote: char) {
    quote == '`' || Backslashes(a, |a|) % 2 == 0
  }

  predicate Piece(a: string, quote: char) {
    NoEndInside(a, quote) && EndsOpen(a, quote)
  }

  predicate AnyQuote(quote: char) {
    quote == '\'' || quote == '"' || quote == '`'
  }

  function Spaces(n: nat): (r: string)
    ensures |r| == n && forall k :: 0 <= k < n ==> r[k] == ' '
  {
    seq(n, _ => ' ')
  }

  // ---- Stretches are read as plain and escaped characters ----

  predicate Interior(body: seq<Elem>) {
    forall k :: 0 <= k < |body| ==> !body[k].Doubled?
  }

  lemma {:induction false} InteriorBlanks(body: seq<Elem>, quote: char)
    requires Interior(body)
    ensures BlankBody(body, quote) == Spaces(|BodySource(body, quote)|)
  {
    if body != [] {
      InteriorBlanks(body[1..], quote);
      assert body[0] in body;
    }
  }

  lemma {:induction false} RunAfterOne(a: string, k: nat)
    requires 0 < k <= |a| && a[0] != '\\'
    ensures Backslashes(a, k) == Backslashes(a[1..], k - 1)
  {
    if k > 1 {
      RunAfterOne(a, k - 1);
    }
  }

  lemma {:induction false} RunAfterTwo(a: string, k: nat)
    requires 2 <= k <= |a| && a[0] == '\\'
    ensures Backslashes(a, k) % 2 == Backslashes(a[2..], k - 2) % 2
  {
    if k > 2 && a[k - 1] == '\\' {
      assert a[2..][k - 3] == a[k - 1];
      RunAfterTwo(a, k - 1);
    } else if k == 2 {
      assert Backslashes(a, 1) == 1 + Backslashes(a, 0);
    }
  }

  lemma TailAfterOne(a: string, quote: char)
    requires a != [] && AnyQuote(quote) && NoEndInside(a, quote) && (a[0] != '\\' || quote == '`')
    ensures NoEndInside(a[1..], quote) && (EndsOpen(a, quote) <==> EndsOpen(a[1..], quote)) && a[0] != quote
  {
    if quote != '`' {
      forall k | 0 <= k < |a|
        ensures Backslashes(a, k + 1) == Backslashes(a[1..], k)
      {
        RunAfterOne(a, k + 1);
      }
      assert Backslashes(a, 0) == 0;
      forall k | 0 <= k < |a| - 1 && a[1..][k] == quote
        ensures Backslashes(a[1..], k) % 2 == 1
      {
        assert a[k + 1] == quote;
      }
    } else {
      assert forall k :: 0 <= k < |a| - 1 ==> a[1..][k] == a[k + 1];
    }
  }

  lemma TailAfterTwo(a: string, quote: char)
    requires |a| >= 2 && quote != '`' && quote != '\\' && NoEndInside(a, quote) && a[0] == '\\'
    ensures NoEndInside(a[2..], quote) && (EndsOpen(a, quote) <==> EndsOpen(a[2..], quote))
  {
    forall k | 0 <= k < |a| - 2 && a[2..][k] == quote
      ensures Backslashes(a[2..], k) % 2 == 1
    {
      assert a[k + 2] == quote;
      RunAfterTwo(a, k + 2);
    }
    RunAfterTwo(a, |a|);
  }

  lemma ReadEscaped(s: string, quote: char)
    requires |s| >= 2 && s[0] == '\\' && (quote == '\'' || quote == '"')
    ensures var (more, after, closed) := LexBody(s[2..], quote);
            LexBody(s, quote) == ([Escaped(s[1])] + more, after, closed)
  {
  }

  lemma ReadPlain(s: string, quote: char)
    requires s != [] && s[0] != quote && (s[0] != '\\' || quote == '`')
    ensures var (more, after, closed) := LexBody(s[1..], quote);
            LexBody(s, quote) == ([Plain(s[0])] + more, after, closed)
  {
  }

  /** A stretch before a quote is read up to that quote. */
  lemma {:induction false} PieceRead(a: string, quote: char, rest: string) returns (body: seq<Elem>)
    requires AnyQuote(quote) && Piece(a, quote)
    ensures Interior(body) && |BodySource(body, quote)| == |a|
    ensures var (more, after, closed) := LexBody(rest, quote);
            LexBody(a + rest, quote) == (body + more, after, closed)
    decreases |a|
  {
    hide LexBody, BodySource, Interior;
    if a == [] {
      EmptyBody(quote);
      body := [];
      assert a + rest == rest && [] + LexBody(rest, quote).0 == LexBody(rest, quote).0;
    } else if a[0] == '\\' && quote != '`' {
      OneBackslashEscapes(a, quote);
      TailAfterTwo(a, quote);
      var more := PieceRead(a[2..], quote, rest);
      body := [Escaped(a[1])] + more;
      assert (a + rest)[2..] == a[2..] + rest;
      ReadEscaped(a + rest, quote);
      ConsBody(Escaped(a[1]), more, quote);
      Regroup(Escaped(a[1]), more, LexBody(rest, quote).0);
    } else {
      TailAfterOne(a, quote);
      var more := PieceRead(a[1..], quote, rest);
      body := [Plain(a[0])] + more;
      assert (a + rest)[1..] == a[1..] + rest;
      ReadPlain(a + rest, quote);
      ConsBody(Plain(a[0]), more, quote);
      Regroup(Plain(a[0]), more, LexBody(rest, quote).0);
    }
  }

  lemma EmptyBody(quote: char)
    ensures Interior([]) && BodySource([], quote) == [] && BlankBody([], quote) == []
  {
  }

  lemma OneBackslashEscapes(a: string, quote: char)
    requires a != [] && a[0] == '\\' && quote != '`' && EndsOpen(a, quote)
    ensures |a| >= 2
  {
    assert Backslashes(a, 1) == 1 + Backslashes(a, 0);
  }

  lemma ConsBody(e: Elem, more: seq<Elem>, quote: char)
    requires Interior(more) && !e.Doubled?
    ensures Interior([e] + more) && |BodySource([e] + more, quote)| == |ElemSource(e, quote)| + |BodySource(more, quote)|
  {
    assert ([e] + more)[1..] == more;
  }

  lemma Regroup(e: Elem, a: seq<Elem>, b: seq<Elem>)
    ensures [e] + (a + b) == ([e] + a) + b
  {
  }

  // ---- Whole literals ----

  /** The inside of a literal: stretches with a doubled quote between each and the next. */
  function Inner(pieces: seq<string>, quote: char): string {
    if pieces == [] then []
    else pieces[0] + (if |pieces| == 1 then [] else [quote, quote]) + Inner(pieces[1..], quote)
  }

  /** What stripping leaves of it: spaces, and the first quote of each doubled pair. */
  function InnerBlanked(pieces: seq<string>, quote: char): string {
    if pieces == [] then []
    else Spaces(|pieces[0]|) + (if |pieces| == 1 then [] else [quote, ' ']) + InnerBlanked(pieces[1..], quote)
  }

  predicate Pieces(pieces: seq<string>, quote: char) {
    forall k :: 0 <= k < |pieces| ==> Piece(pieces[k], quote)
  }

  lemma ReadEnd(quote: char, rest: string)
    requires rest == [] || rest[0] != quote
    ensures LexBody([quote] + rest, quote) == ([], rest, true)
  {
    assert ([quote] + rest)[1..] == rest;
  }

  lemma ReadDoubled(quote: char, rest: string)
    ensures var (more, after, closed) := LexBody(rest, quote);
            LexBody([quote, quote] + rest, quote) == ([Doubled] + more, after, closed)
  {
    assert ([quote, quote] + rest)[2..] == rest;
  }

  /** Joining two parts of a body. */
  lemma {:induction false} BodyJoin(a: seq<Elem>, b: seq<Elem>, quote: char)
    ensures |BodySource(a + b, quote)| == |BodySource(a, quote)| + |BodySource(b, quote)|
    ensures BlankBody(a + b, quote) == BlankBody(a, quote) + BlankBody(b, quote)
  {
    hide BodySource, BlankBody, ElemSource, BlankElem;
    if a == [] {
      EmptyBody(quote);
      assert a + b == b && [] + BlankBody(b, quote) == BlankBody(b, quote);
    } else {
      var e, tail := a[0], a[1..];
      BodyJoin(tail, b, quote);
      assert a == [e] + tail;
      Assoc([e], tail, b);
      FirstElem(e, tail, quote);
      FirstElem(e, tail + b, quote);
      Assoc(BlankElem(e, quote), BlankBody(tail, quote), BlankBody(b, quote));
    }
  }

  lemma FirstElem(e: Elem, more: seq<Elem>, quote: char)
    ensures BodySource([e] + more, quote) == ElemSource(e, quote) + BodySource(more, quote)
    ensures BlankBody([e] + more, quote) == BlankElem(e, quote) + BlankBody(more, quote)
  {
    assert ([e] + more)[1..] == more;
  }

  lemma DoubledParts(quote: char)
    ensures |BodySource([Doubled], quote)| == 2 && BlankBody([Doubled], quote) == [quote, ' ']
  {
    assert [Doubled][1..] == [];
  }

  lemma InnerOne(a: string, quote: char)
    ensures Inner([a], quote) == a && InnerBlanked([a], quote) == Spaces(|a|)
  {
    assert [a][1..] == [];
    assert a + [] + [] == a && Spaces(|a|) + [] + [] == Spaces(|a|);
  }

  lemma InnerMore(pieces: seq<string>, quote: char, tail: string)
    requires |pieces| > 1
    ensures Inner(pieces, quote) + tail == pieces[0] + ([quote, quote] + (Inner(pieces[1..], quote) + tail))
    ensures |Inner(pieces, quote)| == |pieces[0]| + 2 + |Inner(pieces[1..], quote)|
    ensures InnerBlanked(pieces, quote) == Spaces(|pieces[0]|) + ([quote, ' '] + InnerBlanked(pieces[1..], quote))
  {
    var a, b := pieces[0], Inner(pieces[1..], quote);
    Assoc(a, [quote, quote], b);
    Assoc(a, [quote, quote] + b, tail);
    Assoc([quote, quote], b, tail);
    Assoc(Spaces(|a|), [quote, ' '], InnerBlanked(pieces[1..], quote));
  }

  lemma LastPieceRead(a: string, quote: char, rest: string) returns (body: seq<Elem>)
    requires AnyQuote(quote) && Piece(a, quote) && (rest == [] || rest[0] != quote)
    ensures LexBody(a + ([quote] + rest), quote) == (body, rest, true)
    ensures |BodySource(body, quote)| == |a| && BlankBody(body, quote) == Spaces(|a|)
  {
    hide LexBody, BodySource, BlankBody, Piece, Interior;
    body := PieceRead(a, quote, [quote] + rest);
    ReadEnd(quote, rest);
    InteriorBlanks(body, quote);
    assert body + [] == body;
  }

  lemma {:induction false} LiteralRead(pieces: seq<string>, quote: char, rest: string) returns (body: seq<Elem>)
    requires AnyQuote(quote) && Pieces(pieces, quote) && pieces != [] && (rest == [] || rest[0] != quote)
    ensures LexBody(Inner(pieces, quote) + ([quote] + rest), quote) == (body, rest, true)
    ensures |BodySource(body, quote)| == |Inner(pieces, quote)| && BlankBody(body, quote) == InnerBlanked(pieces, quote)
    decreases |pieces|
  {
    hide LexBody, BodySource, BlankBody, Piece, Interior, Inner, InnerBlanked, AnyQuote, Spaces;
    assert Piece(pieces[0], quote);
    var tail := [quote] + rest;
    if |pieces| == 1 {
      body := LastPieceRead(pieces[0], quote, rest);
      InnerOne(pieces[0], quote);
      assert pieces == [pieces[0]];
    } else {
      var more := LiteralRead(pieces[1..], quote, rest);
      var inner := Inner(pieces[1..], quote);
      var first := PieceRead(pieces[0], quote, [quote, quote] + (inner + tail));
      ReadDoubled(quote, inner + tail);
      InnerMore(pieces, quote, tail);
      body := first + ([Doubled] + more);
      BodyJoin(first, [Doubled] + more, quote);
      BodyJoin([Doubled], more, quote);
      DoubledParts(quote);
      InteriorBlanks(first, quote);
    }
  }

  function Insides(n: nat): seq<bool> {
    seq(n, _ => false)
  }

  /** A literal ends at the first quote of its kind that is neither escaped nor doubled: that
      quote and all before it are inside, and what follows is read as if it stood alone. Its
      inside is blanked, but for the first quote of each doubled pair. */
  lemma LiteralEnds(pieces: seq<string>, quote: char, rest: string)
    requires AnyQuote(quote) && Pieces(pieces, quote) && pieces != [] && (rest == [] || rest[0] != quote)
    ensures var inner := Inner(pieces, quote);
            var text := [quote] + inner + [quote] + rest;
            && OutsideMask(text) == Insides(|inner| + 2) + OutsideMask(rest)
            && Stripped(text) == [quote] + InnerBlanked(pieces, quote) + [quote] + Stripped(rest)
  {
    hide LexBody, Inner, InnerBlanked, Pieces, BodySource, BlankBody, AnyQuote, OutsideMask, Stripped;
    var inner := Inner(pieces, quote);
    var text := [quote] + inner + [quote] + rest;
    var body := LiteralRead(pieces, quote, rest);
    Assoc([quote] + inner, [quote], rest);
    Assoc([quote], inner, [quote] + rest);
    assert text == [quote] + (inner + ([quote] + rest));
    assert text[0] == quote && text[1..] == inner + ([quote] + rest);
    FirstToken(text, body, rest, true);
    TokenParts(body, quote);
  }

  lemma TokenParts(body: seq<Elem>, quote: char)
    ensures TokenMask(Quoted(quote, body, true)) == Insides(|BodySource(body, quote)| + 2)
    ensures BlankToken(Quoted(quote, body, true)) == [quote] + BlankBody(body, quote) + [quote]
  {
    hide BodySource, BlankBody;
  }

  lemma FirstToken(text: string, body: seq<Elem>, rest: string, closed: bool)
    requires text != [] && AnyQuote(text[0]) && LexBody(text[1..], text[0]) == (body, rest, closed)
    ensures var t := Quoted(text[0], body, closed);
            OutsideMask(text) == TokenMask(t) + OutsideMask(rest) && Stripped(text) == BlankToken(t) + Stripped(rest)
  {
    hide LexBody, BlankBody, BodySource;
    var t := Quoted(text[0], body, closed);
    assert Lex(text) == [t] + Lex(rest);
    assert Lex(text)[1..] == Lex(rest);
  }

  /** In `...` a backslash means nothing: the identifier ends at the next backtick. */
  lemma BacktickLiteralEnds(a: string, rest: string)
    requires '`' !in a && (rest == [] || rest[0] != '`')
    ensures var text := ['`'] + a + ['`'] + rest;
            && OutsideMask(text) == Insides(|a| + 2) + OutsideMask(rest)
            && Stripped(text) == ['`'] + Spaces(|a|) + ['`'] + Stripped(rest)
  {
    hide OutsideMask, Stripped, Inner, InnerBlanked, Spaces, Insides;
    InnerOne(a, '`');
    assert Pieces([a], '`');
    LiteralEnds([a], '`', rest);
  }

  /** A literal that is never closed takes all that follows. */
  lemma {:induction false} OpenRead(a: string, quote: char) returns (body: seq<Elem>)
    requires AnyQuote(quote) && NoEndInside(a, quote)
    ensures Interior(body) && |BodySource(body, quote)| == |a| && LexBody(a, quote) == (body, [], false)
    decreases |a|
  {
    hide BodySource, Interior;
    if a == [] {
      EmptyBody(quote);
      body := [];
    } else if a[0] == '\\' && quote != '`' && |a| >= 2 {
      TailAfterTwo(a, quote);
      var more := OpenRead(a[2..], quote);
      body := [Escaped(a[1])] + more;
      ConsBody(Escaped(a[1]), more, quote);
    } else if a == "\\" {
      EmptyBody(quote);
      ConsBody(Plain(a[0]), [], quote);
      body := [Plain(a[0])] + [];
      assert a[1..] == [] && LexBody([], quote) == ([], [], false);
    } else {
      TailAfterOne(a, quote);
      var more := OpenRead(a[1..], quote);
      body := [Plain(a[0])] + more;
      ConsBody(Plain(a[0]), more, quote);
    }
  }

  lemma UnclosedLiteral(a: string, quote: char)
    requires AnyQuote(quote) && NoEndInside(a, quote)
    ensures OutsideMask([quote] + a) == Insides(|a| + 1) && Stripped([quote] + a) == [quote] + Spaces(|a|)
  {
    var body := OpenRead(a, quote);
    assert ([quote] + a)[1..] == a;
    FirstToken([quote] + a, body, [], false);
    InteriorBlanks(body, quote);
    NothingLeft();
    assert Insides(|a| + 1) == TokenMask(Quoted(quote, body, false));
  }

  lemma NothingLeft()
    ensures OutsideMask([]) == [] && Stripped([]) == []
  {
  }

  function Outsides(n: nat): seq<bool> {
    seq(n, _ => true)
  }

  /** Text without quotes is outside and kept, and does not change how the rest is read. */
  lemma {:induction false} PlainText(p: string, rest: string)
    requires forall k :: 0 <= k < |p| ==> !AnyQuote(p[k])
    ensures OutsideMask(p + rest) == Outsides(|p|) + OutsideMask(rest) && Stripped(p + rest) == p + Stripped(rest)
  {
    hide OutsideMask, Stripped, Outsides, AnyQuote;
    NoOutsides();
    if p == [] {
      assert p + rest == rest && [] + OutsideMask(rest) == OutsideMask(rest) && [] + Stripped(rest) == Stripped(rest);
    } else {
      var c, tail := p[0], p[1..];
      PlainText(tail, rest);
      Assoc([c], tail, rest);
      assert p == [c] + tail;
      TextFirst(c, tail + rest);
      OneMoreOutside(|tail|);
      Assoc([true], Outsides(|tail|), OutsideMask(rest));
      Assoc([c], tail, Stripped(rest));
    }
  }

  lemma NoOutsides()
    ensures Outsides(0) == []
  {
  }

  lemma OneMoreOutside(n: nat)
    ensures Outsides(n + 1) == [true] + Outsides(n)
  {
  }

  lemma TextFirst(c: char, rest: string)
    requires !AnyQuote(c)
    ensures OutsideMask([c] + rest) == [true] + OutsideMask(rest) && Stripped([c] + rest) == [c] + Stripped(rest)
  {
    LexText(c, rest);
    assert ([Text(c)] + Lex(rest))[1..] == Lex(rest);
  }
}
