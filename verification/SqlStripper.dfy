/** stripSQLLiterals: the in-place byte loop, proved to blank exactly what the reference
    lexer puts inside literals, and what each position of its result tells about the input. */
module SqlStripper {
  import opened SqlLexer

  // ---- The stripped text ----

  /** An interior element: blanked, but the first quote of a doubled pair stays. */
  function BlankElem(e: Elem, quote: char): string {
    match e
    case Plain(_) => " "
    case Doubled => [quote, ' ']
    case Escaped(_) => "  "
  }

  function BlankBody(body: seq<Elem>, quote: char): string {
    if body == [] then [] else BlankElem(body[0], quote) + BlankBody(body[1..], quote)
  }

  function BlankToken(t: Token): string {
    match t
    case Text(c) => [c]
    case Quoted(quote, body, closed) => [quote] + BlankBody(body, quote) + Closing(quote, closed)
  }

  function Blank(ts: seq<Token>): string {
    if ts == [] then [] else BlankToken(ts[0]) + Blank(ts[1..])
  }

  function Stripped(s: string): string {
    Blank(Lex(s))
  }

  // ---- The loop ----

  datatype Mode = Outside | Inside(quote: char)

  /** What the loop still has to produce from a suffix of the input in a given mode. */
  function Pending(s: string, mode: Mode): string {
    match mode
    case Outside => Stripped(s)
    case Inside(quote) =>
      var (body, rest, closed) := LexBody(s, quote);
      BlankBody(body, quote) + Closing(quote, closed) + Stripped(rest)
  }

  lemma EmptyStripped()
    ensures Stripped("") == ""
  {
  }

  lemma PendingStart(s: string)
    ensures Pending(s[0..], Outside) == Stripped(s)
  {
    assert s[0..] == s;
  }

  lemma PendingEnd(mode: Mode)
    ensures Pending([], mode) == []
  {
  }

  lemma PendingText(s: string, i: nat)
    requires i < |s| && !IsQuote(s[i])
    ensures Pending(s[i..], Outside) == [s[i]] + Pending(s[i + 1..], Outside)
  {
    assert s[i..][1..] == s[i + 1..];
  }

  lemma PendingOpen(s: string, i: nat)
    requires i < |s| && IsQuote(s[i])
    ensures Pending(s[i..], Outside) == [s[i]] + Pending(s[i + 1..], Inside(s[i]))
  {
    var t := s[i..];
    assert t[1..] == s[i + 1..] && t[0] == s[i];
    var (body, rest, closed) := LexBody(t[1..], t[0]);
    var q := Quoted(t[0], body, closed);
    LexOpening(t);
    BlankFirst(q, Lex(rest));
    hide Lex, LexBody, BlankBody, Blank, Closing;
    Regroup([t[0]], BlankBody(body, t[0]), Closing(t[0], closed), Stripped(rest));
  }

  lemma Regroup(a: string, b: string, c: string, d: string)
    ensures ((a + b) + c) + d == a + ((b + c) + d)
  {
  }

  lemma LexOpening(t: string)
    requires t != [] && IsQuote(t[0])
    ensures var (body, rest, closed) := LexBody(t[1..], t[0]);
            Lex(t) == [Quoted(t[0], body, closed)] + Lex(rest)
  {
  }

  lemma BlankFirst(t: Token, ts: seq<Token>)
    ensures Blank([t] + ts) == BlankToken(t) + Blank(ts)
  {
    assert ([t] + ts)[1..] == ts;
  }

  lemma PendingClose(s: string, i: nat, quote: char)
    requires i < |s| && s[i] == quote && (i + 1 < |s| ==> s[i + 1] != quote)
    ensures Pending(s[i..], Inside(quote)) == [quote] + Pending(s[i + 1..], Outside)
  {
    assert s[i..][1..] == s[i + 1..];
  }

  lemma PendingPair(s: string, i: nat, quote: char, e: Elem)
    requires i + 1 < |s|
    requires if e == Doubled then s[i] == quote && s[i + 1] == quote
             else e == Escaped(s[i + 1]) && s[i] == '\\' && s[i] != quote && Escapes(quote)
    ensures Pending(s[i..], Inside(quote)) == BlankElem(e, quote) + Pending(s[i + 2..], Inside(quote))
  {
    assert s[i..][2..] == s[i + 2..];
    var (tail, rest, closed) := LexBody(s[i + 2..], quote);
    var body := LexBody(s[i..], quote).0;
    assert body == [e] + tail;
    assert body[1..] == tail;
  }

  lemma PendingPlain(s: string, i: nat, quote: char)
    requires i < |s| && s[i] != quote && !(s[i] == '\\' && Escapes(quote) && i + 1 < |s|)
    ensures Pending(s[i..], Inside(quote)) == " " + Pending(s[i + 1..], Inside(quote))
  {
    assert s[i..][1..] == s[i + 1..];
    var (tail, rest, closed) := LexBody(s[i + 1..], quote);
    var body := LexBody(s[i..], quote).0;
    assert body == [Plain(s[i])] + tail;
    assert body[1..] == tail;
  }

  /** One round of the loop: what is written so far grows by the round's characters. */
  lemma Advance(before: string, after: string, s: string, i: nat, step: string, pending: string, rest: string)
    requires i + |step| <= |s| == |before| == |after|
    requires before[i..] == s[i..] && before[..i] == after[..i]
    requires after[i..i + |step|] == step && after[i + |step|..] == before[i + |step|..]
    requires pending == step + rest
    ensures after[i + |step|..] == s[i + |step|..]
    ensures before[..i] + pending == after[..i + |step|] + rest
  {
    assert before[i + |step|..] == before[i..][|step|..];
    assert s[i + |step|..] == s[i..][|step|..];
    assert after[..i + |step|] == after[..i] + after[i..i + |step|];
  }

  /** stripSQLLiterals: b is the byte copy of s, rewritten in place; s itself is kept for the
      quote and backslash tests. */
  method StripSqlLiterals(s: string) returns (r: string)
    ensures r == Stripped(s)
  {
    hide LexBody, Lex, Stripped, Pending, BlankBody, Blank;
    if s == "" {
      EmptyStripped();
      return s;
    }
    PendingStart(s);
    var b := new char[|s|](i requires 0 <= i < |s| => s[i]);
    var mode := Outside;
    var i := 0;
    while i < b.Length
      invariant 0 <= i <= b.Length == |s|
      invariant b[i..] == s[i..]
      invariant mode.Inside? ==> IsQuote(mode.quote)
      invariant b[..i] + Pending(s[i..], mode) == Stripped(s)
      decreases b.Length - i
    {
      ghost var at, was := i, b[..];
      ghost var pending := Pending(s[i..], mode);
      ghost var step: string;
      assert b[i] == b[i..][0] == s[i];
      match mode {
        case Outside =>
          if IsQuote(b[i]) {
            PendingOpen(s, i);
            mode := Inside(b[i]);
          } else {
            PendingText(s, i);
          }
          step := [s[i]];
          i := i + 1;
        case Inside(quote) =>
          if b[i] != quote {
            b[i] := ' ';
          }
          if s[i] == quote {
            if i + 1 < b.Length && s[i + 1] == quote {
              PendingPair(s, i, quote, Doubled);
              i := i + 1;
              b[i] := ' ';
              step := [quote, ' '];
            } else {
              PendingClose(s, i, quote);
              mode := Outside;
              step := [quote];
            }
          } else if Escapes(quote) && s[i] == '\\' && i + 1 < b.Length {
            PendingPair(s, i, quote, Escaped(s[i + 1]));
            i := i + 1;
            b[i] := ' ';
            step := "  ";
          } else {
            PendingPlain(s, i, quote);
            step := " ";
          }
          i := i + 1;
      }
      Advance(was, b[..], s, at, step, pending, Pending(s[i..], mode));
    }
    PendingEnd(mode);
    assert s[i..] == [];
    assert b[..] == b[..i];
    r := b[..];
  }

  // ---- What each position of the stripped text tells ----

  /** Character by character: text outside literals is kept and holds no quote; inside, a
      character is kept or blanked, and one that is kept is a quote. */
  predicate PositionsAgree(source: string, mask: seq<bool>, stripped: string) {
    |source| == |mask| == |stripped| &&
    forall k :: 0 <= k < |source| ==>
      if mask[k] then stripped[k] == source[k] && !IsQuote(source[k])
      else stripped[k] == ' ' || (stripped[k] == source[k] && IsQuote(source[k]))
  }

  lemma {:induction false} BodyAgrees(body: seq<Elem>, quote: char)
    requires IsQuote(quote)
    ensures var n := |BodySource(body, quote)|;
            PositionsAgree(BodySource(body, quote), Repeat(n, false), BlankBody(body, quote))
  {
    if body != [] {
      BodyAgrees(body[1..], quote);
    }
  }

  lemma AgreeAppend(a: string, m: seq<bool>, b: string, a': string, m': seq<bool>, b': string)
    requires PositionsAgree(a, m, b) && PositionsAgree(a', m', b')
    ensures PositionsAgree(a + a', m + m', b + b')
  {
  }

  lemma TokenAgrees(t: Token)
    requires WellFormed([t]) || (t.Quoted? && IsQuote(t.quote))
    ensures PositionsAgree(TokenSource(t), TokenMask(t), BlankToken(t))
  {
    match t
    case Text(c) =>
    case Quoted(quote, body, closed) =>
      BodyAgrees(body, quote);
  }

  lemma {:induction false} TokensAgree(ts: seq<Token>)
    requires WellFormed(ts)
    ensures PositionsAgree(Source(ts), Mask(ts), Blank(ts))
  {
    if ts != [] {
      TokensAgree(ts[1..]);
      TokenAgrees(ts[0]);
      AgreeAppend(TokenSource(ts[0]), TokenMask(ts[0]), BlankToken(ts[0]), Source(ts[1..]), Mask(ts[1..]), Blank(ts[1..]));
    }
  }

  /** Every position of the stripped text against the same position of the input. */
  lemma StrippedPositions(s: string)
    ensures PositionsAgree(s, OutsideMask(s), Stripped(s))
  {
    LexWellFormed(s);
    LexSource(s);
    TokensAgree(Lex(s));
  }

  /** Between text outside literals and text inside one there is always a quote that the
      stripped text still shows, on the literal's side. */
  predicate QuotesMarkEdges(mask: seq<bool>, stripped: string) {
    |mask| == |stripped| &&
    forall k :: 0 <= k < |mask| - 1 ==>
      (mask[k] && !mask[k + 1] ==> IsQuote(stripped[k + 1])) &&
      (!mask[k] && mask[k + 1] ==> IsQuote(stripped[k]))
  }

  lemma {:induction false} TokensMarkEdges(ts: seq<Token>)
    requires WellFormed(ts)
    ensures QuotesMarkEdges(Mask(ts), Blank(ts))
    ensures ts != [] && ts[0].Quoted? ==> Blank(ts) != [] && IsQuote(Blank(ts)[0])
  {
    if ts != [] {
      TokensMarkEdges(ts[1..]);
      TokensAgree(ts[1..]);
      TokenAgrees(ts[0]);
      EdgesAppend(ts[0], ts[1..]);
    }
  }

  lemma EdgesAppend(t: Token, ts: seq<Token>)
    requires WellFormed([t] + ts) && |TokenMask(t)| == |BlankToken(t)|
    requires QuotesMarkEdges(Mask(ts), Blank(ts))
    requires ts != [] && ts[0].Quoted? ==> Blank(ts) != [] && IsQuote(Blank(ts)[0])
    ensures QuotesMarkEdges(TokenMask(t) + Mask(ts), BlankToken(t) + Blank(ts))
  {
    assert ([t] + ts)[1..] == ts;
    if ts != [] {
      assert Mask(ts)[0] == ts[0].Text?;
    }
    if t.Quoted? && ts != [] {
      TokenSourceNonEmpty(ts[0]);
      assert Source(ts) != [];
      assert t.closed;
      assert BlankToken(t)[|BlankToken(t)| - 1] == t.quote;
    }
  }

  lemma TokenSourceNonEmpty(t: Token)
    ensures TokenSource(t) != []
  {
  }

  lemma StrippedEdges(s: string)
    ensures QuotesMarkEdges(OutsideMask(s), Stripped(s))
  {
    LexWellFormed(s);
    TokensMarkEdges(Lex(s));
  }

  // ---- Windows of the stripped text ----

  predicate AllOutside(s: string, i: nat, j: nat)
    requires i <= j <= |s|
  {
    OutsideLength(s);
    forall k :: i <= k < j ==> OutsideMask(s)[k]
  }

  predicate QuoteFree(t: string, i: nat, j: nat)
    requires i <= j <= |t|
  {
    forall k :: i <= k < j ==> !IsQuote(t[k])
  }

  /** From a position outside literals to one inside, or back, the stripped text shows a
      quote on the way. */
  lemma {:induction false} QuoteBetween(mask: seq<bool>, stripped: string, i: nat, j: nat) returns (k: nat)
    requires QuotesMarkEdges(mask, stripped) && i < j < |mask| && mask[i] != mask[j]
    ensures i <= k <= j && IsQuote(stripped[k])
    decreases j - i
  {
    if mask[j - 1] == mask[j] {
      k := QuoteBetween(mask, stripped, i, j - 1);
    } else {
      k := if mask[j] then j - 1 else j;
    }
  }

  /** A stretch of the stripped text without quotes that touches text outside literals lies
      wholly outside them and is the input's own text. */
  lemma QuoteFreeWindow(s: string, i: nat, at: nat, j: nat)
    requires i <= at < j <= |s| == |Stripped(s)| == |OutsideMask(s)|
    requires QuoteFree(Stripped(s), i, j) && OutsideMask(s)[at]
    ensures AllOutside(s, i, j) && Stripped(s)[i..j] == s[i..j]
  {
    StrippedPositions(s);
    StrippedEdges(s);
    forall k | i <= k < j
      ensures OutsideMask(s)[k]
    {
      if !OutsideMask(s)[k] {
        var q := QuoteBetween(OutsideMask(s), Stripped(s), if k < at then k else at, if k < at then at else k);
      }
    }
  }
}
