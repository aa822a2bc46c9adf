/** The validator's blocked patterns, as sequences of words, white space and word
    boundaries, and what a match on the stripped text means for the text itself. */
module SqlPatterns {
  import opened SqlLexer
  import opened SqlStripper

  datatype Piece =
    | Word(text: string)
    | Gap(least: nat)
    | Boundary

  /** text is the pattern as it is reported; a pattern matches when one of its forms does, an
      anchored one only at the start. */
  datatype Pattern = Pattern(text: string, anchored: bool, forms: seq<seq<Piece>>)

  // ---- Matching ----

  predicate IsBlank(c: char) {
    c == '\t' || c == '\n' || c == '\U{000C}' || c == '\r' || c == ' '
  }

  predicate IsWordChar(c: char) {
    '0' <= c <= '9' || 'A' <= c <= 'Z' || 'a' <= c <= 'z' || c == '_'
  }

  /** Case folding of what may match an upper-case letter of a pattern; two letters outside
      ASCII fold to S and K. */
  function Fold(c: char): char {
    if 'a' <= c <= 'z' then c - 'a' + 'A'
    else if c == '\U{017F}' then 'S'
    else if c == '\U{212A}' then 'K'
    else c
  }

  predicate SameFolded(s: string, word: string) {
    |s| == |word| && forall k :: 0 <= k < |s| ==> Fold(s[k]) == word[k]
  }

  predicate AllBlank(t: string, i: nat, j: nat)
    requires i <= j <= |t|
  {
    forall k :: i <= k < j ==> IsBlank(t[k])
  }

  predicate WordCharAt(t: string, k: int) {
    0 <= k < |t| && IsWordChar(t[k])
  }

  predicate WordBoundary(t: string, k: int) {
    WordCharAt(t, k - 1) != WordCharAt(t, k)
  }

  predicate Matches(t: string, i: nat, j: nat, pieces: seq<Piece>)
    requires i <= j <= |t|
    decreases |pieces|
  {
    if pieces == [] then i == j
    else match pieces[0]
      case Word(w) => i + |w| <= j && SameFolded(t[i..i + |w|], w) && Matches(t, i + |w|, j, pieces[1..])
      case Gap(least) =>
        exists k: nat :: i + least <= k <= j && AllBlank(t, i, k) && Matches(t, k, j, pieces[1..])
      case Boundary => WordBoundary(t, i) && Matches(t, i, j, pieces[1..])
  }

  // ---- Stripped text against the text itself ----

  /** Words are written without quotes and white space. */
  predicate CleanWords(pieces: seq<Piece>) {
    forall k :: 0 <= k < |pieces| && pieces[k].Word? ==> CleanWord(pieces[k].text)
  }

  predicate CleanWord(w: string) {
    w != [] && forall k :: 0 <= k < |w| ==> !IsQuote(w[k]) && !IsBlank(w[k])
  }

  predicate HasWord(pieces: seq<Piece>) {
    exists k :: 0 <= k < |pieces| && pieces[k].Word?
  }

  lemma {:induction false} MatchIsQuoteFree(t: string, i: nat, j: nat, pieces: seq<Piece>)
    requires i <= j <= |t| && Matches(t, i, j, pieces) && CleanWords(pieces)
    ensures QuoteFree(t, i, j)
    decreases |pieces|
  {
    if pieces != [] {
      match pieces[0]
      case Word(w) =>
        MatchIsQuoteFree(t, i + |w|, j, pieces[1..]);
        forall k | i <= k < i + |w|
          ensures !IsQuote(t[k])
        {
          assert t[i..i + |w|][k - i] == t[k];
        }
      case Gap(least) =>
        var k: nat :| i + least <= k <= j && AllBlank(t, i, k) && Matches(t, k, j, pieces[1..]);
        MatchIsQuoteFree(t, k, j, pieces[1..]);
      case Boundary =>
        MatchIsQuoteFree(t, i, j, pieces[1..]);
    }
  }

  /** A match with a word in it holds a character that is neither blank nor a quote. */
  lemma {:induction false} MatchHasText(t: string, i: nat, j: nat, pieces: seq<Piece>) returns (at: nat)
    requires i <= j <= |t| && Matches(t, i, j, pieces) && CleanWords(pieces) && HasWord(pieces)
    ensures i <= at < j && !IsQuote(t[at]) && !IsBlank(t[at])
    decreases |pieces|
  {
    match pieces[0]
    case Word(w) =>
      at := i;
      assert t[i..i + |w|][0] == t[i];
    case Gap(least) =>
      var k: nat :| i + least <= k <= j && AllBlank(t, i, k) && Matches(t, k, j, pieces[1..]);
      assert HasWord(pieces[1..]) by { HasWordTail(pieces); }
      at := MatchHasText(t, k, j, pieces[1..]);
    case Boundary =>
      assert HasWord(pieces[1..]) by { HasWordTail(pieces); }
      at := MatchHasText(t, i, j, pieces[1..]);
  }

  lemma HasWordTail(pieces: seq<Piece>)
    requires HasWord(pieces) && !pieces[0].Word?
    ensures HasWord(pieces[1..])
  {
    var k :| 0 <= k < |pieces| && pieces[k].Word?;
    assert pieces[1..][k - 1].Word?;
  }

  predicate SameBoundaries(t: string, u: string, i: nat, j: nat) {
    forall k :: i <= k <= j ==> WordBoundary(t, k) == WordBoundary(u, k)
  }

  lemma {:induction false} MatchDependsOnWindow(t: string, u: string, i: nat, j: nat, pieces: seq<Piece>)
    requires i <= j <= |t| == |u| && t[i..j] == u[i..j] && SameBoundaries(t, u, i, j)
    requires Matches(t, i, j, pieces)
    ensures Matches(u, i, j, pieces)
    decreases |pieces|
  {
    if pieces != [] {
      match pieces[0]
      case Word(w) =>
        assert t[i..i + |w|] == t[i..j][..|w|] == u[i..i + |w|];
        assert t[i + |w|..j] == t[i..j][|w|..] == u[i + |w|..j];
        MatchDependsOnWindow(t, u, i + |w|, j, pieces[1..]);
      case Gap(least) =>
        var k: nat :| i + least <= k <= j && AllBlank(t, i, k) && Matches(t, k, j, pieces[1..]);
        assert t[k..j] == t[i..j][k - i..] == u[k..j];
        MatchDependsOnWindow(t, u, k, j, pieces[1..]);
        forall m | i <= m < k
          ensures IsBlank(u[m])
        {
          assert t[m] == t[i..j][m - i] == u[i..j][m - i] == u[m];
        }
      case Boundary =>
        MatchDependsOnWindow(t, u, i, j, pieces[1..]);
    }
  }

  lemma OutsideWindow(s: string, i: nat, j: nat)
    requires i < j <= |s| == |Stripped(s)| && AllOutside(s, i, j)
    ensures Stripped(s)[i..j] == s[i..j] && SameBoundaries(s, Stripped(s), i, j)
  {
    StrippedPositions(s);
    StrippedEdges(s);
    var mask := OutsideMask(s);
    assert mask[i] && mask[j - 1];
    assert forall k :: i - 1 <= k <= j && 0 <= k < |s| ==> Stripped(s)[k] == s[k];
  }

  lemma StrippedLength(s: string)
    ensures |Stripped(s)| == |s| == |OutsideMask(s)|
  {
    StrippedPositions(s);
  }

  /** A pattern matches the stripped text exactly where it matches the text itself wholly
      outside literals: no match can reach into a literal or span one. */
  lemma StrippedMatch(s: string, i: nat, j: nat, pieces: seq<Piece>)
    requires i <= j <= |s| == |Stripped(s)|
    requires CleanWords(pieces) && HasWord(pieces)
    ensures Matches(Stripped(s), i, j, pieces) <==> Matches(s, i, j, pieces) && AllOutside(s, i, j)
  {
    hide Stripped, OutsideMask;
    StrippedLength(s);
    if Matches(Stripped(s), i, j, pieces) {
      var at := MatchHasText(Stripped(s), i, j, pieces);
      MatchIsQuoteFree(Stripped(s), i, j, pieces);
      assert OutsideMask(s)[at] by { StrippedPositions(s); }
      QuoteFreeWindow(s, i, at, j);
      OutsideWindow(s, i, j);
      MatchDependsOnWindow(Stripped(s), s, i, j, pieces);
    }
    if Matches(s, i, j, pieces) && AllOutside(s, i, j) {
      var at := MatchHasText(s, i, j, pieces);
      OutsideWindow(s, i, j);
      MatchDependsOnWindow(s, Stripped(s), i, j, pieces);
    }
  }
}
