/** What ValidateSQL rejects and accepts, spelled out: the words, phrases and marks themselves,
    in either case, where they stand in the query, without the pattern language. */
module SqlRejections {
  import opened SqlLexer
  import opened SqlStripper
  import opened SqlPatterns
  import opened SqlValidator
  import SqlLiterals

  // ---- Text in either case ----

  /** c is the letter u in either case, or u itself; two letters outside ASCII count as S and K. */
  predicate Like(c: char, u: char) {
    c == u || ('A' <= u <= 'Z' && c == u - 'A' + 'a') ||
    (u == 'S' && c == '\U{017F}') || (u == 'K' && c == '\U{212A}')
  }

  /** The words of the patterns: capitals, digits and punctuation. */
  predicate Capital(u: char) {
    ' ' <= u < 'a'
  }

  predicate Capitals(w: string) {
    forall k :: 0 <= k < |w| ==> Capital(w[k])
  }

  lemma FoldIsLike(c: char, u: char)
    requires Capital(u)
    ensures Fold(c) == u <==> Like(c, u)
  {
  }

  predicate LikeAt(s: string, i: nat, w: string) {
    i + |w| <= |s| && forall k :: 0 <= k < |w| ==> Like(s[i + k], w[k])
  }

  lemma FoldedIsLike(s: string, i: nat, w: string)
    requires Capitals(w) && i + |w| <= |s|
    ensures SameFolded(s[i..i + |w|], w) <==> LikeAt(s, i, w)
  {
    hide Fold, Like;
    forall k | 0 <= k < |w|
      ensures Fold(s[i..i + |w|][k]) == w[k] <==> Like(s[i + k], w[k])
    {
      assert s[i..i + |w|][k] == s[i + k] && Capital(w[k]);
      FoldIsLike(s[i + k], w[k]);
    }
  }

  predicate White(c: char) {
    c in "\t\n\U{000C}\r "
  }

  predicate WhiteBetween(s: string, i: nat, j: nat) {
    i <= j <= |s| && forall k :: i <= k < j ==> White(s[k])
  }

  /** A letter, digit or underscore. */
  predicate Wordy(s: string, k: int) {
    0 <= k < |s| && ('0' <= s[k] <= '9' || 'A' <= s[k] <= 'Z' || 'a' <= s[k] <= 'z' || s[k] == '_')
  }

  predicate Edge(s: string, k: int) {
    Wordy(s, k - 1) != Wordy(s, k)
  }

  // ---- The pieces of a pattern, one at a time ----

  lemma MatchEnd(s: string, i: nat, j: nat)
    requires i <= j <= |s|
    ensures Matches(s, i, j, []) <==> i == j
  {
  }

  lemma MatchWord(s: string, i: nat, j: nat, w: string, rest: seq<Piece>)
    requires i <= j <= |s| && Capitals(w)
    ensures Matches(s, i, j, [Word(w)] + rest) <==> i + |w| <= j && LikeAt(s, i, w) && Matches(s, i + |w|, j, rest)
  {
    assert ([Word(w)] + rest)[1..] == rest;
    if i + |w| <= j {
      FoldedIsLike(s, i, w);
    }
  }

  lemma MatchEdge(s: string, i: nat, j: nat, rest: seq<Piece>)
    requires i <= j <= |s|
    ensures Matches(s, i, j, [Boundary] + rest) <==> Edge(s, i) && Matches(s, i, j, rest)
  {
    assert ([Boundary] + rest)[1..] == rest;
  }

  lemma MatchGap(s: string, i: nat, j: nat, least: nat, rest: seq<Piece>)
    requires i <= j <= |s|
    ensures Matches(s, i, j, [Gap(least)] + rest) <==>
            exists k: nat :: i + least <= k <= j && WhiteBetween(s, i, k) && Matches(s, k, j, rest)
  {
    assert ([Gap(least)] + rest)[1..] == rest;
    forall k: nat | i + least <= k <= j
      ensures AllBlank(s, i, k) <==> WhiteBetween(s, i, k)
    {
    }
    if Matches(s, i, j, [Gap(least)] + rest) {
      var k: nat :| i + least <= k <= j && AllBlank(s, i, k) && Matches(s, k, j, rest);
      assert WhiteBetween(s, i, k);
    }
    if k: nat :| i + least <= k <= j && WhiteBetween(s, i, k) && Matches(s, k, j, rest) {
      assert AllBlank(s, i, k);
    }
  }

  lemma OneChar(s: string, k: nat, c: char)
    requires c == '(' || c == '.'
    ensures LikeAt(s, k, [c]) <==> k < |s| && s[k] == c
  {
    if k < |s| {
      assert s[k + 0] == s[k] && [c][0] == c;
      assert Like(s[k], c) <==> s[k] == c;
    }
  }

  // ---- What each kind of pattern means ----

  /** A function call: the name at i, white space, a parenthesis at k, all outside literals. */
  predicate CallAt(s: string, w: string, i: nat, k: nat) {
    && i + |w| <= k < |s| && Edge(s, i) && LikeAt(s, i, w) && WhiteBetween(s, i + |w|, k) && s[k] == '('
    && AllOutside(s, i, k + 1)
  }

  lemma CallMatches(s: string, w: string, i: nat, j: nat)
    requires i <= j <= |s| && Capitals(w)
    ensures Matches(s, i, j, [Boundary, Word(w), Gap(0), Word("(")]) <==>
            exists k: nat :: i + |w| <= k < |s| && j == k + 1 && Edge(s, i) && LikeAt(s, i, w) &&
                             WhiteBetween(s, i + |w|, k) && s[k] == '('
  {
    hide Matches, LikeAt, Edge, Wordy, WhiteBetween;
    var last := [Word("(")] + [];
    assert [Boundary, Word(w), Gap(0), Word("(")] == [Boundary] + ([Word(w)] + ([Gap(0)] + last));
    MatchEdge(s, i, j, [Word(w)] + ([Gap(0)] + last));
    MatchWord(s, i, j, w, [Gap(0)] + last);
    if i + |w| <= j {
      MatchGap(s, i + |w|, j, 0, last);
      forall k: nat | i + |w| <= k <= j
        ensures Matches(s, k, j, last) <==> k < |s| && j == k + 1 && s[k] == '('
      {
        MatchWord(s, k, j, "(", []);
        OneChar(s, k, '(');
        if k + 1 <= j {
          MatchEnd(s, k + 1, j);
        }
      }
    }
  }

  lemma CallOccurs(s: string, w: string)
    requires Capitals(w)
    ensures Occurs(Call(w), s) <==> exists i: nat, k: nat :: CallAt(s, w, i, k)
  {
    hide Matches, LikeAt, Edge, WhiteBetween, OutsideMask, AllOutside;
    var p := Call(w);
    if Occurs(p, s) {
      var f: nat, i: nat, j: nat :| f < |p.forms| && i <= j <= |s| && OccursAt(p, s, p.forms[f], i, j);
      CallMatches(s, w, i, j);
      var k: nat :| i + |w| <= k < |s| && j == k + 1 && Edge(s, i) && LikeAt(s, i, w) &&
                    WhiteBetween(s, i + |w|, k) && s[k] == '(';
      assert CallAt(s, w, i, k);
    }
    if i: nat, k: nat :| CallAt(s, w, i, k) {
      CallMatches(s, w, i, k + 1);
      assert OccursAt(p, s, p.forms[0], i, k + 1);
    }
  }

  /** Two words with white space between them, the second at k. */
  predicate PhraseAt(s: string, v: string, w: string, i: nat, k: nat) {
    && i + |v| < k && k + |w| <= |s| && Edge(s, i) && LikeAt(s, i, v) && WhiteBetween(s, i + |v|, k)
    && LikeAt(s, k, w) && Edge(s, k + |w|) && AllOutside(s, i, k + |w|)
  }

  lemma WordThenEdge(s: string, k: nat, j: nat, w: string)
    requires k <= j <= |s| && Capitals(w)
    ensures Matches(s, k, j, [Word(w)] + ([Boundary] + [])) <==> j == k + |w| && LikeAt(s, k, w) && Edge(s, j)
  {
    hide Matches, LikeAt, Edge, Wordy;
    MatchWord(s, k, j, w, [Boundary] + []);
    if k + |w| <= j {
      MatchEdge(s, k + |w|, j, []);
      MatchEnd(s, k + |w|, j);
    }
  }

  lemma PhraseMatches(s: string, v: string, w: string, i: nat, j: nat)
    requires i <= j <= |s| && Capitals(v) && Capitals(w)
    ensures Matches(s, i, j, [Boundary, Word(v), Gap(1), Word(w), Boundary]) <==>
            exists k: nat :: i + |v| < k && j == k + |w| && Edge(s, i) && LikeAt(s, i, v) &&
                             WhiteBetween(s, i + |v|, k) && LikeAt(s, k, w) && Edge(s, j)
  {
    hide Matches, LikeAt, Edge, Wordy, WhiteBetween;
    var last := [Word(w)] + ([Boundary] + []);
    assert [Boundary, Word(v), Gap(1), Word(w), Boundary] == [Boundary] + ([Word(v)] + ([Gap(1)] + last));
    MatchEdge(s, i, j, [Word(v)] + ([Gap(1)] + last));
    MatchWord(s, i, j, v, [Gap(1)] + last);
    if i + |v| <= j {
      MatchGap(s, i + |v|, j, 1, last);
      forall k: nat | i + |v| < k <= j
        ensures Matches(s, k, j, last) <==> j == k + |w| && LikeAt(s, k, w) && Edge(s, j)
      {
        WordThenEdge(s, k, j, w);
      }
    }
  }

  lemma PhraseOccurs(s: string, v: string, w: string)
    requires Capitals(v) && Capitals(w)
    ensures Occurs(Phrase(v, w), s) <==> exists i: nat, k: nat :: PhraseAt(s, v, w, i, k)
  {
    hide Matches, LikeAt, Edge, WhiteBetween, OutsideMask, AllOutside;
    var p := Phrase(v, w);
    if Occurs(p, s) {
      var f: nat, i: nat, j: nat :| f < |p.forms| && i <= j <= |s| && OccursAt(p, s, p.forms[f], i, j);
      PhraseMatches(s, v, w, i, j);
      var k: nat :| i + |v| < k && j == k + |w| && Edge(s, i) && LikeAt(s, i, v) &&
                    WhiteBetween(s, i + |v|, k) && LikeAt(s, k, w) && Edge(s, j);
      assert PhraseAt(s, v, w, i, k);
    }
    if i: nat, k: nat :| PhraseAt(s, v, w, i, k) {
      PhraseMatches(s, v, w, i, k + |w|);
      assert OccursAt(p, s, p.forms[0], i, k + |w|);
    }
  }

  /** A schema name, white space, a dot at k and a word after it. */
  predicate SchemaAt(s: string, w: string, i: nat, k: nat) {
    && i + |w| <= k < |s| && Edge(s, i) && LikeAt(s, i, w) && WhiteBetween(s, i + |w|, k) && s[k] == '.' && Edge(s, k + 1)
    && AllOutside(s, i, k + 1)
  }

  lemma SchemaMatches(s: string, w: string, i: nat, j: nat)
    requires i <= j <= |s| && Capitals(w)
    ensures Matches(s, i, j, [Boundary, Word(w), Gap(0), Word("."), Boundary]) <==>
            exists k: nat :: i + |w| <= k < |s| && j == k + 1 && Edge(s, i) && LikeAt(s, i, w) &&
                             WhiteBetween(s, i + |w|, k) && s[k] == '.' && Edge(s, j)
  {
    hide Matches, LikeAt, Edge, Wordy, WhiteBetween;
    var last := [Word(".")] + ([Boundary] + []);
    assert [Boundary, Word(w), Gap(0), Word("."), Boundary] == [Boundary] + ([Word(w)] + ([Gap(0)] + last));
    MatchEdge(s, i, j, [Word(w)] + ([Gap(0)] + last));
    MatchWord(s, i, j, w, [Gap(0)] + last);
    if i + |w| <= j {
      MatchGap(s, i + |w|, j, 0, last);
      forall k: nat | i + |w| <= k <= j
        ensures Matches(s, k, j, last) <==> k < |s| && j == k + 1 && s[k] == '.' && Edge(s, j)
      {
        WordThenEdge(s, k, j, ".");
        OneChar(s, k, '.');
      }
    }
  }

  lemma SchemaOccurs(s: string, w: string)
    requires Capitals(w)
    ensures Occurs(Schema(w), s) <==> exists i: nat, k: nat :: SchemaAt(s, w, i, k)
  {
    hide Matches, LikeAt, Edge, WhiteBetween, OutsideMask, AllOutside;
    var p := Schema(w);
    if Occurs(p, s) {
      var f: nat, i: nat, j: nat :| f < |p.forms| && i <= j <= |s| && OccursAt(p, s, p.forms[f], i, j);
      SchemaMatches(s, w, i, j);
      var k: nat :| i + |w| <= k < |s| && j == k + 1 && Edge(s, i) && LikeAt(s, i, w) &&
                    WhiteBetween(s, i + |w|, k) && s[k] == '.' && Edge(s, j);
      assert SchemaAt(s, w, i, k);
    }
    if i: nat, k: nat :| SchemaAt(s, w, i, k) {
      SchemaMatches(s, w, i, k + 1);
      assert OccursAt(p, s, p.forms[0], i, k + 1);
    }
  }

  /** The query's first word, at k. */
  predicate LeadsAt(s: string, w: string, k: nat) {
    k + |w| <= |s| && WhiteBetween(s, 0, k) && LikeAt(s, k, w) && Edge(s, k + |w|)
  }

  lemma LeadingMatches(s: string, w: string, j: nat)
    requires j <= |s| && Capitals(w)
    ensures Matches(s, 0, j, [Gap(0), Word(w), Boundary]) <==> exists k: nat :: LeadsAt(s, w, k) && j == k + |w|
  {
    hide Matches, LikeAt, Edge, Wordy, WhiteBetween;
    var last := [Word(w)] + ([Boundary] + []);
    assert [Gap(0), Word(w), Boundary] == [Gap(0)] + last;
    MatchGap(s, 0, j, 0, last);
    if Matches(s, 0, j, [Gap(0)] + last) {
      var k: nat :| 0 + 0 <= k <= j && WhiteBetween(s, 0, k) && Matches(s, k, j, last);
      WordThenEdge(s, k, j, w);
      assert LeadsAt(s, w, k);
    }
    if k: nat :| LeadsAt(s, w, k) && j == k + |w| {
      WordThenEdge(s, k, j, w);
    }
  }

  lemma LeadingOccurs(s: string, w: string)
    requires Capitals(w)
    ensures Occurs(Leading(w), s) <==> exists k: nat :: LeadsAt(s, w, k)
  {
    hide Matches, LeadsAt, OutsideMask, AllOutside;
    var p := Leading(w);
    if Occurs(p, s) {
      var f: nat, i: nat, j: nat :| f < |p.forms| && i <= j <= |s| && OccursAt(p, s, p.forms[f], i, j);
      LeadingMatches(s, w, j);
    }
    if k: nat :| LeadsAt(s, w, k) {
      LeadsFits(s, w, k);
      LeadingMatches(s, w, k + |w|);
      assert OccursAt(p, s, p.forms[0], 0, k + |w|);
    }
  }

  lemma LeadsFits(s: string, w: string, k: nat)
    requires LeadsAt(s, w, k)
    ensures k + |w| <= |s|
  {
  }

  /** The query's first two words, at k and m. */
  predicate LeadsWith(s: string, v: string, w: string, k: nat, m: nat) {
    && k + |v| < m && m + |w| <= |s| && WhiteBetween(s, 0, k) && LikeAt(s, k, v) && WhiteBetween(s, k + |v|, m)
    && LikeAt(s, m, w) && Edge(s, m + |w|)
  }

  lemma SecondWord(s: string, v: string, w: string, k: nat, j: nat)
    requires k <= j <= |s| && Capitals(v) && Capitals(w)
    ensures Matches(s, k, j, [Word(v)] + ([Gap(1)] + ([Word(w)] + ([Boundary] + [])))) <==>
            exists m: nat :: k + |v| < m && j == m + |w| && LikeAt(s, k, v) && WhiteBetween(s, k + |v|, m) &&
                             LikeAt(s, m, w) && Edge(s, j)
  {
    hide Matches, LikeAt, Edge, Wordy, WhiteBetween;
    var last := [Word(w)] + ([Boundary] + []);
    MatchWord(s, k, j, v, [Gap(1)] + last);
    if k + |v| <= j {
      MatchGap(s, k + |v|, j, 1, last);
      forall m: nat | k + |v| < m <= j
        ensures Matches(s, m, j, last) <==> j == m + |w| && LikeAt(s, m, w) && Edge(s, j)
      {
        WordThenEdge(s, m, j, w);
      }
    }
  }

  lemma LeadingPhraseOccurs(s: string, v: string, w: string)
    requires Capitals(v) && Capitals(w)
    ensures Occurs(LeadingPhrase(v, w), s) <==> exists k: nat, m: nat :: LeadsWith(s, v, w, k, m)
  {
    hide Matches, LikeAt, Edge, WhiteBetween, OutsideMask, AllOutside;
    var p := LeadingPhrase(v, w);
    var last := [Word(v)] + ([Gap(1)] + ([Word(w)] + ([Boundary] + [])));
    assert p.forms[0] == [Gap(0)] + last;
    if Occurs(p, s) {
      var f: nat, i: nat, j: nat :| f < |p.forms| && i <= j <= |s| && OccursAt(p, s, p.forms[f], i, j);
      MatchGap(s, 0, j, 0, last);
      var k: nat :| 0 <= k <= j && WhiteBetween(s, 0, k) && Matches(s, k, j, last);
      SecondWord(s, v, w, k, j);
      var m: nat :| k + |v| < m && j == m + |w| && LikeAt(s, k, v) && WhiteBetween(s, k + |v|, m) &&
                    LikeAt(s, m, w) && Edge(s, j);
      assert LeadsWith(s, v, w, k, m);
    }
    if k: nat, m: nat :| LeadsWith(s, v, w, k, m) {
      var j := m + |w|;
      SecondWord(s, v, w, k, j);
      MatchGap(s, 0, j, 0, last);
      assert OccursAt(p, s, p.forms[0], 0, j);
    }
  }

  /** SET and what it sets, at k and m; nothing need follow. */
  predicate SetsAt(s: string, what: string, k: nat, m: nat) {
    k + 3 < m && WhiteBetween(s, 0, k) && LikeAt(s, k, "SET") && WhiteBetween(s, k + 3, m) && LikeAt(s, m, what)
  }

  const SET_WHAT := ["GLOBAL", "SESSION", "@@"]

  lemma SetMatches(s: string, what: string, j: nat)
    requires j <= |s| && Capitals(what)
    ensures Matches(s, 0, j, [Gap(0), Word("SET"), Gap(1), Word(what)]) <==>
            exists k: nat, m: nat :: SetsAt(s, what, k, m) && j == m + |what|
  {
    hide Matches, LikeAt, WhiteBetween;
    var last := [Word(what)] + [];
    var word := [Word("SET")] + ([Gap(1)] + last);
    assert [Gap(0), Word("SET"), Gap(1), Word(what)] == [Gap(0)] + word;
    MatchGap(s, 0, j, 0, word);
    if Matches(s, 0, j, [Gap(0)] + word) {
      var k: nat :| 0 + 0 <= k <= j && WhiteBetween(s, 0, k) && Matches(s, k, j, word);
      MatchWord(s, k, j, "SET", [Gap(1)] + last);
      MatchGap(s, k + 3, j, 1, last);
      var m: nat :| k + 3 + 1 <= m <= j && WhiteBetween(s, k + 3, m) && Matches(s, m, j, last);
      LastWord(s, m, j, what);
      assert SetsAt(s, what, k, m);
    }
    if k: nat, m: nat :| SetsAt(s, what, k, m) && j == m + |what| {
      LastWord(s, m, j, what);
      MatchGap(s, k + 3, j, 1, last);
      MatchWord(s, k, j, "SET", [Gap(1)] + last);
    }
  }

  lemma LastWord(s: string, m: nat, j: nat, w: string)
    requires m <= j <= |s| && Capitals(w)
    ensures Matches(s, m, j, [Word(w)] + []) <==> j == m + |w| && LikeAt(s, m, w)
  {
    hide Matches, LikeAt;
    MatchWord(s, m, j, w, []);
    if m + |w| <= j {
      MatchEnd(s, m + |w|, j);
    }
  }

  lemma SetsFits(s: string, what: string, k: nat, m: nat)
    requires SetsAt(s, what, k, m)
    ensures m + |what| <= |s|
  {
  }

  lemma SetOccurs(s: string)
    ensures Occurs(LEADING_SET, s) <==> exists n: nat, k: nat, m: nat :: n < |SET_WHAT| && SetsAt(s, SET_WHAT[n], k, m)
  {
    hide Matches, SetsAt, OutsideMask, AllOutside;
    var p := LEADING_SET;
    assert forall n :: 0 <= n < 3 ==> Capitals(SET_WHAT[n]) && p.forms[n] == [Gap(0), Word("SET"), Gap(1), Word(SET_WHAT[n])];
    if Occurs(p, s) {
      var n: nat, i: nat, j: nat :| n < |p.forms| && i <= j <= |s| && OccursAt(p, s, p.forms[n], i, j);
      SetMatches(s, SET_WHAT[n], j);
    }
    if n: nat, k: nat, m: nat :| n < |SET_WHAT| && SetsAt(s, SET_WHAT[n], k, m) {
      var j := m + |SET_WHAT[n]|;
      SetsFits(s, SET_WHAT[n], k, m);
      SetMatches(s, SET_WHAT[n], j);
      assert OccursAt(p, s, p.forms[n], 0, j);
    }
  }

  /** Words one after the other with white space between them, from i to j. */
  predicate WordsAt(s: string, words: seq<string>, i: nat, j: nat)
    decreases |words|
  {
    if words == [] then i == j
    else if |words| == 1 then LikeAt(s, i, words[0]) && j == i + |words[0]|
    else LikeAt(s, i, words[0]) &&
         exists k: nat :: i + |words[0]| < k <= |s| && WhiteBetween(s, i + |words[0]|, k) && WordsAt(s, words[1..], k, j)
  }

  lemma NextWord(s: string, words: seq<string>, i: nat, j: nat) returns (k: nat)
    requires WordsAt(s, words, i, j) && |words| > 1
    ensures i + |words[0]| < k <= |s| && WhiteBetween(s, i + |words[0]|, k) && WordsAt(s, words[1..], k, j)
    ensures LikeAt(s, i, words[0])
  {
    k :| i + |words[0]| < k <= |s| && WhiteBetween(s, i + |words[0]|, k) && WordsAt(s, words[1..], k, j);
  }

  function Spaced(words: seq<string>, rest: seq<Piece>): seq<Piece> {
    if words == [] then rest
    else if |words| == 1 then [Word(words[0])] + rest
    else [Word(words[0])] + ([Gap(1)] + Spaced(words[1..], rest))
  }

  lemma {:induction false} WordsMatch(s: string, words: seq<string>, i: nat, j: nat)
    requires i <= j <= |s| && words != [] && forall n :: 0 <= n < |words| ==> Capitals(words[n])
    ensures Matches(s, i, j, Spaced(words, [Boundary] + [])) <==> WordsAt(s, words, i, j) && Edge(s, j)
    decreases |words|
  {
    hide Matches, LikeAt, Edge, WhiteBetween;
    var w := words[0];
    if |words| == 1 {
      WordThenEdge(s, i, j, w);
    } else {
      var rest := Spaced(words[1..], [Boundary] + []);
      MatchWord(s, i, j, w, [Gap(1)] + rest);
      if i + |w| <= j {
        MatchGap(s, i + |w|, j, 1, rest);
        forall k: nat | i + |w| < k <= j
          ensures Matches(s, k, j, rest) <==> WordsAt(s, words[1..], k, j) && Edge(s, j)
        {
          WordsMatch(s, words[1..], k, j);
        }
        if Matches(s, i, j, Spaced(words, [Boundary] + [])) {
          var k: nat :| i + |w| + 1 <= k <= j && WhiteBetween(s, i + |w|, k) && Matches(s, k, j, rest);
          assert WordsAt(s, words[1..], k, j);
        }
        if WordsAt(s, words, i, j) && Edge(s, j) {
          var k := NextWord(s, words, i, j);
          WordsAdvance(s, words[1..], k, j);
          assert Matches(s, k, j, rest);
        }
      } else if WordsAt(s, words, i, j) {
        var k := NextWord(s, words, i, j);
        WordsAdvance(s, words[1..], k, j);
      }
    }
  }

  lemma {:induction false} WordsAdvance(s: string, words: seq<string>, i: nat, j: nat)
    requires WordsAt(s, words, i, j)
    ensures i <= j
    decreases |words|
  {
    if |words| > 1 {
      var k: nat :| i + |words[0]| < k <= |s| && WhiteBetween(s, i + |words[0]|, k) && WordsAt(s, words[1..], k, j);
      WordsAdvance(s, words[1..], k, j);
    }
  }

  const LOCK_SHARE := ["LOCK", "IN", "SHARE", "MODE"]

  predicate LocksAt(s: string, i: nat, j: nat) {
    i <= j <= |s| && Edge(s, i) && WordsAt(s, LOCK_SHARE, i, j) && Edge(s, j) && AllOutside(s, i, j)
  }

  lemma LockShareForm()
    ensures LOCKING_READS[2].forms == [[Boundary] + Spaced(LOCK_SHARE, [Boundary] + [])] && !LOCKING_READS[2].anchored
  {
    var end := [Boundary] + [];
    assert Spaced(["MODE"], end) == [Word("MODE")] + end;
    assert ["SHARE", "MODE"][1..] == ["MODE"] && ["IN", "SHARE", "MODE"][1..] == ["SHARE", "MODE"] && LOCK_SHARE[1..] == ["IN", "SHARE", "MODE"];
    assert Spaced(["SHARE", "MODE"], end) == [Word("SHARE")] + ([Gap(1)] + Spaced(["MODE"], end));
    assert Spaced(["IN", "SHARE", "MODE"], end) == [Word("IN")] + ([Gap(1)] + Spaced(["SHARE", "MODE"], end));
    assert Spaced(LOCK_SHARE, end) == [Word("LOCK")] + ([Gap(1)] + Spaced(["IN", "SHARE", "MODE"], end));
    var form := [Boundary, Word("LOCK"), Gap(1), Word("IN"), Gap(1), Word("SHARE"), Gap(1), Word("MODE"), Boundary];
    assert LOCKING_READS[2].forms == [form];
    assert form == [Boundary] + Spaced(LOCK_SHARE, end);
  }

  lemma LockShareOccurs(s: string)
    ensures Occurs(LOCKING_READS[2], s) <==> exists i: nat, j: nat :: LocksAt(s, i, j)
  {
    hide Matches, Edge, WordsAt, OutsideMask, AllOutside, Spaced;
    var p := LOCKING_READS[2];
    LockShareForm();
    var form := [Boundary] + Spaced(LOCK_SHARE, [Boundary] + []);
    assert Capitals(LOCK_SHARE[0]) && Capitals(LOCK_SHARE[1]) && Capitals(LOCK_SHARE[2]) && Capitals(LOCK_SHARE[3]);
    if Occurs(p, s) {
      var f: nat, i: nat, j: nat :| f < |p.forms| && i <= j <= |s| && OccursAt(p, s, p.forms[f], i, j);
      assert p.forms[f] == form;
      MatchEdge(s, i, j, Spaced(LOCK_SHARE, [Boundary] + []));
      WordsMatch(s, LOCK_SHARE, i, j);
      assert LocksAt(s, i, j);
    }
    if i: nat, j: nat :| LocksAt(s, i, j) {
      MatchEdge(s, i, j, Spaced(LOCK_SHARE, [Boundary] + []));
      WordsMatch(s, LOCK_SHARE, i, j);
      assert OccursAt(p, s, p.forms[0], i, j);
    }
  }

  // ---- The lists ----

  const CALLS := ["LOAD_FILE", "SLEEP", "BENCHMARK", "GET_LOCK", "RELEASE_LOCK", "IS_FREE_LOCK", "IS_USED_LOCK"]

  const PHRASES := [("INTO", "OUTFILE"), ("INTO", "DUMPFILE"), ("LOAD", "DATA"), ("FOR", "UPDATE"), ("FOR", "SHARE")]

  const LEADS := [
    "CREATE", "ALTER", "DROP", "TRUNCATE", "RENAME", "INSERT", "UPDATE", "DELETE", "REPLACE", "GRANT", "REVOKE",
    "FLUSH", "RESET", "KILL", "SHUTDOWN", "BEGIN", "COMMIT", "ROLLBACK", "SAVEPOINT", "PREPARE", "EXECUTE",
    "DEALLOCATE", "CALL"
  ]

  const LEADING_PAIRS := [("LOCK", "TABLES"), ("UNLOCK", "TABLES"), ("START", "TRANSACTION")]

  const COMMENTS := ["--", "/*", "#"]

  const DIAGNOSTIC_SCHEMAS := ["INFORMATION_SCHEMA", "PERFORMANCE_SCHEMA", "SYS"]

  ghost predicate BlockedCall(s: string) {
    exists n: nat, i: nat, k: nat :: n < |CALLS| && CallAt(s, CALLS[n], i, k)
  }

  ghost predicate BlockedPhrase(s: string) {
    exists n: nat, i: nat, k: nat :: n < |PHRASES| && PhraseAt(s, PHRASES[n].0, PHRASES[n].1, i, k)
  }

  ghost predicate BlockedShareLock(s: string) {
    exists i: nat, j: nat :: LocksAt(s, i, j)
  }

  ghost predicate BlockedLead(s: string) {
    exists n: nat, k: nat :: n < |LEADS| && LeadsAt(s, LEADS[n], k)
  }

  ghost predicate BlockedLeadingPair(s: string) {
    exists n: nat, k: nat, m: nat :: n < |LEADING_PAIRS| && LeadsWith(s, LEADING_PAIRS[n].0, LEADING_PAIRS[n].1, k, m)
  }

  ghost predicate BlockedSet(s: string) {
    exists n: nat, k: nat, m: nat :: n < |SET_WHAT| && SetsAt(s, SET_WHAT[n], k, m)
  }

  ghost predicate BlockedComment(s: string) {
    exists n: nat, i: nat :: n < |COMMENTS| && StandsAt(s, i, COMMENTS[n])
  }

  ghost predicate BlockedSchema(s: string, allowSystemSchemas: bool) {
    (exists i: nat, k: nat :: SchemaAt(s, "MYSQL", i, k)) ||
    (!allowSystemSchemas && exists n: nat, i: nat, k: nat :: n < |DIAGNOSTIC_SCHEMAS| && SchemaAt(s, DIAGNOSTIC_SCHEMAS[n], i, k))
  }

  /** What may not stand in a query. */
  ghost predicate Blocked(s: string, allowSystemSchemas: bool) {
    BlockedCall(s) || BlockedPhrase(s) || BlockedShareLock(s) || BlockedLead(s) || BlockedLeadingPair(s) || BlockedSet(s) ||
    BlockedComment(s) || BlockedSchema(s, allowSystemSchemas)
  }

  predicate AnyOccurs(ps: seq<Pattern>, s: string) {
    exists k :: 0 <= k < |ps| && Occurs(ps[k], s)
  }

  lemma AnyOfTwo(ps: seq<Pattern>, qs: seq<Pattern>, s: string)
    ensures AnyOccurs(ps + qs, s) <==> AnyOccurs(ps, s) || AnyOccurs(qs, s)
  {
    hide Occurs;
    if k :| 0 <= k < |ps| && Occurs(ps[k], s) {
      assert (ps + qs)[k] == ps[k];
    }
    if k :| 0 <= k < |qs| && Occurs(qs[k], s) {
      assert (ps + qs)[|ps| + k] == qs[k];
    }
  }

  /** A list of patterns of one kind. */
  lemma AnyCall(ps: seq<Pattern>, ws: seq<string>, s: string)
    requires |ps| == |ws| && forall n :: 0 <= n < |ps| ==> ps[n] == Call(ws[n]) && Capitals(ws[n])
    ensures AnyOccurs(ps, s) <==> exists n: nat, i: nat, k: nat :: n < |ws| && CallAt(s, ws[n], i, k)
  {
    hide Occurs, CallAt, Call, Capitals;
    forall n | 0 <= n < |ps|
      ensures Occurs(ps[n], s) <==> exists i: nat, k: nat :: CallAt(s, ws[n], i, k)
    {
      CallOccurs(s, ws[n]);
    }
  }

  lemma AnyPhrase(ps: seq<Pattern>, ws: seq<(string, string)>, s: string)
    requires |ps| == |ws| && forall n :: 0 <= n < |ps| ==> ps[n] == Phrase(ws[n].0, ws[n].1) && Capitals(ws[n].0) && Capitals(ws[n].1)
    ensures AnyOccurs(ps, s) <==> exists n: nat, i: nat, k: nat :: n < |ws| && PhraseAt(s, ws[n].0, ws[n].1, i, k)
  {
    hide Occurs, PhraseAt, Phrase, Capitals;
    forall n | 0 <= n < |ps|
      ensures Occurs(ps[n], s) <==> exists i: nat, k: nat :: PhraseAt(s, ws[n].0, ws[n].1, i, k)
    {
      PhraseOccurs(s, ws[n].0, ws[n].1);
    }
  }

  lemma AnyLeading(ps: seq<Pattern>, ws: seq<string>, s: string)
    requires |ps| == |ws| && forall n :: 0 <= n < |ps| ==> ps[n] == Leading(ws[n]) && Capitals(ws[n])
    ensures AnyOccurs(ps, s) <==> exists n: nat, k: nat :: n < |ws| && LeadsAt(s, ws[n], k)
  {
    hide Occurs, LeadsAt, Leading, Capitals;
    forall n | 0 <= n < |ps|
      ensures Occurs(ps[n], s) <==> exists k: nat :: LeadsAt(s, ws[n], k)
    {
      LeadingOccurs(s, ws[n]);
    }
  }

  lemma AnyLeadingPair(ps: seq<Pattern>, ws: seq<(string, string)>, s: string)
    requires |ps| == |ws|
    requires forall n :: 0 <= n < |ps| ==> ps[n] == LeadingPhrase(ws[n].0, ws[n].1) && Capitals(ws[n].0) && Capitals(ws[n].1)
    ensures AnyOccurs(ps, s) <==> exists n: nat, k: nat, m: nat :: n < |ws| && LeadsWith(s, ws[n].0, ws[n].1, k, m)
  {
    hide Occurs, LeadsWith, LeadingPhrase, Capitals;
    forall n | 0 <= n < |ps|
      ensures Occurs(ps[n], s) <==> exists k: nat, m: nat :: LeadsWith(s, ws[n].0, ws[n].1, k, m)
    {
      LeadingPhraseOccurs(s, ws[n].0, ws[n].1);
    }
  }

  lemma AnySchema(ps: seq<Pattern>, ws: seq<string>, s: string)
    requires |ps| == |ws| && forall n :: 0 <= n < |ps| ==> ps[n] == Schema(ws[n]) && Capitals(ws[n])
    ensures AnyOccurs(ps, s) <==> exists n: nat, i: nat, k: nat :: n < |ws| && SchemaAt(s, ws[n], i, k)
  {
    hide Occurs, SchemaAt, Schema, Capitals;
    forall n | 0 <= n < |ps|
      ensures Occurs(ps[n], s) <==> exists i: nat, k: nat :: SchemaAt(s, ws[n], i, k)
    {
      SchemaOccurs(s, ws[n]);
    }
  }

  lemma AnyCut(ps: seq<Pattern>, k: nat, s: string)
    requires k <= |ps|
    ensures AnyOccurs(ps, s) <==> AnyOccurs(ps[..k], s) || AnyOccurs(ps[k..], s)
  {
    hide AnyOccurs;
    assert ps == ps[..k] + ps[k..];
    AnyOfTwo(ps[..k], ps[k..], s);
  }

  lemma AnyOne(p: Pattern, s: string)
    ensures AnyOccurs([p], s) <==> Occurs(p, s)
  {
    hide Occurs;
    if Occurs(p, s) {
      assert [p][0] == p;
    }
  }

  lemma CallsMean(s: string)
    ensures AnyOccurs(FILES[..1], s) || AnyOccurs(FUNCTIONS, s) <==> BlockedCall(s)
  {
    hide Occurs, AnyOccurs;
    AnyOfTwo(FILES[..1], FUNCTIONS, s);
    var ps := FILES[..1] + FUNCTIONS;
    CallWords();
    AnyCall(ps, CALLS, s);
  }

  lemma CallWords()
    ensures var ps := FILES[..1] + FUNCTIONS;
            |ps| == |CALLS| && forall n :: 0 <= n < |ps| ==> ps[n] == Call(CALLS[n]) && Capitals(CALLS[n])
  {
    hide Call;
    assert Capitals(CALLS[0]) && Capitals(CALLS[1]) && Capitals(CALLS[2]) && Capitals(CALLS[3]);
    assert Capitals(CALLS[4]) && Capitals(CALLS[5]) && Capitals(CALLS[6]);
  }

  lemma PhrasesMean(s: string)
    ensures AnyOccurs(FILES[1..], s) || AnyOccurs(LOCKING_READS[..2], s) <==> BlockedPhrase(s)
  {
    hide Occurs, AnyOccurs;
    AnyOfTwo(FILES[1..], LOCKING_READS[..2], s);
    PhraseWords();
    AnyPhrase(FILES[1..] + LOCKING_READS[..2], PHRASES, s);
  }

  lemma PhraseWords()
    ensures var ps := FILES[1..] + LOCKING_READS[..2];
            |ps| == |PHRASES| &&
            forall n :: 0 <= n < |ps| ==> ps[n] == Phrase(PHRASES[n].0, PHRASES[n].1) && Capitals(PHRASES[n].0) && Capitals(PHRASES[n].1)
  {
    hide Phrase;
    assert Capitals("INTO") && Capitals("OUTFILE") && Capitals("DUMPFILE") && Capitals("LOAD") && Capitals("DATA");
    assert Capitals("FOR") && Capitals("UPDATE") && Capitals("SHARE");
  }

  lemma LeadsMean(s: string)
    ensures AnyOccurs(STATEMENTS[..11], s) || AnyOccurs(STATEMENTS[12..16], s) || AnyOccurs(MORE_STATEMENTS[2..], s) <==>
            BlockedLead(s)
  {
    hide Occurs, AnyOccurs;
    AnyOfTwo(STATEMENTS[..11], STATEMENTS[12..16], s);
    AnyOfTwo(STATEMENTS[..11] + STATEMENTS[12..16], MORE_STATEMENTS[2..], s);
    LeadWords();
    LeadCapitals();
    AnyLeading(STATEMENTS[..11] + STATEMENTS[12..16] + MORE_STATEMENTS[2..], LEADS, s);
  }

  lemma LeadWords()
    ensures var ps := STATEMENTS[..11] + STATEMENTS[12..16] + MORE_STATEMENTS[2..];
            |ps| == |LEADS| && forall n :: 0 <= n < |ps| ==> ps[n] == Leading(LEADS[n])
  {
    hide Leading, LeadingPhrase;
  }

  lemma LeadCapitals()
    ensures forall n :: 0 <= n < |LEADS| ==> Capitals(LEADS[n])
  {
    hide Capitals;
    ChangeCapitals();
    AdminCapitals();
    SessionCapitals();
  }

  lemma ChangeCapitals()
    ensures Capitals("CREATE") && Capitals("ALTER") && Capitals("DROP") && Capitals("TRUNCATE") && Capitals("RENAME")
    ensures Capitals("INSERT") && Capitals("UPDATE") && Capitals("DELETE") && Capitals("REPLACE")
  {
  }

  lemma AdminCapitals()
    ensures Capitals("GRANT") && Capitals("REVOKE") && Capitals("FLUSH") && Capitals("RESET") && Capitals("KILL")
    ensures Capitals("SHUTDOWN")
  {
  }

  lemma SessionCapitals()
    ensures Capitals("BEGIN") && Capitals("COMMIT") && Capitals("ROLLBACK") && Capitals("SAVEPOINT") && Capitals("PREPARE")
    ensures Capitals("EXECUTE") && Capitals("DEALLOCATE") && Capitals("CALL")
  {
  }

  lemma LeadingPairsMean(s: string)
    ensures AnyOccurs(STATEMENTS[16..], s) || AnyOccurs(MORE_STATEMENTS[..2], s) <==> BlockedLeadingPair(s)
  {
    hide Occurs, AnyOccurs;
    AnyOfTwo(STATEMENTS[16..], MORE_STATEMENTS[..2], s);
    LeadingPairWords();
    AnyLeadingPair(STATEMENTS[16..] + MORE_STATEMENTS[..2], LEADING_PAIRS, s);
  }

  lemma LeadingPairWords()
    ensures var ps := STATEMENTS[16..] + MORE_STATEMENTS[..2];
            |ps| == |LEADING_PAIRS| &&
            forall n :: 0 <= n < |ps| ==> ps[n] == LeadingPhrase(LEADING_PAIRS[n].0, LEADING_PAIRS[n].1) &&
                                          Capitals(LEADING_PAIRS[n].0) && Capitals(LEADING_PAIRS[n].1)
  {
    hide Leading, LeadingPhrase;
    assert Capitals("LOCK") && Capitals("TABLES") && Capitals("UNLOCK") && Capitals("START") && Capitals("TRANSACTION");
  }

  lemma CommentsMean(s: string)
    ensures AnyOccurs([DASHES, SLASH_STAR, HASH], s) <==> BlockedComment(s)
  {
    hide Occurs, StandsAt;
    MarkerOccurs("--", "--", s);
    MarkerOccurs("/\\*", "/*", s);
    MarkerOccurs("#", "#", s);
    assert DASHES == Marker("--", "--") && SLASH_STAR == Marker("/\\*", "/*") && HASH == Marker("#", "#");
    var ps := [DASHES, SLASH_STAR, HASH];
    assert ps[0] == DASHES && ps[1] == SLASH_STAR && ps[2] == HASH;
    assert COMMENTS[0] == "--" && COMMENTS[1] == "/*" && COMMENTS[2] == "#";
    if AnyOccurs(ps, s) {
      var n :| 0 <= n < |ps| && Occurs(ps[n], s);
      var i: nat :| StandsAt(s, i, COMMENTS[n]);
      assert BlockedComment(s);
    }
    if n: nat, i: nat :| n < |COMMENTS| && StandsAt(s, i, COMMENTS[n]) {
      assert Occurs(ps[n], s);
    }
  }

  lemma SchemasMean(s: string, allowSystemSchemas: bool)
    ensures AnyOccurs([Schema("MYSQL")], s) || (!allowSystemSchemas && AnyOccurs(SYSTEM_SCHEMAS, s)) <==>
            BlockedSchema(s, allowSystemSchemas)
  {
    hide Occurs, SchemaAt, Schema;
    assert Capitals("MYSQL");
    AnyOne(Schema("MYSQL"), s);
    SchemaOccurs(s, "MYSQL");
    SchemaWords();
    AnySchema(SYSTEM_SCHEMAS, DIAGNOSTIC_SCHEMAS, s);
    hide AnyOccurs;
  }

  lemma SchemaWords()
    ensures |SYSTEM_SCHEMAS| == |DIAGNOSTIC_SCHEMAS|
    ensures forall n :: 0 <= n < |SYSTEM_SCHEMAS| ==> SYSTEM_SCHEMAS[n] == Schema(DIAGNOSTIC_SCHEMAS[n]) && Capitals(DIAGNOSTIC_SCHEMAS[n])
  {
    hide Schema;
    assert Capitals("INFORMATION_SCHEMA") && Capitals("PERFORMANCE_SCHEMA") && Capitals("SYS");
  }

  lemma StatementsMean(s: string)
    ensures AnyOccurs(STATEMENTS, s) || AnyOccurs(MORE_STATEMENTS, s) <==> BlockedLead(s) || BlockedLeadingPair(s) || BlockedSet(s)
  {
    hide AnyOccurs, Occurs, BlockedLead, BlockedLeadingPair, BlockedSet, Leading, LeadingPhrase;
    AnyCut(STATEMENTS, 11, s);
    AnyCut(STATEMENTS[11..], 1, s);
    AnyCut(STATEMENTS[12..], 4, s);
    AnyCut(MORE_STATEMENTS, 2, s);
    assert STATEMENTS[11..][..1] == [LEADING_SET] && STATEMENTS[11..][1..] == STATEMENTS[12..];
    assert STATEMENTS[12..][..4] == STATEMENTS[12..16] && STATEMENTS[12..][4..] == STATEMENTS[16..];
    AnyOne(LEADING_SET, s);
    SetMeans(s);
    LeadsMean(s);
    LeadingPairsMean(s);
  }

  lemma SetMeans(s: string)
    ensures Occurs(LEADING_SET, s) <==> BlockedSet(s)
  {
    SetOccurs(s);
  }

  lemma LockingReadsMean(s: string)
    ensures AnyOccurs(FILES, s) || AnyOccurs(LOCKING_READS, s) || AnyOccurs(FUNCTIONS, s) <==>
            BlockedCall(s) || BlockedPhrase(s) || BlockedShareLock(s)
  {
    hide AnyOccurs, Occurs, BlockedCall, BlockedPhrase;
    AnyCut(FILES, 1, s);
    AnyCut(LOCKING_READS, 2, s);
    assert LOCKING_READS[2..] == [LOCKING_READS[2]];
    AnyOne(LOCKING_READS[2], s);
    LockShareOccurs(s);
    CallsMean(s);
    PhrasesMean(s);
  }

  lemma BlockedListMeans(s: string)
    ensures AnyOccurs(BLOCKED, s) <==> AnyOccurs(FILES, s) || AnyOccurs(STATEMENTS, s) || AnyOccurs(LOCKING_READS, s) ||
                                       AnyOccurs(MORE_STATEMENTS, s) || AnyOccurs(FUNCTIONS, s) ||
                                       AnyOccurs([DASHES, SLASH_STAR, HASH], s) || AnyOccurs([Schema("MYSQL")], s)
  {
    hide AnyOccurs, FILES, STATEMENTS, LOCKING_READS, MORE_STATEMENTS, FUNCTIONS, DASHES, SLASH_STAR, HASH, Schema;
    var last := [DASHES, SLASH_STAR, HASH, Schema("MYSQL")];
    assert last == [DASHES, SLASH_STAR, HASH] + [Schema("MYSQL")];
    AnyOfTwo([DASHES, SLASH_STAR, HASH], [Schema("MYSQL")], s);
    AnyOfTwo(FILES, STATEMENTS, s);
    AnyOfTwo(FILES + STATEMENTS, LOCKING_READS, s);
    AnyOfTwo(FILES + STATEMENTS + LOCKING_READS, MORE_STATEMENTS, s);
    AnyOfTwo(FILES + STATEMENTS + LOCKING_READS + MORE_STATEMENTS, FUNCTIONS, s);
    AnyOfTwo(FILES + STATEMENTS + LOCKING_READS + MORE_STATEMENTS + FUNCTIONS, last, s);
  }

  /** The pattern lists block exactly these words, phrases and marks. */
  lemma PatternsMean(s: string, allowSystemSchemas: bool)
    ensures NoneOccurs(Patterns(allowSystemSchemas), s) <==> !Blocked(s, allowSystemSchemas)
  {
    hide Occurs, BLOCKED, SYSTEM_SCHEMAS;
    hide BlockedCall, BlockedPhrase, BlockedShareLock, BlockedLead, BlockedLeadingPair, BlockedSet, BlockedComment, BlockedSchema;
    assert NoneOccurs(Patterns(allowSystemSchemas), s) <==> !AnyOccurs(Patterns(allowSystemSchemas), s);
    hide AnyOccurs, NoneOccurs;
    AnyOfTwo(BLOCKED, SYSTEM_SCHEMAS, s);
    BlockedListMeans(s);
    StatementsMean(s);
    LockingReadsMean(s);
    CommentsMean(s);
    SchemasMean(s, allowSystemSchemas);
  }

  // ---- The verdict ----

  /** Reading statements start with one of these, in either case; two letters outside ASCII count
      as I and S. */
  const READING := ["SELECT", "SHOW", "DESC", "EXPLAIN"]

  predicate CapitalOf(c: char, u: char) {
    c == u || ('A' <= u <= 'Z' && c == u - 'A' + 'a') || (u == 'I' && c == '\U{0131}') || (u == 'S' && c == '\U{017F}')
  }

  predicate Begins(s: string, w: string) {
    |w| <= |s| && forall k :: 0 <= k < |w| ==> CapitalOf(s[k], w[k])
  }

  predicate Reads(s: string) {
    exists n :: 0 <= n < |READING| && Begins(s, READING[n])
  }

  lemma UpperIsCapital(c: char, u: char)
    requires 'A' <= u <= 'Z'
    ensures Upper(c) == u <==> CapitalOf(c, u)
  {
  }

  lemma BeginsIsStartsWith(s: string, w: string)
    requires forall k :: 0 <= k < |w| ==> 'A' <= w[k] <= 'Z'
    ensures StartsWith(s, w) <==> Begins(s, w)
  {
    hide Upper, CapitalOf;
    if |w| <= |s| {
      forall k | 0 <= k < |w|
        ensures Upper(s[k]) == w[k] <==> CapitalOf(s[k], w[k])
      {
        UpperIsCapital(s[k], w[k]);
      }
    }
  }

  lemma ReadsIsReadOnly(s: string)
    ensures ReadOnly(s) <==> Reads(s)
  {
    hide StartsWith, Begins;
    BeginsIsStartsWith(s, "SELECT");
    BeginsIsStartsWith(s, "SHOW");
    BeginsIsStartsWith(s, "DESC");
    BeginsIsStartsWith(s, "DESCRIBE");
    BeginsIsStartsWith(s, "EXPLAIN");
    DescribeIsDesc(s);
    assert ALLOWED_PREFIXES[0] == READING[0] && ALLOWED_PREFIXES[1] == READING[1] && ALLOWED_PREFIXES[3] == READING[2];
    assert ALLOWED_PREFIXES[2] == "DESCRIBE" && ALLOWED_PREFIXES[4] == READING[3];
  }

  lemma DescribeIsDesc(s: string)
    ensures Begins(s, "DESCRIBE") ==> Begins(s, "DESC")
  {
    hide CapitalOf;
    assert "DESC" == "DESCRIBE"[..4];
  }

  /** ValidateSQL accepts a query exactly when it is not empty, is one statement, has none of the
      blocked words, phrases and marks where they count, and starts by reading. */
  lemma AcceptedIff(s: string, allowSystemSchemas: bool, v: Verdict)
    requires Decides(s, Patterns(allowSystemSchemas), v)
    ensures v == Accepted <==> s != "" && !SeparatesStatements(s) && !Blocked(s, allowSystemSchemas) && Reads(s)
  {
    hide Patterns, SeparatesStatements, Blocked, Reads, ReadOnly;
    PatternsMean(s, allowSystemSchemas);
    ReadsIsReadOnly(s);
    FirstIsSome(Patterns(allowSystemSchemas), s);
    hide NoneOccurs, FirstOccurring;
  }

  lemma FirstIsSome(ps: seq<Pattern>, s: string)
    ensures forall text :: FirstOccurring(ps, s, text) ==> !NoneOccurs(ps, s)
  {
    hide Occurs;
  }

  /** A statement after an identifier in backticks is seen, whatever the identifier ends with. */
  lemma StatementAfterIdentifierIsSeen(before: string, identifier: string, rest: string)
    requires forall k :: 0 <= k < |before| ==> !SqlLiterals.AnyQuote(before[k])
    requires '`' !in identifier && (rest == [] || rest[0] != '`') && SeparatesStatements(rest)
    ensures SeparatesStatements(before + (['`'] + identifier + ['`'] + rest))
  {
    hide OutsideMask, Stripped;
    var quoted := ['`'] + identifier + ['`'];
    SqlLiterals.BacktickLiteralEnds(identifier, rest);
    SqlLiterals.PlainText(before, quoted + rest);
    Shifted(quoted, rest, SqlLiterals.Insides(|identifier| + 2));
    Shifted(before, quoted + rest, SqlLiterals.Outsides(|before|));
  }

  lemma Shifted(head: string, rest: string, mask: seq<bool>)
    requires |mask| == |head| && OutsideMask(head + rest) == mask + OutsideMask(rest) && SeparatesStatements(rest)
    ensures SeparatesStatements(head + rest)
  {
    hide OutsideMask;
    OutsideLength(rest);
    OutsideLength(head + rest);
    var i: nat, j: nat :| i < j < |rest| && OutsideAt(rest, i) && rest[i] == ';' && !(OutsideAt(rest, j) && rest[j] in "; \t\n\r");
    var m, n := |head| + i, |head| + j;
    var text := head + rest;
    assert text[m] == rest[i] && text[n] == rest[j];
    assert OutsideMask(text)[m] == OutsideMask(rest)[i] && OutsideMask(text)[n] == OutsideMask(rest)[j];
    assert OutsideAt(text, m) && !(OutsideAt(text, n) && text[n] in "; \t\n\r");
  }
}
