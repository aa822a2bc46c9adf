/** ValidateSQL: its loops over the pattern lists, and the verdict stated on the query itself
    instead of on the stripped text. */
module SqlValidator {
  import opened SqlLexer
  import opened SqlStripper
  import opened SqlPatterns
  import Text

  // ---- The lists ----

  function Call(w: string): Pattern {
    Pattern("(?i)\\b" + w + "\\s*\\(", false, [[Boundary, Word(w), Gap(0), Word("(")]])
  }

  function Phrase(v: string, w: string): Pattern {
    Pattern("(?i)\\b" + v + "\\s+" + w + "\\b", false, [[Boundary, Word(v), Gap(1), Word(w), Boundary]])
  }

  function Schema(w: string): Pattern {
    Pattern("(?i)\\b" + w + "\\s*\\.\\b", false, [[Boundary, Word(w), Gap(0), Word("."), Boundary]])
  }

  function Marker(text: string, w: string): Pattern {
    Pattern(text, false, [[Word(w)]])
  }

  function Leading(w: string): Pattern {
    Pattern("(?i)^\\s*" + w + "\\b", true, [[Gap(0), Word(w), Boundary]])
  }

  function LeadingPhrase(v: string, w: string): Pattern {
    Pattern("(?i)^\\s*" + v + "\\s+" + w + "\\b", true, [[Gap(0), Word(v), Gap(1), Word(w), Boundary]])
  }

  const DASHES := Marker("--", "--")
  const SLASH_STAR := Marker("/\\*", "/*")
  const HASH := Marker("#", "#")

  const FILES := [Call("LOAD_FILE"), Phrase("INTO", "OUTFILE"), Phrase("INTO", "DUMPFILE"), Phrase("LOAD", "DATA")]

  const STATEMENTS := [
    Leading("CREATE"), Leading("ALTER"), Leading("DROP"), Leading("TRUNCATE"), Leading("RENAME"),
    Leading("INSERT"), Leading("UPDATE"), Leading("DELETE"), Leading("REPLACE"),
    Leading("GRANT"), Leading("REVOKE"), LEADING_SET, Leading("FLUSH"), Leading("RESET"), Leading("KILL"),
    Leading("SHUTDOWN"), LeadingPhrase("LOCK", "TABLES")
  ]

  const LEADING_SET := Pattern("(?i)^\\s*SET\\s+(GLOBAL|SESSION|@@)", true,
    [[Gap(0), Word("SET"), Gap(1), Word("GLOBAL")],
     [Gap(0), Word("SET"), Gap(1), Word("SESSION")],
     [Gap(0), Word("SET"), Gap(1), Word("@@")]])

  const LOCKING_READS := [
    Phrase("FOR", "UPDATE"), Phrase("FOR", "SHARE"),
    Pattern("(?i)\\bLOCK\\s+IN\\s+SHARE\\s+MODE\\b", false,
      [[Boundary, Word("LOCK"), Gap(1), Word("IN"), Gap(1), Word("SHARE"), Gap(1), Word("MODE"), Boundary]])
  ]

  const MORE_STATEMENTS := [
    LeadingPhrase("UNLOCK", "TABLES"), LeadingPhrase("START", "TRANSACTION"), Leading("BEGIN"),
    Leading("COMMIT"), Leading("ROLLBACK"), Leading("SAVEPOINT"), Leading("PREPARE"), Leading("EXECUTE"),
    Leading("DEALLOCATE"), Leading("CALL")
  ]

  const FUNCTIONS := [
    Call("SLEEP"), Call("BENCHMARK"), Call("GET_LOCK"), Call("RELEASE_LOCK"), Call("IS_FREE_LOCK"),
    Call("IS_USED_LOCK")
  ]

  const BLOCKED: seq<Pattern> :=
    FILES + STATEMENTS + LOCKING_READS + MORE_STATEMENTS + FUNCTIONS + [DASHES, SLASH_STAR, HASH, Schema("MYSQL")]

  const SYSTEM_SCHEMAS: seq<Pattern> := [Schema("INFORMATION_SCHEMA"), Schema("PERFORMANCE_SCHEMA"), Schema("SYS")]

  function Patterns(allowSystemSchemas: bool): seq<Pattern> {
    if allowSystemSchemas then BLOCKED else BLOCKED + SYSTEM_SCHEMAS
  }

  const ALLOWED_PREFIXES := ["SELECT", "SHOW", "DESCRIBE", "DESC", "EXPLAIN"]

  /** Every unanchored pattern has a word, and its words hold no quote and no white space. */
  predicate CleanPattern(p: Pattern) {
    !p.anchored ==> forall k :: 0 <= k < |p.forms| ==> CleanWords(p.forms[k]) && HasWord(p.forms[k])
  }

  lemma CleanCall(w: string)
    requires CleanWord(w)
    ensures CleanPattern(Call(w))
  {
    var form := [Boundary, Word(w), Gap(0), Word("(")];
    assert form[1].Word?;
  }

  lemma CleanPhrase(v: string, w: string)
    requires CleanWord(v) && CleanWord(w)
    ensures CleanPattern(Phrase(v, w))
  {
    var form := [Boundary, Word(v), Gap(1), Word(w), Boundary];
    assert form[1].Word?;
  }

  lemma CleanSchema(w: string)
    requires CleanWord(w)
    ensures CleanPattern(Schema(w))
  {
    var form := [Boundary, Word(w), Gap(0), Word("."), Boundary];
    assert form[1].Word?;
  }

  lemma CleanMarker(text: string, w: string)
    requires CleanWord(w)
    ensures CleanPattern(Marker(text, w))
  {
    var form := [Word(w)];
    assert form[0].Word?;
  }

  predicate AllClean(ps: seq<Pattern>) {
    forall k :: 0 <= k < |ps| ==> CleanPattern(ps[k])
  }

  lemma CleanFiles()
    ensures AllClean(FILES)
  {
    CleanCall("LOAD_FILE");
    CleanPhrase("INTO", "OUTFILE");
    CleanPhrase("INTO", "DUMPFILE");
    CleanPhrase("LOAD", "DATA");
  }

  lemma CleanLockingReads()
    ensures AllClean(LOCKING_READS)
  {
    CleanPhrase("FOR", "UPDATE");
    CleanPhrase("FOR", "SHARE");
    assert LOCKING_READS[2].forms[0][1].Word?;
  }

  lemma CleanFunctions()
    ensures AllClean(FUNCTIONS)
  {
    CleanCall("SLEEP");
    CleanCall("BENCHMARK");
    CleanCall("GET_LOCK");
    CleanCall("RELEASE_LOCK");
    CleanCall("IS_FREE_LOCK");
    CleanCall("IS_USED_LOCK");
  }

  lemma CleanMarkers()
    ensures AllClean([DASHES, SLASH_STAR, HASH, Schema("MYSQL")])
  {
    CleanMarker("--", "--");
    CleanMarker("/\\*", "/*");
    CleanMarker("#", "#");
    CleanSchema("MYSQL");
  }

  lemma CleanSystemSchemas()
    ensures AllClean(SYSTEM_SCHEMAS)
  {
    CleanSchema("INFORMATION_SCHEMA");
    CleanSchema("PERFORMANCE_SCHEMA");
    CleanSchema("SYS");
  }

  lemma CleanStatements()
    ensures AllClean(STATEMENTS) && AllClean(MORE_STATEMENTS)
  {
    assert forall k :: 0 <= k < |STATEMENTS| ==> STATEMENTS[k].anchored;
    assert forall k :: 0 <= k < |MORE_STATEMENTS| ==> MORE_STATEMENTS[k].anchored;
  }

  lemma CleanLists(allowSystemSchemas: bool)
    ensures AllClean(Patterns(allowSystemSchemas))
  {
    hide CleanPattern;
    CleanFiles();
    CleanLockingReads();
    CleanFunctions();
    CleanMarkers();
    CleanSystemSchemas();
    CleanStatements();
  }

  // ---- What is rejected, on the query itself ----

  predicate EndsStatement(c: char) {
    c == ';' || c == ' ' || c == '\t' || c == '\n' || c == '\r'
  }

  predicate OutsideAt(s: string, k: nat)
    requires k < |s|
  {
    OutsideLength(s);
    OutsideMask(s)[k]
  }

  /** A ';' outside literals with something after it other than ';' and white space outside
      literals. */
  predicate SeparatesStatements(s: string) {
    exists i: nat, j: nat :: i < j < |s| && OutsideAt(s, i) && s[i] == ';' && !(OutsideAt(s, j) && s[j] in "; \t\n\r")
  }

  lemma EndsStatementMeans()
    ensures forall c :: EndsStatement(c) <==> c in "; \t\n\r"
  {
  }

  lemma SeparatorRule(s: string)
    ensures ';' in Text.TrimRight(Stripped(s), EndsStatement) <==> SeparatesStatements(s)
  {
    hide Stripped, OutsideMask, Text.TrimRight, EndsStatement;
    EndsStatementMeans();
    var t := Stripped(s);
    var cleaned := Text.TrimRight(t, EndsStatement);
    Text.TrimRightSplits(t, EndsStatement);
    StrippedPositions(s);
    if ';' in cleaned {
      var i :| 0 <= i < |cleaned| && cleaned[i] == ';';
      var j: nat := |cleaned| - 1;
      assert t[i] == ';' && t[j] == cleaned[j];
      assert OutsideAt(s, i) && s[i] == ';' && !(OutsideAt(s, j) && s[j] in "; \t\n\r");
    }
    if SeparatesStatements(s) {
      var i: nat, j: nat :| i < j < |s| && OutsideAt(s, i) && s[i] == ';' && !(OutsideAt(s, j) && s[j] in "; \t\n\r");
      if !OutsideAt(s, j) {
        StrippedEdges(s);
        var k := QuoteBetween(OutsideMask(s), t, i, j);
        assert i < k < |cleaned|;
      }
      assert i < |cleaned|;
      assert cleaned[i] == t[i];
    }
  }

  /** A pattern's match in the query: at its start for an anchored one, otherwise anywhere
      outside literals. */
  predicate OccursAt(p: Pattern, s: string, form: seq<Piece>, i: nat, j: nat) {
    i <= j <= |s| && Matches(s, i, j, form) && if p.anchored then i == 0 else AllOutside(s, i, j)
  }

  predicate Occurs(p: Pattern, s: string) {
    exists f: nat, i: nat, j: nat :: f < |p.forms| && i <= j <= |s| && OccursAt(p, s, p.forms[f], i, j)
  }

  predicate MatchesAt(p: Pattern, t: string, form: seq<Piece>, i: nat, j: nat) {
    i <= j <= |t| && Matches(t, i, j, form) && (p.anchored ==> i == 0)
  }

  /** MatchString, on whichever text the loop hands it. */
  predicate MatchString(p: Pattern, t: string) {
    exists f: nat, i: nat, j: nat :: f < |p.forms| && i <= j <= |t| && MatchesAt(p, t, p.forms[f], i, j)
  }

  lemma MatchMeansOccurrence(p: Pattern, s: string)
    requires CleanPattern(p)
    ensures MatchString(p, if p.anchored then s else Stripped(s)) <==> Occurs(p, s)
  {
    hide Stripped, OutsideMask, Matches;
    StrippedLength(s);
    var t := if p.anchored then s else Stripped(s);
    if MatchString(p, t) {
      var f: nat, i: nat, j: nat :| f < |p.forms| && i <= j <= |t| && MatchesAt(p, t, p.forms[f], i, j);
      if !p.anchored {
        StrippedMatch(s, i, j, p.forms[f]);
      }
      assert OccursAt(p, s, p.forms[f], i, j);
    }
    if Occurs(p, s) {
      var f: nat, i: nat, j: nat :| f < |p.forms| && i <= j <= |s| && OccursAt(p, s, p.forms[f], i, j);
      if !p.anchored {
        StrippedMatch(s, i, j, p.forms[f]);
      }
      assert MatchesAt(p, t, p.forms[f], i, j);
    }
  }

  /** w stands at i, outside literals. */
  predicate StandsAt(s: string, i: nat, w: string) {
    i + |w| <= |s| && s[i..i + |w|] == w && AllOutside(s, i, i + |w|)
  }

  lemma MarkerMatches(s: string, i: nat, j: nat, w: string)
    requires forall k :: 0 <= k < |w| ==> w[k] == '-' || w[k] == '/' || w[k] == '*' || w[k] == '#'
    requires i <= j <= |s|
    ensures Matches(s, i, j, [Word(w)]) <==> j == i + |w| && s[i..j] == w
  {
    if i + |w| <= j {
      assert [Word(w)][1..] == [];
    }
  }

  /** A comment marker is blocked exactly where it stands outside literals. */
  lemma MarkerOccurs(text: string, w: string, s: string)
    requires forall k :: 0 <= k < |w| ==> w[k] == '-' || w[k] == '/' || w[k] == '*' || w[k] == '#'
    ensures Occurs(Marker(text, w), s) <==> exists i: nat :: StandsAt(s, i, w)
  {
    hide OutsideMask, Matches;
    var p := Marker(text, w);
    assert p.forms[0] == [Word(w)];
    if Occurs(p, s) {
      var f: nat, i: nat, j: nat :| f < |p.forms| && i <= j <= |s| && OccursAt(p, s, p.forms[f], i, j);
      MarkerMatches(s, i, j, w);
      assert StandsAt(s, i, w);
    }
    if i: nat :| StandsAt(s, i, w) {
      MarkerMatches(s, i, i + |w|, w);
      assert OccursAt(p, s, p.forms[0], i, i + |w|);
    }
  }

  // ---- The verdict ----

  datatype Reason = EmptyQuery | MultiStatement | BlockedPattern | NotReadOnly

  datatype Verdict =
    | Accepted
    | Rejected(reason: Reason, pattern: string)

  /** Upper case, as far as the prefixes need it: two letters outside ASCII have an ASCII
      upper case. */
  function Upper(c: char): char {
    if 'a' <= c <= 'z' then c - 'a' + 'A'
    else if c == '\U{0131}' then 'I'
    else if c == '\U{017F}' then 'S'
    else c
  }

  predicate StartsWith(s: string, prefix: string) {
    |prefix| <= |s| && forall k :: 0 <= k < |prefix| ==> Upper(s[k]) == prefix[k]
  }

  predicate ReadOnly(s: string) {
    exists k :: 0 <= k < |ALLOWED_PREFIXES| && StartsWith(s, ALLOWED_PREFIXES[k])
  }

  /** The first pattern of the list that occurs in s. */
  predicate FirstOccurring(ps: seq<Pattern>, s: string, text: string) {
    exists k :: 0 <= k < |ps| && ps[k].text == text && Occurs(ps[k], s) && forall m :: 0 <= m < k ==> !Occurs(ps[m], s)
  }

  predicate NoneOccurs(ps: seq<Pattern>, s: string) {
    forall k :: 0 <= k < |ps| ==> !Occurs(ps[k], s)
  }

  /** The verdict as a statement about the trimmed query and its lexical structure. */
  predicate Decides(s: string, patterns: seq<Pattern>, v: Verdict) {
    match v
    case Accepted => s != "" && !SeparatesStatements(s) && NoneOccurs(patterns, s) && ReadOnly(s)
    case Rejected(EmptyQuery, _) => s == ""
    case Rejected(MultiStatement, p) => s != "" && SeparatesStatements(s) && p == ";"
    case Rejected(BlockedPattern, p) => s != "" && !SeparatesStatements(s) && FirstOccurring(patterns, s, p)
    case Rejected(NotReadOnly, _) => s != "" && !SeparatesStatements(s) && NoneOccurs(patterns, s) && !ReadOnly(s)
  }

  method FirstMatch(patterns: seq<Pattern>, s: string, scan: string) returns (found: bool, text: string)
    requires AllClean(patterns) && scan == Stripped(s)
    ensures found ==> FirstOccurring(patterns, s, text)
    ensures !found ==> NoneOccurs(patterns, s)
  {
    hide Stripped, OutsideMask, Occurs, MatchString, CleanPattern;
    for k := 0 to |patterns|
      invariant forall m :: 0 <= m < k ==> !Occurs(patterns[m], s)
    {
      var target := s;
      if !patterns[k].anchored {
        target := scan;
      }
      MatchMeansOccurrence(patterns[k], s);
      if MatchString(patterns[k], target) {
        return true, patterns[k].text;
      }
    }
    return false, "";
  }

  method HasAllowedPrefix(s: string) returns (allowed: bool)
    ensures allowed <==> ReadOnly(s)
  {
    allowed := false;
    for k := 0 to |ALLOWED_PREFIXES|
      invariant !allowed && forall m :: 0 <= m < k ==> !StartsWith(s, ALLOWED_PREFIXES[m])
    {
      if StartsWith(s, ALLOWED_PREFIXES[k]) {
        return true;
      }
    }
  }

  lemma FirstOfTwoLists(ps: seq<Pattern>, qs: seq<Pattern>, s: string)
    requires NoneOccurs(ps, s)
    ensures NoneOccurs(qs, s) ==> NoneOccurs(ps + qs, s)
    ensures forall text :: FirstOccurring(qs, s, text) ==> FirstOccurring(ps + qs, s, text)
  {
    hide Occurs;
    forall text | FirstOccurring(qs, s, text)
      ensures FirstOccurring(ps + qs, s, text)
    {
      var k :| 0 <= k < |qs| && qs[k].text == text && Occurs(qs[k], s) && forall m :: 0 <= m < k ==> !Occurs(qs[m], s);
      assert (ps + qs)[|ps| + k] == qs[k];
      forall m | 0 <= m < |ps| + k
        ensures !Occurs((ps + qs)[m], s)
      {
        assert (ps + qs)[m] == if m < |ps| then ps[m] else qs[m - |ps|];
      }
    }
  }

  lemma FirstOfMore(ps: seq<Pattern>, qs: seq<Pattern>, s: string, text: string)
    requires FirstOccurring(ps, s, text)
    ensures FirstOccurring(ps + qs, s, text)
  {
    hide Occurs;
    var k :| 0 <= k < |ps| && ps[k].text == text && Occurs(ps[k], s) && forall m :: 0 <= m < k ==> !Occurs(ps[m], s);
    assert (ps + qs)[k] == ps[k];
    assert forall m :: 0 <= m < k ==> (ps + qs)[m] == ps[m];
  }

  method ValidateSQL(sqlText: string, allowSystemSchemas: bool) returns (v: Verdict)
    ensures Decides(Text.TrimSpace(sqlText), Patterns(allowSystemSchemas), v)
  {
    hide Stripped, OutsideMask, Occurs, CleanPattern, AllClean, ReadOnly, SeparatesStatements, NoneOccurs, FirstOccurring;
    hide Text.TrimSpace, Text.TrimRight;
    var s := Text.TrimSpace(sqlText);
    if s == "" {
      return Rejected(EmptyQuery, "");
    }
    var scan := StripSqlLiterals(s);
    SeparatorRule(s);
    var cleaned := Text.TrimRight(scan, EndsStatement);
    if ';' in cleaned {
      return Rejected(MultiStatement, ";");
    }
    CleanLists(true);
    var found, text := FirstMatch(BLOCKED, s, scan);
    if found {
      FirstOfMore(BLOCKED, SYSTEM_SCHEMAS, s, text);
      return Rejected(BlockedPattern, text);
    }
    if !allowSystemSchemas {
      CleanSystemSchemas();
      FirstOfTwoLists(BLOCKED, SYSTEM_SCHEMAS, s);
      found, text := FirstMatch(SYSTEM_SCHEMAS, s, scan);
      if found {
        return Rejected(BlockedPattern, text);
      }
    }
    var allowed := HasAllowedPrefix(s);
    if !allowed {
      return Rejected(NotReadOnly, "");
    }
    return Accepted;
  }
}
