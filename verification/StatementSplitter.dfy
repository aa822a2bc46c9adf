/** Splitting an SQL script into statements with the current delimiter, and the round trip:
    splitting undoes printing. */
module StatementSplitter {
  import opened Text

  // ---- Lines and fields ----

  function WithoutReturn(line: string): string {
    if line != [] && line[|line| - 1] == '\r' then line[..|line| - 1] else line
  }

  // The scanner's buffer, in bytes.
  const MAX_TOKEN: nat := 1024 * 1024

  /** The lines of a text: ended by a newline, or by a carriage return and a newline; an empty
      last line is no line. A line that fills the scanner's buffer ends the scan. */
  function Lines(s: string): seq<string>
    decreases |s|
  {
    if s == [] then []
    else
      var n := IndexOf(s, '\n');
      if n >= MAX_TOKEN then []
      else [WithoutReturn(s[..n])] + if n == |s| then [] else Lines(s[n + 1..])
  }

  predicate IsLine(s: string) {
    '\n' !in s && (s != [] ==> s[|s| - 1] != '\r') && |s| < MAX_TOKEN
  }

  /** A line of up to 1048575 characters is read; one that is longer ends the scan. */
  lemma LineLimit(line: string, rest: string)
    requires '\n' !in line && (line != [] ==> line[|line| - 1] != '\r')
    ensures Lines(line + "\n" + rest) == if |line| < 1048576 then [line] + Lines(rest) else []
    ensures IsLine(line) <==> |line| < 1048576
  {
    var s := line + "\n" + rest;
    IndexOfEnd(line, '\n', rest);
    assert s[..|line|] == line && s[|line| + 1..] == rest;
    if rest == "" {
      assert Lines("") == [];
    }
  }

  predicate AreLines(lines: seq<string>) {
    forall k :: 0 <= k < |lines| ==> IsLine(lines[k])
  }

  lemma {:induction false} LinesUndoesUnlines(lines: seq<string>)
    requires AreLines(lines)
    ensures Lines(Unlines(lines)) == lines
  {
    if lines != [] {
      var s := Unlines(lines);
      assert IsLine(lines[0]);
      IndexOfEnd(lines[0], '\n', Unlines(lines[1..]));
      assert s[..|lines[0]|] == lines[0];
      assert s[|lines[0]| + 1..] == Unlines(lines[1..]);
      LinesUndoesUnlines(lines[1..]);
      if |lines[0]| + 1 == |s| {
        assert Unlines(lines[1..]) == [];
      }
    }
  }

  function WordEnd(s: string): (n: nat)
    ensures n <= |s| && NoSpace(s[..n]) && (n < |s| ==> IsSpace(s[n]))
  {
    if s == [] || IsSpace(s[0]) then 0
    else
      var n := WordEnd(s[1..]);
      assert s[..n + 1] == [s[0]] + s[1..][..n];
      n + 1
  }

  /** The words of a text, without the white space around them. */
  function Fields(s: string): (r: seq<string>)
    ensures forall k :: 0 <= k < |r| ==> r[k] != [] && NoSpace(r[k])
    decreases |s|
  {
    if s == [] then []
    else if IsSpace(s[0]) then Fields(s[1..])
    else
      var n := WordEnd(s);
      [s[..n]] + Fields(s[n..])
  }

  function LowerToUpper(c: char): char {
    if 'a' <= c <= 'z' then c - 'a' + 'A' else c
  }

  predicate EqualFold(s: string, upper: string) {
    |s| == |upper| && forall k :: 0 <= k < |s| ==> LowerToUpper(s[k]) == upper[k]
  }

  // ---- One line at a time ----

  /** Statements found, the text of the one being read, and the delimiter in force. */
  datatype Split = Split(done: seq<string>, cur: string, delim: string)

  const START := Split([], "", ";")

  predicate IsNoise(line: string) {
    var t := TrimSpace(line);
    t == "" || HasPrefix(t, "--")
  }

  predicate IsSwitch(line: string) {
    !IsNoise(line) && var f := Fields(TrimSpace(line)); |f| == 2 && EqualFold(f[0], "DELIMITER")
  }

  function WithoutSuffix(s: string, suffix: string): string {
    if HasSuffix(s, suffix) then s[..|s| - |suffix|] else s
  }

  function Step(p: Split, line: string): Split {
    if p.cur == "" && IsNoise(line) then p
    else if p.cur == "" && IsSwitch(line) then p.(delim := Fields(TrimSpace(line))[1])
    else
      var cur := if p.cur == "" then line else p.cur + "\n" + line;
      if HasSuffix(TrimSpace(line), p.delim) then
        Split(p.done + [TrimSpace(WithoutSuffix(TrimSpace(cur), p.delim))], "", p.delim)
      else p.(cur := cur)
  }

  function Steps(p: Split, lines: seq<string>): Split
    decreases |lines|
  {
    if lines == [] then p else Steps(Step(p, lines[0]), lines[1..])
  }

  function Finish(p: Split): seq<string> {
    if TrimSpace(p.cur) != "" then p.done + [TrimSpace(p.cur)] else p.done
  }

  function Statements(script: string): seq<string> {
    Finish(Steps(START, Lines(script)))
  }

  lemma {:induction false} StepsCompose(p: Split, first: seq<string>, second: seq<string>)
    ensures Steps(p, first + second) == Steps(Steps(p, first), second)
    decreases |first|
  {
    if first == [] {
      assert first + second == second;
    } else {
      assert (first + second)[1..] == first[1..] + second;
      StepsCompose(Step(p, first[0]), first[1..], second);
    }
  }

  lemma StepsOne(p: Split, lines: seq<string>, k: nat)
    requires k < |lines|
    ensures Steps(p, lines[..k + 1]) == Step(Steps(p, lines[..k]), lines[k])
  {
    assert lines[..k + 1] == lines[..k] + [lines[k]];
    StepsCompose(p, lines[..k], [lines[k]]);
    assert [lines[k]][1..] == [];
  }

  method SplitStatements(script: string) returns (stmts: seq<string>)
    ensures stmts == Statements(script)
  {
    hide Lines, Fields, TrimSpace, IsNoise, Steps, WithoutSuffix, HasSuffix, EqualFold;
    var lines := Lines(script);
    var cur, delim := "", ";";
    stmts := [];
    assert lines[..0] == [] && Steps(START, []) == START by { StepsNone(START); }
    for k := 0 to |lines|
      invariant Steps(START, lines[..k]) == Split(stmts, cur, delim)
    {
      StepsOne(START, lines, k);
      var line := lines[k];
      var trimmed := TrimSpace(line);
      if cur == "" {
        if IsNoise(line) {
          continue;
        }
        var f := Fields(trimmed);
        if |f| == 2 && EqualFold(f[0], "DELIMITER") {
          delim := f[1];
          continue;
        }
      }
      assert cur == "" ==> cur + line == line;
      if cur != "" {
        cur := cur + "\n";
      }
      cur := cur + line;
      if HasSuffix(trimmed, delim) {
        stmts := stmts + [TrimSpace(WithoutSuffix(TrimSpace(cur), delim))];
        cur := "";
      }
    }
    assert lines[..|lines|] == lines;
    if TrimSpace(cur) != "" {
      stmts := stmts + [TrimSpace(cur)];
    }
  }

  lemma StepsNone(p: Split)
    ensures Steps(p, []) == p
  {
  }

  // ---- Printing ----

  /** What a script is made of: blank and comment lines, DELIMITER lines, and statements of
      one or more lines. */
  datatype Part =
    | Noise(line: string)
    | Switch(line: string)
    | Statement(lines: seq<string>)

  function Joined(lines: seq<string>): string
    requires lines != []
  {
    if |lines| == 1 then lines[0] else lines[0] + "\n" + Joined(lines[1..])
  }

  /** A statement's lines with the delimiter at the end of the last. */
  function Ended(lines: seq<string>, delim: string): (r: seq<string>)
    requires lines != []
    ensures |r| == |lines|
  {
    lines[..|lines| - 1] + [lines[|lines| - 1] + delim]
  }

  function NextDelim(part: Part, delim: string): string {
    if part.Switch? && IsSwitch(part.line) then Fields(TrimSpace(part.line))[1] else delim
  }

  function PrintPart(part: Part, delim: string): seq<string> {
    match part
    case Noise(line) => [line]
    case Switch(line) => [line]
    case Statement(lines) => if lines == [] then [] else Ended(lines, delim)
  }

  function PrintLines(parts: seq<Part>, delim: string): seq<string> {
    if parts == [] then []
    else PrintPart(parts[0], delim) + PrintLines(parts[1..], NextDelim(parts[0], delim))
  }

  function Print(parts: seq<Part>): string {
    Unlines(PrintLines(parts, START.delim))
  }

  function Texts(parts: seq<Part>): seq<string> {
    if parts == [] then []
    else
      var first := match parts[0]
        case Statement(lines) => if lines == [] then [] else [Joined(lines)]
        case _ => [];
      first + Texts(parts[1..])
  }

  /** A statement the script format can carry under a delimiter: trimmed, its first line not
      taken for a blank, comment or DELIMITER line, and no line but the last ending with the
      delimiter. */
  predicate StatementOk(lines: seq<string>, delim: string) {
    lines != [] && Trimmed(Joined(lines)) &&
    !IsNoise(Ended(lines, delim)[0]) && !IsSwitch(Ended(lines, delim)[0]) &&
    forall k :: 0 <= k < |lines| - 1 ==> !HasSuffix(TrimSpace(lines[k]), delim)
  }

  predicate PartOk(part: Part, delim: string) {
    AreLines(PrintPart(part, delim)) &&
    match part
    case Noise(line) => IsNoise(line)
    case Switch(line) => IsSwitch(line)
    case Statement(lines) => StatementOk(lines, delim)
  }

  predicate ScriptOk(parts: seq<Part>, delim: string) {
    parts == [] || (PartOk(parts[0], delim) && ScriptOk(parts[1..], NextDelim(parts[0], delim)))
  }

  // ---- Splitting undoes printing ----

  predicate IsDelimiter(delim: string) {
    delim != [] && NoSpace(delim)
  }

  lemma {:induction false} JoinedExtends(lines: seq<string>, more: string)
    requires lines != []
    ensures Joined(lines + [more]) == Joined(lines) + "\n" + more
    decreases |lines|
  {
    assert (lines + [more])[1..] == lines[1..] + [more];
    if |lines| > 1 {
      JoinedExtends(lines[1..], more);
      assert (lines + [more])[0] == lines[0];
    } else {
      assert lines[1..] + [more] == [more];
    }
  }

  lemma JoinedEnded(lines: seq<string>, delim: string)
    requires lines != []
    ensures Joined(Ended(lines, delim)) == Joined(lines) + delim
  {
    var n := |lines| - 1;
    if n > 0 {
      JoinedExtends(lines[..n], lines[n]);
      JoinedExtends(lines[..n], lines[n] + delim);
      assert lines == lines[..n] + [lines[n]];
    }
  }

  /** Before its last line, a statement is only collected. */
  lemma {:induction false} Collects(done: seq<string>, lines: seq<string>, delim: string, k: nat)
    requires StatementOk(lines, delim) && 0 < k < |lines|
    ensures Steps(Split(done, "", delim), lines[..k]) == Split(done, Joined(lines[..k]), delim)
    ensures Joined(lines[..k]) != ""
    decreases k
  {
    hide HasSuffix, TrimSpace, Fields, EqualFold;
    var p := Split(done, "", delim);
    StepsOne(p, lines, k - 1);
    assert !HasSuffix(TrimSpace(lines[k - 1]), delim);
    if k == 1 {
      StepsNone(p);
      assert lines[..0] == [] && lines[..1] == [lines[0]];
      assert Ended(lines, delim)[0] == lines[0];
      EmptyIsNoise();
    } else {
      Collects(done, lines, delim, k - 1);
      assert lines[..k] == lines[..k - 1] + [lines[k - 1]];
      JoinedExtends(lines[..k - 1], lines[k - 1]);
    }
  }

  lemma EmptyIsNoise()
    ensures IsNoise("")
  {
  }

  /** The text of a statement comes back from the text with its delimiter. */
  lemma TextRecovered(text: string, delim: string)
    requires Trimmed(text) && IsDelimiter(delim)
    ensures TrimSpace(WithoutSuffix(TrimSpace(text + delim), delim)) == text
  {
    assert !IsSpace(delim[|delim| - 1]) && !IsSpace(delim[0]);
    assert Trimmed(text + delim);
    TrimmedIsFixed(text + delim);
    TrimmedIsFixed(text);
    assert (text + delim)[|text|..] == delim;
  }

  lemma EndsWithDelimiter(last: string, delim: string)
    requires IsDelimiter(delim)
    ensures HasSuffix(TrimSpace(last + delim), delim)
  {
    TrimKeepsWord(last, delim);
  }

  lemma StatementRead(done: seq<string>, lines: seq<string>, delim: string)
    requires StatementOk(lines, delim) && IsDelimiter(delim)
    ensures Steps(Split(done, "", delim), Ended(lines, delim)) == Split(done + [Joined(lines)], "", delim)
  {
    hide HasSuffix, TrimSpace, Fields, EqualFold, IsNoise, WithoutSuffix;
    var p, ended, n := Split(done, "", delim), Ended(lines, delim), |lines| - 1;
    assert ended[..n] == lines[..n] && ended[..n + 1] == ended;
    StepsOne(p, ended, n);
    JoinedEnded(lines, delim);
    EndsWithDelimiter(lines[n], delim);
    TextRecovered(Joined(lines), delim);
    if n > 0 {
      Collects(done, lines, delim, n);
      JoinedExtends(lines[..n], ended[n]);
      assert ended == lines[..n] + [ended[n]];
    } else {
      StepsNone(p);
    }
  }

  lemma {:induction false} PartsRead(done: seq<string>, parts: seq<Part>, delim: string)
    requires ScriptOk(parts, delim) && IsDelimiter(delim)
    ensures var p := Steps(Split(done, "", delim), PrintLines(parts, delim));
            p.done == done + Texts(parts) && p.cur == ""
    decreases |parts|
  {
    hide TrimSpace, Fields, IsNoise, IsSwitch, StatementOk, Joined, Steps, PrintPart, PartOk, NextDelim, Texts;
    if parts == [] {
      StepsNone(Split(done, "", delim));
      NoTexts();
    } else {
      var next := NextDelim(parts[0], delim);
      StepsCompose(Split(done, "", delim), PrintPart(parts[0], delim), PrintLines(parts[1..], next));
      PartRead(done, parts[0], delim);
      FirstText(parts);
      PartsRead(done + Texts([parts[0]]), parts[1..], next);
    }
  }

  lemma NoTexts()
    ensures Texts([]) == []
  {
  }

  lemma FirstText(parts: seq<Part>)
    requires parts != []
    ensures Texts(parts) == Texts([parts[0]]) + Texts(parts[1..])
  {
    assert [parts[0]][1..] == [];
  }

  lemma PartRead(done: seq<string>, part: Part, delim: string)
    requires PartOk(part, delim) && IsDelimiter(delim)
    ensures Steps(Split(done, "", delim), PrintPart(part, delim)) ==
            Split(done + Texts([part]), "", NextDelim(part, delim))
    ensures IsDelimiter(NextDelim(part, delim))
  {
    hide TrimSpace, Fields, IsNoise, Joined;
    var p := Split(done, "", delim);
    assert [part][1..] == [];
    match part
    case Noise(line) =>
      assert [line][1..] == [];
    case Switch(line) =>
      assert [line][1..] == [];
    case Statement(lines) =>
      StatementRead(done, lines, delim);
  }

  lemma {:induction false} PrintedAreLines(parts: seq<Part>, delim: string)
    requires ScriptOk(parts, delim)
    ensures AreLines(PrintLines(parts, delim))
    decreases |parts|
  {
    if parts != [] {
      PrintedAreLines(parts[1..], NextDelim(parts[0], delim));
    }
  }

  /** Printing statements, each under the delimiter then in force, with any blank, comment and
      DELIMITER lines between them, and splitting gives the statements back, in order. */
  lemma SplitUndoesPrint(parts: seq<Part>)
    requires ScriptOk(parts, START.delim)
    ensures Statements(Print(parts)) == Texts(parts)
  {
    var lines := PrintLines(parts, START.delim);
    PrintedAreLines(parts, START.delim);
    LinesUndoesUnlines(lines);
    PartsRead([], parts, START.delim);
    TrimmedIsFixed("");
  }

  lemma SwitchFields(delim: string)
    requires IsDelimiter(delim)
    ensures Fields("DELIMITER" + (" " + delim)) == ["DELIMITER", delim]
  {
    hide Fields;
    FieldsOfWord("DELIMITER", " " + delim);
    FieldsSkip(delim);
    FieldsOfWord(delim, "");
    assert delim + "" == delim;
  }

  lemma FieldsSkip(s: string)
    ensures Fields(" " + s) == Fields(s) && Fields("") == []
  {
    assert (" " + s)[1..] == s;
  }

  /** A DELIMITER line for any delimiter without white space is read as one. */
  lemma DelimiterLine(delim: string)
    requires IsDelimiter(delim)
    ensures IsSwitch("DELIMITER " + delim)
    ensures NextDelim(Switch("DELIMITER " + delim), ";") == delim
  {
    hide Fields, TrimSpace, IsNoise, Trimmed;
    DelimiterText(delim);
    SwitchFields(delim);
    assert "DELIMITER " + delim == "DELIMITER" + (" " + delim);
    assert EqualFold("DELIMITER", "DELIMITER");
  }

  lemma DelimiterText(delim: string)
    requires IsDelimiter(delim)
    ensures var line := "DELIMITER " + delim; TrimSpace(line) == line && !IsNoise(line)
  {
    hide TrimSpace;
    var line := "DELIMITER " + delim;
    assert line[|line| - 1] == delim[|delim| - 1];
    TrimmedIsFixed(line);
    assert line[0] == 'D';
  }

  lemma {:induction false} WordEndOf(word: string, rest: string)
    requires NoSpace(word) && (rest != [] ==> IsSpace(rest[0]))
    ensures WordEnd(word + rest) == |word|
  {
    if word != [] {
      assert (word + rest)[1..] == word[1..] + rest;
      WordEndOf(word[1..], rest);
    } else {
      assert word + rest == rest;
    }
  }

  lemma FieldsOfWord(word: string, rest: string)
    requires IsDelimiter(word) && (rest != [] ==> IsSpace(rest[0]))
    ensures Fields(word + rest) == [word] + Fields(rest)
  {
    WordEndOf(word, rest);
    assert (word + rest)[..|word|] == word && (word + rest)[|word|..] == rest;
    assert (word + rest)[0] == word[0];
  }

  // ---- What the format takes for blank, comment and DELIMITER lines ----

  /** Outside statements, blank lines and lines that start with "--" after white space are
      dropped, and no others. */
  lemma NoiseIff(line: string)
    ensures IsNoise(line) <==> AllSpace(line) || exists k :: 0 <= k && k + 2 <= |line| && AllSpace(line[..k]) && line[k..k + 2] == "--"
  {
    hide TrimSpace;
    var i, j := TrimSpaceSplits(line);
    TrimSpaceIsShorter(line);
    var t := TrimSpace(line);
    if HasPrefix(t, "--") {
      assert line[i..i + 2] == t[..2];
      assert AllSpace(line[..i]);
    }
    if k :| 0 <= k && k + 2 <= |line| && AllSpace(line[..k]) && line[k..k + 2] == "--" {
      assert line[k..k + 2][0] == line[k] == '-' && line[k..k + 2][1] == line[k + 1] == '-';
      DashesStartText(line, i, j, k);
      assert t[..2] == line[i..i + 2];
    }
  }

  lemma DashesStartText(line: string, i: nat, j: nat, k: nat)
    requires i <= j <= |line| && Trimmed(line[i..j]) && forall m :: (0 <= m < i || j <= m < |line|) ==> IsSpace(line[m])
    requires k + 2 <= |line| && AllSpace(line[..k]) && line[k] == '-' && line[k + 1] == '-'
    ensures i == k && i + 2 <= j
  {
    assert !IsSpace('-');
    hide IsSpace;
    forall m | 0 <= m < k
      ensures IsSpace(line[m])
    {
      assert line[..k][m] == line[m];
    }
    assert i < j ==> line[i..j][0] == line[i];
  }

  /** A word in either case. */
  predicate SameWord(s: string, upper: string) {
    |s| == |upper| && forall k :: 0 <= k < |s| ==> s[k] == upper[k] || ('A' <= upper[k] <= 'Z' && s[k] == upper[k] - 'A' + 'a')
  }

  lemma {:induction false} FieldsAfterSpace(gap: string, rest: string)
    requires AllSpace(gap)
    ensures Fields(gap + rest) == Fields(rest)
  {
    if gap == "" {
      assert gap + rest == rest;
    } else {
      assert (gap + rest)[1..] == gap[1..] + rest && (gap + rest)[0] == gap[0];
      FieldsAfterSpace(gap[1..], rest);
    }
  }

  /** "delimiter x", in any case, indented or not and with any white space between, sets x. */
  lemma AnyDelimiterLine(before: string, keyword: string, gap: string, delim: string, after: string, current: string)
    requires AllSpace(before) && AllSpace(gap) && gap != "" && AllSpace(after)
    requires SameWord(keyword, "DELIMITER") && IsDelimiter(delim)
    ensures var line := before + (keyword + gap + delim) + after; IsSwitch(line) && NextDelim(Switch(line), current) == delim
  {
    hide TrimSpace, Fields, HasPrefix;
    var t := keyword + gap + delim;
    KeywordIsWord(keyword);
    assert t[0] == keyword[0] && t[|t| - 1] == delim[|delim| - 1];
    TrimSpaceOf(before, t, after);
    assert t == keyword + (gap + delim);
    assert (gap + delim)[0] == gap[0];
    FieldsOfWord(keyword, gap + delim);
    FieldsAfterSpace(gap, delim);
    FieldsOfWord(delim, "");
    assert delim + "" == delim;
    NoFields();
    NotDashes(t);
  }

  lemma {:induction false} FieldsNone(s: string)
    requires Fields(s) == []
    ensures AllSpace(s)
  {
    if s != "" {
      FieldsNone(s[1..]);
    }
  }

  /** The first field of a text, and where it stands. */
  lemma {:induction false} FirstField(s: string) returns (before: string, after: string)
    requires Fields(s) != []
    ensures AllSpace(before) && s == before + Fields(s)[0] + after && Fields(after) == Fields(s)[1..]
    ensures after != "" ==> IsSpace(after[0])
    decreases |s|
  {
    FieldsStep(s);
    hide Fields, IsSpace;
    if IsSpace(s[0]) {
      var c, tail := s[0], s[1..];
      var b;
      b, after := FirstField(tail);
      before := [c] + b;
      assert s == [c] + tail;
      Assoc([c], b, Fields(tail)[0]);
      Assoc([c], b + Fields(tail)[0], after);
    } else {
      var n := WordEnd(s);
      before, after := "", s[n..];
      assert s == s[..n] + s[n..] && "" + s[..n] == s[..n];
    }
  }

  lemma FieldsStep(s: string)
    requires Fields(s) != []
    ensures s != "" && (IsSpace(s[0]) ==> Fields(s[1..]) == Fields(s))
    ensures !IsSpace(s[0]) ==> Fields(s)[0] == s[..WordEnd(s)] && Fields(s[WordEnd(s)..]) == Fields(s)[1..]
  {
    hide IsSpace;
  }

  /** Only such lines are DELIMITER lines: two words, the first of them the keyword. */
  lemma DelimiterLineOnly(line: string) returns (before: string, keyword: string, gap: string, delim: string, after: string)
    requires IsSwitch(line)
    ensures TrimSpace(line) == before + keyword + gap + delim + after
    ensures AllSpace(before) && AllSpace(gap) && gap != "" && AllSpace(after)
    ensures SameWord(keyword, "DELIMITER") && IsDelimiter(delim) && NextDelim(Switch(line), ";") == delim
  {
    hide TrimSpace, Fields, IsSpace, HasPrefix;
    var t := TrimSpace(line);
    var rest;
    before, rest := FirstField(t);
    keyword := Fields(t)[0];
    gap, after := FirstField(rest);
    delim := Fields(rest)[0];
    FieldsNone(after);
    assert delim == Fields(t)[1];
    GapIsNotEmpty(gap, delim, rest, after);
    KeywordInEitherCase(keyword);
  }

  lemma GapIsNotEmpty(gap: string, delim: string, rest: string, after: string)
    requires rest == gap + delim + after && IsDelimiter(delim) && (rest != "" ==> IsSpace(rest[0]))
    ensures gap != ""
  {
    assert (delim + after)[0] == delim[0] && !IsSpace(delim[0]);
    assert gap == "" ==> gap + delim + after == delim + after;
  }

  lemma KeywordInEitherCase(keyword: string)
    requires EqualFold(keyword, "DELIMITER")
    ensures SameWord(keyword, "DELIMITER")
  {
    forall k | 0 <= k < |keyword|
      ensures keyword[k] == "DELIMITER"[k] || keyword[k] == "DELIMITER"[k] - 'A' + 'a'
    {
      assert LowerToUpper(keyword[k]) == "DELIMITER"[k] && 'A' <= "DELIMITER"[k] <= 'Z';
    }
  }

  lemma NoFields()
    ensures Fields("") == []
  {
  }

  lemma NotDashes(t: string)
    requires t != "" && t[0] != '-'
    ensures !HasPrefix(t, "--")
  {
    assert |t| >= 2 ==> t[..2][0] == t[0];
  }

  lemma KeywordIsWord(keyword: string)
    requires SameWord(keyword, "DELIMITER")
    ensures IsDelimiter(keyword) && EqualFold(keyword, "DELIMITER") && keyword[0] != '-'
  {
    forall k | 0 <= k < |keyword|
      ensures LowerToUpper(keyword[k]) == "DELIMITER"[k] && !IsSpace(keyword[k])
    {
      assert 'A' <= "DELIMITER"[k] <= 'Z';
    }
  }

  // ---- A last statement without a delimiter ----

  lemma OpenStatement(done: seq<string>, lines: seq<string>, delim: string)
    requires lines != [] && !IsNoise(lines[0]) && !IsSwitch(lines[0])
    requires forall k :: 0 <= k < |lines| ==> !HasSuffix(TrimSpace(lines[k]), delim)
    ensures Steps(Split(done, "", delim), lines) == Split(done, Joined(lines), delim)
  {
    CollectsAll(done, lines, delim, |lines|);
    assert lines[..|lines|] == lines;
  }

  lemma {:induction false} CollectsAll(done: seq<string>, lines: seq<string>, delim: string, k: nat)
    requires 0 < k <= |lines| && !IsNoise(lines[0]) && !IsSwitch(lines[0])
    requires forall m :: 0 <= m < |lines| ==> !HasSuffix(TrimSpace(lines[m]), delim)
    ensures Steps(Split(done, "", delim), lines[..k]) == Split(done, Joined(lines[..k]), delim)
    ensures Joined(lines[..k]) != ""
    decreases k
  {
    hide HasSuffix, TrimSpace, Fields, EqualFold;
    var p := Split(done, "", delim);
    StepsOne(p, lines, k - 1);
    assert !HasSuffix(TrimSpace(lines[k - 1]), delim);
    if k == 1 {
      StepsNone(p);
      assert lines[..0] == [] && lines[..1] == [lines[0]];
      EmptyIsNoise();
    } else {
      CollectsAll(done, lines, delim, k - 1);
      assert lines[..k] == lines[..k - 1] + [lines[k - 1]];
      JoinedExtends(lines[..k - 1], lines[k - 1]);
    }
  }

  /** The delimiter in force after a script. */
  function DelimAfter(parts: seq<Part>, delim: string): string {
    if parts == [] then delim else DelimAfter(parts[1..], NextDelim(parts[0], delim))
  }

  lemma {:induction false} DelimKept(done: seq<string>, parts: seq<Part>, delim: string)
    requires ScriptOk(parts, delim) && IsDelimiter(delim)
    ensures Steps(Split(done, "", delim), PrintLines(parts, delim)) == Split(done + Texts(parts), "", DelimAfter(parts, delim))
    decreases |parts|
  {
    hide TrimSpace, Fields, IsNoise, IsSwitch, StatementOk, Joined, Steps, PrintPart, PartOk, NextDelim, Texts;
    if parts == [] {
      StepsNone(Split(done, "", delim));
      NoTexts();
    } else {
      var next := NextDelim(parts[0], delim);
      StepsCompose(Split(done, "", delim), PrintPart(parts[0], delim), PrintLines(parts[1..], next));
      PartRead(done, parts[0], delim);
      FirstText(parts);
      DelimKept(done + Texts([parts[0]]), parts[1..], next);
    }
  }

  lemma {:induction false} UnlinesJoin(a: seq<string>, b: seq<string>)
    ensures Unlines(a + b) == Unlines(a) + Unlines(b)
  {
    if a == [] {
      assert a + b == b;
    } else {
      assert (a + b)[1..] == a[1..] + b;
      UnlinesJoin(a[1..], b);
      Assoc(a[0] + "\n", Unlines(a[1..]), Unlines(b));
    }
  }

  /** What follows the last delimiter is a statement too, unless it is blank. */
  lemma UnterminatedStatementIsKept(parts: seq<Part>, lines: seq<string>)
    requires ScriptOk(parts, START.delim) && AreLines(lines) && lines != [] && !IsNoise(lines[0]) && !IsSwitch(lines[0])
    requires forall k :: 0 <= k < |lines| ==> !HasSuffix(TrimSpace(lines[k]), DelimAfter(parts, START.delim))
    requires Trimmed(Joined(lines)) && Joined(lines) != ""
    ensures Statements(Print(parts) + Unlines(lines)) == Texts(parts) + [Joined(lines)]
  {
    hide TrimSpace, Fields, IsNoise, IsSwitch, HasSuffix, Steps;
    var printed := PrintLines(parts, START.delim);
    PrintedAreLines(parts, START.delim);
    UnlinesJoin(printed, lines);
    LinesUndoesUnlines(printed + lines);
    StepsCompose(START, printed, lines);
    DelimKept([], parts, START.delim);
    assert [] + Texts(parts) == Texts(parts);
    OpenStatement(Texts(parts), lines, DelimAfter(parts, START.delim));
    TrimmedIsFixed(Joined(lines));
  }
}
