/** The audit log: appending entries, and reading the most recent lines from the end of the
    file through a window of at most 512 KiB. */
module AuditLog {
  import opened Text

  const WINDOW: nat := 512 * 1024

  // ---- Lines of the file, and the ones that are returned ----

  /** The lines with something other than white space on them, trimmed. */
  function Kept(lines: seq<string>): seq<string> {
    if lines == [] then []
    else (if TrimSpace(lines[0]) != "" then [TrimSpace(lines[0])] else []) + Kept(lines[1..])
  }

  function LastOf<T>(s: seq<T>, n: nat): seq<T> {
    if n < |s| then s[|s| - n..] else s
  }

  predicate IsSuffix<T(==)>(s: seq<T>, whole: seq<T>) {
    |s| <= |whole| && whole[|whole| - |s|..] == s
  }

  /** The last n elements, or all when there are no more than n. */
  predicate IsTail<T(==)>(s: seq<T>, whole: seq<T>, n: nat) {
    if |whole| <= n then s == whole else s == whole[|whole| - n..]
  }

  lemma LastOfIsTail(s: seq<string>, n: nat)
    ensures IsTail(LastOf(s, n), s, n)
  {
  }

  function Clamped(maxLines: int): nat {
    if maxLines < 1 then 50 else if maxLines > 500 then 500 else maxLines
  }

  function WindowStart(file: string): nat {
    if |file| > WINDOW then |file| - WINDOW else 0
  }

  /** The part of the file that is split: all of it, or the window after its first newline. */
  function Readable(file: string): string {
    var data := file[WindowStart(file)..];
    if WindowStart(file) > 0 && IndexOf(data, '\n') < |data| then data[IndexOf(data, '\n') + 1..] else data
  }

  lemma {:induction false} KeptAppend(a: seq<string>, b: seq<string>)
    ensures Kept(a + b) == Kept(a) + Kept(b)
  {
    if a == [] {
      assert a + b == b;
    } else {
      assert (a + b)[1..] == a[1..] + b;
      KeptAppend(a[1..], b);
    }
  }

  lemma KeptFrom(lines: seq<string>, i: nat)
    requires i < |lines|
    ensures Kept(lines[i..]) ==
            (if TrimSpace(lines[i]) != "" then [TrimSpace(lines[i])] else []) + Kept(lines[i + 1..])
    ensures IsSuffix(Kept(lines[i..]), Kept(lines))
  {
    assert lines[i..][1..] == lines[i + 1..];
    assert lines == lines[..i] + lines[i..];
    KeptAppend(lines[..i], lines[i..]);
  }

  function Reversed<T>(s: seq<T>): (r: seq<T>)
    ensures |r| == |s| && forall k :: 0 <= k < |s| ==> r[k] == s[|s| - 1 - k]
  {
    seq(|s|, i requires 0 <= i < |s| => s[|s| - 1 - i])
  }

  // ---- The logger object ----

  datatype Recent =
    | NotEnabled
    | FileError(io: FileIo)
    | Recent(lines: seq<string>, truncated: bool)

  /** What becomes of the file operations of one read. */
  datatype FileIo = StatFails | OpenFails | SeekFails | ReadFails | Reads

  /** The read fails at the operation that fails; only a file longer than the window is sought. */
  predicate FailsAt(io: FileIo, file: string) {
    io == StatFails || io == OpenFails || io == ReadFails || (io == SeekFails && |file| > WINDOW)
  }

  /** One tool call's record; the token metrics derived from it are not part of this model. */
  datatype AuditEntry = AuditEntry(
    timestamp: string,
    tool: string,
    database: string,
    query: string,
    durationMs: int,
    rowCount: int,
    inputTokens: int,
    outputTokens: int,
    success: bool,
    error: string)

  class AuditLogger {
    const enabled: bool
    var file: string
    // What the file held when it was opened, and the encoded entries logged since.
    ghost var before: string
    ghost var entries: seq<string>

    ghost predicate Valid()
      reads this
    {
      file == before + Unlines(entries)
    }

    constructor (path: string, contents: string)
      ensures enabled == (path != "") && file == before == contents && entries == [] && Valid()
    {
      enabled := path != "";
      file, before, entries := contents, contents, [];
    }

    /** Stamps the entry with the time, encodes it and appends it as one line, unless the write
        fails; a failure is not reported. */
    method Log(entry: AuditEntry, now: string, encode: AuditEntry -> string, writes: bool) returns (stamped: AuditEntry)
      requires Valid()
      modifies this
      ensures Valid() && before == old(before)
      ensures stamped == if enabled then entry.(timestamp := now) else entry
      ensures entries == if enabled && writes then old(entries) + [encode(stamped)] else old(entries)
      ensures file == if enabled && writes then old(file) + (encode(stamped) + "\n") else old(file)
    {
      stamped := entry;
      if !enabled {
        return;
      }
      stamped := entry.(timestamp := now);
      if writes {
        UnlinesAppend(entries, encode(stamped));
        assert before + (Unlines(entries) + (encode(stamped) + "\n")) == file + (encode(stamped) + "\n");
        file := file + (encode(stamped) + "\n");
        entries := entries + [encode(stamped)];
      }
    }

    /** What is returned are the last kept lines of the readable part; when the entries are
        lines of their own, these are the last entries, after what the file held before, or as
        many of them as the window shows. */
    method ReadRecentLines(maxLines: int, io: FileIo) returns (r: Recent)
      requires Valid()
      ensures r.Recent? && Terminated(before) && AreEntries(entries) ==>
                var logged := LastOf(Kept(SplitOn(before, '\n')) + entries, Clamped(maxLines));
                IsSuffix(r.lines, logged) && (|file| <= WINDOW ==> r.lines == logged)
      ensures r.Recent? ==>
                var kept := Kept(SplitOn(Readable(file), '\n'));
                && (1 <= maxLines <= 500 ==> IsTail(r.lines, kept, maxLines))
                && (maxLines < 1 ==> IsTail(r.lines, kept, 50)) && (maxLines > 500 ==> IsTail(r.lines, kept, 500))
                && r.truncated == (|file| > 524288)
      ensures r == if !enabled then NotEnabled
                   else if FailsAt(io, file) then FileError(io)
                   else Recent(LastOf(Kept(SplitOn(Readable(file), '\n')), Clamped(maxLines)), |file| > WINDOW)
    {
      hide SplitOn, Kept, LastOf, Reversed, Readable, IsSuffix, Terminated, AreEntries, Unlines, IsTail;
      if !enabled {
        return NotEnabled;
      }
      var most := maxLines;
      if most < 1 {
        most := 50;
      }
      if most > 500 {
        most := 500;
      }
      if io == StatFails || io == OpenFails {
        return FileError(io);
      }
      if |file| > WINDOW && io == SeekFails {
        return FileError(io);
      }
      if io == ReadFails {
        return FileError(io);
      }
      var data, truncated := ReadTail(file);
      var lines := SplitOn(data, '\n');
      var out := ScanBackwards(lines, most);
      ReversedTwice(LastOf(Kept(lines), most));
      ReverseInPlace(out);
      r := Recent(out[..], truncated);
      LastOfIsTail(Kept(lines), most);
      if Terminated(before) && AreEntries(entries) {
        RecentEntries(before, entries, maxLines);
      }
    }
  }

  method ReadTail(file: string) returns (data: string, truncated: bool)
    ensures data == Readable(file) && truncated == (|file| > WINDOW)
  {
    hide IndexOf;
    var start := 0;
    if |file| > WINDOW {
      start := |file| - WINDOW;
    }
    data := file[start..];
    truncated := start > 0;
    if start > 0 {
      var idx := IndexOf(data, '\n');
      if idx < |data| {
        data := data[idx + 1..];
      }
    }
  }

  /** The backward loop: the last lines to keep, the last one first. */
  method ScanBackwards(lines: seq<string>, most: nat) returns (out: array<string>)
    requires most > 0
    ensures fresh(out) && out[..] == Reversed(LastOf(Kept(lines), most))
  {
    hide TrimSpace, Kept, IsSuffix, LastOf;
    var buffer := new string[most];
    var n := 0;
    var i := |lines|;
    ghost var kept: seq<string> := [];
    EmptyKept(lines);
    while i > 0 && n < most
      invariant 0 <= i <= |lines| && n == |kept| <= most
      invariant kept == Kept(lines[i..]) && IsSuffix(kept, Kept(lines))
      invariant forall k :: 0 <= k < n ==> buffer[k] == kept[n - 1 - k]
    {
      i := i - 1;
      KeptFrom(lines, i);
      var line := TrimSpace(lines[i]);
      if line != "" {
        buffer[n] := line;
        n, kept := n + 1, [line] + kept;
      } else {
        assert [] + kept == kept;
      }
    }
    assert i == 0 ==> lines[i..] == lines;
    SuffixIsLast(kept, Kept(lines), most);
    out := new string[n](k requires 0 <= k < n reads buffer => buffer[k]);
    assert out[..] == Reversed(kept);
  }

  lemma SuffixIsLast(s: seq<string>, whole: seq<string>, n: nat)
    requires IsSuffix(s, whole) && |s| <= n && (|s| == n || s == whole)
    ensures s == LastOf(whole, n)
  {
  }

  lemma EmptyKept(lines: seq<string>)
    ensures Kept(lines[|lines|..]) == [] && IsSuffix([], Kept(lines))
  {
    hide TrimSpace;
    assert lines[|lines|..] == [];
    assert Kept([]) == [];
    hide Kept;
  }

  method ReverseInPlace(a: array<string>)
    modifies a
    ensures a[..] == Reversed(old(a[..]))
  {
    var i, j := 0, a.Length - 1;
    while i < j
      invariant 0 <= i <= a.Length && j == a.Length - 1 - i && i <= j + 2
      invariant forall k :: 0 <= k < i ==> a[k] == old(a[a.Length - 1 - k]) && a[a.Length - 1 - k] == old(a[k])
      invariant forall k :: i <= k <= j ==> a[k] == old(a[k])
    {
      a[i], a[j] := a[j], a[i];
      i, j := i + 1, j - 1;
    }
  }

  lemma ReversedTwice<T>(s: seq<T>)
    ensures Reversed(Reversed(s)) == s
  {
  }

  // ---- What is kept of a line ----

  /** A line of the file: an entry, possibly empty, in white space. */
  datatype Line = Line(before: string, entry: string, after: string)

  predicate LineOk(l: Line) {
    AllSpace(l.before) && AllSpace(l.after) && Trimmed(l.entry)
  }

  function Written(ls: seq<Line>): seq<string> {
    if ls == [] then [] else [ls[0].before + ls[0].entry + ls[0].after] + Written(ls[1..])
  }

  function Entered(ls: seq<Line>): seq<string> {
    if ls == [] then [] else (if ls[0].entry == "" then [] else [ls[0].entry]) + Entered(ls[1..])
  }

  /** Kept are the entries that are not empty, without the white space around them. */
  lemma {:induction false} KeptAreEntries(ls: seq<Line>)
    requires forall k :: 0 <= k < |ls| ==> LineOk(ls[k])
    ensures Kept(Written(ls)) == Entered(ls)
  {
    hide TrimSpace;
    if ls != [] {
      assert LineOk(ls[0]);
      TrimSpaceOf(ls[0].before, ls[0].entry, ls[0].after);
      KeptAreEntries(ls[1..]);
      assert Written(ls)[1..] == Written(ls[1..]);
    }
  }

  // ---- What the window does to the answer ----

  /** All that ReadRecentLines could return if it read the whole file. */
  function FullAnswer(file: string, maxLines: int): seq<string> {
    LastOf(Kept(SplitOn(file, '\n')), Clamped(maxLines))
  }

  function Answer(file: string, maxLines: int): seq<string> {
    LastOf(Kept(SplitOn(Readable(file), '\n')), Clamped(maxLines))
  }

  /** Where the head of a file whose window holds a newline ends. */
  function HeadEnd(file: string): nat {
    WindowStart(file) + IndexOf(file[WindowStart(file)..], '\n')
  }

  lemma HeadAndReadable(file: string)
    requires |file| > WINDOW && '\n' in file[WindowStart(file)..]
    ensures HeadEnd(file) < |file| && file == file[..HeadEnd(file)] + "\n" + Readable(file)
  {
    hide IndexOf;
    var start := WindowStart(file);
    var n := IndexOf(file[start..], '\n');
    NewlineFound(file[start..]);
    SuffixOfSuffix(file, start, n);
    CutAt(file, start + n);
  }

  lemma NewlineFound(data: string)
    requires '\n' in data
    ensures IndexOf(data, '\n') < |data|
  {
    assert data[..|data|] == data;
  }

  lemma SuffixOfSuffix(s: string, i: nat, n: nat)
    requires i + n < |s|
    ensures s[i..][n] == s[i + n] && s[i..][n + 1..] == s[i + n + 1..]
  {
  }

  lemma CutAt(s: string, i: nat)
    requires i < |s|
    ensures s == s[..i] + [s[i]] + s[i + 1..]
  {
  }

  lemma KeptOfFile(file: string)
    requires |file| > WINDOW && '\n' in file[WindowStart(file)..]
    ensures HeadEnd(file) < |file|
    ensures Kept(SplitOn(file, '\n')) ==
            Kept(SplitOn(file[..HeadEnd(file)], '\n')) + Kept(SplitOn(Readable(file), '\n'))
  {
    HeadAndReadable(file);
    hide SplitOn, Kept, Readable, HeadEnd;
    var head := file[..HeadEnd(file)];
    SplitAppend(head, '\n', Readable(file));
    KeptAppend(SplitOn(head, '\n'), SplitOn(Readable(file), '\n'));
  }

  /** When the file fits the window the answer is the full one. When it does not, but the
      window holds a newline, every line returned is a whole line of the file, and the answer
      is the full one or its end. */
  lemma WindowAnswerIsSuffix(file: string, maxLines: int)
    requires var data := file[WindowStart(file)..]; |file| > WINDOW ==> '\n' in data
    ensures |file| <= WINDOW ==> Answer(file, maxLines) == FullAnswer(file, maxLines)
    ensures IsSuffix(Answer(file, maxLines), FullAnswer(file, maxLines))
    ensures forall line :: line in Answer(file, maxLines) ==> line in Kept(SplitOn(file, '\n'))
    ensures |Answer(file, maxLines)| == Clamped(maxLines) ==> Answer(file, maxLines) == FullAnswer(file, maxLines)
  {
    hide SplitOn, Kept, IsSuffix, LastOf, HeadEnd;
    if |file| > WINDOW {
      KeptOfFile(file);
      LastOfEnd(Kept(SplitOn(file[..HeadEnd(file)], '\n')), Kept(SplitOn(Readable(file), '\n')), Clamped(maxLines));
    } else {
      assert Readable(file) == file;
      LastOfEnd([], Kept(SplitOn(file, '\n')), Clamped(maxLines));
      assert [] + Kept(SplitOn(file, '\n')) == Kept(SplitOn(file, '\n'));
    }
  }

  lemma LastOfEnd<T>(a: seq<T>, b: seq<T>, n: nat)
    ensures IsSuffix(LastOf(b, n), LastOf(a + b, n))
    ensures |LastOf(b, n)| == n ==> LastOf(b, n) == LastOf(a + b, n)
    ensures forall x :: x in LastOf(b, n) ==> x in a + b
  {
    if n <= |b| {
      SuffixOfSum(a, b, |b| - n);
      assert LastOf(b, n) == b[|b| - n..] == LastOf(a + b, n);
    } else {
      var rest := if n < |a + b| then a[|a + b| - n..] else a;
      assert LastOf(a + b, n) == rest + b;
      SuffixOfSum(rest, b, 0);
      assert LastOf(b, n) == b[0..] == b;
    }
  }

  lemma SuffixOfSum<T>(a: seq<T>, b: seq<T>, i: nat)
    requires i <= |b|
    ensures (a + b)[|a| + i..] == b[i..]
  {
  }

  lemma LastOfEndIff<T>(a: seq<T>, b: seq<T>, n: nat)
    requires n > 0
    ensures LastOf(b, n) == LastOf(a + b, n) <==> |b| >= n || a == []
  {
    if a == [] {
      assert a + b == b;
    } else if |b| >= n {
      LastOfEnd(a, b, n);
    } else {
      assert |LastOf(a + b, n)| > |b|;
    }
  }

  /** The windowed answer is the full one exactly when the window's whole lines are enough or
      nothing is kept of what lies before its first newline. */
  lemma WindowAnswerIsFullIff(file: string, maxLines: int)
    requires |file| > WINDOW && '\n' in file[WindowStart(file)..]
    ensures HeadEnd(file) < |file|
    ensures Answer(file, maxLines) == FullAnswer(file, maxLines) <==>
            |Kept(SplitOn(Readable(file), '\n'))| >= Clamped(maxLines) ||
            Kept(SplitOn(file[..HeadEnd(file)], '\n')) == []
  {
    KeptOfFile(file);
    hide SplitOn, Kept, LastOf, HeadEnd, Readable, WindowStart;
    LastOfEndIff(Kept(SplitOn(file[..HeadEnd(file)], '\n')), Kept(SplitOn(Readable(file), '\n')), Clamped(maxLines));
  }

  function Blanks(n: nat): string {
    seq(n, _ => ' ')
  }

  lemma BlanksAreDropped(n: nat)
    ensures TrimSpace(Blanks(n)) == "" && '\n' !in Blanks(n) && |Blanks(n)| == n
  {
    var i, j := TrimSpaceSplits(Blanks(n));
  }

  /** A line before the window, then a window that starts at the line "b" and ends with "c". */
  function LineAtWindowStart(): string {
    "a\n" + InWindow()
  }

  function InWindow(): string {
    "b\n" + AfterFirst()
  }

  function AfterFirst(): string {
    Blanks(WINDOW - 4) + "\nc"
  }

  /** The pieces of a text that starts with a one-letter line. */
  lemma OneLetterFirst(line: string, rest: string)
    requires |line| == 1 && line[0] != '\n' && !IsSpace(line[0])
    ensures Kept(SplitOn(line + "\n" + rest, '\n')) == [line] + Kept(SplitOn(rest, '\n'))
    ensures Kept(SplitOn(line, '\n')) == [line]
  {
    hide SplitOn, TrimSpace;
    SplitFirst(line, '\n', rest);
    SplitNone(line, '\n');
    TrimmedIsFixed(line);
    assert ([line] + SplitOn(rest, '\n'))[1..] == SplitOn(rest, '\n');
    assert [line][1..] == [];
  }

  lemma AfterFirstKept()
    ensures Kept(SplitOn(AfterFirst(), '\n')) == ["c"] && |InWindow()| == WINDOW
  {
    hide SplitOn, TrimSpace, Blanks;
    BlanksAreDropped(WINDOW - 4);
    var blanks := Blanks(WINDOW - 4);
    assert AfterFirst() == blanks + "\n" + "c";
    SplitFirst(blanks, '\n', "c");
    OneLetterFirst("c", "");
    assert ([blanks] + SplitOn("c", '\n'))[1..] == SplitOn("c", '\n');
  }

  /** A file whose window starts at a line start: that line, though wholly in the window, is
      not returned, and the answer is shorter than the full one. */
  lemma WindowLosesAWholeLine()
    ensures var file := LineAtWindowStart();
            && |file| > WINDOW && '\n' in file[WindowStart(file)..] && file[WindowStart(file)..] == InWindow()
            && FullAnswer(file, 50) == ["a", "b", "c"] && Answer(file, 50) == ["c"]
  {
    hide SplitOn, Kept, AfterFirst, TrimSpace;
    var file := LineAtWindowStart();
    AfterFirstKept();
    OneLetterFirst("b", AfterFirst());
    OneLetterFirst("a", InWindow());
    assert file == "a" + "\n" + InWindow() && InWindow() == "b" + "\n" + AfterFirst();
    assert file[2..] == InWindow();
    assert InWindow()[1] == '\n' && InWindow()[0] == 'b';
    assert IndexOf(InWindow(), '\n') == 1;
    assert InWindow()[2..] == AfterFirst();
  }

  /** When the window holds no newline, it lies inside one long line, and what is returned is
      at most that piece of it, trimmed. */
  lemma WindowInsideALine(file: string, maxLines: int)
    requires |file| > WINDOW && '\n' !in file[WindowStart(file)..]
    ensures Answer(file, maxLines) == Kept([file[WindowStart(file)..]])
  {
    var data := file[WindowStart(file)..];
    SplitNone(data, '\n');
    IndexOfNone(data, '\n');
    assert |Kept([data])| <= 1;
  }

  /** What the last line of a file starts with before a window that holds no newline. */
  predicate CutsLine(file: string, before: string, cut: string) {
    && file == before + cut + file[WindowStart(file)..]
    && '\n' !in cut && (before != "" ==> before[|before| - 1] == '\n')
  }

  lemma LastPiece(file: string, before: string, line: string) returns (pieces: seq<string>)
    requires file == before + line && '\n' !in line && (before != "" ==> before[|before| - 1] == '\n')
    ensures SplitOn(file, '\n') == pieces + [line]
  {
    hide SplitOn;
    SplitNone(line, '\n');
    if before == "" {
      pieces := [];
      assert file == line;
    } else {
      var head := before[..|before| - 1];
      assert file == head + "\n" + line;
      SplitAppend(head, '\n', line);
      pieces := SplitOn(head, '\n');
    }
  }

  /** Without a newline in the window, the answer is still the end of the full one exactly when
      only white space of the last line lies before the window, or in it. */
  lemma WindowInsideALineIff(file: string, maxLines: int, before: string, cut: string)
    requires |file| > WINDOW && '\n' !in file[WindowStart(file)..] && CutsLine(file, before, cut)
    ensures IsSuffix(Answer(file, maxLines), FullAnswer(file, maxLines)) <==>
            AllSpace(file[WindowStart(file)..]) || AllSpace(cut)
  {
    hide SplitOn, TrimSpace, Kept, LastOf, Answer, IsSuffix;
    var data := file[WindowStart(file)..];
    WindowInsideALine(file, maxLines);
    assert file == before + (cut + data);
    var pieces := LastPiece(file, before, cut + data);
    KeptAppend(pieces, [cut + data]);
    KeptOne(cut + data);
    KeptOne(data);
    TrimOfCut(cut, data);
    LastIsSuffix(Kept(pieces), Kept([cut + data]), Kept([data]), Clamped(maxLines));
  }

  lemma LastIsSuffix(a: seq<string>, line: seq<string>, part: seq<string>, n: nat)
    requires n > 0 && |part| <= 1 && |line| <= 1 && (part != [] ==> line != [])
    ensures IsSuffix(part, LastOf(a + line, n)) <==> part == [] || part == line
  {
  }

  // ---- Entries that were logged ----

  /** An encoded entry: one trimmed, non-empty line. */
  predicate IsEntry(entry: string) {
    entry != "" && Trimmed(entry) && '\n' !in entry
  }

  predicate AreEntries(entries: seq<string>) {
    forall k :: 0 <= k < |entries| ==> IsEntry(entries[k])
  }

  lemma {:induction false} LoggedLines(entries: seq<string>)
    requires AreEntries(entries)
    ensures Kept(SplitOn(Unlines(entries), '\n')) == entries
  {
    hide SplitOn, TrimSpace, Kept;
    if entries == [] {
      SplitNone("", '\n');
      KeptOne("");
      TrimmedIsFixed("");
    } else {
      var tail := Unlines(entries[1..]);
      assert IsEntry(entries[0]);
      SplitFirst(entries[0], '\n', tail);
      KeptAppend([entries[0]], SplitOn(tail, '\n'));
      KeptOne(entries[0]);
      TrimmedIsFixed(entries[0]);
      LoggedLines(entries[1..]);
    }
  }

  lemma KeptOne(line: string)
    ensures Kept([line]) == if TrimSpace(line) != "" then [TrimSpace(line)] else []
  {
    hide TrimSpace;
    assert [line][1..] == [];
  }

  /** A file that is empty or ends with a whole line. */
  predicate Terminated(file: string) {
    file != "" ==> file[|file| - 1] == '\n'
  }

  /** Logging to such a file adds the entries to its lines. */
  lemma LoggedAfter(before: string, entries: seq<string>)
    requires Terminated(before) && AreEntries(entries)
    ensures Kept(SplitOn(before + Unlines(entries), '\n')) == Kept(SplitOn(before, '\n')) + entries
  {
    hide SplitOn, Kept, TrimSpace, AreEntries, Unlines;
    LoggedLines(entries);
    SplitNone("", '\n');
    KeptOne("");
    TrimmedIsFixed("");
    if before == "" {
      assert before + Unlines(entries) == Unlines(entries);
    } else {
      var head := before[..|before| - 1];
      assert before == head + "\n" + "" && before + Unlines(entries) == head + "\n" + Unlines(entries);
      SplitAppend(head, '\n', "");
      SplitAppend(head, '\n', Unlines(entries));
      KeptAppend(SplitOn(head, '\n'), SplitOn("", '\n'));
      KeptAppend(SplitOn(head, '\n'), SplitOn(Unlines(entries), '\n'));
    }
  }

  /** Reading back what was logged: the last lines and entries, as many as asked for, in file
      order, and never anything else. */
  lemma RecentEntries(before: string, entries: seq<string>, maxLines: int)
    requires Terminated(before) && AreEntries(entries)
    ensures var file, logged := before + Unlines(entries), LastOf(Kept(SplitOn(before, '\n')) + entries, Clamped(maxLines));
            && FullAnswer(file, maxLines) == logged
            && (|file| <= WINDOW ==> Answer(file, maxLines) == logged)
            && IsSuffix(Answer(file, maxLines), logged)
  {
    hide SplitOn, Kept, LastOf, AreEntries, IsSuffix;
    var file := before + Unlines(entries);
    LoggedAfter(before, entries);
    if |file| > WINDOW {
      EndsInNewline(entries);
      LastIsInWindow(file);
    }
    WindowAnswerIsSuffix(file, maxLines);
  }

  lemma LastIsInWindow(file: string)
    requires |file| > WINDOW && file[|file| - 1] == '\n'
    ensures '\n' in file[WindowStart(file)..]
  {
    var data := file[WindowStart(file)..];
    assert data[|data| - 1] == file[|file| - 1];
  }

  lemma {:induction false} EndsInNewline(entries: seq<string>)
    ensures var file := Unlines(entries); file != [] ==> file[|file| - 1] == '\n'
  {
    if entries != [] {
      EndsInNewline(entries[1..]);
    }
  }

  /** What Log appends is one more line of the file. */
  lemma {:induction false} UnlinesAppend(entries: seq<string>, entry: string)
    ensures Unlines(entries + [entry]) == Unlines(entries) + (entry + "\n")
  {
    if entries == [] {
      assert [entry][1..] == [];
      assert entries + [entry] == [entry];
    } else {
      assert (entries + [entry])[1..] == entries[1..] + [entry];
      UnlinesAppend(entries[1..], entry);
    }
  }
}
