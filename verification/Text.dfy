/** Text helpers with the meaning they have in Go, over code points: Unicode white space and
    the trimming of strings. */
module Text {
  predicate IsSpace(c: char) {
    ('\t' <= c <= '\r') || c == ' ' || c == '\U{0085}' || c == '\U{00A0}' || c == '\U{1680}' ||
    ('\U{2000}' <= c <= '\U{200A}') || c == '\U{2028}' || c == '\U{2029}' || c == '\U{202F}' ||
    c == '\U{205F}' || c == '\U{3000}'
  }

  predicate HasPrefix(s: string, prefix: string) {
    |prefix| <= |s| && s[..|prefix|] == prefix
  }

  predicate HasSuffix(s: string, suffix: string) {
    |suffix| <= |s| && s[|s| - |suffix|..] == suffix
  }

  function TrimLeft(s: string, cut: char -> bool): string {
    if s != [] && cut(s[0]) then TrimLeft(s[1..], cut) else s
  }

  function TrimRight(s: string, cut: char -> bool): string {
    if s != [] && cut(s[|s| - 1]) then TrimRight(s[..|s| - 1], cut) else s
  }

  function TrimSpace(s: string): string {
    TrimRight(TrimLeft(s, IsSpace), IsSpace)
  }

  /** What TrimRight leaves: a prefix, cut where only characters to cut follow. */
  lemma {:induction false} TrimRightSplits(s: string, cut: char -> bool)
    ensures var r := TrimRight(s, cut);
            |r| <= |s| && r == s[..|r|] &&
            (forall k :: |r| <= k < |s| ==> cut(s[k])) && (r != [] ==> !cut(r[|r| - 1]))
  {
    if s != [] && cut(s[|s| - 1]) {
      TrimRightSplits(s[..|s| - 1], cut);
    }
  }

  lemma {:induction false} TrimLeftSplits(s: string, cut: char -> bool)
    ensures var r := TrimLeft(s, cut);
            |r| <= |s| && r == s[|s| - |r|..] &&
            (forall k :: 0 <= k < |s| - |r| ==> cut(s[k])) && (r != [] ==> !cut(r[0]))
  {
    if s != [] && cut(s[0]) {
      TrimLeftSplits(s[1..], cut);
      var n := |s| - |TrimLeft(s, cut)|;
      assert s[1..][n - 1..] == s[n..];
      assert forall k :: 1 <= k < n ==> s[k] == s[1..][k - 1];
    } else {
      assert s[0..] == s;
    }
  }

  predicate NoSpace(s: string) {
    forall k :: 0 <= k < |s| ==> !IsSpace(s[k])
  }

  /** A trimmed string starts and ends with something else than white space. */
  predicate Trimmed(s: string) {
    s == [] || (!IsSpace(s[0]) && !IsSpace(s[|s| - 1]))
  }

  /** TrimSpace keeps a middle part, drops only white space around it and leaves nothing more
      to trim. */
  lemma TrimSpaceSplits(s: string) returns (i: nat, j: nat)
    ensures i <= j <= |s| && TrimSpace(s) == s[i..j] && Trimmed(TrimSpace(s))
    ensures forall k :: (0 <= k < i || j <= k < |s|) ==> IsSpace(s[k])
  {
    hide TrimLeft, TrimRight;
    var l, r := TrimLeft(s, IsSpace), TrimSpace(s);
    TrimLeftSplits(s, IsSpace);
    TrimRightSplits(l, IsSpace);
    i, j := |s| - |l|, |s| - |l| + |r|;
    assert r == TrimRight(l, IsSpace) && l == s[i..];
    assert r == l[..|r|] == s[i..j];
    assert r != [] ==> r[0] == l[0];
    forall k | j <= k < |s|
      ensures IsSpace(s[k])
    {
      assert s[k] == l[k - i];
    }
  }

  lemma TrimmedIsFixed(s: string)
    ensures TrimSpace(s) == s <==> Trimmed(s)
  {
    if TrimSpace(s) == s {
      var i, j := TrimSpaceSplits(s);
    }
  }

  predicate AllSpace(s: string) {
    forall k :: 0 <= k < |s| ==> IsSpace(s[k])
  }

  lemma {:induction false} TrimRightDrops(s: string, end: string, cut: char -> bool)
    requires forall k :: 0 <= k < |end| ==> cut(end[k])
    ensures TrimRight(s + end, cut) == TrimRight(s, cut)
    decreases |end|
  {
    if end == [] {
      assert s + end == s;
    } else {
      var n := |end| - 1;
      assert (s + end)[..|s + end| - 1] == s + end[..n] && (s + end)[|s + end| - 1] == end[n];
      TrimRightDrops(s, end[..n], cut);
    }
  }

  lemma {:induction false} TrimLeftOfSum(s: string, t: string)
    ensures TrimLeft(s + t, IsSpace) == if AllSpace(s) then TrimLeft(t, IsSpace) else TrimLeft(s, IsSpace) + t
    ensures TrimLeft(s, IsSpace) == [] <==> AllSpace(s)
  {
    if s == [] {
      assert s + t == t;
    } else if IsSpace(s[0]) {
      assert (s + t)[1..] == s[1..] + t;
      TrimLeftOfSum(s[1..], t);
      assert AllSpace(s) <==> AllSpace(s[1..]);
    }
  }

  lemma {:induction false} TrimRightOfSum(s: string, t: string)
    requires !AllSpace(t)
    ensures TrimRight(s + t, IsSpace) == s + TrimRight(t, IsSpace)
  {
    var n := |t| - 1;
    if IsSpace(t[n]) {
      assert (s + t)[..|s + t| - 1] == s + t[..n];
      TrimRightOfSum(s, t[..n]);
    }
  }

  lemma TrimSpaceIsShorter(s: string)
    ensures |TrimSpace(s)| <= |TrimRight(s, IsSpace)|
    ensures TrimSpace(s) == "" <==> AllSpace(s)
  {
    hide TrimSpace, TrimRight;
    var i, j := TrimSpaceSplits(s);
    TrimRightSplits(s, IsSpace);
    var r := TrimRight(s, IsSpace);
    if i < j {
      assert !IsSpace(s[j - 1]);
    }
  }

  /** A part of a line trims to what the line trims to exactly when white space alone is missing. */
  lemma TrimOfCut(cut: string, rest: string)
    ensures TrimSpace(rest) == "" <==> AllSpace(rest)
    ensures TrimSpace(rest) != "" ==> TrimSpace(cut + rest) != "" && (TrimSpace(cut + rest) == TrimSpace(rest) <==> AllSpace(cut))
  {
    TrimSpaceIsShorter(rest);
    TrimLeftOfSum(cut, rest);
    if !AllSpace(rest) && !AllSpace(cut) {
      TrimRightOfSum(TrimLeft(cut, IsSpace), rest);
    }
  }

  /** White space around a trimmed text is what TrimSpace takes off. */
  lemma TrimSpaceOf(before: string, s: string, after: string)
    requires AllSpace(before) && AllSpace(after) && Trimmed(s)
    ensures TrimSpace(before + s + after) == s
  {
    assert before + s + after == before + (s + after);
    TrimLeftOfSum(before, s + after);
    TrimRightDrops(s, after, IsSpace);
    TrimmedIsFixed(s);
    if s == [] {
      assert s + after == after;
      TrimLeftOfSum(after, []);
    } else {
      assert (s + after)[0] == s[0] && TrimLeft(s, IsSpace) == s;
    }
  }

  /** Text ended by a word: trimming it leaves that end alone. */
  lemma {:induction false} TrimKeepsWord(s: string, word: string)
    requires word != [] && NoSpace(word)
    ensures TrimSpace(s + word) == TrimLeft(s, IsSpace) + word
  {
    if s != [] && IsSpace(s[0]) {
      assert (s + word)[1..] == s[1..] + word;
      TrimKeepsWord(s[1..], word);
    } else {
      assert s == [] ==> s + word == word;
    }
  }

  // ---- Splitting at a character ----

  /** The first position of c, or the length when there is none. */
  function IndexOf(s: string, c: char): (n: nat)
    ensures n <= |s| && c !in s[..n] && (n < |s| ==> s[n] == c)
  {
    if s == [] || s[0] == c then 0
    else
      var n := IndexOf(s[1..], c);
      assert s[..n + 1] == [s[0]] + s[1..][..n];
      n + 1
  }

  /** The pieces between the occurrences of c; there is always at least one. */
  function SplitOn(s: string, c: char): (r: seq<string>)
    ensures r != []
    decreases |s|
  {
    var n := IndexOf(s, c);
    [s[..n]] + if n == |s| then [] else SplitOn(s[n + 1..], c)
  }

  function Unlines(lines: seq<string>): string {
    if lines == [] then [] else lines[0] + "\n" + Unlines(lines[1..])
  }

  lemma {:induction false} IndexOfEnd(piece: string, c: char, rest: string)
    requires c !in piece
    ensures IndexOf(piece + [c] + rest, c) == |piece|
  {
    var s := piece + [c] + rest;
    if piece != [] {
      assert s[1..] == piece[1..] + [c] + rest;
      assert s[0] == piece[0] && s[0] in piece;
      IndexOfEnd(piece[1..], c, rest);
    }
  }

  lemma IndexOfNone(s: string, c: char)
    requires c !in s
    ensures IndexOf(s, c) == |s|
  {
  }

  lemma SplitFirst(piece: string, c: char, rest: string)
    requires c !in piece
    ensures SplitOn(piece + [c] + rest, c) == [piece] + SplitOn(rest, c)
  {
    var s := piece + [c] + rest;
    IndexOfEnd(piece, c, rest);
    assert s[..|piece|] == piece && s[|piece| + 1..] == rest;
  }

  lemma SplitNone(s: string, c: char)
    requires c !in s
    ensures SplitOn(s, c) == [s]
  {
    IndexOfNone(s, c);
    assert s[..|s|] == s;
  }

  /** Joining two texts with c joins their pieces. */
  lemma {:induction false} SplitAppend(head: string, c: char, tail: string)
    ensures SplitOn(head + [c] + tail, c) == SplitOn(head, c) + SplitOn(tail, c)
    decreases |head|
  {
    hide SplitOn;
    var n := IndexOf(head, c);
    var piece := head[..n];
    if n == |head| {
      assert piece == head;
      SplitNone(head, c);
      SplitFirst(head, c, tail);
    } else {
      var rest := head[n + 1..];
      assert head == piece + [c] + rest;
      assert head + [c] + tail == piece + [c] + (rest + [c] + tail);
      SplitFirst(piece, c, rest);
      SplitFirst(piece, c, rest + [c] + tail);
      SplitAppend(rest, c, tail);
      assert [piece] + (SplitOn(rest, c) + SplitOn(tail, c)) == [piece] + SplitOn(rest, c) + SplitOn(tail, c);
    }
  }

  lemma Assoc<T>(a: seq<T>, b: seq<T>, c: seq<T>)
    ensures a + (b + c) == a + b + c
  {
  }

  lemma CutTwice<T>(s: seq<T>, i: nat, j: nat)
    requires i <= j <= |s|
    ensures s == s[..i] + s[i..j] + s[j..]
  {
  }
}
