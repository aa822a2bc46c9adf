/** Statement labels and connection attributes: what is put in front of a query can be taken
    off again, whatever the query and whatever the tool is called. */
module Labels {
  import opened Wrappers
  import opened Text

  // ---- Label values ----

  predicate IsLabelChar(c: char) {
    c == '_' || c == '-' || c == '.' || 'a' <= c <= 'z' || 'A' <= c <= 'Z' || '0' <= c <= '9'
  }

  predicate IsLabel(s: string) {
    forall k :: 0 <= k < |s| ==> IsLabelChar(s[k])
  }

  const MAX_LABEL: nat := 64

  function LabelChars(s: string): string {
    if s == [] then []
    else KeptChar(s[0]) + LabelChars(s[1..])
  }

  function Truncated(s: string, n: nat): string {
    if n < |s| then s[..n] else s
  }

  function Sanitized(s: string): string {
    Truncated(LabelChars(s), MAX_LABEL)
  }

  function KeptChar(c: char): string {
    if IsLabelChar(c) then [c] else []
  }

  lemma FirstLabelChar(c: char, s: string)
    ensures LabelChars([c] + s) == KeptChar(c) + LabelChars(s)
  {
    hide IsLabelChar;
    assert ([c] + s)[1..] == s;
  }

  lemma {:induction false} LabelCharsAppend(a: string, b: string)
    ensures LabelChars(a + b) == LabelChars(a) + LabelChars(b)
  {
    if a == [] {
      assert a + b == b && LabelChars(a) == [];
    } else {
      hide LabelChars, KeptChar;
      assert a == [a[0]] + a[1..] && a + b == [a[0]] + (a[1..] + b);
      FirstLabelChar(a[0], a[1..]);
      FirstLabelChar(a[0], a[1..] + b);
      LabelCharsAppend(a[1..], b);
    }
  }

  /** sanitizeLabel: the loop stops as soon as 64 characters are kept. */
  method SanitizeLabel(s: string) returns (b: string)
    ensures b == Sanitized(s)
  {
    b := "";
    for i := 0 to |s|
      invariant b == LabelChars(s[..i]) && |b| < MAX_LABEL
    {
      assert s[..i + 1] == s[..i] + [s[i]];
      assert s == s[..i + 1] + s[i + 1..];
      LabelCharsAppend(s[..i], [s[i]]);
      LabelCharsAppend(s[..i + 1], s[i + 1..]);
      if IsLabelChar(s[i]) {
        b := b + [s[i]];
      }
      if |b| >= MAX_LABEL {
        return;
      }
    }
    assert s[..|s|] == s;
  }

  lemma {:induction false} LabelCharsIsLabel(s: string)
    ensures IsLabel(LabelChars(s))
  {
    if s != [] {
      LabelCharsIsLabel(s[1..]);
    }
  }

  lemma {:induction false} LabelCharsOfLabel(s: string)
    requires IsLabel(s)
    ensures LabelChars(s) == s
  {
    if s != [] {
      LabelCharsOfLabel(s[1..]);
    }
  }

  /** A sanitized label is a short label, and sanitizing changes exactly the texts that are
      not short labels already. */
  lemma SanitizedIsLabel(s: string)
    ensures IsLabel(Sanitized(s)) && |Sanitized(s)| <= MAX_LABEL
    ensures Sanitized(s) == s <==> IsLabel(s) && |s| <= MAX_LABEL
    ensures Sanitized(Sanitized(s)) == Sanitized(s)
  {
    LabelCharsIsLabel(s);
    LabelCharsOfLabel(Sanitized(s));
    if IsLabel(s) {
      LabelCharsOfLabel(s);
    }
  }

  /** Letters, digits and "_-." are what a label may hold. */
  predicate Labelled(s: string) {
    forall k :: 0 <= k < |s| ==> 'a' <= s[k] <= 'z' || 'A' <= s[k] <= 'Z' || '0' <= s[k] <= '9' || s[k] in "_-."
  }

  lemma LabelledIsLabel(s: string)
    ensures Labelled(s) <==> IsLabel(s)
  {
    if !Labelled(s) {
      var k :| 0 <= k < |s| && !('a' <= s[k] <= 'z' || 'A' <= s[k] <= 'Z' || '0' <= s[k] <= '9' || s[k] in "_-.");
      assert !IsLabelChar(s[k]);
    }
  }

  /** Of such text the first 64 characters stay. */
  lemma SanitizedText(s: string)
    requires Labelled(s)
    ensures Sanitized(s) == if |s| <= 64 then s else s[..64]
  {
    LabelledIsLabel(s);
    LabelCharsOfLabel(s);
    hide LabelChars;
  }

  /** Any other character counts for nothing. */
  lemma SanitizedDrops(s: string, other: char, rest: string)
    requires !Labelled([other])
    ensures Sanitized(s + [other] + rest) == Sanitized(s + rest)
  {
    hide LabelChars, IsLabel, Labelled;
    LabelledIsLabel([other]);
    LabelCharsAppend(s + [other], rest);
    LabelCharsAppend(s, [other]);
    LabelCharsAppend(s, rest);
    LabelCharsOfOne(other);
    assert LabelChars(s) + [] == LabelChars(s);
  }

  lemma LabelCharsOfOne(c: char)
    ensures LabelChars([c]) == if IsLabel([c]) then [c] else []
  {
    hide IsLabelChar;
    assert [c][1..] == [];
  }

  // ---- Request ids ----

  datatype CallLabel = CallLabel(tool: string, req: string)

  function Digit(d: nat): char
    requires d < 10
  {
    '0' + d as char
  }

  function Decimal(n: nat): (r: string)
    ensures r != []
  {
    if n < 10 then [Digit(n)] else Decimal(n / 10) + [Digit(n % 10)]
  }

  function RequestId(prefix: string, n: nat): string {
    prefix + "-" + Decimal(n)
  }

  lemma {:induction false} DecimalInjective(m: nat, n: nat)
    requires Decimal(m) == Decimal(n)
    ensures m == n
    decreases m
  {
    DecimalLength(m);
    DecimalLength(n);
    var d := Decimal(m);
    assert d[|d| - 1] == Digit(m % 10) == Digit(n % 10);
    if m >= 10 {
      assert d[..|d| - 1] == Decimal(m / 10) == Decimal(n / 10);
      DecimalInjective(m / 10, n / 10);
    }
  }

  lemma DecimalLength(n: nat)
    ensures |Decimal(n)| == 1 <==> n < 10
  {
  }

  lemma {:induction false} DecimalIsLabel(n: nat)
    ensures IsLabel(Decimal(n))
  {
    if n >= 10 {
      DecimalIsLabel(n / 10);
    }
  }

  /** The counter's value at a process's n-th call. */
  function CounterAt(n: nat): nat {
    n % COUNTER_SIZE
  }

  /** Two calls of a process share a request id exactly when a whole number of turns of the
      64-bit counter lies between them; an id is a label. */
  lemma RequestIds(prefix: string, m: nat, n: nat)
    ensures RequestId(prefix, CounterAt(m)) == RequestId(prefix, CounterAt(n)) <==> (m - n) % COUNTER_SIZE == 0
    ensures IsLabel(prefix) ==> IsLabel(RequestId(prefix, n))
  {
    CountersDiffer(prefix, CounterAt(m), CounterAt(n));
    SameCounter(m, n);
    DecimalIsLabel(n);
    hide CounterAt, Decimal;
  }

  lemma SameCounter(m: nat, n: nat)
    ensures CounterAt(m) == CounterAt(n) <==> (m - n) % COUNTER_SIZE == 0
  {
  }

  /** The counter moves on by one with each call. */
  lemma CounterSteps(n: nat)
    ensures CounterAt(0) == 0 && CounterAt(n + 1) == (CounterAt(n) + 1) % COUNTER_SIZE
  {
  }

  lemma CountersDiffer(prefix: string, m: nat, n: nat)
    ensures RequestId(prefix, m) == RequestId(prefix, n) <==> m == n
  {
    if RequestId(prefix, m) == RequestId(prefix, n) {
      var start := |prefix| + 1;
      assert RequestId(prefix, m)[start..] == Decimal(m);
      assert RequestId(prefix, n)[start..] == Decimal(n);
      DecimalInjective(m, n);
    }
  }

  const COUNTER_SIZE: nat := 0x1_0000_0000_0000_0000

  /** The label of a process's n-th call. */
  function LabelOfCall(prefix: string, n: nat, tool: string): CallLabel {
    CallLabel(Sanitized(tool), RequestId(prefix, CounterAt(n)))
  }

  class Labeler {
    const prefix: string
    const enabled: bool
    var seqNo: nat
    // How many calls have been labeled.
    ghost var calls: nat

    ghost predicate Valid()
      reads this
    {
      seqNo == CounterAt(calls)
    }

    constructor (prefix: string, enabled: bool)
      ensures this.prefix == prefix && this.enabled == enabled && seqNo == 0 && calls == 0 && Valid()
    {
      this.prefix := prefix;
      this.enabled := enabled;
      seqNo, calls := 0, 0;
    }

    /** The n-th call is labeled with the counter's value at n. */
    method WithCallLabel(tool: string) returns (l: CallLabel)
      requires Valid()
      modifies this
      ensures Valid() && calls == old(calls) + 1
      ensures seqNo == (old(seqNo) + 1) % COUNTER_SIZE
      ensures l == LabelOfCall(prefix, calls, tool)
    {
      var kept := SanitizeLabel(tool);
      CounterSteps(calls);
      seqNo, calls := (seqNo + 1) % COUNTER_SIZE, calls + 1;
      l := CallLabel(kept, RequestId(prefix, seqNo));
    }
  }

  // ---- Labeling a query ----

  const OPENING := "/* mcp:tool="
  const MIDDLE := " req="
  const CLOSING := " */ "

  function LabelQuery(enabled: bool, l: Option<CallLabel>, query: string): string {
    if !enabled || l.None? || l.value.tool == "" then query
    else OPENING + l.value.tool + MIDDLE + l.value.req + CLOSING + query
  }

  /** A query stays as it is exactly when labels are off, the call has none, or its tool has no
      character that a label may hold. */
  lemma UnlabeledIff(enabled: bool, l: Option<CallLabel>, query: string)
    ensures LabelQuery(enabled, l, query) == query <==> !enabled || l == None || l.value.tool == ""
  {
    if enabled && l.Some? && l.value.tool != "" {
      assert |LabelQuery(enabled, l, query)| > |query|;
    }
  }

  /** Where the first comment end is, or the length when there is none. */
  function FirstClose(s: string): (n: nat)
    ensures n <= |s|
  {
    if |s| < 2 then |s|
    else if s[0] == '*' && s[1] == '/' then 0
    else 1 + FirstClose(s[1..])
  }

  /** What a server that looks for labels reads: the comment up to the first comment end. */
  function ReadLabel(text: string): Option<(CallLabel, string)> {
    var close := FirstClose(text);
    if !HasPrefix(text, OPENING) || close <= |OPENING| || close + 3 > |text| then None
    else
      var header := text[|OPENING|..close - 1];
      var space := IndexOf(header, ' ');
      if !HasPrefix(header[space..], MIDDLE) then None
      else Some((CallLabel(header[..space], header[space + |MIDDLE|..]), text[close + 3..]))
  }

  lemma {:induction false} FirstCloseAt(before: string, rest: string)
    requires forall k :: 1 <= k < |before| ==> before[k] != '/'
    ensures FirstClose(before + "*/" + rest) == |before|
  {
    var s := before + "*/" + rest;
    if before != [] {
      assert s[1..] == before[1..] + "*/" + rest;
      FirstCloseAt(before[1..], rest);
    }
  }

  function Header(l: CallLabel): string {
    OPENING + l.tool + MIDDLE + l.req + " "
  }

  lemma HeaderHasNoSlash(l: CallLabel)
    requires IsLabel(l.tool) && IsLabel(l.req)
    ensures forall k :: 1 <= k < |Header(l)| ==> Header(l)[k] != '/'
  {
    assert forall k :: 1 <= k < |OPENING| ==> OPENING[k] != '/';
    assert forall k :: 0 <= k < |MIDDLE| ==> MIDDLE[k] != '/';
    assert forall k :: 0 <= k < |l.tool| ==> l.tool[k] != '/';
    assert forall k :: 0 <= k < |l.req| ==> l.req[k] != '/';
  }

  /** For any tool and any query, comment ends included: the first comment end of the labeled
      statement is the label's own, and tool, request id and query can be read back. */
  lemma LabelRoundTrip(l: CallLabel, query: string)
    requires IsLabel(l.tool) && l.tool != "" && IsLabel(l.req)
    ensures var text := LabelQuery(true, Some(l), query);
            FirstClose(text) == |Header(l)| && ReadLabel(text) == Some((l, query))
  {
    hide FirstClose, IndexOf, IsLabel;
    LabeledText(l, query);
    HeaderHasNoSlash(l);
    FirstCloseAt(Header(l), " " + query);
    Slices(OPENING, l.tool + MIDDLE + l.req, query);
    HeaderFields(l);
  }

  lemma LabeledText(l: CallLabel, query: string)
    requires l.tool != ""
    ensures Header(l) == OPENING + (l.tool + MIDDLE + l.req) + " "
    ensures LabelQuery(true, Some(l), query) == Header(l) + "*/" + (" " + query)
  {
    assert CLOSING == " " + "*/" + " ";
  }

  lemma Slices(open: string, header: string, query: string)
    ensures var before := open + header + " ";
            var text := before + "*/" + (" " + query);
            HasPrefix(text, open) && text[|open|..|before| - 1] == header && text[|before| + 3..] == query
  {
  }

  lemma HeaderFields(l: CallLabel)
    requires IsLabel(l.tool)
    ensures var header := l.tool + MIDDLE + l.req;
            IndexOf(header, ' ') == |l.tool| && header[..|l.tool|] == l.tool &&
            HasPrefix(header[|l.tool|..], MIDDLE) && header[|l.tool| + |MIDDLE|..] == l.req
  {
    var header := l.tool + MIDDLE + l.req;
    assert header == l.tool + [' '] + ("req=" + l.req);
    IndexOfEnd(l.tool, ' ', "req=" + l.req);
    assert header[|l.tool|..] == MIDDLE + l.req;
  }

  /** The statements of two calls of a process differ, whatever the tools and queries, unless a
      whole number of turns of the counter lies between the calls. */
  lemma LabeledStatementsDiffer(prefix: string, tool: string, m: nat, tool': string, n: nat, query: string, query': string)
    requires IsLabel(prefix) && Sanitized(tool) != "" && Sanitized(tool') != "" && (m - n) % COUNTER_SIZE != 0
    ensures LabelQuery(true, Some(LabelOfCall(prefix, m, tool)), query) !=
            LabelQuery(true, Some(LabelOfCall(prefix, n, tool')), query')
  {
    hide LabelQuery, RequestId, CounterAt;
    var l, l' := LabelOfCall(prefix, m, tool), LabelOfCall(prefix, n, tool');
    SanitizedIsLabel(tool);
    SanitizedIsLabel(tool');
    RequestIds(prefix, m, CounterAt(m));
    RequestIds(prefix, n, CounterAt(n));
    RequestIds(prefix, m, n);
    LabelRoundTrip(l, query);
    LabelRoundTrip(l', query');
  }

  // ---- Connection attributes ----

  /** The key of a "key:value" entry, trimmed. */
  function KeyOf(entry: string): Option<string> {
    var n := IndexOf(entry, ':');
    if n < |entry| then Some(TrimSpace(entry[..n])) else None
  }

  /** The entries of an attribute list; an empty list has none. */
  function Entries(attrs: string): seq<string> {
    if attrs == "" then [] else SplitOn(attrs, ',')
  }

  predicate HasKey(entries: seq<string>, key: string) {
    exists k :: 0 <= k < |entries| && KeyOf(entries[k]) == Some(key)
  }

  function Missing(existing: string, key: string, value: string): seq<string> {
    if HasKey(Entries(existing), key) || value == "" then [] else [key + ":" + Sanitized(value)]
  }

  function Wanted(existing: string, transport: string, version: string): seq<string> {
    Missing(existing, "program_name", "mysql-mcp-server") +
    Missing(existing, "mcp_transport", transport) +
    Missing(existing, "mcp_version", version)
  }

  function Extended(attrs: string, more: seq<string>): string
    decreases |more|
  {
    if more == [] then attrs
    else Extended((if attrs != "" then attrs + "," else attrs) + more[0], more[1..])
  }

  function Labeled(existing: string, transport: string, version: string): string {
    Extended(existing, Wanted(existing, transport, version))
  }

  method KeysOf(existing: string) returns (have: set<string>)
    ensures forall key :: key in have <==> HasKey(Entries(existing), key)
  {
    hide SplitOn, KeyOf;
    have := {};
    var entries := SplitOn(existing, ',');
    EmptyHasNoKey();
    for k := 0 to |entries|
      invariant forall key :: key in have <==> exists m :: 0 <= m < k && KeyOf(entries[m]) == Some(key)
    {
      var key := KeyOf(entries[k]);
      if key.Some? {
        have := have + {key.value};
      }
    }
  }

  lemma EmptyHasNoKey()
    ensures SplitOn("", ',') == [""] && KeyOf("") == None
  {
  }

  method Add(have: set<string>, attrs: string, key: string, value: string) returns (r: string)
    ensures r == if key in have || value == "" then attrs
                 else Extended(attrs, [key + ":" + Sanitized(value)])
  {
    if key in have || value == "" {
      return attrs;
    }
    r := attrs;
    if r != "" {
      r := r + ",";
    }
    var text := SanitizeLabel(value);
    ghost var entry := key + ":" + Sanitized(value);
    assert [entry][1..] == [];
    r := r + (key + ":" + text);
  }

  method LabelConnectionAttributes(existing: string, transport: string, version: string) returns (attrs: string)
    ensures attrs == Labeled(existing, transport, version)
  {
    hide Entries, HasKey, Sanitized, Extended;
    var have := KeysOf(existing);
    attrs := Add(have, existing, "program_name", "mysql-mcp-server");
    attrs := Add(have, attrs, "mcp_transport", transport);
    attrs := Add(have, attrs, "mcp_version", version);
    var a := Missing(existing, "program_name", "mysql-mcp-server");
    var b := Missing(existing, "mcp_transport", transport);
    var c := Missing(existing, "mcp_version", version);
    NothingAdded(existing);
    NothingAdded(Extended(existing, a));
    NothingAdded(Extended(Extended(existing, a), b));
    ExtendedAppend(existing, a, b);
    ExtendedAppend(existing, a + b, c);
  }

  lemma NothingAdded(attrs: string)
    ensures Extended(attrs, []) == attrs
  {
  }

  lemma {:induction false} ExtendedAppend(attrs: string, more: seq<string>, rest: seq<string>)
    ensures Extended(attrs, more + rest) == Extended(Extended(attrs, more), rest)
    decreases |more|
  {
    if more == [] {
      assert more + rest == rest;
    } else {
      assert (more + rest)[1..] == more[1..] + rest;
      ExtendedAppend((if attrs != "" then attrs + "," else attrs) + more[0], more[1..], rest);
    }
  }

  predicate AreEntries(entries: seq<string>) {
    forall k :: 0 <= k < |entries| ==> entries[k] != "" && ',' !in entries[k]
  }

  /** Extending a list adds the entries at its end and keeps its text in front. */
  lemma {:induction false} ExtendedEntries(attrs: string, more: seq<string>)
    requires AreEntries(more)
    ensures Entries(Extended(attrs, more)) == Entries(attrs) + more
    ensures HasPrefix(Extended(attrs, more), attrs)
    decreases |more|
  {
    hide SplitOn;
    if more != [] {
      assert more[0] != "" && ',' !in more[0];
      SplitNone(more[0], ',');
      var attrs' := (if attrs != "" then attrs + "," else attrs) + more[0];
      if attrs != "" {
        SplitAppend(attrs, ',', more[0]);
        assert attrs' == attrs + [','] + more[0];
      } else {
        assert attrs' == more[0];
      }
      ExtendedEntries(attrs', more[1..]);
      assert Entries(attrs') == Entries(attrs) + [more[0]];
      assert attrs'[..|attrs|] == attrs;
      assert Extended(attrs, more)[..|attrs|] == Extended(attrs, more)[..|attrs'|][..|attrs|];
    }
  }

  predicate IsKey(key: string) {
    Trimmed(key) && ',' !in key && ':' !in key
  }

  lemma MissingIsEntry(existing: string, key: string, value: string)
    requires IsKey(key)
    ensures AreEntries(Missing(existing, key, value))
    ensures forall k :: 0 <= k < |Missing(existing, key, value)| ==> KeyOf(Missing(existing, key, value)[k]) == Some(key)
  {
    SanitizedIsLabel(value);
    var entry := key + ":" + Sanitized(value);
    assert entry == key + [':'] + Sanitized(value);
    IndexOfEnd(key, ':', Sanitized(value));
    assert entry[..|key|] == key;
    TrimmedIsFixed(key);
  }

  lemma KeysOk()
    ensures IsKey("program_name") && IsKey("mcp_transport") && IsKey("mcp_version")
  {
  }

  /** The labeled list: the entries that were there, unchanged and first, then each of the
      three that was missing. */
  lemma LabeledEntries(existing: string, transport: string, version: string)
    ensures Entries(Labeled(existing, transport, version)) == Entries(existing) + Wanted(existing, transport, version)
    ensures HasPrefix(Labeled(existing, transport, version), existing)
    ensures var entries := Entries(Labeled(existing, transport, version));
            HasKey(entries, "program_name") &&
            (transport != "" ==> HasKey(entries, "mcp_transport")) &&
            (version != "" ==> HasKey(entries, "mcp_version"))
  {
    hide Entries, KeyOf, IsKey, Sanitized, Extended;
    KeysOk();
    var a := Missing(existing, "program_name", "mysql-mcp-server");
    var b := Missing(existing, "mcp_transport", transport);
    var c := Missing(existing, "mcp_version", version);
    MissingIsEntry(existing, "program_name", "mysql-mcp-server");
    MissingIsEntry(existing, "mcp_transport", transport);
    MissingIsEntry(existing, "mcp_version", version);
    ExtendedEntries(existing, a + b + c);
    HasKeyAmong(Entries(existing), a + b + c, "program_name", 0);
    HasKeyAmong(Entries(existing), a + b + c, "mcp_transport", |a|);
    HasKeyAmong(Entries(existing), a + b + c, "mcp_version", |a + b|);
  }

  lemma HasKeyAmong(first: seq<string>, more: seq<string>, key: string, at: nat)
    ensures HasKey(first, key) ==> HasKey(first + more, key)
    ensures at < |more| && KeyOf(more[at]) == Some(key) ==> HasKey(first + more, key)
  {
    if k :| 0 <= k < |first| && KeyOf(first[k]) == Some(key) {
      assert (first + more)[k] == first[k];
    }
    if at < |more| {
      assert (first + more)[|first| + at] == more[at];
    }
  }

  /** An entry for a key, with white space around the key or not, anywhere in the list, counts as
      set: the key is not added again. */
  lemma SetKeyIsNotAdded(before: string, left: string, key: string, right: string, value: string, after: string, wanted: string)
    requires AllSpace(left) && AllSpace(right) && IsKey(key) && ',' !in left && ',' !in right && ',' !in value
    requires ':' !in left && ':' !in right
    ensures var entry := left + key + right + ":" + value;
            && Missing(entry, key, wanted) == [] && Missing(before + "," + entry, key, wanted) == []
            && Missing(entry + "," + after, key, wanted) == [] && Missing(before + "," + entry + "," + after, key, wanted) == []
  {
    var entry := left + key + right + ":" + value;
    hide SplitOn, KeyOf, AllSpace, IsKey;
    EntryKey(left, key, right, value);
    EntryHasNoComma(left, key, right, value);
    SplitNone(entry, ',');
    SplitAppend(before, ',', entry);
    SplitAppend(entry, ',', after);
    SplitAppend(before + "," + entry, ',', after);
    KeyIsFound([], entry, [], key);
    KeyIsFound(SplitOn(before, ','), entry, [], key);
    KeyIsFound([], entry, SplitOn(after, ','), key);
    KeyIsFound(SplitOn(before, ','), entry, SplitOn(after, ','), key);
  }

  lemma KeyIsFound(before: seq<string>, entry: string, after: seq<string>, key: string)
    requires KeyOf(entry) == Some(key)
    ensures HasKey(before + [entry] + after, key) && HasKey(before + [entry], key) && HasKey([entry] + after, key) && HasKey([entry], key)
  {
    assert (before + [entry] + after)[|before|] == entry && (before + [entry])[|before|] == entry;
    assert ([entry] + after)[0] == entry && [entry][0] == entry;
  }

  lemma EntryKey(left: string, key: string, right: string, value: string)
    requires AllSpace(left) && AllSpace(right) && IsKey(key) && ':' !in left && ':' !in right
    ensures KeyOf(left + key + right + ":" + value) == Some(key)
  {
    hide TrimSpace;
    var name := left + key + right;
    assert left + key + right + ":" + value == name + [':'] + value;
    IndexOfEnd(name, ':', value);
    assert (name + [':'] + value)[..|name|] == name;
    TrimSpaceOf(left, key, right);
  }

  lemma EntryHasNoComma(left: string, key: string, right: string, value: string)
    requires IsKey(key) && ',' !in left && ',' !in right && ',' !in value
    ensures ',' !in left + key + right + ":" + value && left + key + right + ":" + value != ""
  {
  }

  /** With nothing set, all three are. */
  lemma AllAreAdded(transport: string, version: string)
    requires transport != "" && version != ""
    ensures Labeled("", transport, version) ==
            ("program_name" + ":" + "mysql-mcp-server") + "," + ("mcp_transport" + ":" + Sanitized(transport)) + "," +
            ("mcp_version" + ":" + Sanitized(version))
  {
    hide Sanitized, Missing, Extended;
    MissingFromNone("program_name", "mysql-mcp-server");
    MissingFromNone("mcp_transport", transport);
    MissingFromNone("mcp_version", version);
    ProgramName();
    ExtendedThrice("program_name" + ":" + "mysql-mcp-server", "mcp_transport" + ":" + Sanitized(transport),
                   "mcp_version" + ":" + Sanitized(version));
  }

  lemma ExtendedThrice(a: string, b: string, c: string)
    requires a != ""
    ensures Extended("", [a] + [b] + [c]) == a + "," + b + "," + c
  {
    assert ([a] + [b] + [c])[1..] == [b] + [c] && ([b] + [c])[1..] == [c] && [c][1..] == [];
    assert Extended(a + "," + b + "," + c, []) == a + "," + b + "," + c;
    assert Extended(a + "," + b, [c]) == a + "," + b + "," + c;
    assert Extended(a, [b] + [c]) == Extended(a + "," + b, [c]);
    assert "" + a == a && ([a] + [b] + [c])[0] == a;
  }

  lemma MissingFromNone(key: string, value: string)
    requires value != ""
    ensures Missing("", key, value) == [key + ":" + Sanitized(value)]
  {
    hide Sanitized;
  }

  lemma ProgramName()
    ensures Sanitized("mysql-mcp-server") == "mysql-mcp-server"
  {
    SanitizedText("mysql-mcp-server");
  }

  /** Labeling a labeled list again changes nothing. */
  lemma LabelingIsIdempotent(existing: string, transport: string, version: string)
    ensures var once := Labeled(existing, transport, version);
            Labeled(once, transport, version) == once
  {
    hide Entries, HasKey, Labeled;
    var once := Labeled(existing, transport, version);
    LabeledEntries(existing, transport, version);
    assert Wanted(once, transport, version) == [];
    NothingWanted(once, transport, version);
  }

  lemma NothingWanted(existing: string, transport: string, version: string)
    requires Wanted(existing, transport, version) == []
    ensures Labeled(existing, transport, version) == existing
  {
  }
}
