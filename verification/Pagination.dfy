/** Row limits and offset pagination of run_query: the LIMIT rewrite, the row loop, and what
    a client sees that follows next_offset. */
module Pagination {
  import opened Wrappers
  import Text

  type Row = seq<string>

  // ---- The LIMIT rewrite ----

  /** What the parser says of a statement. */
  datatype Parsed =
    | Unparsable
    | SelectOrUnion(hasLimit: bool)
    | OtherStatement

  /** The statement sent: as written, or with a LIMIT, or a LIMIT and an OFFSET, after base. */
  datatype FinalSQL =
    | AsWritten(sql: string)
    | Limited(base: string, limit: nat)
    | Paged(base: string, limit: nat, offset: nat)

  datatype Refusal =
    | SqlRequired
    | NegativeOffset
    | NoPositiveLimit
    | CannotPaginate
    | NotASelect
    | HasLimitAlready

  datatype Result<T> =
    | Success(value: T)
    | Failure(refusal: Refusal)

  function Base(sql: string): string {
    Text.TrimRight(Text.TrimSpace(sql), c => c == ';')
  }

  function InjectLimit(sql: string, parse: string -> Parsed, limit: int): FinalSQL {
    if limit <= 0 then AsWritten(sql)
    else
      match parse(Text.TrimSpace(sql))
      case SelectOrUnion(false) => Limited(Base(sql), limit)
      case _ => AsWritten(sql)
  }

  function InjectLimitWithOffset(sql: string, parse: string -> Parsed, fetchLimit: int, offset: int): Result<FinalSQL> {
    if fetchLimit <= 0 then Success(AsWritten(sql))
    else if offset < 0 then Failure(NegativeOffset)
    else
      match parse(Text.TrimSpace(sql))
      case Unparsable => Failure(CannotPaginate)
      case OtherStatement => Failure(NotASelect)
      case SelectOrUnion(true) => Failure(HasLimitAlready)
      case SelectOrUnion(false) => Success(Paged(Base(sql), fetchLimit, offset))
  }

  // ---- The server's answer ----

  function Take(rows: seq<Row>, n: nat): seq<Row> {
    if n < |rows| then rows[..n] else rows
  }

  function Drop(rows: seq<Row>, n: nat): seq<Row> {
    if n < |rows| then rows[n..] else []
  }

  /** The rows of a statement, when answer gives the fixed, ordered rows of each text. */
  function Executed(sql: FinalSQL, answer: string -> seq<Row>): seq<Row> {
    match sql
    case AsWritten(text) => answer(text)
    case Limited(base, limit) => Take(answer(base), limit)
    case Paged(base, limit, offset) => Take(Drop(answer(base), offset), limit)
  }

  /** A result set as it is read: a row that cannot be scanned is None; the iteration may end
      in an error, and closing may fail. */
  datatype Cursor = Cursor(cells: seq<Option<Row>>, ends: bool, closes: bool)

  function Healthy(rows: seq<Row>): Cursor {
    Cursor(seq(|rows|, i requires 0 <= i < |rows| => Some(rows[i])), true, true)
  }

  // ---- The row loop ----

  datatype QueryResult = QueryResult(
    rows: seq<Row>,
    truncated: bool,
    hasMore: bool,
    nextOffset: Option<int>)

  datatype ScanError =
    | NoConnection
    | InvalidDatabase
    | UseFailed
    | QueryFailed
    | NoColumns
    | RowUnreadable
    | IterationFailed
    | CloseFailed

  datatype Scan =
    | Scanned(columns: seq<string>, out: QueryResult)
    | ScanFailed(error: ScanError)

  /** One attempt at a query: whether there is a connection, whether the database name can be
      quoted and selected, whether the query runs, its columns, and then its rows. */
  datatype Attempt = Attempt(
    connects: bool,
    quotes: bool,
    selects: bool,
    runs: bool,
    columns: Option<seq<string>>,
    cursor: Cursor)

  /** What stops an attempt before its first row. */
  function Obstacle(a: Attempt, database: string): Option<ScanError> {
    if !a.connects then Some(NoConnection)
    else if database != "" && !a.quotes then Some(InvalidDatabase)
    else if database != "" && !a.selects then Some(UseFailed)
    else if !a.runs then Some(QueryFailed)
    else if a.columns.None? then Some(NoColumns)
    else None
  }

  /** The first n rows can be read, and rows holds them. */
  predicate Reads(cells: seq<Option<Row>>, rows: seq<Row>, n: nat) {
    n == |rows| <= |cells| && forall k :: 0 <= k < n ==> cells[k] == Some(rows[k])
  }

  predicate Unreadable(cells: seq<Option<Row>>, limit: nat) {
    exists k :: 0 <= k < |cells| && k <= limit && cells[k].None?
  }

  /** runQueryScan: a connection, USE when a database is named, the query, its columns, and then
      the rows. */
  method RunQueryScan(a: Attempt, database: string, limit: nat, paginated: bool, pageOffset: int) returns (r: Scan)
    ensures !a.connects ==> r == ScanFailed(NoConnection)
    ensures a.connects && database != "" && !a.quotes ==> r == ScanFailed(InvalidDatabase)
    ensures a.connects && database != "" && a.quotes && !a.selects ==> r == ScanFailed(UseFailed)
    ensures a.connects && (database != "" ==> a.quotes && a.selects) && !a.runs ==> r == ScanFailed(QueryFailed)
    ensures a.connects && (database != "" ==> a.quotes && a.selects) && a.runs && a.columns == None ==> r == ScanFailed(NoColumns)
    ensures Obstacle(a, database).Some? ==> r == ScanFailed(Obstacle(a, database).value)
    ensures Obstacle(a, database).None? ==> ScansRows(a.cursor, limit, paginated, pageOffset, r)
    ensures r.Scanned? ==> a.columns == Some(r.columns)
  {
    if !a.connects {
      return ScanFailed(NoConnection);
    }
    if database != "" {
      if !a.quotes {
        return ScanFailed(InvalidDatabase);
      }
      if !a.selects {
        return ScanFailed(UseFailed);
      }
    }
    if !a.runs {
      return ScanFailed(QueryFailed);
    }
    if a.columns.None? {
      return ScanFailed(NoColumns);
    }
    r := ScanRows(a.cursor, a.columns.value, limit, paginated, pageOffset);
  }

  /** What reading the rows comes to: up to limit of them and whether there are more, or the
      first error. */
  ghost predicate ScansRows(cursor: Cursor, limit: nat, paginated: bool, pageOffset: int, r: Scan) {
    && (r == ScanFailed(RowUnreadable) <==> Unreadable(cursor.cells, limit))
    && (r == ScanFailed(IterationFailed) <==>
          !Unreadable(cursor.cells, limit) && |cursor.cells| <= limit && !cursor.ends)
    && (r == ScanFailed(CloseFailed) <==>
          !Unreadable(cursor.cells, limit) && (|cursor.cells| <= limit ==> cursor.ends) && !cursor.closes)
    && (r.ScanFailed? ==> r.error.RowUnreadable? || r.error.IterationFailed? || r.error.CloseFailed?)
    && (r.Scanned? ==>
          var more := |cursor.cells| > limit;
          Reads(cursor.cells, r.out.rows, if more then limit else |cursor.cells|) &&
          r.out.hasMore == (paginated && more) && r.out.truncated == (!paginated && more) &&
          r.out.nextOffset == if paginated && more then Some(pageOffset + limit) else None)
  }

  /** The row loop: one row more than the limit is read, only to learn that it is there. */
  method ScanRows(cursor: Cursor, columns: seq<string>, limit: nat, paginated: bool, pageOffset: int) returns (r: Scan)
    ensures ScansRows(cursor, limit, paginated, pageOffset, r)
    ensures r.Scanned? ==> r.columns == columns
  {
    var out := QueryResult([], false, false, None);
    var rowsClosed := false;
    var next := 0;
    while next < |cursor.cells|
      invariant 0 <= next <= |cursor.cells|
      invariant next <= limit && Reads(cursor.cells, out.rows, next)
      invariant !rowsClosed && !out.truncated && !out.hasMore && out.nextOffset == None
    {
      if cursor.cells[next].None? {
        return ScanFailed(RowUnreadable);
      }
      if |out.rows| < limit {
        out := out.(rows := out.rows + [cursor.cells[next].value]);
        next := next + 1;
        continue;
      }
      if paginated {
        out := out.(hasMore := true);
        break;
      }
      out := out.(truncated := true);
      if !cursor.closes {
        return ScanFailed(CloseFailed);
      }
      rowsClosed := true;
      break;
    }
    if !rowsClosed {
      if next == |cursor.cells| && !cursor.ends {
        return ScanFailed(IterationFailed);
      }
      if !cursor.closes {
        return ScanFailed(CloseFailed);
      }
    }
    if out.hasMore {
      out := out.(nextOffset := Some(pageOffset + limit));
    }
    return Scanned(columns, out);
  }

  // ---- run_query ----

  function EffectiveLimit(maxRows: int, asked: Option<int>): nat {
    var limit := if asked.Some? && 0 < asked.value < maxRows then asked.value else maxRows;
    if limit < 0 then 0 else limit
  }

  /** One page of the rows of a query, as the client sees it. */
  function Page(rows: seq<Row>, limit: nat, offset: nat): QueryResult {
    var more := |rows| > offset + limit;
    QueryResult(Take(Drop(rows, offset), limit), false, more, if more then Some(offset + limit) else None)
  }

  /** Whether a LIMIT of the row cap itself is injected, so that the server never sends the
      row that would show the truncation. */
  predicate CapInjected(sql: string, parse: string -> Parsed, limit: nat) {
    limit > 0 && parse(Text.TrimSpace(sql)) == SelectOrUnion(false)
  }

  /** The answer without offset: the first rows of the statement, marked truncated exactly
      when there are more and no LIMIT was injected. */
  function Capped(sql: string, parse: string -> Parsed, answer: string -> seq<Row>, limit: nat): QueryResult {
    var rows := answer(if CapInjected(sql, parse, limit) then Base(sql) else sql);
    QueryResult(Take(rows, limit), |rows| > limit && !CapInjected(sql, parse, limit), false, None)
  }

  /** When run_query refuses an offset. */
  function OffsetRefusal(sql: string, parse: string -> Parsed, limit: nat, offset: int): Option<Refusal> {
    if offset < 0 then Some(NegativeOffset)
    else if limit == 0 then Some(NoPositiveLimit)
    else
      match parse(Text.TrimSpace(sql))
      case Unparsable => Some(CannotPaginate)
      case OtherStatement => Some(NotASelect)
      case SelectOrUnion(hasLimit) => if hasLimit then Some(HasLimitAlready) else None
  }

  function Answered(input: string, parse: string -> Parsed, answer: string -> seq<Row>,
                    maxRows: int, askedRows: Option<int>, offset: Option<int>): Result<QueryResult>
  {
    var sql, limit := Text.TrimSpace(input), EffectiveLimit(maxRows, askedRows);
    if sql == "" then Failure(SqlRequired)
    else
      match offset
      case None => Success(Capped(sql, parse, answer, limit))
      case Some(from) =>
        match OffsetRefusal(sql, parse, limit, from)
        case Some(refusal) => Failure(refusal)
        case None => Success(Page(answer(Base(sql)), limit, from))
  }

  method RunQuery(input: string, parse: string -> Parsed, answer: string -> seq<Row>,
                  maxRows: int, askedRows: Option<int>, offset: Option<int>)
    returns (r: Result<QueryResult>)
    ensures r == Answered(input, parse, answer, maxRows, askedRows, offset)
  {
    hide Text.TrimSpace;
    var sql := Text.TrimSpace(input);
    if sql == "" {
      return Failure(SqlRequired);
    }
    hide Executed, InjectLimit, InjectLimitWithOffset, Capped, Page, Take, Drop, Base, OffsetRefusal;
    var limit := maxRows;
    if askedRows.Some? && askedRows.value > 0 && askedRows.value < maxRows {
      limit := askedRows.value;
    }
    if limit < 0 {
      limit := 0;
    }
    var pageOffset := 0;
    var finalSQL;
    if offset.Some? {
      pageOffset := offset.value;
      InjectsPage(sql, parse, answer, limit, pageOffset);
      if pageOffset < 0 {
        return Failure(NegativeOffset);
      }
      if limit <= 0 {
        return Failure(NoPositiveLimit);
      }
      var injected := InjectLimitWithOffset(sql, parse, limit + 1, pageOffset);
      if injected.Failure? {
        return Failure(injected.refusal);
      }
      finalSQL := injected.value;
    } else {
      InjectsCap(sql, parse, answer, limit);
      finalSQL := InjectLimit(sql, parse, limit);
    }
    var rows := Executed(finalSQL, answer);
    var attempt := Attempt(true, true, true, true, Some([]), Healthy(rows));
    var scan := RunQueryScan(attempt, "", limit, offset.Some?, pageOffset);
    HealthyScans(rows, limit, offset.Some?, pageOffset, scan);
    r := Success(scan.out);
  }

  lemma InjectsCap(sql: string, parse: string -> Parsed, answer: string -> seq<Row>, limit: nat)
    ensures var rows := Executed(InjectLimit(sql, parse, limit), answer);
            QueryResult(Take(rows, limit), |rows| > limit, false, None) == Capped(sql, parse, answer, limit)
  {
  }

  lemma InjectsPage(sql: string, parse: string -> Parsed, answer: string -> seq<Row>, limit: nat, offset: int)
    ensures offset < 0 ==> OffsetRefusal(sql, parse, limit, offset) == Some(NegativeOffset)
    ensures offset >= 0 && limit == 0 ==> OffsetRefusal(sql, parse, limit, offset) == Some(NoPositiveLimit)
    ensures offset >= 0 && limit > 0 ==>
              match InjectLimitWithOffset(sql, parse, limit + 1, offset)
              case Failure(refusal) => OffsetRefusal(sql, parse, limit, offset) == Some(refusal)
              case Success(paged) =>
                var rows := Executed(paged, answer);
                var next := if |rows| > limit then Some(offset + limit) else None;
                OffsetRefusal(sql, parse, limit, offset) == None &&
                QueryResult(Take(rows, limit), false, |rows| > limit, next) == Page(answer(Base(sql)), limit, offset)
  {
    if offset >= 0 && limit > 0 && parse(Text.TrimSpace(sql)) == SelectOrUnion(false) {
      ExtraRowTells(answer(Base(sql)), limit, offset);
    }
  }

  lemma HealthyScans(rows: seq<Row>, limit: nat, paginated: bool, pageOffset: int, scan: Scan)
    requires ScansRows(Healthy(rows), limit, paginated, pageOffset, scan)
    ensures scan.Scanned? && scan.out.rows == Take(rows, limit)
  {
    assert !Unreadable(Healthy(rows).cells, limit);
    assert scan.Scanned?;
    assert forall k :: 0 <= k < |scan.out.rows| ==> Healthy(rows).cells[k] == Some(rows[k]);
  }

  /** Asking for one row more than a page tells whether there is a next page and gives the
      same page. */
  lemma ExtraRowTells(rows: seq<Row>, limit: nat, offset: nat)
    ensures var fetched := Take(Drop(rows, offset), limit + 1);
            Take(fetched, limit) == Take(Drop(rows, offset), limit) &&
            (|fetched| > limit <==> |rows| > offset + limit)
  {
  }

  // ---- Following next_offset ----

  /** The pages a client gets that starts at offset and follows next_offset to the end. */
  function Follow(rows: seq<Row>, limit: nat, offset: nat): seq<QueryResult>
    requires limit > 0
    decreases |rows| - offset
  {
    var page := Page(rows, limit, offset);
    if page.nextOffset.None? then [page] else [page] + Follow(rows, limit, page.nextOffset.value)
  }

  function Concat(pages: seq<QueryResult>): seq<Row> {
    if pages == [] then [] else pages[0].rows + Concat(pages[1..])
  }

  /** n rows, divided by limit and rounded up, and one page even when there are none. */
  predicate IsPageCount(count: nat, n: nat, limit: nat) {
    n <= count * limit && (count == 1 || (count > 1 && (count - 1) * limit < n))
  }

  lemma OnePageMore(count: nat, n: nat, limit: nat)
    requires IsPageCount(count, n, limit) && n > 0
    ensures IsPageCount(count + 1, n + limit, limit)
  {
    Distribute(count, limit);
    if count > 1 {
      Distribute(count - 1, limit);
    }
  }

  lemma Distribute(k: nat, limit: nat)
    ensures (k + 1) * limit == k * limit + limit
  {
  }

  lemma OnePage(n: nat, limit: nat)
    requires n <= limit
    ensures IsPageCount(1, n, limit)
  {
  }

  lemma FollowSteps(rows: seq<Row>, limit: nat, offset: nat)
    requires limit > 0
    ensures var pages, page := Follow(rows, limit, offset), Page(rows, limit, offset);
            |pages| > 0 && pages[0] == page && page.hasMore == (|rows| > offset + limit) &&
            pages[1..] == if page.hasMore then Follow(rows, limit, offset + limit) else []
  {
    hide Take, Drop;
    var page := Page(rows, limit, offset);
    if page.hasMore {
      assert ([page] + Follow(rows, limit, offset + limit))[1..] == Follow(rows, limit, offset + limit);
    }
  }

  lemma {:induction false} FollowFrom(rows: seq<Row>, limit: nat, offset: nat)
    requires limit > 0 && offset <= |rows|
    ensures var pages := Follow(rows, limit, offset);
            Concat(pages) == rows[offset..] && IsPageCount(|pages|, |rows| - offset, limit)
    decreases |rows| - offset
  {
    hide Follow, IsPageCount, Page;
    var pages := Follow(rows, limit, offset);
    FollowSteps(rows, limit, offset);
    PageRows(rows, limit, offset);
    if |rows| > offset + limit {
      FollowFrom(rows, limit, offset + limit);
      OnePageMore(|pages| - 1, |rows| - offset - limit, limit);
    } else {
      OnePage(|rows| - offset, limit);
    }
  }

  lemma PageRows(rows: seq<Row>, limit: nat, offset: nat)
    requires offset <= |rows|
    ensures var page := Page(rows, limit, offset).rows;
            if |rows| > offset + limit then page + rows[offset + limit..] == rows[offset..]
            else page == rows[offset..] && page + [] == page
  {
    if |rows| > offset + limit {
      assert rows[offset..offset + limit] + rows[offset + limit..] == rows[offset..];
    }
  }

  /** Following next_offset from 0 visits max(1, |rows|/limit rounded up) pages, and together
      they are the rows, each once and in order. */
  lemma PagesAreTheRows(rows: seq<Row>, limit: nat)
    requires limit > 0
    ensures Concat(Follow(rows, limit, 0)) == rows
    ensures IsPageCount(|Follow(rows, limit, 0)|, |rows|, limit)
  {
    FollowFrom(rows, limit, 0);
  }

  lemma FullPage(rows: seq<Row>, limit: nat, offset: nat)
    ensures var page := Page(rows, limit, offset); page.hasMore ==> |page.rows| == limit
  {
  }

  /** Every page but the last is full and says that there is more; the last says there is not. */
  lemma {:induction false} OnlyTheLastPageEnds(rows: seq<Row>, limit: nat, offset: nat, k: nat)
    requires limit > 0 && k < |Follow(rows, limit, offset)|
    ensures var page := Follow(rows, limit, offset)[k];
            page == Page(rows, limit, offset + k * limit) &&
            (page.hasMore <==> k + 1 < |Follow(rows, limit, offset)|) &&
            (page.hasMore ==> |page.rows| == limit)
    decreases |rows| - offset
  {
    hide Follow, Page;
    var pages := Follow(rows, limit, offset);
    FollowSteps(rows, limit, offset);
    FullPage(rows, limit, offset);
    FollowSteps(rows, limit, offset + limit);
    if k > 0 {
      OnlyTheLastPageEnds(rows, limit, offset + limit, k - 1);
      assert pages[k] == pages[1..][k - 1];
      Distribute(k - 1, limit);
    }
  }

  /** Without an offset, the mark "truncated" is missing exactly for the statements that got
      the cap as their LIMIT: they are cut at the cap without a sign of it. */
  lemma TruncationShownIff(sql: string, parse: string -> Parsed, answer: string -> seq<Row>, limit: nat)
    requires answer(Base(sql)) == answer(sql)
    ensures var out := Capped(sql, parse, answer, limit);
            out.rows == Take(answer(sql), limit) &&
            ((out.truncated <==> out.rows != answer(sql)) <==>
             (|answer(sql)| <= limit || !CapInjected(sql, parse, limit)))
  {
  }

  /** Two rows and a cap of one: the client gets the first row and no sign of the second. */
  lemma TruncationCanBeHidden()
    ensures var sql, parse := "SELECT n FROM t", (text: string) => SelectOrUnion(false);
            var answer := (text: string) => [["1"], ["2"]];
            var out := Capped(sql, parse, answer, 1);
            && answer(Base(sql)) == answer(sql) && EffectiveLimit(1, None) == 1
            && out.rows == [["1"]] && !out.truncated && out.rows != answer(sql)
  {
  }

  // ---- What is sent, and what comes back, in terms of the text as it was typed ----

  function Semicolons(n: nat): string {
    seq(n, _ => ';')
  }

  /** input is a statement in white space: body, which does not end in a semicolon, and after it
      n semicolons. */
  predicate Typed(input: string, before: string, body: string, n: nat, after: string) {
    var statement := body + Semicolons(n);
    && input == before + statement + after && Text.AllSpace(before) && Text.AllSpace(after)
    && statement != "" && Text.Trimmed(statement)
    && (body != "" ==> body[|body| - 1] != ';')
  }

  lemma TypedBase(input: string, before: string, body: string, n: nat, after: string)
    requires Typed(input, before, body, n, after)
    ensures Text.TrimSpace(input) == body + Semicolons(n)
    ensures Base(body + Semicolons(n)) == body && Text.TrimSpace(body + Semicolons(n)) == body + Semicolons(n)
  {
    hide Text.TrimSpace;
    var statement := body + Semicolons(n);
    Text.TrimSpaceOf(before, statement, after);
    Text.TrimmedIsFixed(statement);
    Text.TrimRightDrops(body, Semicolons(n), c => c == ';');
  }

  /** The effective row limit of a call. */
  predicate IsLimit(limit: nat, maxRows: int, askedRows: Option<int>) {
    if maxRows <= 0 then limit == 0
    else if askedRows.Some? && 1 <= askedRows.value <= maxRows then limit == askedRows.value
    else limit == maxRows
  }

  /** rows from an offset on, as many as the limit allows. */
  predicate IsWindow(rows: seq<Row>, all: seq<Row>, offset: nat, limit: nat) {
    if |all| <= offset then rows == []
    else if |all| <= offset + limit then rows == all[offset..]
    else rows == all[offset..offset + limit]
  }

  /** The answer of run_query to a statement typed with n semicolons after its body. */
  predicate AnswersTo(r: Result<QueryResult>, body: string, n: nat, parse: string -> Parsed, answer: string -> seq<Row>,
                      limit: nat, offset: Option<int>)
  {
    var statement := body + Semicolons(n);
    var plainSelect := parse(statement) == SelectOrUnion(false);
    match offset
    case None =>
      var sent := if limit > 0 && plainSelect then body else statement;
      && r.Success? && IsWindow(r.value.rows, answer(sent), 0, limit) && !r.value.hasMore && r.value.nextOffset == None
      && (r.value.truncated <==> |answer(sent)| > limit && (limit == 0 || !plainSelect))
    case Some(from) =>
      if from < 0 then r == Failure(NegativeOffset)
      else if limit == 0 then r == Failure(NoPositiveLimit)
      else if parse(statement) == Unparsable then r == Failure(CannotPaginate)
      else if parse(statement) == OtherStatement then r == Failure(NotASelect)
      else if !plainSelect then r == Failure(HasLimitAlready)
      else
        && r.Success? && IsWindow(r.value.rows, answer(body), from, limit) && !r.value.truncated
        && (r.value.hasMore <==> |answer(body)| > from + limit)
        && r.value.nextOffset == if |answer(body)| > from + limit then Some(from + limit) else None
  }

  /** run_query on a statement as typed: semicolons at its end and white space around it do not
      count, its own text is otherwise sent as it is, and the rows are those of that text. */
  lemma RunQueryAnswers(input: string, before: string, body: string, n: nat, after: string,
                        parse: string -> Parsed, answer: string -> seq<Row>,
                        maxRows: int, askedRows: Option<int>, offset: Option<int>) returns (limit: nat)
    requires Typed(input, before, body, n, after)
    ensures IsLimit(limit, maxRows, askedRows)
    ensures AnswersTo(Answered(input, parse, answer, maxRows, askedRows, offset), body, n, parse, answer, limit, offset)
  {
    hide Text.TrimSpace, Base;
    TypedBase(input, before, body, n, after);
    limit := EffectiveLimit(maxRows, askedRows);
    assert IsLimit(limit, maxRows, askedRows);
    var statement := body + Semicolons(n);
    match offset
    case None =>
    case Some(from) =>
      if from >= 0 {
        TakenWindow(answer(body), from, limit);
      }
  }

  lemma TakenWindow(all: seq<Row>, offset: nat, limit: nat)
    ensures IsWindow(Take(Drop(all, offset), limit), all, offset, limit)
  {
  }

  /** Every input but white space is typed in this sense. */
  lemma EveryStatementIsTyped(input: string) returns (before: string, body: string, n: nat, after: string)
    requires !Text.AllSpace(input)
    ensures Typed(input, before, body, n, after)
  {
    hide Text.TrimSpace, Text.TrimRight, Text.AllSpace, Text.IsSpace;
    var i, j := Text.TrimSpaceSplits(input);
    Text.TrimSpaceIsShorter(input);
    var statement := Text.TrimSpace(input);
    body, n := WithoutSemicolons(statement);
    before, after := input[..i], input[j..];
    SpaceAround(input, i, j);
    Text.CutTwice(input, i, j);
  }

  lemma SpaceAround(s: string, i: nat, j: nat)
    requires i <= j <= |s| && forall k :: (0 <= k < i || j <= k < |s|) ==> Text.IsSpace(s[k])
    ensures Text.AllSpace(s[..i]) && Text.AllSpace(s[j..])
  {
  }

  lemma WithoutSemicolons(statement: string) returns (body: string, n: nat)
    ensures statement == body + Semicolons(n) && (body != "" ==> body[|body| - 1] != ';')
  {
    if statement != "" && statement[|statement| - 1] == ';' {
      var last := |statement| - 1;
      body, n := WithoutSemicolons(statement[..last]);
      n := n + 1;
      assert statement == statement[..last] + ";";
      assert Semicolons(n) == Semicolons(n - 1) + ";";
    } else {
      body, n := statement, 0;
    }
  }

  /** Nothing but white space is refused, and only that. */
  lemma SqlIsRequired(input: string, parse: string -> Parsed, answer: string -> seq<Row>,
                      maxRows: int, askedRows: Option<int>, offset: Option<int>)
    ensures Answered(input, parse, answer, maxRows, askedRows, offset) == Failure(SqlRequired) <==> Text.AllSpace(input)
  {
    hide Text.TrimSpace, Base;
    Text.TrimSpaceIsShorter(input);
  }
}
