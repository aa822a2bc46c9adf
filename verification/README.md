# MySQL MCP server: verified model

A Dafny model of the parts of the server whose correctness depends on interleavings,
on hand-written scanning loops or on arithmetic over whole runs.

**Connections.** `ManagerSpec` and `SessionSpec` describe the connection manager and one MCP
session's connection state as values, with one function per lock-protected section.
`ConnectionManager` holds the objects themselves: classes whose methods update maps, sets and
fields in place, each proved equal to its function, and the multi-step operations
(`add_connection`, `use_connection`, the end-of-session cleanup, `list_connections` in
`ConnectionList`) proved against the outcome they promise; `TearDowns` says what removing a set of
connections closes. `Protocol` is the running server: any
number of sessions and tool calls, every lock section one atomic step built from the same
functions, the I/O between the sections with any outcome. `ProtocolInvariant` is one inductive
invariant; `StartSteps`, `SessionSteps`, `CallSteps`, `AddSteps`, `ManagerSteps`, `PlaceSteps`,
`RemovalSteps` and `Frames` show that each step keeps it; `ProtocolTheorems`, `SessionTheorems`
and `PinTheorems` draw the conclusions for every reachable state and every run; `ProgressTheorems`
and `DrainTheorems` show that they are not met by refusing everything: adds can complete, and ended
sessions can be cleaned up. `ChoiceTheorems` shows that a session's choice governs its later calls,
and `PublicationTheorems` what an add puts where and how it is listed. `ReturnBound` shows that every add returns after a bounded number of its
own steps in every run. `StartTheorems` is about replacing adds at startup.
`ToolPack` adds the fallback from stored procedures to embedded SQL, with the rest of the server
at work between its lock sections.

`ever`, `place` and `slots` in the protocol's state, and `closed` in the manager's, are history:
they record what was registered, where each pool and tunnel is and what was closed, and no other
field depends on them. The protocol serves over one transport per run and has fresh session ids of
16 hexadecimal digits; configured names do not carry the reserved prefix. After startup the
process-wide choice is a registered connection, because the process exits otherwise
(cmd/mysql-mcp-server/main.go:265-269).

**SQL validator.** `SqlLexer` is a recursive reference lexer for the quoting rules, shown to be
the only reading of a text (tokens and text determine each other). `SqlStripper` is the in-place
loop of `stripSQLLiterals`, proved to blank what the lexer puts inside literals. `SqlPatterns`
shows that a pattern of words, white space and word boundaries matches the stripped text exactly
where it matches the text itself outside literals. `SqlValidator` holds all of `ValidateSQL`'s
pattern lists and states its verdict on the query instead of on the stripped text. `SqlLiterals` and
`SqlRejections` state both on the text alone: where a literal ends, and which words, phrases and
marks are rejected, without the lexer's rules and without the pattern language.

**Rate limiter.** `RateLimiter` has the token bucket over reals, with a full characterisation of
when deleting stale buckets can be observed, bounds over any window of any run, and the exact
condition under which a request is allowed, on counts. With the
default limits (100 requests per second, burst 200, cleanup after 300 seconds) the condition holds.

**Round trips and loops.** `StatementSplitter` (scripts with DELIMITER lines), `Pagination` (the
LIMIT rewrite, the row loop and following `next_offset`), `AuditLog` (the backward tail scan with
in-place reversal and its window), `Labels` (statement comments, request ids, connection
attributes). `Text` and `Wrappers` are shared helpers.

## Where the code and its own comments differ

The model follows the code.

- The comment on a replacing add says that a failed replace keeps the working pool
  (cmd/mysql-mcp-server/connection.go:149-152). The code removes the old entry first
  (cmd/mysql-mcp-server/connection.go:196-202), and so does the protocol's startup step.
  `StartTheorems` proves exactly when a failed replace keeps the connections and when the process can
  still serve after it, and gives a run in which it loses a working one.
- `truncated` does not tell whether rows were left out when the row cap itself was injected as the
  statement's LIMIT: the server then never sends the extra row. `Pagination.TruncationShownIff`
  gives the exact condition and `Pagination.TruncationCanBeHidden` a query that shows it.
- Eviction is invisible only when a bucket refills within the cleanup interval;
  `RateLimiter.EvictionUnobservableIff` proves both directions, with the run that shows it otherwise.
- A window that begins exactly at a line start loses that first whole line
  (cmd/mysql-mcp-server/logging.go:141-145), so the answer can be shorter than the full one; it is still its end.
  `AuditLog.WindowAnswerIsFullIff` says exactly when it is the full one, `AuditLog.WindowLosesAWholeLine`
  has a file where it is not. A window without a newline lies inside one line;
  `AuditLog.WindowInsideALineIff` says exactly when the answer is then still the end of the full one.

## Model

| member | source | states |
|---|---|---|
| ProtocolTheorems.EndedSessionLeavesNothing | cmd/mysql-mcp-server/tools.go:951-999 | No leak: once a session has ended, its cleanup loop is done and its adds have returned, none of its keys is in any manager map, in pendingAdds or active, whichever of close, register, closed-check and activate came first |
| DrainTheorems.EndedSessionCanDrain | cmd/mysql-mcp-server/mcp_http.go:36-65 | From every reachable state an ended session can be drained by the steps of its own adds and its cleanup loop alone: the adds have returned, nothing is left to clean up, and no manager map mentions any of its keys |
| DrainTheorems.AddCanReturn | cmd/mysql-mcp-server/tools.go:946-1007 | From any position an add can return by its own steps, with no other call moved and no session's end or cleanup changed |
| ReturnBound.AddReturnsWithin13 | cmd/mysql-mcp-server/tools.go:946-1007 | In every run from any state, with any I/O outcomes and any other steps between, an add still under way has made at most 12 steps of its own: with its 13th it has returned |
| ReturnBound.OthersLeaveAdd | cmd/mysql-mcp-server/tools.go:946-1007 | No step of another call, a session's end, a cleanup or startup changes where an add stands |
| ProtocolTheorems.ExactlyOnePlace | cmd/mysql-mcp-server/connection.go:215-349 | Conservation: in every reachable state each pool and tunnel ever opened is held by exactly one add, or registered under exactly one key, or closed exactly once; nothing else is closed, held or registered |
| ProtocolTheorems.AlwaysCoherent | cmd/mysql-mcp-server/connection.go:308-349 | In every reachable state configs and serverTypes have the keys of connections, clients, toolPacks and tunnelClosers a subset; activeConn is empty or a registered process-wide name; while serving GetActiveClient has a client unless creating one fails |
| ProtocolTheorems.AddsAreExclusive | cmd/mysql-mcp-server/connection.go:165-194 | A name is reserved iff an add holds its reservation, and never two adds hold one: from the reservation section to its deferred release, after success and after failure |
| ProtocolTheorems.PublicationFindsNameFree | cmd/mysql-mcp-server/connection.go:308-315 | After startup the name of an add that is about to be published is not registered: the duplicate check of the final lock section is never taken |
| ProtocolTheorems.ClaimedKeyIsNoDuplicate | cmd/mysql-mcp-server/tools.go:963-988 | An add on a key freshly claimed in its session never gets "already exists": neither at its reservation nor at the duplicate check of its publication |
| ProtocolTheorems.ActivationFailsOnlyAfterEnd | cmd/mysql-mcp-server/tools.go:996-1006 | Activating a just-added connection is refused only if the session has ended, and never over stdio |
| ProgressTheorems.AddCanComplete | cmd/mysql-mcp-server/tools.go:946-1007 | From every reachable state with room under both limits, an add of a new name in an open session can run to its end on its own steps: registered, chosen by the session and pinned by the call; nothing another call or session left half-done blocks it |
| ProgressTheorems.StdioAddCanComplete | cmd/mysql-mcp-server/tools.go:979-1007 | Over stdio, a name neither registered nor being added can be added to the end: registered, active for the process and pinned by the call |
| ProtocolTheorems.StepKeeps | cmd/mysql-mcp-server/tools.go:914-1007 | Every enabled step of the server keeps the invariant |
| ProtocolTheorems.ReachableInv | cmd/mysql-mcp-server/main.go:246-314 | The invariant holds in every state the server can reach from its start |
| SessionTheorems.SessionsAreIsolated | cmd/mysql-mcp-server/connection.go:664-716 | In every reachable state a session's active name, its calls' pins and everything listed to it are process-wide names or its own keys |
| ChoiceTheorems.ChoiceGovernsLaterCalls | cmd/mysql-mcp-server/connection.go:664-674 | A session's choice governs: over any run in which the session stores no other, every call then begun for it is pinned to the key it chose; without a choice, to the process-wide one |
| ChoiceTheorems.NewCallIsPinned | cmd/mysql-mcp-server/connection.go:768-773 | The pin at a call's start: the session's choice, else (and over stdio) the process-wide one |
| ChoiceTheorems.AddingMovesLaterCalls | cmd/mysql-mcp-server/tools.go:996-1006 | After an add by the session's own steps, every later call of it is pinned to the added connection and gets the pool registered there, or finds it gone |
| ChoiceTheorems.UseConnectionOutcome | cmd/mysql-mcp-server/connection.go:695-716 | A session's use_connection: an owned name stands for its own connection, any other for the process-wide one; session and pin move to it when it is registered, and otherwise, or for an internal key, nothing changes |
| ChoiceTheorems.StdioUseConnectionOutcome | cmd/mysql-mcp-server/connection.go:695-705 | Over stdio the process-wide choice and the pin move to a registered name, and nothing changes for another |
| SessionTheorems.OthersAreInvisible | cmd/mysql-mcp-server/tools.go:781-797 | No key of one session is ever listed to, or active for, another session |
| SessionTheorems.NamesRoundTrip | cmd/mysql-mcp-server/connection.go:566-585 | On a session's visible connections resolve and displayName are mutual inverses |
| SessionTheorems.AtMostTwentySessionConnections | cmd/mysql-mcp-server/connection.go:178-185 | Registered and pending session connections together never exceed 20 |
| SessionTheorems.AtMostFivePerSession | cmd/mysql-mcp-server/connection.go:599-614 | One session never has more than 5 connections registered or pending, also while it ends |
| SessionTheorems.AtMostFortyServerConnections | cmd/mysql-mcp-server/connection.go:269-274 | The pool limits of all registered and in-flight session connections sum to at most 40 |
| SessionKeys.SessionKeyInjective | cmd/mysql-mcp-server/connection.go:611 | A session key determines its session id and the user's name, slashes in the name included |
| SessionKeys.KeyText | cmd/mysql-mcp-server/connection.go:611 | The text of a session key and of the reserved prefix |
| SessionKeys.BelongsToOneSession | cmd/mysql-mcp-server/connection.go:643-646 | No key belongs to two sessions |
| PinTheorems.PinnedCallStaysOnOneServer | cmd/mysql-mcp-server/call_middleware.go:19-24 | Over any run in which a call does not switch, its pin stays and every lookup gives the handle first seen or the failing handle for that name, never another server |
| SessionTheorems.ReportedNameIsThePin | cmd/mysql-mcp-server/call_middleware.go:33-37 | The name a result of an open session carries is one the session can use, and it resolves to exactly the connection the call is pinned to |
| PinTheorems.StepSettles | cmd/mysql-mcp-server/connection.go:451-462 | No step re-registers a key with another pool, or brings back a removed key or a cleared tool-pack marker |
| PinTheorems.ClearedPackStaysCleared | cmd/mysql-mcp-server/toolpack.go:77-88 | A cleared marker stays cleared for every later step of the run |
| ToolPack.CatalogRows | cmd/mysql-mcp-server/toolpack.go:59-75 | The answer is the embedded query's on the caller's connection, with the tool pack, without it, and when the tool pack fails with 1305 or 1370; only that last case changes state, and only that connection's marker |
| ToolPack.PackIsTransparent | cmd/mysql-mcp-server/toolpack.go:63-75 | The same with any steps of the server between its lock sections: the embedded answer of the pinned connection, or of its failing handle |
| ToolPack.DropClearsOneMarker | cmd/mysql-mcp-server/toolpack.go:79-95 | Dropping clears the pinned connection's marker for the rest of the run and changes no other |
| StartTheorems.FailedReplaceKeepsPoolIff | cmd/mysql-mcp-server/connection.go:149-202 | A failed replacing add leaves the registered connections as they were iff its name is not one of them; every other connection stays |
| StartTheorems.FailedReplaceServesIff | cmd/mysql-mcp-server/main.go:250-269 | After a failed replacing add main can go on to serve iff the name was not the active one (or an empty name is registered) |
| StartTheorems.FailedReplaceLosesPool | cmd/mysql-mcp-server/connection.go:196-202 | A run with two working connections in which configuring the first again, unreachably, removes it and keeps the process from serving |
| ManagerSpec.RegisterCoherent | cmd/mysql-mcp-server/connection.go:308-349 | The final lock section of an add keeps the maps coherent, replacing or not |
| ManagerSpec.TearDownForgets | cmd/mysql-mcp-server/connection.go:128-144 | A torn-down key is in no map any more and not active |
| ConnectionManager.Manager.SessionConnCount | cmd/mysql-mcp-server/connection.go:516-529 | The two counting loops give the number of session keys in the union of registered and pending names |
| ConnectionManager.Manager.ReserveName | cmd/mysql-mcp-server/connection.go:165-187 | The reservation section: duplicate, over the cap, or reserved, and the whole new state |
| ConnectionManager.Manager.UnreserveName | cmd/mysql-mcp-server/connection.go:188-194 | The deferred release of the reservation |
| ConnectionManager.Manager.TearDownNamed | cmd/mysql-mcp-server/connection.go:128-144 | Teardown: every map, activeConn, and which pool and tunnel are closed |
| ConnectionManager.Manager.RegisterOpened | cmd/mysql-mcp-server/connection.go:308-349 | The final lock section: late duplicate check, replacement, publication, the first process-wide name becomes active |
| ConnectionManager.Manager.Activate | cmd/mysql-mcp-server/connection.go:360-369 | SetActive: only a registered name, otherwise nothing changes |
| ConnectionManager.Manager.RemoveConnection | cmd/mysql-mcp-server/connection.go:374-383 | Removal of a registered connection, otherwise nothing changes |
| ConnectionManager.Manager.GetActiveClient | cmd/mysql-mcp-server/connection.go:411-431 | The existing client, or one created lazily for the active pool, or the panic when creating it fails or no connection is active |
| ConnectionManager.Manager.DropToolPack | cmd/mysql-mcp-server/toolpack.go:83-88 | Deletes exactly one marker |
| ConnectionManager.Manager.VisibleConnectionCount | cmd/mysql-mcp-server/connection.go:720-738 | The two loops count the connections a session can see: process-wide ones and its own registered ones |
| ConnectionManager.SessionConn.ClaimName | cmd/mysql-mcp-server/connection.go:599-614 | reserve: ended, taken, over the limit of 5, or claimed under the session's key |
| ConnectionManager.SessionConn.ReleaseName | cmd/mysql-mcp-server/connection.go:617-621 | release forgets one name |
| ConnectionManager.SessionConn.Close | cmd/mysql-mcp-server/connection.go:631-641 | close marks the session ended, empties owned and returns exactly its keys |
| ConnectionManager.SessionConn.Resolve | cmd/mysql-mcp-server/connection.go:566-573 | An owned name wins over a process-wide one |
| ConnectionManager.SessionConn.DisplayName | cmd/mysql-mcp-server/connection.go:576-585 | The loop returns an owned name with that key, or the key when there is none |
| ConnectionManager.ActiveNameFor | cmd/mysql-mcp-server/connection.go:664-674 | The pin, else the session's choice, else the process-wide one |
| ConnectionManager.SetActiveFor | cmd/mysql-mcp-server/connection.go:695-716 | When it succeeds, session, pin or process-wide choice move to the resolved key; a foreign session key or a missing name changes nothing |
| ConnectionManager.AddIfAbsent | cmd/mysql-mcp-server/connection.go:123-194 | The add publishes exactly one connection, or leaves the manager as it was with everything it opened closed |
| PublicationTheorems.FinalizeAddsExactly | cmd/mysql-mcp-server/connection.go:320-349 | In every reachable state publication puts under the add's key exactly the pool, tunnel, client, description, server type and tool-pack marker that were opened, detected and given, leaves every other key's entry in every map, closes nothing and moves no session |
| PublicationTheorems.StartupAddsExactly | cmd/mysql-mcp-server/connection.go:317-349 | The same for a configured connection, whether or not its name was registered before |
| PublicationTheorems.AddedIsListed | cmd/mysql-mcp-server/tools.go:786-803 | list_connections after an add shows it under the name given, with the description given, as the one active entry |
| PublicationTheorems.AddedIsListedStdio | cmd/mysql-mcp-server/tools.go:786-803 | The same over stdio |
| PublicationTheorems.OpenedPoolLimit | cmd/mysql-mcp-server/connection.go:261-275 | A pool takes the configured number of connections, or 10; for a session at most 2 |
| ManagerSpec.PublishAddsExactly | cmd/mysql-mcp-server/connection.go:320-349 | Publication field by field, under a free key |
| ManagerSpec.RegisterAddsExactly | cmd/mysql-mcp-server/connection.go:308-349 | The final lock section field by field, replacing or not, and how often it closes each resource |
| ManagerSpec.TearDownIsExact | cmd/mysql-mcp-server/connection.go:128-144 | A teardown leaves every other key's entry in every map and closes exactly the key's pool and tunnel |
| ConnectionManager.CloseSessionConnections | cmd/mysql-mcp-server/mcp_http.go:56-65 | The loop removes exactly the session's registered keys from every map, closes each pool and tunnel registered under them once, changes nothing else and keeps the maps coherent |
| TearDowns.TearDownOneMore | cmd/mysql-mcp-server/connection.go:128-144 | Tearing down one more session key, in any order: its entries go, its pool and tunnel are closed, the rest stays |
| ConnectionManager.ToolAddConnection | cmd/mysql-mcp-server/tools.go:914-1007 | add_connection, also when its session ends while it runs: added and active; or nothing changed and everything opened closed; or the ended session's connections, the new one included, removed and their pools and tunnels closed |
| ConnectionList.ListConnections | cmd/mysql-mcp-server/tools.go:764-811 | Every visible connection once and no other, each under the session's own name, the active one marked |
| SessionTheorems.ListedNamesAreDistinct | cmd/mysql-mcp-server/tools.go:786-803 | In every reachable state the names of a listing are pairwise different and each resolves to the key it shows |
| ConnectionList.ReportedConnection | cmd/mysql-mcp-server/call_middleware.go:33-51 | A result names the pin's connection exactly when the session can see more than one connection and the pin has a name |
| SqlLexer.LexSource | internal/util/sql_validator.go:18-98 | The reference lexer's tokens spell out the text they were read from |
| SqlLexer.LexUndoesSource | internal/util/sql_validator.go:18-98 | Lexing the text of a well-formed token list gives the list back |
| SqlLexer.LexWellFormed | internal/util/sql_validator.go:18-98 | The lexer's tokens are always well formed, so text and tokens correspond one to one |
| SqlStripper.StripSqlLiterals | internal/util/sql_validator.go:18-98 | The in-place loop gives, for every text, the reference tokens with their interiors blanked and the first quote of a doubled pair kept |
| SqlLiterals.LiteralEnds | internal/util/sql_validator.go:44-95 | Where a literal ends, on the text alone: at the first quote of its kind that is neither doubled nor, in '...' and "...", preceded by an odd run of backslashes; the rest is read as if it stood alone; what stripping leaves of it |
| SqlLiterals.BacktickLiteralEnds | internal/util/sql_validator.go:72-95 | In backticks a backslash means nothing: the identifier ends at the next backtick |
| SqlLiterals.UnclosedLiteral | internal/util/sql_validator.go:31-98 | A literal without an end takes all that follows |
| SqlLiterals.PlainText | internal/util/sql_validator.go:33-41 | Text without quotes is outside, kept, and does not change how the rest is read |
| SqlStripper.StrippedPositions | internal/util/sql_validator.go:11-17 | Position by position: length kept, text outside literals unchanged and without quotes, and inside only spaces and original quotes |
| SqlStripper.StrippedEdges | internal/util/sql_validator.go:31-83 | Between outside and inside the stripped text always shows a quote on the literal's side |
| SqlStripper.QuoteFreeWindow | internal/util/sql_validator.go:11-17 | A quote-free stretch of the stripped text that touches text outside literals lies wholly outside and is the input's own text |
| SqlPatterns.StrippedMatch | internal/util/sql_validator.go:220-238 | A word-and-gap pattern matches the stripped text exactly where it matches the query outside literals: no match spans a literal |
| SqlValidator.SeparatorRule | internal/util/sql_validator.go:208-216 | The semicolon rule rejects iff a `;` outside literals is followed by anything but `;` and white space outside literals |
| SqlValidator.MarkerOccurs | internal/util/sql_validator.go:173-177 | `--`, `/*` and `#` are blocked iff they stand outside a literal |
| SqlValidator.CleanLists | internal/util/sql_validator.go:116-192 | Every unanchored pattern in the lists is one StrippedMatch applies to |
| SqlValidator.MatchMeansOccurrence | internal/util/sql_validator.go:220-233 | What the loop matches, on whichever text it picks, is an occurrence in the query itself |
| SqlValidator.FirstMatch | internal/util/sql_validator.go:219-233 | The loop reports the first pattern of the list that occurs, or none occurs |
| SqlValidator.ValidateSQL | internal/util/sql_validator.go:206-273 | The verdict and its reason, stated on the trimmed query (spelled out by SqlRejections.AcceptedIff): accepted iff non-empty, no separated statement, no blocked pattern occurs and an allowed prefix |
| SqlRejections.PatternsMean | internal/util/sql_validator.go:116-201 | The pattern lists block exactly the calls, phrases, leading words, SET forms, comment marks and schemas that are spelled out there, in either case, outside literals where the pattern is not anchored |
| SqlRejections.AcceptedIff | internal/util/sql_validator.go:206-273 | A query is accepted iff it is not empty, is one statement, has nothing of that, and starts with SELECT, SHOW, DESC or EXPLAIN in either case |
| SqlRejections.StatementAfterIdentifierIsSeen | internal/util/sql_validator.go:72-95 | A second statement after a backtick identifier is seen, whatever the identifier ends with |
| RateLimiter.Limiter.Allow | internal/api/ratelimit.go:48-81 | The answer and the new buckets: full for a new client, otherwise refilled, capped and charged |
| RateLimiter.Limiter.CleanupStale | internal/api/ratelimit.go:99-109 | The loop deletes exactly the stale buckets |
| RateLimiter.EvictionUnobservableIff | internal/api/ratelimit.go:83-109 | Over all chronological runs eviction changes no answer if and only if burst is at least 1 and rate times the cleanup interval reaches burst |
| RateLimiter.TokensInRange | internal/api/ratelimit.go:66-78 | Tokens stay between 0 and burst over every run |
| RateLimiter.RateBound | internal/api/ratelimit.go:25-31 | In any window of any run a client gets at most burst plus rate times the window's length; with cleanups too when a bucket refills within the cleanup interval |
| RateLimiter.AllowedIff | internal/api/ratelimit.go:48-81 | Over any chronological run a request is allowed iff from no earlier request of the client on, this one included, more would be allowed than burst and the refill since: the converse of the bound, on counts alone |
| RateLimiter.SteadyClientIsNeverRefused | internal/api/ratelimit.go:66-78 | A client whose earlier requests lie at least 1/rate back is never refused, cleanups or not |
| StatementSplitter.SplitStatements | internal/toolpack/toolpack.go:45-77 | The loop over lines computes the fold that the round trip is about |
| StatementSplitter.SplitUndoesPrint | internal/toolpack/toolpack.go:42-77 | Splitting a printed script (multi-line statements, each under its delimiter, with DELIMITER, blank and comment lines between) gives exactly the statements, in order |
| StatementSplitter.DelimiterLine | internal/toolpack/toolpack.go:57-60 | "DELIMITER x" switches to x for every x without white space |
| StatementSplitter.AnyDelimiterLine | internal/toolpack/toolpack.go:57-60 | The same in any case, indented, with any white space between and after |
| StatementSplitter.DelimiterLineOnly | internal/toolpack/toolpack.go:57-60 | No other line is a DELIMITER line |
| StatementSplitter.NoiseIff | internal/toolpack/toolpack.go:54-56 | Between statements exactly blank lines and lines starting with -- after white space are dropped |
| StatementSplitter.UnterminatedStatementIsKept | internal/toolpack/toolpack.go:73-76 | What follows the last delimiter is a statement too |
| StatementSplitter.LineLimit | internal/toolpack/toolpack.go:49-50 | Lines of up to 1048575 characters are read, a longer one ends the scan |
| Pagination.RunQueryScan | cmd/mysql-mcp-server/tools.go:283-366 | The first obstacle before the rows, in order; then which rows are returned, when hasMore, truncated and nextOffset are set, and exactly when each read error surfaces |
| Pagination.RunQuery | cmd/mysql-mcp-server/tools.go:427-478 | With an offset: the page of the rows, or exactly one of the refusals; without: the capped rows |
| Pagination.RunQueryAnswers | cmd/mysql-mcp-server/tools.go:375-478 | The answer to a statement as typed: white space around it and, where the statement is rewritten, semicolons at its end do not count; each refusal, the rows as a window of the rows of the text sent, and all flags |
| Pagination.EveryStatementIsTyped | internal/util/sql_parser.go:675-691 | Every input but white space is such a statement |
| Pagination.SqlIsRequired | cmd/mysql-mcp-server/tools.go:375-378 | White space, and only that, is refused as no statement |
| Pagination.PagesAreTheRows | cmd/mysql-mcp-server/tools.go:361-364 | Following next_offset from 0 visits max(1, rows/limit rounded up) pages that concatenate to the rows |
| Pagination.OnlyTheLastPageEnds | cmd/mysql-mcp-server/tools.go:337-341 | has_more holds on every page but the last, and every page that has more is full |
| Pagination.ExtraRowTells | cmd/mysql-mcp-server/tools.go:447-450 | Asking for limit + 1 rows decides has_more and leaves the page unchanged |
| Pagination.InjectsPage | internal/util/sql_parser.go:698-728 | The rewrite with offset is refused exactly for unparsable, non-SELECT and already limited statements, and otherwise fetches the page and one row |
| Pagination.TruncationShownIff | cmd/mysql-mcp-server/tools.go:453-457 | Without an offset, truncated tells the truth iff nothing was cut or no LIMIT was injected |
| Pagination.TruncationCanBeHidden | cmd/mysql-mcp-server/tools.go:453-457 | A SELECT with two rows and a cap of one: one row comes back, not marked truncated |
| AuditLog.AuditLogger.ReadRecentLines | cmd/mysql-mcp-server/logging.go:109-160 | Disabled, or the file operation that failed, or the last non-blank trimmed lines of the readable part, in file order, at most the clamped number; after a run of Log these are the last entries logged, or as many as the window shows |
| AuditLog.AuditLogger.Log | cmd/mysql-mcp-server/logging.go:162-172 | The stamped entry's encoding becomes the next entry and the next line of the file, or nothing changes when disabled or when the write fails |
| AuditLog.ScanBackwards | cmd/mysql-mcp-server/logging.go:147-153 | The backward loop collects the last min(n, k) kept lines, last first |
| AuditLog.ReverseInPlace | cmd/mysql-mcp-server/logging.go:154-156 | The in-place swap loop reverses |
| AuditLog.KeptAreEntries | cmd/mysql-mcp-server/logging.go:147-152 | Of lines that are entries in white space the non-empty entries are kept, trimmed |
| AuditLog.WindowAnswerIsSuffix | cmd/mysql-mcp-server/logging.go:121-145 | With a newline in the window every returned line is a whole line of the file and the answer is the full answer or its end; the full one when enough lines were found |
| AuditLog.WindowAnswerIsFullIff | cmd/mysql-mcp-server/logging.go:121-145 | With a newline in the window, the answer is the full one iff the window's whole lines are enough or nothing is kept of what lies before its first newline |
| AuditLog.WindowLosesAWholeLine | cmd/mysql-mcp-server/logging.go:141-145 | A file whose window starts at a line start: that whole line is not returned, and the answer is shorter than the full one |
| AuditLog.WindowInsideALine | cmd/mysql-mcp-server/logging.go:141-145 | Without a newline in the window the answer is at most that one piece of a line |
| AuditLog.WindowInsideALineIff | cmd/mysql-mcp-server/logging.go:141-145 | Without a newline, the answer is still the end of the full one iff the window or the cut-off start of the line is white space |
| AuditLog.RecentEntries | cmd/mysql-mcp-server/logging.go:109-172 | What was logged after whole lines is read back: the last lines and entries in order, nothing else; all that was asked for when the file fits the window |
| Labels.SanitizeLabel | cmd/mysql-mcp-server/labels.go:66-78 | The loop keeps the first 64 label characters |
| Labels.SanitizedIsLabel | cmd/mysql-mcp-server/labels.go:66-78 | At most 64 characters, all allowed; unchanged iff already so; idempotent |
| Labels.SanitizedText | cmd/mysql-mcp-server/labels.go:66-78 | Of letters, digits and _-. the first 64 stay |
| Labels.SanitizedDrops | cmd/mysql-mcp-server/labels.go:66-78 | Any other character counts for nothing |
| Labels.RequestIds | cmd/mysql-mcp-server/labels.go:57-64 | Two calls share a request id iff a whole number of turns of the 64-bit counter lies between them; an id is itself a label |
| Labels.Labeler.WithCallLabel | cmd/mysql-mcp-server/labels.go:57-64 | The counter moves by one, wrapping at 64 bits; a process's n-th call is labeled with the sanitized tool and the id of the counter at n |
| Labels.LabelRoundTrip | cmd/mysql-mcp-server/labels.go:80-90 | For any tool and any query the first `*/` of the labeled statement is the label's own, and tool, request id and exact query are read back |
| Labels.UnlabeledIff | cmd/mysql-mcp-server/labels.go:80-90 | A query stays as it is iff labels are off, the call has none or its tool is empty |
| Labels.LabeledStatementsDiffer | cmd/mysql-mcp-server/labels.go:80-90 | Statements of two calls differ, whatever the tools and queries, unless a whole number of turns of the 64-bit counter lies between the calls |
| Labels.LabelConnectionAttributes | cmd/mysql-mcp-server/labels.go:92-115 | The loop and the three conditional additions compute the labeled list |
| Labels.LabeledEntries | cmd/mysql-mcp-server/labels.go:92-115 | The existing text stays in front; the entries are the old ones followed by each missing one; all three keys are present afterwards |
| Labels.LabelingIsIdempotent | cmd/mysql-mcp-server/labels.go:92-115 | Labeling a labeled list changes nothing |
| Labels.SetKeyIsNotAdded | cmd/mysql-mcp-server/labels.go:95-105 | An entry for a key anywhere in the list, with white space around the key or not, keeps it from being added |
| Labels.AllAreAdded | cmd/mysql-mcp-server/labels.go:100-114 | With nothing set, all three attributes are added, in order |

## Left out

- Real I/O and foreign code: the MySQL driver, SSH, the MCP SDK, HTTP, the clock and files. Opening,
  pinging and detection have any outcome, time is a parameter, file and script contents are values.
- REST mode: its handlers never pin a call, so the pin and tool-pack results are about MCP calls only.
- `ConnectionManager.Close` and process exit: shutdown is terminal and no step follows it.
- A replacing add outside the sequential startup loop: no caller does it. Startup is one step per connection.
- Input checks of add_connection before its first lock section (DSN parsing, refused users and driver options,
  stateless mode): an add that fails them takes no step.
- ConnectionManager.ToolAddConnection: in the class, an add is interrupted only by the end of its own session;
  all other interleavings are in the protocol.
- ConnectionManager.AddIfAbsent: runs there without interference; the protocol interleaves its lock sections with everything else.
- ConnectionManager.SetActiveFor: runs there without interference; the protocol has its lock sections as separate steps.
- ConnectionList.ListConnections: DSNs and their masking are not modelled; that the names differ needs the invariant and is
  `SessionTheorems.ListedNamesAreDistinct`.
- Closing a pool or tunnel is recorded as a count, not as an effect on running queries.
- SqlStripper.StripSqlLiterals: text is a sequence of characters; read as bytes it is the source's buffer exactly, and white
  space outside ASCII at the ends of a query is trimmed by code point.
- SqlPatterns.StrippedMatch: regular expressions appear only as words, gaps and boundaries with Go's case folding of ASCII
  letters; Go's choice among several matches is irrelevant to whether there is one.
- The parser-based validator and the schema collectors: the grammar lives in a library that is not part of this model.
- RateLimiter.Limiter.Allow: tokens and times are exact reals, not floating point, and time does not run backwards.
- StatementSplitter.SplitStatements: the scanner's 1 MiB limit on a line is counted in characters.
- Pagination.RunQuery: the statement's rows are fixed and ordered, the rewritten statement is a value instead of formatted
  text, the validation before it and the retries around it are not modelled, and read errors are covered by RunQueryScan.
- AuditLog.AuditLogger.ReadRecentLines: appends by other goroutines between the size check and the read.
- AuditLog.AuditLogger.Log: the JSON encoding is a parameter, a failing write writes nothing (not a part of the line), and the
  token metrics of an entry are not modelled.
- Prompts, HTML, configuration loading, TLS options, token metrics, guard messages and masking of results: plumbing
  without state, or easy members.
