# TastyTrade option-chain middleware, modelled in Dafny

This project models four pieces of the TastyTrade web application and proves properties about them.

- **The option-chain stream manager** (`StreamManager` in
  `webapp/middleware/streamers/optionChainStreamer.py`). It keeps a set of
  websocket clients per `(symbol, expiry)` topic and one upstream streaming task
  per topic:
  - `connect` registers a client and starts the topic's task on first use;
  - `disconnect` takes a client out of the first topic that holds it, and tears
    the topic down (cancelling its task) when the topic is left empty;
  - `broadcast` sends an event to every client of a topic and disconnects each
    client whose send fails.

  The checks `start_stream` makes before it subscribes to the feed are modelled
  too: chain present, expiry parses as `%Y-%m-%d`, expiry present in the chain,
  options present. The parse follows `datetime.strptime`'s own regular expression.
- **The SQL repository helpers** (`RepositoryUtils` in
  `webapp/middleware/utils/repository.py`):
  - the classification of database exceptions into HTTP-like responses;
  - `validate` and `validate_or_none`;
  - row-to-dictionary conversion;
  - the statements, bound parameters, commits and rollbacks each of the seven
    query helpers sends through the connection, and the response each one shapes;
  - the pagination arithmetic.
- **`GET /equity-options`** (`webapp/middleware/controllers/optionsController.py`).
  It collects up to five call and five put OCC symbols per ticker, asks upstream
  for their metadata, and maps every failure to an HTTP error.
- **The browser table's message reducer** (`DataTable.jsx`). An
  `underlying_quote` message replaces the quote. A `grouped_option_data` message
  for the selected expiry replaces the row with the same symbol, and is appended
  last. The cleanup clears the rows.

## Files

- `wrappers.dfy`: `Option` and `Result`.
- `http.dfy`: `HTTPException` and its string form.
- `iso_date.dfy`: `strptime(text, "%Y-%m-%d").date()` and `date.isoformat()`.
- `topic_registry.dfy`: the stream manager's bookkeeping as values, with the
  lifecycle lemmas.
- `option_chain_streamer.dfy`: the `StreamManager` class, whose fields are
  updated in place. Each method is proved to move the state exactly as the
  matching `TopicRegistry` function does. The file also holds the checks
  before subscribing.
- `repository_utils.dfy`: the pure helpers of `RepositoryUtils`.
- `repository_ops.dfy`: the cursor sequences of the query helpers, over a
  `Connection` that logs what it is asked to do.
- `options_controller.dfy`: the equity-options handler. The per-ticker loop is
  a method, proved against a function.
- `data_table.dfy`: the table reducer.

## Notes on the code

- **Streaming.** `start_stream` in `optionChainStreamer.py` subscribes to both feeds, then broadcasts each quote event (`"type": "quote"`) and each greeks event (`"type": "greeks"`) as it arrives.
- **Message types.** The browser table reacts only to messages whose `tt_type` is `underlying_quote` or `grouped_option_data`. The streamer's messages carry `type` instead, so under `DataTable.OnMessage` they change nothing.
- **Disconnect scope.** `disconnect` stops at the first topic, in dictionary insertion order, whose set holds the client. A client registered under two topics stays in the second. `TopicRegistry.DisconnectFirstHolder` states this. `TopicRegistry.DisconnectClientsOfTopic` and `TopicRegistry.BroadcastEvicts` require one topic per client (`Exclusive`).
- **Broadcast evictions.** A failed send does not remove the client at once. The failing clients are collected, and they are disconnected after the send loop; `StreamManager.Broadcast` does the same.

## Model

All source paths are in the TastyTrade repository.

| member | source | states |
|---|---|---|
| TopicRegistry.Connect | webapp/middleware/streamers/optionChainStreamer.py:84-93 | the topic's client set gains the socket and no other topic changes; a new topic is appended to the key order, which `disconnect` scans; a task is created (with the next task number) exactly when the topic had none; no task is cancelled |
| TopicRegistry.ConnectKeepsInv | webapp/middleware/streamers/optionChainStreamer.py:84-93 | connecting keeps the manager invariant: a task for exactly the topics with clients, no empty client set, each task serving its own topic |
| TopicRegistry.Holder | webapp/middleware/streamers/optionChainStreamer.py:96-97 | the position `disconnect`'s scan stops at: the first key, in insertion order, whose client set holds the socket, or the end |
| TopicRegistry.Disconnect | webapp/middleware/streamers/optionChainStreamer.py:95-105 | the dictionaries stay consistent with the key order; no topic gains a client or a key; no task is launched |
| TopicRegistry.TakeOut | webapp/middleware/streamers/optionChainStreamer.py:97-104 | the loop body for one key keeps the dictionaries consistent and only shrinks client sets |
| TopicRegistry.DisconnectFirstHolder | webapp/middleware/streamers/optionChainStreamer.py:95-105 | only the first holding topic changes: it loses the socket, and if left empty it leaves both dictionaries, its key leaves the key order (the other keys keep theirs) and its task is appended to the cancelled tasks; otherwise the key order is unchanged; later topics that also hold the socket keep it |
| TopicRegistry.DisconnectOnlyHolder | webapp/middleware/streamers/optionChainStreamer.py:95-105 | when one topic holds the socket, disconnect narrows exactly that topic |
| TopicRegistry.DisconnectKeepsInv | webapp/middleware/streamers/optionChainStreamer.py:95-105 | disconnecting keeps the manager invariant |
| TopicRegistry.DisconnectUnknown | webapp/middleware/streamers/optionChainStreamer.py:96-97 | disconnecting a socket no topic holds changes nothing |
| TopicRegistry.DisconnectAll | webapp/middleware/streamers/optionChainStreamer.py:119-120 | disconnecting a list of sockets one by one keeps the dictionaries consistent and the invariant, and only shrinks client sets |
| TopicRegistry.Failures | webapp/middleware/streamers/optionChainStreamer.py:110-117 | `to_remove` holds exactly the attempted clients whose send failed, each once |
| TopicRegistry.DisconnectClientsOfTopic | webapp/middleware/streamers/optionChainStreamer.py:119-120 | disconnecting distinct clients of one topic (no client in two topics) narrows that topic to the rest, cancelling its task once if none remain |
| TopicRegistry.BroadcastEvicts | webapp/middleware/streamers/optionChainStreamer.py:107-120 | after a broadcast the topic keeps exactly its clients whose send succeeded; a topic with no clients is left untouched, as is every other topic |
| TopicRegistry.TopicLifecycle | webapp/middleware/streamers/optionChainStreamer.py:84-105 | two clients on a fresh topic start exactly one task; one leaving keeps it running; both leaving cancel it and restore the client and task dictionaries |
| TopicRegistry.JoinTwo | webapp/middleware/streamers/optionChainStreamer.py:84-93 | two connects to a fresh topic give it both clients and one task |
| TopicRegistry.LeaveTwo | webapp/middleware/streamers/optionChainStreamer.py:95-105 | two clients leaving their shared topic one after the other cancel its task once, on the second departure |
| TopicRegistry.LeaveFirst | webapp/middleware/streamers/optionChainStreamer.py:95-105 | the first of two clients leaving keeps the topic and its task |
| TopicRegistry.LeaveLast | webapp/middleware/streamers/optionChainStreamer.py:100-104 | the last client leaving removes the topic and cancels its task |
| TopicRegistry.ConnectFresh | webapp/middleware/streamers/optionChainStreamer.py:87-93 | the first client of a topic creates its client set and its task |
| TopicRegistry.ConnectFresh2 | webapp/middleware/streamers/optionChainStreamer.py:87-93 | a further client of a topic with a task joins its set and starts no task |
| OptionChainStreamer.PlanStream | webapp/middleware/streamers/optionChainStreamer.py:23-44 | each early return happens exactly under its condition, in the code's order; otherwise the greeks list is the options' streamer symbols in order and the quote list holds exactly their underlying symbols |
| OptionChainStreamer.QuoteSymbolsDeduplicated | webapp/middleware/streamers/optionChainStreamer.py:43-44 | the deduplicated quote subscription is never longer than the greeks subscription |
| OptionChainStreamer.UnderlyingsBounded | webapp/middleware/streamers/optionChainStreamer.py:44 | a set built from the options has at most as many elements as there are options |
| OptionChainStreamer.SendToAll | webapp/middleware/streamers/optionChainStreamer.py:110-117 | every client of the topic is attempted exactly once, and the failures are collected in attempt order |
| OptionChainStreamer.StreamManager.constructor | webapp/middleware/streamers/optionChainStreamer.py:14-17 | a new manager has no topics, no tasks and no cancellations |
| OptionChainStreamer.StreamManager.Connect | webapp/middleware/streamers/optionChainStreamer.py:84-93 | the fields change exactly as `TopicRegistry.Connect`, and the manager stays valid |
| OptionChainStreamer.StreamManager.TakeOut | webapp/middleware/streamers/optionChainStreamer.py:97-104 | the fields change exactly as `TopicRegistry.TakeOut` |
| OptionChainStreamer.StreamManager.Disconnect | webapp/middleware/streamers/optionChainStreamer.py:95-105 | the scan over the keys changes the fields exactly as `TopicRegistry.Disconnect` |
| OptionChainStreamer.StreamManager.Broadcast | webapp/middleware/streamers/optionChainStreamer.py:107-120 | every client of the topic, as it was on entry, is attempted once; the new state is the old one with the failed clients disconnected in order |
| IsoDate.YearField | webapp/middleware/streamers/optionChainStreamer.py:29 | `%Y` reads a year 0..9999 only from its four-digit zero-padded text |
| IsoDate.YearFieldReads | webapp/middleware/streamers/optionChainStreamer.py:29 | every year 0..9999 is read back from its four-digit text |
| IsoDate.MonthField | webapp/middleware/streamers/optionChainStreamer.py:29 | `%m` reads a month 1..12 only from its two-digit text, or its one-digit text below 10 |
| IsoDate.MonthFieldReads | webapp/middleware/streamers/optionChainStreamer.py:29 | every month is read back from each of those texts |
| IsoDate.DayField | webapp/middleware/streamers/optionChainStreamer.py:29 | `%d` reads a day 1..31 only from its two-digit text or, below 10, its one-digit or space-padded text; the first matching alternative must reach the end of the text |
| IsoDate.DayFieldReads | webapp/middleware/streamers/optionChainStreamer.py:29 | every day 1..31 is read back from each of those texts |
| IsoDate.ParseYmd | webapp/middleware/streamers/optionChainStreamer.py:29-32 | a successful parse is a calendar date Python's `date` can hold, and the text spells it: four-digit year, dash, a month text, dash, a day text |
| IsoDate.SpelledDateParses | webapp/middleware/streamers/optionChainStreamer.py:29-32 | conversely, every text that spells a valid date that way parses to that date, padded or not |
| IsoDate.FormatYmd | webapp/middleware/streamers/optionChainStreamer.py:35 | `date.isoformat()` (used there only in a log line) is ten characters with dashes at positions 4 and 7, and spells the date with every field zero-padded; it serves as the parser's round-trip partner |
| IsoDate.FormatThenParse | webapp/middleware/streamers/optionChainStreamer.py:29 | every valid date, formatted, parses back to itself |
| RepositoryUtils.HandleException | webapp/middleware/utils/repository.py:274-322 | never a success and never data; status one of 400, 408, 409, 500, 503 with a non-empty error; status 500 exactly when the error is "Database error: " + the message; other exception types always get the generic 500 |
| RepositoryUtils.GenericStandsApart | webapp/middleware/utils/repository.py:319-322 | the generic error text can never equal one of the specific error texts |
| RepositoryUtils.FirstRule | webapp/middleware/utils/repository.py:280-317 | a matched rule is one of the table's and belongs to the exception's type |
| RepositoryUtils.HandleExceptionFollowsRules | webapp/middleware/utils/repository.py:274-322 | the nested if/elif classification equals a first-match scan of the rule table, falling back to the generic 500 |
| RepositoryUtils.IntegrityRules | webapp/middleware/utils/repository.py:280-290 | integrity errors: duplicate (2627, 2601, "duplicate") before foreign key (547, "foreign key"), else generic |
| RepositoryUtils.ProgrammingRules | webapp/middleware/utils/repository.py:292-302 | programming errors: syntax or invalid column before conversion failed, else generic |
| RepositoryUtils.ProgrammingFirstRule | webapp/middleware/utils/repository.py:292-302 | the rule scan for a programming error picks the syntax rule, then the conversion rule, else none |
| RepositoryUtils.DataRules | webapp/middleware/utils/repository.py:304-307 | every data error is "Invalid data format or value", 400 |
| RepositoryUtils.OperationalRules | webapp/middleware/utils/repository.py:309-317 | operational errors: timeout (408) before connection (503), else generic |
| RepositoryUtils.DuplicateBeforeForeignKey | webapp/middleware/utils/repository.py:281-290 | an integrity message mentioning "duplicate" is a 409 even if it also names a foreign key |
| RepositoryUtils.TimeoutBeforeConnection | webapp/middleware/utils/repository.py:310-317 | an operational message mentioning "timeout" is a 408 even if it also mentions a connection |
| RepositoryUtils.StatusOr500 | webapp/middleware/utils/repository.py:332 | `status_code or 500`: a missing or zero status becomes 500, any other is kept |
| RepositoryUtils.ErrorOr | webapp/middleware/utils/repository.py:333-335 | `error or fallback`: a missing or empty error becomes the fallback, any other is kept |
| RepositoryUtils.Validate | webapp/middleware/utils/repository.py:324-342 | returns the data exactly on success; otherwise raises with `status_code or 500` and the error, or the not-found message for a 404, or "Internal server error" |
| RepositoryUtils.ValidateOrNone | webapp/middleware/utils/repository.py:344-365 | returns (data or None) exactly on success or a reported 404; never raises a 404 |
| RepositoryUtils.ValidateOrNoneAgrees | webapp/middleware/utils/repository.py:324-365 | the two validators agree except on a failed 404, where one returns None and the other raises 404 |
| RepositoryUtils.ValidateHandled | webapp/middleware/utils/repository.py:274-342 | a classified exception always raises with its own status and error text, through either validator |
| RepositoryUtils.NotFoundMessageUnused | webapp/middleware/utils/repository.py:60-63 | the helpers' own 404 carries "Record not found", so `validate`'s not-found message is never shown for it |
| RepositoryUtils.Serialize | webapp/middleware/utils/repository.py:32-41 | values of the other types pass through unchanged; decimals, dates and bytes become JSON numbers or strings |
| RepositoryUtils.RowToDict | webapp/middleware/utils/repository.py:43-48 | the keys are exactly the column names zipped with a value (`zip` stops at the shorter) |
| RepositoryUtils.ZippedLastWins | webapp/middleware/utils/repository.py:46-47 | for repeated column names the last column's value is kept |
| RepositoryUtils.RowToDictPositional | webapp/middleware/utils/repository.py:43-48 | each column not repeated later maps to its own serialized value |
| RepositoryUtils.RowsToJson | webapp/middleware/utils/repository.py:66 | one dictionary per row, in row order |
| RepositoryUtils.FloorDiv | webapp/middleware/utils/repository.py:137 | Python's `//`: the quotient rounded toward negative infinity |
| RepositoryUtils.Offset | webapp/middleware/utils/repository.py:110 | page 1 starts at row 0; for a positive page size every page starts on a multiple of it, and the offset is negative exactly for a page below 1 |
| RepositoryUtils.TotalPages | webapp/middleware/utils/repository.py:137 | for a positive page size there is a page exactly when there is a row, and never a negative count for a non-negative total |
| RepositoryUtils.TotalPagesIsCeiling | webapp/middleware/utils/repository.py:137 | for a positive page size, total_pages is the least page count covering total_count; no rows, no pages |
| RepositoryUtils.PagesCoverRows | webapp/middleware/utils/repository.py:110-137 | every row index lies on exactly one page in 1..total_pages, inside that page's offset window |
| RepositoryUtils.PageClauseMarkers | webapp/middleware/utils/repository.py:113-115 | the pagination suffix has exactly two parameter markers |
| RepositoryUtils.PaginatedStatement | webapp/middleware/utils/repository.py:110-119 | the page query has two markers more than the query, bound to the parameters, then the offset, then the page size |
| RepositoryUtils.CountStatementAsWritten | webapp/middleware/utils/repository.py:126-127 | the count statement as written binds the query text first, then the caller's parameters |
| RepositoryUtils.CountStatementAsWrittenMismatch | webapp/middleware/utils/repository.py:126-128 | the count statement as written has no parameter marker but is bound to one value more than the parameters |
| RepositoryUtils.CountStatement | webapp/middleware/utils/repository.py:126-128 | the corrected count statement has exactly the query's markers and binds exactly the parameters |
| RepositoryUtils.Placeholders | webapp/middleware/utils/repository.py:244 | n markers joined by commas: length 2n-1, alternating '?' and ',' |
| RepositoryUtils.CallStatement | webapp/middleware/utils/repository.py:244-245 | "EXEC ", the procedure name, a space, then exactly `Placeholders(n)`: one marker per parameter joined by commas |
| RepositoryOps.FetchAll | webapp/middleware/utils/repository.py:50-74 | one execute; success exactly for a non-empty result set, with one dictionary per row and the row count; 404 for no rows; exceptions classified |
| RepositoryOps.FetchOne | webapp/middleware/utils/repository.py:76-98 | one execute; success exactly for a non-empty first row, as a dictionary with one affected row; 404 otherwise; exceptions classified |
| RepositoryOps.PageData | webapp/middleware/utils/repository.py:130-139 | the five page keys: the items, page, page size and count unchanged, and for a positive page size a page total that is the ceiling of count over page size |
| RepositoryOps.FetchPaginated | webapp/middleware/utils/repository.py:100-144 | runs the page statement, then the count statement only when the page had a result set; success exactly when both give results and the page size is not zero |
| RepositoryOps.Execute | webapp/middleware/utils/repository.py:146-175 | dict parameters are refused before any statement and rolled back; otherwise execute, commit, and the row count, with a rollback after any failure |
| RepositoryOps.DictParamsIsGeneric500 | webapp/middleware/utils/repository.py:155-158 | refusing dict parameters surfaces as a generic 500 through `validate` |
| RepositoryOps.ExecuteWithOutput | webapp/middleware/utils/repository.py:177-208 | dict parameters are refused and rolled back; a raising statement, or one without a result set, is rolled back and classified; otherwise commit, and the data is the first output row as a dictionary, or an empty dictionary; a failed commit is rolled back and classified |
| RepositoryOps.ExecuteMany | webapp/middleware/utils/repository.py:210-233 | one batch execute, commit, and the row count with the batch size, with a rollback after any failure |
| RepositoryOps.CallProcedure | webapp/middleware/utils/repository.py:235-272 | executes "EXEC name ?,...,?" with the parameters and commits; the data is the rows as dictionaries, or an empty list when there is no result set |
| OptionsController.Pick | webapp/middleware/controllers/optionsController.py:40-45 | the comprehension raises KeyError exactly when some item of that type has no symbol; otherwise at most one symbol per item |
| OptionsController.PickConcat | webapp/middleware/controllers/optionsController.py:40-45 | picking from two chains one after the other concatenates the picks: chain order is kept |
| OptionsController.PickOne | webapp/middleware/controllers/optionsController.py:40-45 | a single item contributes its symbol exactly when it has the type |
| OptionsController.Take5 | webapp/middleware/controllers/optionsController.py:42 | `[:5]` is the prefix of length five, or the whole list when shorter |
| OptionsController.TickerSymbols | webapp/middleware/controllers/optionsController.py:36-46 | a raised fetch fails with its text; a chain without items adds nothing; a chain with items succeeds exactly when both picks do, with the first five calls then the first five puts, and otherwise fails with the `KeyError` text `'symbol'`; at most ten symbols |
| OptionsController.Extend | webapp/middleware/controllers/optionsController.py:35-46 | one loop turn: a failure so far stays; it succeeds exactly when the run so far and the ticker's selection do, and then the symbols are the old ones followed by that selection; a failing selection's text becomes the result |
| OptionsController.Collect | webapp/middleware/controllers/optionsController.py:34-46 | at most ten symbols per ticker |
| OptionsController.CollectIsConcatenation | webapp/middleware/controllers/optionsController.py:34-46 | when the loop raises nothing, every selection succeeded and `occ_symbols` is the selections concatenated in ticker order, by an independent front-to-back definition |
| OptionsController.CollectSucceedsIffAllDo | webapp/middleware/controllers/optionsController.py:33-46 | the loop finishes without an exception exactly when every ticker's selection succeeds |
| OptionsController.FirstFailingTicker | webapp/middleware/controllers/optionsController.py:33-46 | a failing loop carries the text of the first ticker whose selection fails: its chain fetch's exception text, or `'symbol'` for an item without a symbol |
| OptionsController.CollectConcat | webapp/middleware/controllers/optionsController.py:34-46 | collecting over two runs of tickers concatenates their symbols, in ticker order |
| OptionsController.CollectSkipsEmptyChain | webapp/middleware/controllers/optionsController.py:37 | a ticker whose chain has no "items" adds nothing |
| OptionsController.CollectFailureSticks | webapp/middleware/controllers/optionsController.py:33-46 | the first failing ticker decides the result, whatever follows |
| OptionsController.GetEquityOptions | webapp/middleware/controllers/optionsController.py:14-66 | the loop that extends `occ_symbols` in place returns exactly what the handler function specifies |
| OptionsController.EquityOptions | webapp/middleware/controllers/optionsController.py:14-66 | an empty ticker list gives the 400 with its fixed detail, and only it gives a 400; every other failure is a 500, the handler's own 404 and 502 included |
| OptionsController.InTryFailuresCarryText | webapp/middleware/controllers/optionsController.py:33-66 | inside the `try` a failure is a 500 whose detail is `str(e)`: the loop's failure text (see FirstFailingTicker) for any ticker, the text a metadata fetch raised, "404: No OCC option symbols found for selected stocks." for no symbols, "502: " + the upstream error for an error dict |
| Http.Render | webapp/middleware/controllers/optionsController.py:66 | `str()` of an `HTTPException`: the decimal status, then ": ", then the detail |
| Http.RenderedStatuses | webapp/middleware/controllers/optionsController.py:48-61 | `str()` of the handler's 404 and 502 exceptions is the status, a colon and a space, then the detail |
| OptionsController.SuccessIsUpstreamMetadata | webapp/middleware/controllers/optionsController.py:48-63 | a success returns the upstream metadata for the non-empty collected symbols unchanged, and it is never an error dict; conversely, a non-empty collection whose metadata is fetched and is not an error dict returns that metadata |
| DataTable.WithoutSymbol | webapp/frontend/option_analytics/src/components/DataTable.jsx:21 | the filter keeps exactly the rows whose symbol differs |
| DataTable.Upsert | webapp/frontend/option_analytics/src/components/DataTable.jsx:19-23 | the message is last; the rows are the message plus the old rows of other symbols; no earlier row shares its symbol |
| DataTable.OnMessage | webapp/frontend/option_analytics/src/components/DataTable.jsx:13-25 | a quote replaces the quote and keeps the rows; an option message for the selected expiry upserts the rows (every row of its symbol removed, the message appended) and keeps the quote; anything else changes nothing |
| DataTable.Cleanup | webapp/frontend/option_analytics/src/components/DataTable.jsx:27-30 | the rows are cleared and the quote is kept |
| DataTable.LastQuote | webapp/frontend/option_analytics/src/components/DataTable.jsx:16-17 | the latest quote message: none exactly when no message is a quote, otherwise a quote of the stream with no quote after it |
| DataTable.WithoutSymbolIsSubsequence | webapp/frontend/option_analytics/src/components/DataTable.jsx:21 | the filter keeps the remaining rows in their order |
| DataTable.UpsertKeepsOrder | webapp/frontend/option_analytics/src/components/DataTable.jsx:19-23 | the rows before the upserted message are the old rows, in their old order |
| DataTable.UpsertKeepsUnique | webapp/frontend/option_analytics/src/components/DataTable.jsx:19-23 | at most one row per symbol is kept by an upsert |
| DataTable.WithoutSymbolIdempotent | webapp/frontend/option_analytics/src/components/DataTable.jsx:21 | filtering twice filters once |
| DataTable.UpsertIdempotent | webapp/frontend/option_analytics/src/components/DataTable.jsx:19-23 | the same option message twice in a row leaves the rows as after the first |
| DataTable.ReplayKeepsUnique | webapp/frontend/option_analytics/src/components/DataTable.jsx:13-25 | over any stream of messages the table never has two rows for a symbol |
| DataTable.ReplayRowsFor | webapp/frontend/option_analytics/src/components/DataTable.jsx:16-23 | every row is a grouped-option message for the selected expiry |
| DataTable.ReplayQuoteIsLatest | webapp/frontend/option_analytics/src/components/DataTable.jsx:16-17 | the quote shown is the latest quote message, or the previous quote if none arrived |
| DataTable.CleanupThenReplay | webapp/frontend/option_analytics/src/components/DataTable.jsx:13-30 | after the cleanup for a new expiry the table holds only rows of that expiry, one per symbol, while the quote carries over |

## Left out

- I/O and the websocket transport are not modelled: `websocket.accept()`, `send_json` payloads and the client address.
- The logger is not modelled.
- `start_stream` after its checks is not modelled: the DXLink streamer, the listeners, `asyncio.gather` and the timestamps.
- Interleavings of the async methods are not modelled: the model assumes each `connect`, `disconnect` and `broadcast` runs atomically. In the code, `broadcast` awaits `send_json` while iterating the live client set (optionChainStreamer.py:110-117). The quote and greeks listeners broadcast to the same topic concurrently (line 82), so another broadcast's evictions, a `disconnect` or a `connect` can change the set's size during a send. The next step of the `for` then raises `RuntimeError` out of `broadcast`: the stream task ends and the collected evictions are never performed. The model does not capture this hazard.
- `TopicRegistry.Failures`: which sends fail is an input set (`failing`), not a model of the network. Both exception branches of `broadcast` are treated alike.
- `OptionChainStreamer.StreamManager.Broadcast`: Python's set iteration order is not modelled. The order of attempts is any order, chosen by `:|`.
- `OptionChainStreamer.PlanStream`: the option chain is an input (a map from date to options); `get_option_chain` itself is not modelled. A falsy chain is modelled as an empty map.
- `IsoDate.ParseYmd`: digits are ASCII only. Python's `\d` also accepts other Unicode decimal digits, so a year, month or day written in them is not accepted by the model.
- `RepositoryUtils.HandleException`: `str(exc).lower()` is modelled as ASCII lower-casing.
- `RepositoryUtils.Serialize`: `float(Decimal)`, `isoformat()` and the UTF-8 decode are not computed. Their results are carried in the value's constructor.
- `RepositoryUtils.RowToDict`: the dictionary is a map, so the key order of the Python dict is not modelled.
- `RepositoryOps.FetchAll`: the database is an input. What a statement does (`Outcome`), the count result, and the commit failure are parameters.
- `get_cursor`'s `cursor.close()` is not modelled, and neither is a failing rollback: the rollback's warning is only logged, so the response is the same.
- `RepositoryOps.FetchPaginated`: this member uses the corrected count statement (see Findings). The code as written is kept in `RepositoryUtils.CountStatementAsWritten`.
- `RepositoryOps.Execute`: pyodbc's `rowcount` value (-1 for unknown) is taken as given, not computed.
- `log_dml_result` is not modelled. It only logs.
- `OptionsController.Collect`: `get_option_chain` is a function of the ticker (deterministic per ticker). Its JSON is reduced to the items' "option-type" and "symbol".
- `OptionsController.GetEquityOptions`: the bearer token and `OptionsService` construction are not modelled.
- `DataTable.OnMessage`: `JSON.parse` failures are not modelled. Symbols and expiries are strings or absent; other JSON types are not modelled.
- Rendering the table is not modelled.

## Findings

| source | as written | input that shows it | evidently intended | confidence | as-written member | corrected member |
|---|---|---|---|---|---|---|
| webapp/middleware/utils/repository.py:126-128 | the count statement is the literal `SELECT COUNT(*) FROM (%s) AS count_query`, executed with the query text bound as an extra parameter; it has no `?` marker and is never formatted | any call, e.g. query `SELECT * FROM t` with no parameters: the statement has 0 markers and 1 bound value, so the driver raises and `fetch_paginated` never succeeds | embed the query in the statement and bind only its own parameters | high (not executed) | RepositoryUtils.CountStatementAsWrittenMismatch | RepositoryUtils.CountStatement |
