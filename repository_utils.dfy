/**
 * The pure half of `RepositoryUtils`: the response record every repository
 * call returns, the mapping from database exceptions to HTTP statuses, the
 * conversion of a response into data or an `HTTPException`, the shaping of
 * result rows into dictionaries, and the text and arithmetic of the SQL
 * statements the cursor sequences send.
 */
module RepositoryUtils {
  import opened Wrappers
  import opened Http

  /** The JSON-like values a response carries (`None` is `JNull`). */
  datatype Json =
    | JNull
    | JBool(b: bool)
    | JInt(i: int)
    | JReal(x: real)
    | JStr(s: string)
    | JList(items: seq<Json>)
    | JDict(entries: map<string, Json>)

  /**
   * `RepositoryResponse`: `data` is `None` unless set, and `error`,
   * `status_code` and `affected_rows` are optional.
   */
  datatype Response = Response(
    success: bool,
    data: Json,
    error: Option<string>,
    statusCode: Option<int>,
    affectedRows: Option<int>)

  /** The exception classes `_handle_exception` tells apart. */
  datatype ExceptionKind =
    | IntegrityError
    | ProgrammingError
    | DataError
    | OperationalError
    | OtherError(name: string)

  /** An exception with its class and `str(exc)`. */
  datatype DbException = DbException(kind: ExceptionKind, message: string)

  /** A value the driver hands back in a row. */
  datatype SqlValue =
    | Native(value: Json)       // already JSON-like: returned as is
    | DecimalValue(x: real)     // `Decimal`, converted with `float()`
    | Temporal(iso: string)     // `datetime` / `date`, given by its `isoformat()`
    | Bytes(decoded: string)    // `bytes`, given by its lenient UTF-8 decoding

  // ---------------------------------------------------------------------
  // Exception classification (`_handle_exception`)
  // ---------------------------------------------------------------------

  /** A failed response with a status and an error message. */
  function Fail(status: int, error: string): Response
  {
    Response(false, JNull, Some(error), Some(status), None)
  }

  function LowerChar(c: char): char
  {
    if 'A' <= c <= 'Z' then (c as int + 32) as char else c
  }

  /** `str.lower()` on the ASCII letters. */
  function Lower(s: string): (t: string)
    ensures |t| == |s|
  {
    seq(|s|, i requires 0 <= i < |s| => LowerChar(s[i]))
  }

  /** Python's `sub in s` for strings. */
  predicate Contains(s: string, sub: string)
    decreases |s|
  {
    sub <= s || (s != [] && Contains(s[1..], sub))
  }

  /** Some needle of `subs` occurs in `s`. */
  predicate ContainsAny(s: string, subs: seq<string>)
  {
    subs != [] && (Contains(s, subs[0]) || ContainsAny(s, subs[1..]))
  }

  /** The fallback: status 500 and the exception's own text. */
  function Generic(e: DbException): Response
  {
    Fail(500, "Database error: " + e.message)
  }

  /**
   * `_handle_exception`: the class of the exception first, then substring
   * tests on its lower-cased text, in the order the source writes them.
   * A known class whose text matches none of its tests falls through to
   * the generic response.
   */
  function HandleException(e: DbException): (r: Response)
    ensures !r.success && r.data == JNull && r.affectedRows == None
    ensures r.statusCode.Some? && r.statusCode.value in {400, 408, 409, 500, 503}
    ensures r.error.Some? && r.error.value != ""
    ensures r.statusCode == Some(500) <==> r.error == Some("Database error: " + e.message)
    ensures e.kind.OtherError? ==> r == Generic(e)
  {
    GenericStandsApart(e.message);
    var msg := Lower(e.message);
    match e.kind
    case IntegrityError =>
      if Contains(msg, "2627") || Contains(msg, "2601") || Contains(msg, "duplicate") then
        Fail(409, "Duplicate record exists")
      else if Contains(msg, "547") || Contains(msg, "foreign key") then
        Fail(400, "Foreign key constraint violation")
      else Generic(e)
    case ProgrammingError =>
      if Contains(msg, "syntax") || Contains(msg, "invalid column") then
        Fail(400, "Invalid SQL syntax or column reference")
      else if Contains(msg, "conversion failed") then
        Fail(400, "Data type conversion failed")
      else Generic(e)
    case DataError =>
      Fail(400, "Invalid data format or value")
    case OperationalError =>
      if Contains(msg, "timeout") then
        Fail(408, "Database operation timeout")
      else if Contains(msg, "connection") then
        Fail(503, "Database connection error")
      else Generic(e)
    case OtherError(_) =>
      Generic(e)
  }

  /** The generic message is none of the specific ones. */
  lemma GenericStandsApart(m: string)
    ensures "Database error: " + m !in
      {"Duplicate record exists", "Foreign key constraint violation",
       "Invalid SQL syntax or column reference", "Data type conversion failed",
       "Invalid data format or value", "Database operation timeout", "Database connection error"}
  {
    var g := "Database error: " + m;
    assert g[0] == 'D' && g[1] == 'a' && g[9] == 'e';
    assert "Duplicate record exists"[1] == 'u';
    assert "Foreign key constraint violation"[0] == 'F';
    assert "Invalid SQL syntax or column reference"[0] == 'I';
    assert "Data type conversion failed"[9] == ' ';
    assert "Invalid data format or value"[0] == 'I';
    assert "Database operation timeout"[9] == 'o';
    assert "Database connection error"[9] == 'c';
  }

  /**
   * The same classification written as a table: the first rule whose class
   * matches and one of whose needles occurs in the lower-cased text wins.
   * (The empty needle occurs in every text: a `DataError` always matches.)
   */
  datatype Rule = Rule(kind: ExceptionKind, needles: seq<string>, status: int, error: string)

  const Rules: seq<Rule> := [
    Rule(IntegrityError, ["2627", "2601", "duplicate"], 409, "Duplicate record exists"),
    Rule(IntegrityError, ["547", "foreign key"], 400, "Foreign key constraint violation"),
    Rule(ProgrammingError, ["syntax", "invalid column"], 400, "Invalid SQL syntax or column reference"),
    Rule(ProgrammingError, ["conversion failed"], 400, "Data type conversion failed"),
    Rule(DataError, [""], 400, "Invalid data format or value"),
    Rule(OperationalError, ["timeout"], 408, "Database operation timeout"),
    Rule(OperationalError, ["connection"], 503, "Database connection error")
  ]

  function FirstRule(rules: seq<Rule>, e: DbException): (found: Option<Rule>)
    ensures found.Some? ==> found.value in rules && found.value.kind == e.kind
  {
    if rules == [] then None
    else if rules[0].kind == e.kind && ContainsAny(Lower(e.message), rules[0].needles) then Some(rules[0])
    else FirstRule(rules[1..], e)
  }

  function Classify(e: DbException): Response
  {
    match FirstRule(Rules, e)
    case Some(rule) => Fail(rule.status, rule.error)
    case None => Generic(e)
  }

  lemma {:induction false} NoRuleOfKind(rules: seq<Rule>, e: DbException)
    requires forall k :: 0 <= k < |rules| ==> rules[k].kind != e.kind
    ensures FirstRule(rules, e) == None
  {
    if rules != [] {
      NoRuleOfKind(rules[1..], e);
    }
  }

  lemma ContainsAny1(s: string, a: string)
    ensures ContainsAny(s, [a]) <==> Contains(s, a)
  {
    assert [a][1..] == [];
  }

  lemma ContainsAny2(s: string, a: string, b: string)
    ensures ContainsAny(s, [a, b]) <==> Contains(s, a) || Contains(s, b)
  {
    assert [a, b][1..] == [b];
    ContainsAny1(s, b);
  }

  lemma ContainsAny3(s: string, a: string, b: string, c: string)
    ensures ContainsAny(s, [a, b, c]) <==> Contains(s, a) || Contains(s, b) || Contains(s, c)
  {
    assert [a, b, c][1..] == [b, c];
    ContainsAny2(s, b, c);
  }

  /** Rules of another class are passed over. */
  lemma {:induction false} SkipRules(rules: seq<Rule>, e: DbException, k: nat)
    requires k <= |rules| && forall j :: 0 <= j < k ==> rules[j].kind != e.kind
    ensures FirstRule(rules, e) == FirstRule(rules[k..], e)
  {
    if k > 0 {
      SkipRules(rules[1..], e, k - 1);
      assert rules[1..][k - 1..] == rules[k..];
    }
  }

  /** The if/elif chain of `_handle_exception` is exactly the rule table. */
  lemma HandleExceptionFollowsRules(e: DbException)
    ensures HandleException(e) == Classify(e)
  {
    match e.kind
    case IntegrityError => IntegrityRules(e);
    case ProgrammingError => ProgrammingRules(e);
    case DataError => DataRules(e);
    case OperationalError => OperationalRules(e);
    case OtherError(_) => NoRuleOfKind(Rules, e);
  }

  lemma IntegrityRules(e: DbException)
    requires e.kind == IntegrityError
    ensures HandleException(e) == Classify(e)
  {
    var msg := Lower(e.message);
    assert FirstRule(Rules, e)
        == if ContainsAny(msg, Rules[0].needles) then Some(Rules[0]) else FirstRule(Rules[1..], e);
    assert FirstRule(Rules[1..], e)
        == if ContainsAny(msg, Rules[1].needles) then Some(Rules[1]) else FirstRule(Rules[2..], e);
    ContainsAny3(msg, "2627", "2601", "duplicate");
    ContainsAny2(msg, "547", "foreign key");
    NoRuleOfKind(Rules[2..], e);
  }

  lemma ProgrammingRules(e: DbException)
    requires e.kind == ProgrammingError
    ensures HandleException(e) == Classify(e)
  {
    var msg := Lower(e.message);
    ProgrammingFirstRule(e);
    ContainsAny2(msg, "syntax", "invalid column");
    ContainsAny1(msg, "conversion failed");
  }

  lemma ProgrammingFirstRule(e: DbException)
    requires e.kind == ProgrammingError
    ensures FirstRule(Rules, e)
      == if ContainsAny(Lower(e.message), ["syntax", "invalid column"]) then Some(Rules[2])
         else if ContainsAny(Lower(e.message), ["conversion failed"]) then Some(Rules[3])
         else None
  {
    SkipRules(Rules, e, 2);
    var rest := Rules[2..];
    assert rest[0].needles == ["syntax", "invalid column"];
    assert rest[1..][0].needles == ["conversion failed"];
    assert rest[1..][1..] == Rules[4..];
    NoRuleOfKind(Rules[4..], e);
  }

  lemma DataRules(e: DbException)
    requires e.kind == DataError
    ensures HandleException(e) == Classify(e)
  {
    var msg := Lower(e.message);
    SkipRules(Rules, e, 4);
    assert FirstRule(Rules[4..], e) == Some(Rules[4]) by {
      ContainsAny1(msg, "");
    }
  }

  lemma OperationalRules(e: DbException)
    requires e.kind == OperationalError
    ensures HandleException(e) == Classify(e)
  {
    var msg := Lower(e.message);
    SkipRules(Rules, e, 5);
    assert FirstRule(Rules[5..], e)
        == if ContainsAny(msg, Rules[5].needles) then Some(Rules[5]) else FirstRule(Rules[6..], e);
    assert FirstRule(Rules[6..], e)
        == if ContainsAny(msg, Rules[6].needles) then Some(Rules[6]) else FirstRule(Rules[7..], e);
    ContainsAny1(msg, "timeout");
    ContainsAny1(msg, "connection");
  }

  /** A duplicate key wins over a foreign-key hint in the same message. */
  lemma DuplicateBeforeForeignKey(msg: string)
    requires Contains(Lower(msg), "duplicate")
    ensures HandleException(DbException(IntegrityError, msg)) == Fail(409, "Duplicate record exists")
  {
  }

  /** A timeout wins over a connection hint in the same message. */
  lemma TimeoutBeforeConnection(msg: string)
    requires Contains(Lower(msg), "timeout")
    ensures HandleException(DbException(OperationalError, msg)) == Fail(408, "Database operation timeout")
  {
  }

  // ---------------------------------------------------------------------
  // `validate` and `validate_or_none`
  // ---------------------------------------------------------------------

  /** `response.status_code or 500`: `None` and `0` are both falsy. */
  function StatusOr500(code: Option<int>): (status: int)
    ensures status != 0
    ensures code.Some? && code.value != 0 ==> status == code.value
    ensures code.None? || code.value == 0 ==> status == 500
  {
    if code.Some? && code.value != 0 then code.value else 500
  }

  /** `response.error or fallback`: `None` and `""` are both falsy. */
  function ErrorOr(error: Option<string>, fallback: string): (message: string)
    ensures error.Some? && error.value != "" ==> message == error.value
    ensures (error.None? || error.value == "") ==> message == fallback
  {
    if error.Some? && error.value != "" then error.value else fallback
  }

  /**
   * `validate`: the data of a successful response, or the `HTTPException`
   * a failed one is turned into.
   */
  function Validate(response: Response, notFoundMsg: string): (r: Result<Json, HttpError>)
    ensures response.success <==> r.Success?
    ensures r.Success? ==> r.value == response.data
    ensures r.Failure? ==> r.error.status == StatusOr500(response.statusCode)
    ensures r.Failure? ==>
      r.error.detail == ErrorOr(response.error, if r.error.status == 404 then notFoundMsg else "Internal server error")
  {
    if response.success then Success(response.data)
    else
      var status := StatusOr500(response.statusCode);
      var message := ErrorOr(response.error, if status == 404 then notFoundMsg else "Internal server error");
      Failure(HttpError(status, message))
  }

  /**
   * `validate_or_none`: like `validate`, except that a failed response with
   * status 404 gives `None` instead of raising.
   */
  function ValidateOrNone(response: Response): (r: Result<Json, HttpError>)
    ensures r.Success? <==> response.success || response.statusCode == Some(404)
    ensures r.Failure? ==> r.error.status != 404
  {
    if response.success then Success(response.data)
    else if response.statusCode == Some(404) then Success(JNull)
    else
      Failure(HttpError(StatusOr500(response.statusCode), ErrorOr(response.error, "Internal server error")))
  }

  /**
   * Away from a reported 404, the two agree whatever `not_found_msg` is: the
   * not-found message is only ever used for a 404 the response reports.
   */
  lemma ValidateOrNoneAgrees(response: Response, notFoundMsg: string)
    ensures response.statusCode != Some(404) || response.success
      ==> ValidateOrNone(response) == Validate(response, notFoundMsg)
    ensures !response.success && response.statusCode == Some(404) ==>
      && ValidateOrNone(response) == Success(JNull)
      && Validate(response, notFoundMsg) == Failure(HttpError(404, ErrorOr(response.error, notFoundMsg)))
  {
  }

  /**
   * A classified exception reaches the caller of `validate` as exactly the
   * status and message `_handle_exception` chose.
   */
  lemma ValidateHandled(e: DbException, notFoundMsg: string)
    ensures Validate(HandleException(e), notFoundMsg)
      == Failure(HttpError(HandleException(e).statusCode.value, HandleException(e).error.value))
    ensures ValidateOrNone(HandleException(e)) == Validate(HandleException(e), notFoundMsg)
  {
  }

  /** The 404 of `fetch_all` / `fetch_one`. */
  const NotFound: Response := Fail(404, "Record not found")

  /**
   * `validate` never uses `not_found_msg` for the 404 the fetch helpers
   * produce: their response already carries "Record not found".
   */
  lemma NotFoundMessageUnused(notFoundMsg: string)
    ensures Validate(NotFound, notFoundMsg) == Failure(HttpError(404, "Record not found"))
    ensures ValidateOrNone(NotFound) == Success(JNull)
  {
  }

  // ---------------------------------------------------------------------
  // Rows (`_serialize_value`, `_row_to_dict`)
  // ---------------------------------------------------------------------

  /** `_serialize_value`: driver types become JSON-like values, the rest pass through. */
  function Serialize(v: SqlValue): (j: Json)
    ensures v.Native? ==> j == v.value
    ensures j.JStr? || j.JReal? || v.Native?
  {
    match v
    case Native(value) => value
    case DecimalValue(x) => JReal(x)
    case Temporal(iso) => JStr(iso)
    case Bytes(decoded) => JStr(decoded)
  }

  function Min(a: nat, b: nat): nat
  {
    if a <= b then a else b
  }

  /**
   * `_row_to_dict`: the dictionary comprehension over `zip(columns, row)`.
   * `zip` stops at the shorter of the two.
   */
  function RowToDict(row: seq<SqlValue>, columns: seq<string>): (d: map<string, Json>)
    ensures d.Keys == set i | 0 <= i < Min(|row|, |columns|) :: columns[i]
  {
    Zipped(row, columns, Min(|row|, |columns|))
  }

  /** The dictionary built from the first `n` pairs of the zip, later pairs overwriting earlier ones. */
  function Zipped(row: seq<SqlValue>, columns: seq<string>, n: nat): (d: map<string, Json>)
    requires n <= |row| && n <= |columns|
    ensures d.Keys == set i | 0 <= i < n :: columns[i]
  {
    if n == 0 then map[]
    else Zipped(row, columns, n - 1)[columns[n - 1] := Serialize(row[n - 1])]
  }

  /**
   * A column keeps the value at its position unless a later column of the
   * same name overwrites it.
   */
  lemma {:induction false} ZippedLastWins(row: seq<SqlValue>, columns: seq<string>, n: nat, i: nat)
    requires n <= |row| && n <= |columns| && i < n
    requires forall j :: i < j < n ==> columns[j] != columns[i]
    ensures Zipped(row, columns, n)[columns[i]] == Serialize(row[i])
  {
    if i < n - 1 {
      ZippedLastWins(row, columns, n - 1, i);
    }
  }

  /**
   * `_row_to_dict` maps each column to the value at its position when no
   * later column repeats its name; with distinct names, every column does.
   */
  lemma RowToDictPositional(row: seq<SqlValue>, columns: seq<string>, i: nat)
    requires i < |row| && i < |columns|
    requires forall j :: i < j < Min(|row|, |columns|) ==> columns[j] != columns[i]
    ensures RowToDict(row, columns)[columns[i]] == Serialize(row[i])
  {
    ZippedLastWins(row, columns, Min(|row|, |columns|), i);
  }

  /** `[_row_to_dict(row, columns) for row in rows]`. */
  function RowsToJson(rows: seq<seq<SqlValue>>, columns: seq<string>): (items: seq<Json>)
    ensures |items| == |rows|
    ensures forall k :: 0 <= k < |rows| ==> items[k] == JDict(RowToDict(rows[k], columns))
  {
    seq(|rows|, k requires 0 <= k < |rows| => JDict(RowToDict(rows[k], columns)))
  }

  // ---------------------------------------------------------------------
  // Statement text and pagination arithmetic
  // ---------------------------------------------------------------------

  /** The number of `?` parameter markers in a statement. */
  function Markers(s: string): (n: nat)
    ensures n <= |s|
  {
    if s == [] then 0 else Markers(s[..|s| - 1]) + (if s[|s| - 1] == '?' then 1 else 0)
  }

  lemma {:induction false} NoMarkers(s: string)
    requires forall i :: 0 <= i < |s| ==> s[i] != '?'
    ensures Markers(s) == 0
  {
    if s != [] {
      NoMarkers(s[..|s| - 1]);
    }
  }

  lemma {:induction false} MarkersConcat(a: string, b: string)
    ensures Markers(a + b) == Markers(a) + Markers(b)
    decreases |b|
  {
    if b == [] {
      assert a + b == a;
    } else {
      assert (a + b)[..|a + b| - 1] == a + b[..|b| - 1];
      MarkersConcat(a, b[..|b| - 1]);
    }
  }

  /** Python's `//`: rounds toward negative infinity. */
  function FloorDiv(a: int, b: int): (q: int)
    requires b != 0
    ensures b > 0 ==> q * b <= a < q * b + b
    ensures b < 0 ==> q * b >= a > q * b + b
  {
    if b > 0 then a / b else (-a) / (-b)
  }

  /**
   * `offset = (page - 1) * page_size`: page 1 starts at the first row, every
   * page starts on a multiple of the page size, and a page number below 1
   * gives a negative offset.
   */
  function Offset(page: int, pageSize: int): (offset: int)
    ensures page == 1 ==> offset == 0
    ensures pageSize > 0 ==> offset % pageSize == 0
    ensures pageSize > 0 ==> (offset < 0 <==> page < 1)
  {
    if pageSize > 0 then
      MultipleMod(page - 1, pageSize);
      SignOfProduct(page - 1, pageSize);
      (page - 1) * pageSize
    else (page - 1) * pageSize
  }

  lemma MultipleMod(a: int, b: int)
    requires b > 0
    ensures (a * b) % b == 0
  {
    var q, m := (a * b) / b, (a * b) % b;
    assert a * b == q * b + m;
    assert m == (a - q) * b;
    SignOfProduct(a - q, b);
    assert a - q > 0 ==> (a - q) * b >= b;
  }

  lemma SignOfProduct(a: int, b: int)
    requires b > 0
    ensures a * b < 0 <==> a < 0
    ensures a * b == 0 <==> a == 0
  {
  }

  /** `(total_count + page_size - 1) // page_size`: for a positive page size, some page exactly when some row. */
  function TotalPages(totalCount: int, pageSize: int): (pages: int)
    requires pageSize != 0
    ensures pageSize > 0 ==> (pages > 0 <==> totalCount > 0)
    ensures pageSize > 0 && totalCount >= 0 ==> pages >= 0
  {
    FloorDiv(totalCount + pageSize - 1, pageSize)
  }

  /**
   * For a positive page size the page count is the ceiling of
   * `total_count / page_size`: the pages before the last are not enough,
   * and all of them are.
   */
  lemma TotalPagesIsCeiling(totalCount: int, pageSize: int)
    requires pageSize > 0
    ensures (TotalPages(totalCount, pageSize) - 1) * pageSize < totalCount
    ensures totalCount <= TotalPages(totalCount, pageSize) * pageSize
    ensures totalCount == 0 ==> TotalPages(totalCount, pageSize) == 0
  {
    var t := TotalPages(totalCount, pageSize);
    assert t * pageSize <= totalCount + pageSize - 1 < t * pageSize + pageSize;
    if totalCount == 0 {
      assert t * pageSize <= pageSize - 1 < (t + 1) * pageSize;
    }
  }

  /**
   * Every row number below `total_count` is on exactly one of the pages
   * 1..total_pages, the one whose offset window holds it.
   */
  lemma PagesCoverRows(totalCount: int, pageSize: int, row: int)
    requires pageSize > 0 && 0 <= row < totalCount
    ensures var page := row / pageSize + 1;
      1 <= page <= TotalPages(totalCount, pageSize)
      && Offset(page, pageSize) <= row < Offset(page, pageSize) + pageSize
  {
    TotalPagesIsCeiling(totalCount, pageSize);
    var q := row / pageSize;
    var t := TotalPages(totalCount, pageSize);
    assert q * pageSize <= row < q * pageSize + pageSize;
    assert Offset(q + 1, pageSize) == q * pageSize;
    assert (t - q) * pageSize > 0 by {
      assert t * pageSize - q * pageSize > 0;
    }
    PositiveFactor(t - q, pageSize);
  }

  lemma PositiveFactor(a: int, b: int)
    requires b > 0 && a * b > 0
    ensures a > 0
  {
  }

  /** The clause `fetch_paginated` appends to the caller's query. */
  const PageClause := " ORDER BY (SELECT NULL) OFFSET " + "?" + " ROWS FETCH NEXT " + "?" + " ROWS ONLY"

  lemma PageClauseMarkers()
    ensures Markers(PageClause) == 2
  {
    NoMarkers(" ORDER BY (SELECT NULL) OFFSET ");
    NoMarkers(" ROWS FETCH NEXT ");
    NoMarkers(" ROWS ONLY");
    MarkersConcat(" ORDER BY (SELECT NULL) OFFSET ", "?");
    MarkersConcat(" ORDER BY (SELECT NULL) OFFSET " + "?", " ROWS FETCH NEXT ");
    MarkersConcat(" ORDER BY (SELECT NULL) OFFSET " + "?" + " ROWS FETCH NEXT ", "?");
    MarkersConcat(" ORDER BY (SELECT NULL) OFFSET " + "?" + " ROWS FETCH NEXT " + "?", " ROWS ONLY");
  }

  /**
   * The paginated statement and its parameters: the caller's parameters
   * first, then the offset and the page size, matching the two markers the
   * clause adds.
   */
  function PaginatedStatement(query: string, params: seq<SqlValue>, page: int, pageSize: int)
    : (stmt: (string, seq<SqlValue>))
    ensures Markers(stmt.0) == Markers(query) + 2
    ensures |stmt.1| == |params| + 2 && stmt.1[..|params|] == params
    ensures stmt.1[|params|] == Native(JInt(Offset(page, pageSize)))
    ensures stmt.1[|params| + 1] == Native(JInt(pageSize))
  {
    MarkersConcat(query, PageClause);
    PageClauseMarkers();
    var binds := params + [Native(JInt(Offset(page, pageSize))), Native(JInt(pageSize))];
    assert binds[..|params|] == params;
    (query + PageClause, binds)
  }

  /**
   * The count statement as `fetch_paginated` writes it: the `%s` is never
   * substituted, and the query text is bound as an extra parameter.
   */
  function CountStatementAsWritten(query: string, params: seq<SqlValue>): (stmt: (string, seq<SqlValue>))
    ensures |stmt.1| == |params| + 1 && stmt.1[0] == Native(JStr(query)) && stmt.1[1..] == params
  {
    ("SELECT COUNT(*) FROM (%s) AS count_query", [Native(JStr(query))] + params)
  }

  /**
   * It never carries a marker for the values it binds: one more value than
   * the caller's parameters, against no marker at all.
   */
  lemma CountStatementAsWrittenMismatch(query: string, params: seq<SqlValue>)
    ensures Markers(CountStatementAsWritten(query, params).0) == 0
    ensures |CountStatementAsWritten(query, params).1| == |params| + 1
  {
    NoMarkers("SELECT COUNT(*) FROM (%s) AS count_query");
  }

  /**
   * The count statement with the query substituted, bound with the
   * caller's parameters: its markers are the query's own, so it is
   * consistent exactly when the query is.
   */
  function CountStatement(query: string, params: seq<SqlValue>): (stmt: (string, seq<SqlValue>))
    ensures Markers(stmt.0) == Markers(query)
    ensures stmt.1 == params
  {
    MarkersConcat("SELECT COUNT(*) FROM (", query);
    MarkersConcat("SELECT COUNT(*) FROM (" + query, ") AS count_query");
    NoMarkers("SELECT COUNT(*) FROM (");
    NoMarkers(") AS count_query");
    ("SELECT COUNT(*) FROM (" + query + ") AS count_query", params)
  }

  /** `",".join(["?" for _ in params])`. */
  function Placeholders(n: nat): (s: string)
    ensures Markers(s) == n
    ensures |s| == if n == 0 then 0 else 2 * n - 1
    ensures forall i :: 0 <= i < |s| ==> s[i] == (if i % 2 == 0 then '?' else ',')
  {
    if n == 0 then ""
    else if n == 1 then "?"
    else
      var p := Placeholders(n - 1);
      MarkersConcat(p, ",?");
      assert Markers(",?") == 1;
      p + ",?"
  }

  /**
   * `call_procedure`'s statement `f"EXEC {proc_name} {param_placeholders}"`:
   * one marker per parameter (the trailing space stays when there are none).
   */
  function CallStatement(procName: string, paramCount: nat): (s: string)
    ensures Markers(s) == Markers(procName) + paramCount
    ensures |s| > 5 + |procName|
    ensures s[..5] == "EXEC " && s[5..5 + |procName|] == procName && s[5 + |procName|] == ' '
    ensures s[6 + |procName|..] == Placeholders(paramCount)
  {
    var s := "EXEC " + procName + " " + Placeholders(paramCount);
    MarkersConcat("EXEC ", procName);
    MarkersConcat("EXEC " + procName, " ");
    MarkersConcat("EXEC " + procName + " ", Placeholders(paramCount));
    NoMarkers("EXEC ");
    NoMarkers(" ");
    s
  }
}
