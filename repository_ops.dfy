/**
 * The cursor sequences of `RepositoryUtils`: each operation sends its
 * statements through a connection, reads the result the database gives
 * back, commits or rolls back, and shapes a `RepositoryResponse`. What
 * the database does with a statement is an input (`Outcome`); what the
 * connection is asked to do is recorded in its `calls` log.
 */
module RepositoryOps {
  import opened Wrappers
  import opened Http
  import opened RepositoryUtils

  /** What the database does with one executed statement. */
  datatype Outcome =
    | Raises(e: DbException)
    | ResultSet(columns: seq<string>, rows: seq<seq<SqlValue>>, rowCount: int)
    | NoResultSet(rowCount: int)   // a statement that returns no rows, e.g. an UPDATE

  /** The parameters of `execute`: a tuple or list, or a dict the method refuses. */
  datatype Params =
    | Positional(values: seq<SqlValue>)
    | Keyword(entries: map<string, SqlValue>)

  /** A request the connection receives. */
  datatype Call =
    | Run(sql: string, binds: seq<SqlValue>)           // `cursor.execute`
    | RunMany(sql: string, batch: seq<seq<SqlValue>>)  // `cursor.executemany`
    | Commit
    | Rollback

  /** What the driver raises when rows are fetched after a statement without a result set. */
  const NoResults := DbException(ProgrammingError, "No results.  Previous SQL was not a query.")

  /** What `execute` raises itself for dict parameters. */
  const DictParams := DbException(OtherError("ValueError"), "Do not pass dict as SQL parameters. Use a tuple or list.")

  /** What `//` raises for a page size of zero. */
  const ZeroPageSize := DbException(OtherError("ZeroDivisionError"), "integer division or modulo by zero")

  /** A database connection, as far as the repository helpers use it. */
  class Connection {
    var calls: seq<Call>

    constructor ()
      ensures calls == []
    {
      calls := [];
    }
  }

  /**
   * `fetch_all`: every row of the result as a dictionary, or 404 "Record
   * not found" when there is none; any exception is classified.
   */
  method FetchAll(conn: Connection, query: string, params: seq<SqlValue>, outcome: Outcome) returns (r: Response)
    modifies conn
    ensures conn.calls == old(conn.calls) + [Run(query, params)]
    ensures r.success <==> outcome.ResultSet? && outcome.rows != []
    ensures outcome.Raises? ==> r == HandleException(outcome.e)
    ensures outcome.NoResultSet? ==> r == HandleException(NoResults)
    ensures outcome.ResultSet? && outcome.rows == [] ==> r == NotFound
    ensures r.success ==>
      r == Response(true, JList(RowsToJson(outcome.rows, outcome.columns)), None, None, Some(|outcome.rows|))
  {
    conn.calls := conn.calls + [Run(query, params)];
    match outcome
    case Raises(e) =>
      r := HandleException(e);
    case NoResultSet(_) =>
      r := HandleException(NoResults);
    case ResultSet(columns, rows, _) =>
      if rows == [] {
        return NotFound;
      }
      var data := RowsToJson(rows, columns);
      r := Response(true, JList(data), None, None, Some(|data|));
  }

  /**
   * `fetch_one`: the first row as a dictionary, or 404 "Record not found"
   * when there is no row or the row is empty (a falsy row).
   */
  method FetchOne(conn: Connection, query: string, params: seq<SqlValue>, outcome: Outcome) returns (r: Response)
    modifies conn
    ensures conn.calls == old(conn.calls) + [Run(query, params)]
    ensures r.success <==> outcome.ResultSet? && outcome.rows != [] && outcome.rows[0] != []
    ensures outcome.Raises? ==> r == HandleException(outcome.e)
    ensures outcome.NoResultSet? ==> r == HandleException(NoResults)
    ensures outcome.ResultSet? && (outcome.rows == [] || outcome.rows[0] == []) ==> r == NotFound
    ensures r.success ==>
      r == Response(true, JDict(RowToDict(outcome.rows[0], outcome.columns)), None, None, Some(1))
  {
    conn.calls := conn.calls + [Run(query, params)];
    match outcome
    case Raises(e) =>
      r := HandleException(e);
    case NoResultSet(_) =>
      r := HandleException(NoResults);
    case ResultSet(columns, rows, _) =>
      var row: seq<SqlValue> := if rows == [] then [] else rows[0];
      if row == [] {
        return NotFound;
      }
      r := Response(true, JDict(RowToDict(row, columns)), None, None, Some(1));
  }

  /** The `data` of a page: the items with the page numbers. */
  function PageData(items: seq<Json>, page: int, pageSize: int, totalCount: int): (d: Json)
    requires pageSize != 0
    ensures d.JDict? && d.entries.Keys == {"items", "page", "page_size", "total_count", "total_pages"}
    ensures d.entries["items"] == JList(items)
    ensures d.entries["page"] == JInt(page) && d.entries["page_size"] == JInt(pageSize)
    ensures d.entries["total_pages"].JInt? && d.entries["total_count"] == JInt(totalCount)
    ensures pageSize > 0 ==>
      var pages := d.entries["total_pages"].i;
      (pages - 1) * pageSize < totalCount <= pages * pageSize
  {
    var d := JDict(map[
      "items" := JList(items),
      "page" := JInt(page),
      "page_size" := JInt(pageSize),
      "total_count" := JInt(totalCount),
      "total_pages" := JInt(TotalPages(totalCount, pageSize))]);
    if pageSize > 0 then TotalPagesIsCeiling(totalCount, pageSize); d else d
  }

  /**
   * `fetch_paginated`: the page's rows (no 404 when there are none), with
   * the page numbers and the total count; the count query's result is
   * `count`. A page size of zero fails in the page-count division.
   */
  method FetchPaginated(conn: Connection, query: string, page: int, pageSize: int, params: seq<SqlValue>,
                        outcome: Outcome, count: Result<int, DbException>) returns (r: Response)
    modifies conn
    ensures var pageStmt := PaginatedStatement(query, params, page, pageSize);
      var countStmt := CountStatement(query, params);
      conn.calls == old(conn.calls) + [Run(pageStmt.0, pageStmt.1)]
        + (if outcome.ResultSet? then [Run(countStmt.0, countStmt.1)] else [])
    ensures r.success <==> outcome.ResultSet? && count.Success? && pageSize != 0
    ensures outcome.Raises? ==> r == HandleException(outcome.e)
    ensures outcome.NoResultSet? ==> r == HandleException(NoResults)
    ensures outcome.ResultSet? && count.Failure? ==> r == HandleException(count.error)
    ensures outcome.ResultSet? && count.Success? && pageSize == 0 ==> r == HandleException(ZeroPageSize)
    ensures r.success ==>
      r == Response(true, PageData(RowsToJson(outcome.rows, outcome.columns), page, pageSize, count.value),
                    None, None, Some(|outcome.rows|))
  {
    var pageStmt := PaginatedStatement(query, params, page, pageSize);
    conn.calls := conn.calls + [Run(pageStmt.0, pageStmt.1)];
    match outcome
    case Raises(e) =>
      r := HandleException(e);
    case NoResultSet(_) =>
      r := HandleException(NoResults);
    case ResultSet(columns, rows, _) =>
      var data := RowsToJson(rows, columns);
      var countStmt := CountStatement(query, params);
      conn.calls := conn.calls + [Run(countStmt.0, countStmt.1)];
      match count
      case Failure(e) =>
        r := HandleException(e);
      case Success(totalCount) =>
        if pageSize == 0 {
          return HandleException(ZeroPageSize);
        }
        r := Response(true, PageData(data, page, pageSize, totalCount), None, None, Some(|data|));
  }

  /**
   * `execute`: dict parameters are refused before anything is sent; any
   * failure, of the statement or of the commit, is followed by a rollback.
   */
  method Execute(conn: Connection, query: string, params: Params, outcome: Outcome,
                 commitError: Option<DbException>) returns (r: Response)
    modifies conn
    ensures params.Keyword? ==> conn.calls == old(conn.calls) + [Rollback] && r == HandleException(DictParams)
    ensures params.Positional? && outcome.Raises? ==>
      conn.calls == old(conn.calls) + [Run(query, params.values), Rollback] && r == HandleException(outcome.e)
    ensures params.Positional? && !outcome.Raises? && commitError.Some? ==>
      && conn.calls == old(conn.calls) + [Run(query, params.values), Commit, Rollback]
      && r == HandleException(commitError.value)
    ensures params.Positional? && !outcome.Raises? && commitError.None? ==>
      && conn.calls == old(conn.calls) + [Run(query, params.values), Commit]
      && r == Response(true, JDict(map["affected_rows" := JInt(outcome.rowCount)]), None, None, Some(outcome.rowCount))
  {
    if params.Keyword? {
      conn.calls := conn.calls + [Rollback];
      return HandleException(DictParams);
    }
    conn.calls := conn.calls + [Run(query, params.values)];
    if outcome.Raises? {
      conn.calls := conn.calls + [Rollback];
      return HandleException(outcome.e);
    }
    var rowCount := outcome.rowCount;
    conn.calls := conn.calls + [Commit];
    if commitError.Some? {
      conn.calls := conn.calls + [Rollback];
      return HandleException(commitError.value);
    }
    r := Response(true, JDict(map["affected_rows" := JInt(rowCount)]), None, None, Some(rowCount));
  }

  /**
   * Dict parameters reach the caller of `validate` as a 500 carrying the
   * `ValueError` text.
   */
  lemma DictParamsIsGeneric500(notFoundMsg: string)
    ensures Validate(HandleException(DictParams), notFoundMsg)
      == Failure(HttpError(500, "Database error: " + DictParams.message))
  {
  }

  /**
   * `execute_with_output`: the one row an OUTPUT clause returns, as a
   * dictionary (empty when there is no row); committed only after the row
   * is read.
   */
  method ExecuteWithOutput(conn: Connection, query: string, params: Params, outcome: Outcome,
                           commitError: Option<DbException>) returns (r: Response)
    modifies conn
    ensures params.Keyword? ==> conn.calls == old(conn.calls) + [Rollback] && r == HandleException(DictParams)
    ensures params.Positional? && (outcome.Raises? || outcome.NoResultSet?) ==>
      conn.calls == old(conn.calls) + [Run(query, params.values), Rollback]
    ensures params.Positional? && outcome.Raises? ==> r == HandleException(outcome.e)
    ensures params.Positional? && outcome.NoResultSet? ==> r == HandleException(NoResults)
    ensures params.Positional? && outcome.ResultSet? && commitError.Some? ==>
      && conn.calls == old(conn.calls) + [Run(query, params.values), Commit, Rollback]
      && r == HandleException(commitError.value)
    ensures params.Positional? && outcome.ResultSet? && commitError.None? ==>
      && conn.calls == old(conn.calls) + [Run(query, params.values), Commit]
      && r.success && r.affectedRows == None
      && r.data == JDict(if outcome.rows == [] then map[] else RowToDict(outcome.rows[0], outcome.columns))
  {
    if params.Keyword? {
      conn.calls := conn.calls + [Rollback];
      return HandleException(DictParams);
    }
    conn.calls := conn.calls + [Run(query, params.values)];
    match outcome
    case Raises(e) =>
      conn.calls := conn.calls + [Rollback];
      r := HandleException(e);
    case NoResultSet(_) =>
      conn.calls := conn.calls + [Rollback];
      r := HandleException(NoResults);
    case ResultSet(columns, rows, _) =>
      conn.calls := conn.calls + [Commit];
      if commitError.Some? {
        conn.calls := conn.calls + [Rollback];
        return HandleException(commitError.value);
      }
      var data := if rows == [] || rows[0] == [] then map[] else RowToDict(rows[0], columns);
      r := Response(true, JDict(data), None, None, None);
  }

  /** `execute_many`: one batch statement, committed; the count and the batch size are reported. */
  method ExecuteMany(conn: Connection, query: string, batch: seq<seq<SqlValue>>, outcome: Outcome,
                      commitError: Option<DbException>) returns (r: Response)
    modifies conn
    ensures outcome.Raises? ==>
      conn.calls == old(conn.calls) + [RunMany(query, batch), Rollback] && r == HandleException(outcome.e)
    ensures !outcome.Raises? && commitError.Some? ==>
      && conn.calls == old(conn.calls) + [RunMany(query, batch), Commit, Rollback]
      && r == HandleException(commitError.value)
    ensures !outcome.Raises? && commitError.None? ==>
      && conn.calls == old(conn.calls) + [RunMany(query, batch), Commit]
      && r == Response(true,
                       JDict(map["affected_rows" := JInt(outcome.rowCount), "batch_size" := JInt(|batch|)]),
                       None, None, Some(outcome.rowCount))
  {
    conn.calls := conn.calls + [RunMany(query, batch)];
    if outcome.Raises? {
      conn.calls := conn.calls + [Rollback];
      return HandleException(outcome.e);
    }
    var rowCount := outcome.rowCount;
    conn.calls := conn.calls + [Commit];
    if commitError.Some? {
      conn.calls := conn.calls + [Rollback];
      return HandleException(commitError.value);
    }
    r := Response(true, JDict(map["affected_rows" := JInt(rowCount), "batch_size" := JInt(|batch|)]),
                  None, None, Some(rowCount));
  }

  /**
   * `call_procedure`: `EXEC <name> ?,?,...` with one marker per parameter;
   * a procedure that returns no result set, or no rows, gives an empty list.
   */
  method CallProcedure(conn: Connection, procName: string, params: seq<SqlValue>, outcome: Outcome,
                       commitError: Option<DbException>) returns (r: Response)
    modifies conn
    ensures var stmt := CallStatement(procName, |params|);
      && (outcome.Raises? ==>
            conn.calls == old(conn.calls) + [Run(stmt, params), Rollback] && r == HandleException(outcome.e))
      && (!outcome.Raises? && commitError.Some? ==>
            conn.calls == old(conn.calls) + [Run(stmt, params), Commit, Rollback]
            && r == HandleException(commitError.value))
      && (!outcome.Raises? && commitError.None? ==>
            conn.calls == old(conn.calls) + [Run(stmt, params), Commit])
    ensures !outcome.Raises? && commitError.None? ==>
      && r.success && r.affectedRows == None
      && r.data == JList(if outcome.ResultSet? then RowsToJson(outcome.rows, outcome.columns) else [])
  {
    var stmt := CallStatement(procName, |params|);
    conn.calls := conn.calls + [Run(stmt, params)];
    if outcome.Raises? {
      conn.calls := conn.calls + [Rollback];
      return HandleException(outcome.e);
    }
    var data: seq<Json> := [];
    if outcome.ResultSet? && outcome.rows != [] {
      data := RowsToJson(outcome.rows, outcome.columns);
    }
    conn.calls := conn.calls + [Commit];
    if commitError.Some? {
      conn.calls := conn.calls + [Rollback];
      return HandleException(commitError.value);
    }
    r := Response(true, JList(data), None, None, None);
  }
}
