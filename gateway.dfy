/**
 * `DatabaseManager`: the pooled connection gateway every screen goes
 * through. A `Connection` holds a session's uncommitted work on top of the
 * server's committed data; `GetConnection`/`Release` model the
 * `get_connection` context manager, whose `finally` always closes the
 * connection (returning it to the pool, which resets the session).
 */
module Gateway {
  import opened Common
  import opened Store

  /** The MySQL server: its committed data. */
  class Server {
    var data: Db

    constructor (initial: Db)
      ensures data == initial
    {
      data := initial;
    }
  }

  /** A pooled connection: the session's view of the data, committed or not. */
  class Connection {
    const server: Server
    var work: Db
    var isOpen: bool

    constructor (server: Server)
      ensures this.server == server && work == server.data && isOpen
    {
      this.server := server;
      work := server.data;
      isOpen := true;
    }

    /** `cursor.execute`: a failing statement raises and leaves the transaction as it was. */
    method Execute(s: Statement, env: Env) returns (r: Result<Output, DbError>)
      requires isOpen
      modifies this
      ensures isOpen
      ensures match Step(old(work), s, env)
              case Success((d, out)) => r == Success(out) && work == d
              case Failure(e) => r == Failure(e) && work == old(work)
    {
      match Step(work, s, env)
      case Success((d, out)) =>
        work := d;
        r := Success(out);
      case Failure(e) =>
        r := Failure(e);
    }

    /** One `cursor.execute(INSERT ...)` per row, in order, stopping at the first error. */
    method InsertEach(rows: seq<Row>, env: Env) returns (r: Result<(), DbError>)
      requires isOpen
      modifies this
      ensures isOpen
      ensures match RunAll(old(work), Inserts(rows), env)
              case Success(d) => r.Success? && work == d
              case Failure(e) => r == Failure(e)
    {
      var i := 0;
      while i < |rows|
        invariant 0 <= i <= |rows| && isOpen
        invariant RunAll(old(work), Inserts(rows[..i]), env) == Success(work)
      {
        var out := Execute(Insert(rows[i]), env);
        InsertsSnoc(rows, i);
        RunAllSnoc(old(work), Inserts(rows[..i]), Insert(rows[i]), env);
        if out.Failure? {
          RunAllAppend(old(work), Inserts(rows[..i + 1]), Inserts(rows[i + 1..]), env);
          InsertsSplit(rows, i + 1);
          return Failure(out.error);
        }
        i := i + 1;
      }
      assert rows[..i] == rows;
      return Success(());
    }

    /** `conn.commit()`: the session's work becomes the server's data. */
    method Commit()
      requires isOpen
      modifies server
      ensures server.data == work
    {
      server.data := work;
    }

    /** `conn.rollback()`: the session's work is discarded. */
    method Rollback()
      requires isOpen
      modifies this
      ensures isOpen && work == server.data
    {
      work := server.data;
    }
  }

  /** `execute_query`'s two-part answer: `(columns, data)` or `(None, None)`. */
  datatype QueryResult = QueryResult(columns: Option<seq<string>>, data: Option<seq<seq<Value>>>)

  /**
   * What `execute_query` returns and what the server holds afterwards:
   * a statement with a result description yields its columns and rows and
   * commits nothing; any other statement is committed and yields
   * `(None, None)`; an error is swallowed, yields `(None, None)` and commits
   * nothing.
   */
  function QueryOutcome(db: Db, s: Statement, env: Env): (r: (QueryResult, Db))
    ensures r.0.columns.Some? <==> r.0.data.Some?
    ensures r.0.columns.Some? ==> r.1 == db && Step(db, s, env).Success?
    ensures Step(db, s, env).Failure? ==> r == (QueryResult(None, None), db)
    ensures Step(db, s, env).Success? && Step(db, s, env).value.1.NoResult? ==>
              r == (QueryResult(None, None), Step(db, s, env).value.0)
    ensures Step(db, s, env).Success? && Step(db, s, env).value.1.ResultSet? ==>
              r == (QueryResult(Some(Step(db, s, env).value.1.columns), Some(Step(db, s, env).value.1.data)), db)
  {
    match Step(db, s, env)
    case Failure(_) => (QueryResult(None, None), db)
    case Success((_, ResultSet(cols, rows))) => (QueryResult(Some(cols), Some(rows)), db)
    case Success((d, NoResult(_))) => (QueryResult(None, None), d)
  }

  /** A read never changes the committed data. */
  lemma SelectCommitsNothing(db: Db, sql: string, params: seq<Value>, env: Env)
    ensures QueryOutcome(db, Select(sql, params), env).1 == db
    ensures QueryOutcome(db, Select(sql, params), env).0.columns.Some? <==>
              !env.fault(db, Select(sql, params)) && env.query(db, sql, params).Some?
  {
  }

  /** The two catalogue tables the gateway serves. */
  predicate IsCatalogue(table: string) {
    table == "queries_sistema" || table == "views_sistema"
  }

  /** Errors raised by the catalogue lookups. */
  datatype GatewayError = UnsupportedTable(name: string) | IndexError

  /** The listing query of a catalogue table; any other name raises. */
  function ListingSql(table: string): (r: Result<string, GatewayError>)
    ensures r.Success? <==> IsCatalogue(table)
    ensures r.Failure? ==> r.error == UnsupportedTable(table)
  {
    if table == "queries_sistema" then Success("SELECT id_query, nome_query FROM queries_sistema ORDER BY id_query")
    else if table == "views_sistema" then Success("SELECT id_view, nome_view FROM views_sistema ORDER BY id_view")
    else Failure(UnsupportedTable(table))
  }

  /** The query fetching one catalogue entry's stored SQL; any other name raises. */
  function LookupSql(table: string): (r: Result<string, GatewayError>)
    ensures r.Success? <==> IsCatalogue(table)
    ensures r.Failure? ==> r.error == UnsupportedTable(table)
  {
    if table == "queries_sistema" then Success("SELECT sql_query FROM queries_sistema WHERE id_query = %s")
    else if table == "views_sistema" then Success("SELECT sql_view FROM views_sistema WHERE id_view = %s")
    else Failure(UnsupportedTable(table))
  }

  /**
   * `data[0][0] if data else None`: no rows gives None, a first row with no
   * column raises, and a SQL NULL in the first cell reaches Python as None.
   */
  function FirstCell(data: Option<seq<seq<Value>>>): (r: Result<Option<Value>, GatewayError>)
    ensures r == Success(None) <==>
              data.None? || data.value == [] || (data.value[0] != [] && data.value[0][0] == NullVal)
    ensures r.Failure? <==> data.Some? && data.value != [] && data.value[0] == []
    ensures r.Failure? ==> r.error == IndexError
    ensures r.Success? && r.value.Some? ==>
              data.Some? && data.value != [] && r.value.value == data.value[0][0] && r.value.value != NullVal
  {
    match data
    case None => Success(None)
    case Some(rows) =>
      if rows == [] then Success(None)
      else if rows[0] == [] then Failure(IndexError)
      else if rows[0][0] == NullVal then Success(None)
      else Success(Some(rows[0][0]))
  }

  class DatabaseManager {
    const server: Server
    /** Connections taken from the pool and not yet returned. */
    var lent: nat
    /** Connections taken from the pool so far. */
    ghost var acquired: nat

    constructor (server: Server)
      ensures this.server == server && lent == 0 && acquired == 0
    {
      this.server := server;
      lent := 0;
      acquired := 0;
    }

    /** Entering `with self.get_connection()`: a pooled connection on the committed data. */
    method GetConnection() returns (c: Connection)
      modifies this
      ensures fresh(c) && c.server == server && c.isOpen && c.work == server.data
      ensures lent == old(lent) + 1 && acquired == old(acquired) + 1
    {
      c := new Connection(server);
      lent := lent + 1;
      acquired := acquired + 1;
    }

    /** Leaving the `with` block on any path: `conn.close()` returns the connection; uncommitted work is dropped. */
    method Release(c: Connection)
      requires c.isOpen && lent > 0
      modifies this, c
      ensures !c.isOpen && c.work == c.server.data
      ensures lent == old(lent) - 1 && acquired == old(acquired)
    {
      c.isOpen := false;
      c.work := c.server.data;
      lent := lent - 1;
    }

    /**
     * `execute_query`: one statement on its own connection, committed only
     * when it has no result description; errors are swallowed. The
     * connection is always returned.
     */
    method ExecuteQuery(s: Statement, env: Env) returns (r: QueryResult)
      modifies this, server
      ensures (r, server.data) == QueryOutcome(old(server.data), s, env)
      ensures lent == old(lent) && acquired == old(acquired) + 1
    {
      var c := GetConnection();
      var out := c.Execute(s, env);
      match out {
        case Failure(_) =>
          r := QueryResult(None, None);
        case Success(ResultSet(cols, rows)) =>
          r := QueryResult(Some(cols), Some(rows));
        case Success(NoResult(_)) =>
          c.Commit();
          r := QueryResult(None, None);
      }
      Release(c);
    }

    /** `get_items`: the (id, name) listing of a catalogue table. */
    method GetItems(table: string, env: Env) returns (r: Result<QueryResult, GatewayError>)
      modifies this, server
      ensures ListingSql(table).Failure? ==>
                r == Failure(UnsupportedTable(table)) && acquired == old(acquired)
      ensures ListingSql(table).Success? ==>
                r == Success(QueryOutcome(old(server.data), Select(ListingSql(table).value, []), env).0)
                && acquired == old(acquired) + 1
      ensures server.data == old(server.data) && lent == old(lent)
    {
      match ListingSql(table)
      case Failure(e) =>
        r := Failure(e);
      case Success(sql) =>
        SelectCommitsNothing(server.data, sql, [], env);
        var q := ExecuteQuery(Select(sql, []), env);
        r := Success(q);
    }

    /** `get_item_sql`: the stored SQL text of one catalogue entry, if any. */
    method GetItemSql(table: string, itemId: Value, env: Env) returns (r: Result<Option<Value>, GatewayError>)
      modifies this, server
      ensures LookupSql(table).Failure? ==>
                r == Failure(UnsupportedTable(table)) && acquired == old(acquired)
      ensures LookupSql(table).Success? ==>
                r == FirstCell(QueryOutcome(old(server.data), Select(LookupSql(table).value, [itemId]), env).0.data)
                && acquired == old(acquired) + 1
      ensures server.data == old(server.data) && lent == old(lent)
    {
      match LookupSql(table)
      case Failure(e) =>
        r := Failure(e);
      case Success(sql) =>
        SelectCommitsNothing(server.data, sql, [itemId], env);
        var q := ExecuteQuery(Select(sql, [itemId]), env);
        r := FirstCell(q.data);
    }
  }
}
