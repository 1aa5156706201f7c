/**
 * `Psycopg2Adapter` of `src/connectors/db.py`: the same database probes as
 * the psycopg2 schema operator, but without tracebacks in the messages, a
 * whole-database probe (`SELECT 1`), and the `assert_value` helper.
 * Exceptions that the adapter returns as values are represented by their
 * messages.
 */
module DbConnector {
  import opened Wrappers
  import opened Values
  import opened Engine
  import opened Postgres

  /** `SELECT 1;` on the server. */
  function ProbeQuery(server: DbServer): (r: QueryResult)
    ensures server.queryError.None? ==> r == Rows([[Int(1)]])
    ensures server.queryError.Some? ==> r == Failed(server.queryError.value)
  {
    if server.queryError.Some? then Failed(server.queryError.value) else Rows([[Int(1)]])
  }

  /**
   * `exists_db` (and `connect`, which is the same call): `(True, "")` when
   * the probe query returns a row, otherwise the connection or query error.
   */
  function ExistsDb(server: DbServer): (r: Reply)
    ensures r.0 <==> Healthy(server)
    ensures r.0 ==> r.1 == ""
    ensures server.connectError.Some? ==> r.1 == server.connectError.value
    ensures server.connectError.None? && server.queryError.Some? ==> r.1 == server.queryError.value
  {
    if server.connectError.Some? then (false, server.connectError.value)
    else
      var fetched := FetchScalar(ProbeQuery(server));
      if fetched.0 then (true, "") else (false, FetchedMessage(fetched.1))
  }

  /** `absent_db`: the inverse of `exists_db`, with "Not absent" when the database answers. */
  function AbsentDb(server: DbServer): (r: Reply)
    ensures r.0 <==> !Healthy(server)
    ensures r.0 ==> r.1 == ExistsDb(server).1
    ensures !r.0 ==> r.1 == "Not absent"
  {
    Invert(ExistsDb(server), "Not absent")
  }

  /**
   * `exists_schema`: the connection error, or the shaped answer of the
   * schema query, which is `None` when the query fails.
   */
  function ExistsSchema(server: DbServer, name: string): (r: Option<Reply>)
    ensures r.None? <==> server.connectError.None? && server.queryError.Some?
    ensures server.connectError.Some? ==> r == Some((false, server.connectError.value))
    ensures server.connectError.None? ==> r == SchemaExists(server, name, "")
  {
    if server.connectError.Some? then Some((false, server.connectError.value))
    else ShapeExists(FetchScalar(SchemaQuery(server, name)), name)
  }

  /**
   * The adapter and the psycopg2 operator decide the same way: the same
   * `None`, the same flag, and the same message except for the traceback
   * the operator appends to a connection error.
   */
  lemma ExistsSchemaAgrees(server: DbServer, name: string, tb: string)
    ensures ExistsSchema(server, name).None? <==> SchemaExists(server, name, tb).None?
    ensures ExistsSchema(server, name).Some? ==>
              ExistsSchema(server, name).value.0 == SchemaExists(server, name, tb).value.0
    ensures server.connectError.None? ==> ExistsSchema(server, name) == SchemaExists(server, name, tb)
  {
  }

  /**
   * `absent_schema`: the inverse of `exists_schema` with "Not absent.";
   * unpacking the `None` of a failed query raises `TypeError`.
   */
  function AbsentSchema(server: DbServer, name: string): (r: Result<Reply>)
    ensures r.Err? <==> ExistsSchema(server, name).None?
    ensures r.Err? ==> r.Raises(TypeError)
    ensures r.Ok? ==> r.value == Invert(ExistsSchema(server, name).value, "Not absent.")
  {
    var e := ExistsSchema(server, name);
    if e.None? then Raise(TypeError, NoneUnpack) else Ok(Invert(e.value, "Not absent."))
  }

  /**
   * The text `create_schema` and `delete_schema` send: `str.format` renders
   * the `sql.Identifier` by its repr, `Identifier('name')`, instead of as a
   * quoted identifier.
   */
  function AsWrittenDdl(stmt: Ddl): (r: string)
    ensures stmt.CreateSchema? ==> r == "CREATE SCHEMA IF NOT EXISTS Identifier('" + stmt.name + "');"
    ensures stmt.DropSchema? ==> r == "DROP SCHEMA IF EXISTS Identifier('" + stmt.name + "');"
  {
    var head := if stmt.CreateSchema? then "CREATE SCHEMA IF NOT EXISTS " else "DROP SCHEMA IF EXISTS ";
    head + "Identifier('" + stmt.name + "');"
  }

  /** The server's answer to that text: the parenthesis after the schema name is a syntax error. */
  const DdlSyntaxError := "syntax error at or near \"(\""

  /**
   * `create_schema` and `delete_schema` as written: whatever the server's
   * state, the statement fails, so the answer is never a success and the
   * schemas never change.
   */
  function AdapterChangeAsWritten(server: DbServer, stmt: Ddl): (r: (DbServer, Reply))
    ensures !r.1.0 && r.0 == server
    ensures server.connectError.Some? ==> r.1.1 == server.connectError.value
    ensures server.connectError.None? && server.queryError.Some? ==> r.1.1 == server.queryError.value
    ensures Healthy(server) ==> r.1.1 == DdlSyntaxError
  {
    if server.connectError.Some? then (server, (false, server.connectError.value))
    else if server.queryError.Some? then (server, (false, server.queryError.value))
    else (server, (false, DdlSyntaxError))
  }

  /**
   * The discrepancy: on a healthy server without schema `name`,
   * `create_schema(name)` as written leaves it missing and reports the
   * syntax error, where the intended statement creates it.
   */
  lemma CreateSchemaAsWrittenFails(server: DbServer, name: string)
    requires Healthy(server) && name !in server.schemas
    ensures AsWrittenDdl(CreateSchema(name)) == "CREATE SCHEMA IF NOT EXISTS Identifier('" + name + "');"
    ensures AdapterChangeAsWritten(server, CreateSchema(name)) == (server, (false, DdlSyntaxError))
    ensures name !in AdapterChangeAsWritten(server, CreateSchema(name)).0.schemas
    ensures AdapterChange(server, CreateSchema(name)) == (server.(schemas := server.schemas + {name}), (true, SchemaDone))
  {
  }

  /**
   * `create_schema` and `delete_schema` with the statement composed as
   * intended (`sql.SQL(...).format(...)`): the statement's error as it is,
   * or "Schema created.".
   */
  function AdapterChange(server: DbServer, stmt: Ddl): (r: (DbServer, Reply))
    ensures r.1.0 <==> Healthy(server)
    ensures r.1.0 ==> r == (RunDdl(server, stmt).0, (true, SchemaDone))
    ensures !r.1.0 ==> r.0 == server
    ensures server.connectError.Some? ==> r.1.1 == server.connectError.value
    ensures server.connectError.None? && server.queryError.Some? ==> r.1.1 == server.queryError.value
  {
    if server.connectError.Some? then (server, (false, server.connectError.value))
    else
      var (server', err) := RunDdl(server, stmt);
      if err.Some? then (server', (false, err.value)) else (server', (true, SchemaDone))
  }

  /**
   * The adapter's statements change the server exactly as the operator's
   * do, succeed on the same servers, and fail with the same error, which the
   * operator follows with the traceback.
   */
  lemma AdapterChangeAgrees(server: DbServer, stmt: Ddl, tb: string)
    ensures AdapterChange(server, stmt).0 == SchemaChange(server, stmt, tb).0
    ensures AdapterChange(server, stmt).1.0 == SchemaChange(server, stmt, tb).1.0
    ensures AdapterChange(server, stmt).1.0 ==> AdapterChange(server, stmt).1 == SchemaChange(server, stmt, tb).1
    ensures !AdapterChange(server, stmt).1.0 ==>
              SchemaChange(server, stmt, tb).1.1 == Formatted(AdapterChange(server, stmt).1.1, tb)
  {
  }

  /**
   * `create_schema` / `delete_schema` run step by step against the connection,
   * with the statement composed as intended (see `AdapterChangeAsWritten`).
   */
  method ChangeSchema(db: Database, stmt: Ddl) returns (ok: bool, msg: string)
    modifies db
    ensures (db.server, (ok, msg)) == AdapterChange(old(db.server), stmt)
  {
    if db.server.connectError.Some? {
      return false, db.server.connectError.value;
    }
    var err := db.Execute(stmt);
    if err.Some? {
      return false, err.value;
    }
    return true, SchemaDone;
  }

  /**
   * `assert_value(ok, result_or_error, expect, errmsg)`: `(True, "")` exactly
   * when the call succeeded and its value equals the expectation, otherwise
   * `(False, errmsg)`.
   */
  function AssertValue(ok: bool, resultOrError: Value, expected: Value, errmsg: string): (r: Reply)
    ensures r.0 <==> ok && PyEquals(resultOrError, expected)
    ensures r.0 ==> r.1 == ""
    ensures !r.0 ==> r.1 == errmsg
  {
    if ok then
      if PyEquals(resultOrError, expected) then (true, "") else (false, errmsg)
    else (false, errmsg)
  }

  /** `exists_schema` followed by `assert_value` on a healthy server: the schema is there exactly when the check passes. */
  lemma AssertSchemaPresent(server: DbServer, name: string, errmsg: string)
    requires Healthy(server)
    ensures var fetched := FetchScalar(SchemaQuery(server, name));
            AssertValue(fetched.0, fetched.1.v, Int(1), errmsg).0 <==> name in server.schemas
  {
  }
}
