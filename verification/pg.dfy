/**
 * The PostgreSQL schema operator of `rctl/modules/_psycopg2.py` over an
 * abstract database server: whether a connection can be made, whether
 * statements fail, and the set of schemas.  The result shaping is the
 * source's: `exists` answers from `SELECT EXISTS (...)`, `absent` inverts
 * it, `create` and `delete` run `CREATE SCHEMA IF NOT EXISTS` and
 * `DROP SCHEMA IF EXISTS`.
 */
module Postgres {
  import opened Wrappers
  import opened Values
  import opened Kwargs
  import opened Engine
  import opened EngineSpec

  /** The one concrete class of the psycopg2 module. */
  datatype PgClass = Psycopg2SchemaOperator

  /** `Psycopg2SchemaOperator.get_operator`: only "schema" is known. */
  function GetOperator(subtype: string): (r: Result<PgClass>)
    ensures r.Ok? <==> subtype == "schema"
    ensures r.Ok? ==> r.value == Psycopg2SchemaOperator
    ensures r.Err? ==> r.Raises(TypeError)
  {
    if subtype == "schema" then Ok(Psycopg2SchemaOperator) else Raise(TypeError, "")
  }

  /** The connection parameters the operator keeps. */
  datatype DbParams = DbParams(host: string, dbname: string, user: string, password: string, port: Value)

  /** The keyword parameters `__init__` declares; it takes no `**kwargs`. */
  const InitKeywords: set<string> := {"host", "dbname", "user", "password", "port"}

  /**
   * `__init__(host, dbname, user, password="", port=5432)`, called with the
   * connector as keyword arguments: a keyword it does not declare, or a
   * missing one of the first three, is a `TypeError`; the others have
   * defaults.
   */
  function Instantiate(connector: Params): (r: Result<DbParams>)
    ensures r.Ok? <==> && "host" in connector && "dbname" in connector && "user" in connector
                       && connector.Keys <= InitKeywords
    ensures r.Err? ==> r.Raises(TypeError)
    ensures r.Ok? ==> r.value.host == connector["host"] && r.value.dbname == connector["dbname"]
                      && r.value.user == connector["user"]
    ensures r.Ok? ==> r.value.password == (if "password" in connector then connector["password"] else "")
    ensures r.Ok? ==> r.value.port == (if "port" in connector then Str(connector["port"]) else Int(5432))
  {
    if !(connector.Keys <= InitKeywords) then Raise(TypeError, "__init__() got an unexpected keyword argument")
    else
      var host :- Bind(connector, "host");
      var dbname :- Bind(connector, "dbname");
      var user :- Bind(connector, "user");
      Ok(DbParams(host, dbname, user, BindOr(connector, "password", ""),
                  if "port" in connector then Str(connector["port"]) else Int(5432)))
  }

  /**
   * The server the connection parameters reach: the error `connect` raises,
   * if any; the error every statement raises, if any; and its schemas.
   */
  datatype DbServer = DbServer(connectError: Option<string>, queryError: Option<string>, schemas: set<string>)

  /** What a query's cursor gives back: the rows, or the error `execute` raised. */
  datatype QueryResult = Rows(rows: seq<seq<Value>>) | Failed(msg: string)

  /** What `fetch_scalar` hands back next to its flag. */
  datatype Fetched = Scalar(v: Value) | Failure(msg: string) | NoRecord

  /** The text of the `NoRecordError` `fetch_scalar` returns. */
  const NoRecordMessage := "row does not exist."

  /**
   * `fetch_scalar`: the first column of the first row; a failed statement
   * is its error, and no row (or an empty one) is a `NoRecordError`.
   */
  function FetchScalar(q: QueryResult): (r: (bool, Fetched))
    ensures r.0 <==> q.Rows? && q.rows != [] && q.rows[0] != []
    ensures r.0 ==> r.1 == Scalar(q.rows[0][0])
    ensures q.Rows? && !r.0 ==> r.1 == NoRecord
    ensures q.Failed? ==> r.1 == Failure(q.msg)
  {
    match q
    case Failed(msg) => (false, Failure(msg))
    case Rows(rows) => if rows == [] || rows[0] == [] then (false, NoRecord) else (true, Scalar(rows[0][0]))
  }

  /** The message a failed `fetch_scalar` carries. */
  function FetchedMessage(f: Fetched): string {
    match f
    case Scalar(_) => ""
    case Failure(msg) => msg
    case NoRecord => NoRecordMessage
  }

  /** Python's `result == 1`: `True` equals 1 as well. */
  predicate EqualsOne(v: Value)
    ensures EqualsOne(v) <==> v == Int(1) || v == Bool(true)
  {
    PyEquals(v, Int(1))
  }

  /** `SELECT EXISTS (SELECT 1 FROM information_schema.schemata WHERE schema_name = %s)` on the server. */
  function SchemaQuery(server: DbServer, schema: string): (r: QueryResult)
    ensures server.queryError.None? ==> r == Rows([[Bool(schema in server.schemas)]])
    ensures server.queryError.Some? ==> r == Failed(server.queryError.value)
  {
    if server.queryError.Some? then Failed(server.queryError.value) else Rows([[Bool(schema in server.schemas)]])
  }

  /**
   * The shaping `exists` applies to a fetched answer: scalar 1 is
   * `(True, "")`, any other scalar `(False, "Not exists <schema>")`, and a
   * failed fetch falls off the end of the method: `None`.
   */
  function ShapeExists(fetched: (bool, Fetched), schema: string): (r: Option<Reply>)
    requires fetched.0 ==> fetched.1.Scalar?
    ensures r.Some? <==> fetched.0
    ensures r == Some((true, "")) <==> fetched.0 && EqualsOne(fetched.1.v)
    ensures r.Some? && !r.value.0 ==> r.value.1 == "Not exists " + schema
  {
    if !fetched.0 then None
    else if EqualsOne(fetched.1.v) then Some((true, ""))
    else Some((false, "Not exists " + schema))
  }

  /** `absent` from `exists`' answer: success becomes `(False, notAbsent)`, failure becomes success with the same message. */
  function Invert(r: Reply, notAbsent: string): (r': Reply)
    ensures r'.0 == !r.0
    ensures r.0 ==> r'.1 == notAbsent
    ensures !r.0 ==> r'.1 == r.1
  {
    if r.0 then (false, notAbsent) else (true, r.1)
  }

  /** A failure message as the psycopg2 module formats it: the error, then the traceback. */
  function Formatted(e: string, tb: string): string {
    e + "\n" + tb
  }

  /**
   * `Psycopg2SchemaOperator.exists`: a failed connection is `(False,
   * error)`; otherwise the shaped answer of the schema query, which is
   * `None` when the query fails.
   */
  function SchemaExists(server: DbServer, schema: string, tb: string): (r: Option<Reply>)
    ensures r.None? <==> server.connectError.None? && server.queryError.Some?
    ensures r == Some((true, "")) <==> server.connectError.None? && server.queryError.None? && schema in server.schemas
    ensures server.connectError.Some? ==> r == Some((false, Formatted(server.connectError.value, tb)))
    ensures server.connectError.None? && server.queryError.None? && schema !in server.schemas ==>
              r == Some((false, "Not exists " + schema))
  {
    if server.connectError.Some? then Some((false, Formatted(server.connectError.value, tb)))
    else ShapeExists(FetchScalar(SchemaQuery(server, schema)), schema)
  }

  /** The schema statements `create` and `delete` run. */
  datatype Ddl = CreateSchema(name: string) | DropSchema(name: string)

  /** Running a statement on the server: its error, or the new set of schemas. */
  function RunDdl(server: DbServer, stmt: Ddl): (r: (DbServer, Option<string>))
    ensures r.1.Some? <==> server.queryError.Some?
    ensures r.1.Some? ==> r.0 == server
    ensures r.1.None? && stmt.CreateSchema? ==> r.0 == server.(schemas := server.schemas + {stmt.name})
    ensures r.1.None? && stmt.DropSchema? ==> r.0 == server.(schemas := server.schemas - {stmt.name})
  {
    if server.queryError.Some? then (server, server.queryError)
    else match stmt
      case CreateSchema(name) => (server.(schemas := server.schemas + {name}), None)
      case DropSchema(name) => (server.(schemas := server.schemas - {name}), None)
  }

  /** The message both `create` and `delete` report on success (`delete` reuses create's). */
  const SchemaDone := "Schema created."

  /** `create` and `delete`: connect, run the statement, shape the answer. */
  function SchemaChange(server: DbServer, stmt: Ddl, tb: string): (r: (DbServer, Reply))
    ensures r.1.0 <==> server.connectError.None? && server.queryError.None?
    ensures r.1.0 ==> r == (RunDdl(server, stmt).0, (true, SchemaDone))
    ensures !r.1.0 ==> r.0 == server
    ensures server.connectError.Some? ==> r.1.1 == Formatted(server.connectError.value, tb)
  {
    if server.connectError.Some? then (server, (false, Formatted(server.connectError.value, tb)))
    else
      var (server', err) := RunDdl(server, stmt);
      if err.Some? then (server', (false, Formatted(err.value, tb))) else (server', (true, SchemaDone))
  }

  /** What the engine makes of a capability that returned `None`: unpacking it raises `TypeError`. */
  const NoneUnpack := "cannot unpack non-iterable NoneType object"

  /**
   * One capability of `Psycopg2SchemaOperator` on the server.  Each binds
   * `schema`.  A `None` from `exists` raises when unpacked, both in `absent`
   * and in the engine.
   */
  function Invoke(params: Params, tb: string, st: DbServer, c: Capability): (r: (DbServer, Outcome))
    ensures !r.1.StopIter?
    ensures c == ExistsCap || c == AbsentCap ==> r.0 == st
  {
    var schema := Bind(params, "schema");
    if schema.Err? then (st, Raised(schema.error.msg, tb))
    else
      var s := schema.value;
      match c
      case ExistsCap =>
        var e := SchemaExists(st, s, tb);
        (st, if e.None? then Raised(NoneUnpack, tb) else Returned(e.value.0, e.value.1))
      case AbsentCap =>
        var e := SchemaExists(st, s, tb);
        (st, if e.None? then Raised(NoneUnpack, tb) else var a := Invert(e.value, "Not absent."); Returned(a.0, a.1))
      case CreateCap =>
        var (st', a) := SchemaChange(st, CreateSchema(s), tb);
        (st', Returned(a.0, a.1))
      case DeleteCap =>
        var (st', a) := SchemaChange(st, DropSchema(s), tb);
        (st', Returned(a.0, a.1))
  }

  /** The operator as a backend for the engine. */
  function Operator(params: Params, tb: string): Backend<DbServer> {
    (st: DbServer, c: Capability) => Invoke(params, tb, st, c)
  }

  /** A database reached through `psycopg2.connect`, changed in place by the statements run on it. */
  class Database {
    var server: DbServer

    constructor(server: DbServer)
      ensures this.server == server
    {
      this.server := server;
    }

    /** `cur.execute(stmt)` for a schema statement: its error, if any, else the changed schemas. */
    method Execute(stmt: Ddl) returns (err: Option<string>)
      modifies this
      ensures (server, err) == RunDdl(old(server), stmt)
    {
      if server.queryError.Some? {
        return server.queryError;
      }
      match stmt {
        case CreateSchema(name) =>
          server := server.(schemas := server.schemas + {name});
        case DropSchema(name) =>
          server := server.(schemas := server.schemas - {name});
      }
      err := None;
    }
  }

  /** `create` or `delete` as the source runs it: connect, execute, shape. */
  method Change(db: Database, stmt: Ddl, tb: string) returns (ok: bool, msg: string)
    modifies db
    ensures (db.server, (ok, msg)) == SchemaChange(old(db.server), stmt, tb)
  {
    if db.server.connectError.Some? {
      return false, Formatted(db.server.connectError.value, tb);
    }
    var err := db.Execute(stmt);
    if err.Some? {
      return false, Formatted(err.value, tb);
    }
    return true, SchemaDone;
  }

  /** One schema operator call against the database, as the engine makes it. */
  method Call(db: Database, params: Params, tb: string, c: Capability) returns (o: Outcome)
    modifies db
    ensures (db.server, o) == Invoke(params, tb, old(db.server), c)
  {
    var schema := Bind(params, "schema");
    if schema.Err? {
      return Raised(schema.error.msg, tb);
    }
    var s := schema.value;
    match c {
      case ExistsCap =>
        var e := SchemaExists(db.server, s, tb);
        o := if e.None? then Raised(NoneUnpack, tb) else Returned(e.value.0, e.value.1);
      case AbsentCap =>
        var e := SchemaExists(db.server, s, tb);
        if e.None? {
          o := Raised(NoneUnpack, tb);
        } else {
          var a := Invert(e.value, "Not absent.");
          o := Returned(a.0, a.1);
        }
      case CreateCap =>
        var ok, msg := Change(db, CreateSchema(s), tb);
        o := Returned(ok, msg);
      case DeleteCap =>
        var ok, msg := Change(db, DropSchema(s), tb);
        o := Returned(ok, msg);
    }
  }

  /** One capability of the operator, seen from the straight-line policy. */
  lemma OperatorCall(params: Params, tb: string, c: Capability, r: Ref<DbServer>)
    requires !r.aborted
    ensures var (st', o) := Invoke(params, tb, r.state, c);
            Call1(Operator(params, tb), c, r) ==
              Ref(st', r.calls + [c], Some(if o.Returned? then (o.ok, o.msg) else (false, o.err + "\n" + o.tb)), false)
  {
  }

  /** A server that answers statements. */
  predicate Healthy(server: DbServer) {
    server.connectError.None? && server.queryError.None?
  }

  /** created on a healthy server without the schema: exists, create, exists; the schema is added. */
  lemma SchemaCreated(schema: string, tb: string, st: DbServer)
    requires Healthy(st) && schema !in st.schemas
    ensures var run := Execution(Operator(map["schema" := schema], tb), Created, st);
            && run.state == st.(schemas := st.schemas + {schema})
            && LeafCalls(run.trace) == [ExistsCap, CreateCap, ExistsCap]
            && ExecuteResult(run) == Ok((Some(true), ""))
  {
    var params := map["schema" := schema];
    var call := Operator(params, tb);
    ExecuteFollowsReference(call, Created, st);
    var r1 := Call1(call, ExistsCap, Begin(st));
    OperatorCall(params, tb, ExistsCap, Begin(st));
    var r2 := Call1(call, CreateCap, r1);
    OperatorCall(params, tb, CreateCap, r1);
    OperatorCall(params, tb, ExistsCap, r2);
  }

  /**
   * deleted on a healthy server holding the schema: absent, delete, absent;
   * the schema is gone and the answer is the inverted "Not exists" message.
   */
  lemma SchemaDeleted(schema: string, tb: string, st: DbServer)
    requires Healthy(st) && schema in st.schemas
    ensures var run := Execution(Operator(map["schema" := schema], tb), Deleted, st);
            && run.state == st.(schemas := st.schemas - {schema})
            && LeafCalls(run.trace) == [AbsentCap, DeleteCap, AbsentCap]
            && ExecuteResult(run) == Ok((Some(true), "Not exists " + schema))
  {
    var params := map["schema" := schema];
    var call := Operator(params, tb);
    ExecuteFollowsReference(call, Deleted, st);
    var r1 := Call1(call, AbsentCap, Begin(st));
    OperatorCall(params, tb, AbsentCap, Begin(st));
    var r2 := Call1(call, DeleteCap, r1);
    OperatorCall(params, tb, DeleteCap, r1);
    OperatorCall(params, tb, AbsentCap, r2);
  }

  /**
   * A server that cannot be reached looks absent: `absent` inverts the
   * failed `exists`, so the absent and deleted targets succeed after one
   * call with the connection error as message, while created fails.
   */
  lemma UnreachableLooksAbsent(schema: string, tb: string, st: DbServer, t: Target)
    requires st.connectError.Some?
    requires t == Absent || t == Deleted || t == Created
    ensures var run := Execution(Operator(map["schema" := schema], tb), t, st);
            && run.state == st
            && LeafCalls(run.trace) == (if t == Created then [ExistsCap, CreateCap, ExistsCap] else [AbsentCap])
            && ExecuteResult(run) == Ok((Some(t != Created), Formatted(st.connectError.value, tb)))
  {
    var params := map["schema" := schema];
    var call := Operator(params, tb);
    ExecuteFollowsReference(call, t, st);
    if t == Created {
      var r1 := Call1(call, ExistsCap, Begin(st));
      OperatorCall(params, tb, ExistsCap, Begin(st));
      var r2 := Call1(call, CreateCap, r1);
      OperatorCall(params, tb, CreateCap, r1);
      OperatorCall(params, tb, ExistsCap, r2);
    } else {
      OperatorCall(params, tb, AbsentCap, Begin(st));
    }
  }

  /** When the schema query fails, `exists` returns `None` and the engine records the unpacking error. */
  lemma QueryFailureIsUnpackError(schema: string, tb: string, st: DbServer)
    requires st.connectError.None? && st.queryError.Some?
    ensures var run := Execution(Operator(map["schema" := schema], tb), Exists, st);
            ExecuteResult(run) == Ok((Some(false), NoneUnpack + "\n" + tb))
  {
    ExecuteFollowsReference(Operator(map["schema" := schema], tb), Exists, st);
  }
}
