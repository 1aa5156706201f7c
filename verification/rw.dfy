/**
 * The RisingWave adapter (`rctl/modules/_risingwave.py`): its subtype table,
 * the catalog lookup behind `compile_exists`, and the row helpers that read
 * query results.  Query results are the rows a cursor yields, or the error
 * its `execute` raised, which every helper lets through.
 */
module Risingwave {
  import opened Wrappers
  import opened Strings
  import opened Values
  import opened Postgres

  /**
   * What `RisingwaveOperator.get_operator` hands back: three operator
   * classes, or, for "view", a `NotImplementedError` instance (returned,
   * not raised).
   */
  datatype RwChoice = SyncOperator | SourceOperator | SubscriptionOperator | NotImplementedInstance

  function GetOperator(subtype: string): (r: Result<RwChoice>)
    ensures r.Ok? <==> subtype in {"sync", "source", "subscription", "view"}
    ensures r.Err? ==> r.Raises(TypeError)
    ensures subtype == "view" ==> r == Ok(NotImplementedInstance)
    ensures r.Ok? && r.value != NotImplementedInstance ==>
              (subtype == "sync" <==> r.value == SyncOperator) && (subtype == "source" <==> r.value == SourceOperator)
  {
    if subtype == "sync" then Ok(SyncOperator)
    else if subtype == "source" then Ok(SourceOperator)
    else if subtype == "subscription" then Ok(SubscriptionOperator)
    else if subtype == "view" then Ok(NotImplementedInstance)
    else Raise(TypeError, "")
  }

  /** The catalog table that lists each kind of object, keyed by lower-case kind. */
  const CatalogTables: map<string, string> := map[
    "table" := "rw_catalog.rw_tables",
    "view" := "rw_catalog.rw_views",
    "materialized_view" := "rw_catalog.rw_materialized_views",
    "source" := "rw_catalog.rw_sources",
    "subscription" := "rw_catalog.rw_subscriptions",
    "sink" := "rw_catalog.rw_sinks",
    "schema" := "rw_catalog.rw_schemas"]

  /** `{...}.get(str.lower(target), None)`. */
  function CatalogTable(target: string): (r: Option<string>)
    ensures r.Some? <==> Lower(target) in CatalogTables
    ensures r.Some? ==> r.value == CatalogTables[Lower(target)]
  {
    if Lower(target) in CatalogTables then Some(CatalogTables[Lower(target)]) else None
  }

  /** The placeholders the `compile_exists` template names, and the arguments its `format` call supplies. */
  const TemplatePlaceholdersAsWritten: seq<string> := ["TALBLE"]
  const TemplatePlaceholders: seq<string> := ["TABLE"]
  const FormatArguments: set<string> := {"TABLE", "SCHEMA_NAME", "TARGET_NAME"}

  /** `sql.SQL(template).format(**arguments)`: `KeyError` for the first placeholder no argument names. */
  function FormatCheck(placeholders: seq<string>, arguments: set<string>): (r: Result<()>)
    ensures r.Ok? <==> forall i :: 0 <= i < |placeholders| ==> placeholders[i] in arguments
    ensures r.Err? ==> r.Raises(KeyError)
  {
    if placeholders == [] then Ok(())
    else if placeholders[0] !in arguments then Raise(KeyError, placeholders[0])
    else
      var rest := FormatCheck(placeholders[1..], arguments);
      assert forall i :: 1 <= i < |placeholders| ==> placeholders[i] == placeholders[1..][i - 1];
      rest
  }

  /** The existence query `compile_exists` means to build: a catalog table, a schema name and an object name, both lower-cased. */
  datatype ExistsQuery = ExistsQuery(table: Option<string>, schemaName: string, targetName: string)

  /**
   * `compile_exists` as written: "schema" and "db" (exactly those spellings)
   * raise `NotImplementedError`; the `target is None` test never fires.  The
   * keyword arguments of `format` are evaluated first, and
   * `sql.Identifier(None)` raises `TypeError` for a kind the catalog does not
   * list; for the listed kinds the template names `{TALBLE}` while `format`
   * supplies `TABLE`.
   */
  function CompileExistsAsWritten(target: string, targetName: string, schemaName: string): (r: Result<ExistsQuery>)
    ensures target == "schema" || target == "db" ==> r.Raises(NotImplementedError)
    ensures target != "schema" && target != "db" && Lower(target) !in CatalogTables ==> r.Raises(TypeError)
  {
    if target == "schema" || target == "db" then Raise(NotImplementedError, "")
    else
      var table := CatalogTable(target);
      if table.None? then Raise(TypeError, "Identifier() argument must be a string")
      else
        var _ :- FormatCheck(TemplatePlaceholdersAsWritten, FormatArguments);
        Ok(ExistsQuery(table, Lower(schemaName), Lower(targetName)))
  }

  /**
   * As written, no target gets a query: a listed kind that passes the guard
   * ends in `KeyError` for `TALBLE`, and an unlisted one in `TypeError`.
   */
  lemma CompileExistsNeverBuilds(target: string, targetName: string, schemaName: string)
    ensures CompileExistsAsWritten(target, targetName, schemaName).Err?
    ensures target != "schema" && target != "db" && Lower(target) in CatalogTables ==>
              CompileExistsAsWritten(target, targetName, schemaName) == Raise(KeyError, "TALBLE")
    ensures target != "schema" && target != "db" && Lower(target) !in CatalogTables ==>
              CompileExistsAsWritten(target, targetName, schemaName).Raises(TypeError)
  {
  }

  /**
   * `compile_exists` as evidently intended: the placeholder is `TABLE`, and
   * the guard tests the table lookup, so an unknown kind raises
   * `NotImplementedError` as "schema" and "db" do.
   */
  function CompileExists(target: string, targetName: string, schemaName: string): (r: Result<ExistsQuery>)
    ensures r.Ok? <==> target != "schema" && target != "db" && Lower(target) in CatalogTables
    ensures r.Err? ==> r.Raises(NotImplementedError)
    ensures r.Ok? ==> r.value == ExistsQuery(Some(CatalogTables[Lower(target)]), Lower(schemaName), Lower(targetName))
  {
    if target == "schema" || target == "db" then Raise(NotImplementedError, "")
    else
      var table := CatalogTable(target);
      if table.None? then Raise(NotImplementedError, "")
      else
        if FormatCheck(TemplatePlaceholders, FormatArguments).Err? then Raise(KeyError, "TABLE")
        else Ok(ExistsQuery(table, Lower(schemaName), Lower(targetName)))
  }

  /**
   * The guard is case-sensitive while the lookup is not: any other spelling
   * of "schema" gets through to the schemas catalog.
   */
  lemma GuardIsCaseSensitive(target: string, targetName: string, schemaName: string)
    requires target != "schema" && Lower(target) == "schema"
    ensures CompileExists(target, targetName, schemaName) ==
            Ok(ExistsQuery(Some("rw_catalog.rw_schemas"), Lower(schemaName), Lower(targetName)))
  {
    assert |target| != |"db"|;
    assert "schema" in CatalogTables && CatalogTables["schema"] == "rw_catalog.rw_schemas";
  }

  /** "Schema" is such a spelling. */
  lemma MixedCaseSchema()
    ensures "Schema" != "schema" && Lower("Schema") == "schema"
  {
    var low := Lower("Schema");
    forall i | 0 <= i < 6
      ensures low[i] == "schema"[i]
    {
      assert low[i] == LowerChar("Schema"[i]);
    }
    assert "Schema"[0] != "schema"[0];
  }

  /** `scalar`: the first column of the first row; no row, or an empty one, raises `NoRecordError`; a failed statement raises. */
  function Scalar(q: QueryResult): (r: Result<Value>)
    ensures r.Ok? <==> q.Rows? && q.rows != [] && q.rows[0] != []
    ensures r.Ok? ==> r.value == q.rows[0][0]
    ensures q.Rows? && r.Err? ==> r == Raise(NoRecordError, NoRecordMessage)
  {
    match q
    case Failed(msg) => Raise(GenericException, msg)
    case Rows(rows) => if rows == [] || rows[0] == [] then Raise(NoRecordError, NoRecordMessage) else Ok(rows[0][0])
  }

  /** `scalar` raises where psycopg2's `fetch_scalar` returns `(False, ...)`, and returns the same value otherwise. */
  lemma ScalarAgreesWithFetch(q: QueryResult)
    ensures Scalar(q).Ok? <==> FetchScalar(q).0
    ensures Scalar(q).Ok? ==> FetchScalar(q).1 == Postgres.Scalar(Scalar(q).value)
  {
  }

  /** `first_or_none`: the first row, or `None` when there is none. */
  function FirstOrNone(q: Result<seq<Value>>): (r: Result<Option<Value>>)
    ensures r.Ok? <==> q.Ok?
    ensures q.Err? ==> r == Err(q.error)
    ensures r.Ok? ==> (r.value.None? <==> q.value == [])
    ensures r.Ok? && r.value.Some? ==> r.value.value == q.value[0]
  {
    if q.Err? then Err(q.error) else if q.value == [] then Ok(None) else Ok(Some(q.value[0]))
  }

  /** `last_or_none`: the last row, or `None` when there is none. */
  function LastOrNone(q: Result<seq<Value>>): (r: Result<Option<Value>>)
    ensures r.Ok? <==> q.Ok?
    ensures q.Err? ==> r == Err(q.error)
    ensures r.Ok? ==> (r.value.None? <==> q.value == [])
    ensures r.Ok? && r.value.Some? ==> r.value.value == q.value[|q.value| - 1]
  {
    if q.Err? then Err(q.error) else if q.value == [] then Ok(None) else Ok(Some(q.value[|q.value| - 1]))
  }

  /**
   * `one_or_none`: raises once a third row (index 2) appears; otherwise the
   * last row seen, so two rows give the second one rather than an error.
   */
  function OneOrNone(q: Result<seq<Value>>): (r: Result<Option<Value>>)
    ensures q.Err? ==> r == Err(q.error)
    ensures q.Ok? ==> (r.Err? <==> |q.value| > 2)
    ensures r.Err? && q.Ok? ==> r.Raises(GenericException)
    ensures r.Ok? ==> r == LastOrNone(q)
  {
    if q.Err? then Err(q.error)
    else if |q.value| > 2 then Raise(GenericException, "")
    else LastOrNone(q)
  }

  /** As written, two rows are not refused: the second one is returned. */
  lemma OneOrNoneAcceptsTwoRows(a: Value, b: Value)
    ensures OneOrNone(Ok([a, b])) == Ok(Some(b))
  {
  }

  /** `one_or_none` as its name promises: a second row (index 1) raises. */
  function OneOrNoneStrict(q: Result<seq<Value>>): (r: Result<Option<Value>>)
    ensures q.Err? ==> r == Err(q.error)
    ensures q.Ok? ==> (r.Err? <==> |q.value| > 1)
    ensures r.Err? && q.Ok? ==> r.Raises(GenericException)
    ensures r.Ok? ==> r == FirstOrNone(q) && r == LastOrNone(q)
  {
    if q.Err? then Err(q.error)
    else if |q.value| > 1 then Raise(GenericException, "")
    else FirstOrNone(q)
  }

  /** The strict form answers only for at most one row, and then as the source does. */
  lemma OneOrNoneStrictAgrees(q: Result<seq<Value>>)
    ensures OneOrNoneStrict(q).Ok? ==> OneOrNoneStrict(q) == OneOrNone(q)
    ensures q.Ok? && |q.value| == 2 ==> OneOrNoneStrict(q).Err? && OneOrNone(q).Ok?
  {
  }

  /** With at most one row, `one_or_none`, `first_or_none` and `last_or_none` agree. */
  lemma AtMostOneRowAgree(rows: seq<Value>)
    requires |rows| <= 1
    ensures OneOrNone(Ok(rows)) == FirstOrNone(Ok(rows)) == LastOrNone(Ok(rows))
  {
  }

  /** The row-level `exists`: `True` when the first row is truthy, otherwise `None`, never `False`. */
  function RowExists(q: Result<seq<Value>>): (r: Result<Option<bool>>)
    ensures r.Ok? <==> q.Ok?
    ensures r.Ok? ==> r.value != Some(false)
    ensures r.Ok? ==> (r.value == Some(true) <==> q.value != [] && Truthy(q.value[0]))
  {
    var first :- FirstOrNone(q);
    if first.Some? && Truthy(first.value) then Ok(Some(true)) else Ok(None)
  }

  /** `first_or_none` as the source runs it: the loop returns in its first round. */
  method FirstOrNoneLoop(q: Result<seq<Value>>) returns (r: Result<Option<Value>>)
    ensures r == FirstOrNone(q)
  {
    if q.Err? {
      return Err(q.error);
    }
    var rows := q.value;
    var row: Option<Value> := None;
    for i := 0 to |rows|
      invariant i == 0 && row.None?
    {
      row := Some(rows[i]);
      return Ok(row);
    }
    r := Ok(row);
  }

  /** `one_or_none` as the source runs it: count the rows, keep the latest, raise at index 2. */
  method OneOrNoneLoop(q: Result<seq<Value>>) returns (r: Result<Option<Value>>)
    ensures r == OneOrNone(q)
  {
    if q.Err? {
      return Err(q.error);
    }
    var rows := q.value;
    var row: Option<Value> := None;
    for i := 0 to |rows|
      invariant i <= 2
      invariant row == if i == 0 then None else Some(rows[i - 1])
    {
      row := Some(rows[i]);
      if i > 1 {
        return Raise(GenericException, "");
      }
    }
    r := Ok(row);
  }

  /** `last_or_none` as the source runs it: the loop leaves the last row in `row`. */
  method LastOrNoneLoop(q: Result<seq<Value>>) returns (r: Result<Option<Value>>)
    ensures r == LastOrNone(q)
  {
    if q.Err? {
      return Err(q.error);
    }
    var rows := q.value;
    var row: Option<Value> := None;
    for i := 0 to |rows|
      invariant row == if i == 0 then None else Some(rows[i - 1])
    {
      row := Some(rows[i]);
    }
    r := Ok(row);
  }
}
