/**
 * The two registries that map a manifest's module `type` to the class that
 * handles it (`rctl/registry.py` and `src/registry.py`).  A registry is a
 * fixed table; a lookup that misses answers `None` and never raises.
 */
module Registry {
  import opened Wrappers

  /** A registry: the table given at construction, empty by default. */
  datatype Registry<C> = Registry(table: map<string, C>)

  function EmptyRegistry<C>(): Registry<C> {
    Registry(map[])
  }

  /** `get_cls`: `self._map.get(type, None)`. */
  function GetCls<C>(reg: Registry<C>, t: string): (r: Option<C>)
    ensures r.Some? <==> t in reg.table
    ensures r.Some? ==> r.value == reg.table[t]
  {
    if t in reg.table then Some(reg.table[t]) else None
  }

  /** A registry built without a table finds nothing. */
  lemma EmptyRegistryFindsNothing<C>(t: string)
    ensures GetCls(EmptyRegistry<C>(), t) == None
  {
  }

  /** The classes `rctl/registry.py` registers. */
  datatype RctlClass = TrueOperator | FsspecRootOperator | Psycopg2SchemaOperator | Boto3Controller

  const RctlRegistry: Registry<RctlClass> := Registry(map[
    "true" := TrueOperator,
    "false" := TrueOperator,
    "fsspec" := FsspecRootOperator,
    "psycopg2" := Psycopg2SchemaOperator,
    "boto3" := Boto3Controller])

  /**
   * The rctl registry knows exactly five types, and "false" resolves to the
   * same class as "true".
   */
  lemma RctlRegistryTable(t: string)
    ensures GetCls(RctlRegistry, t).Some? <==> t in {"true", "false", "fsspec", "psycopg2", "boto3"}
    ensures GetCls(RctlRegistry, "false") == GetCls(RctlRegistry, "true") == Some(TrueOperator)
    ensures GetCls(RctlRegistry, "fsspec") == Some(FsspecRootOperator)
    ensures GetCls(RctlRegistry, "psycopg2") == Some(Psycopg2SchemaOperator)
    ensures GetCls(RctlRegistry, "boto3") == Some(Boto3Controller)
  {
  }

  /** The classes `src/registry.py` registers. */
  datatype SrcClass = TrueResourceClass | FsspecOperator

  const SrcRegistry: Registry<SrcClass> := Registry(map[
    "true" := TrueResourceClass,
    "false" := TrueResourceClass,
    "fsspec" := FsspecOperator])

  /**
   * The src registry knows exactly three types, and "false" resolves to
   * `TrueResource`, as "true" does.
   */
  lemma SrcRegistryTable(t: string)
    ensures GetCls(SrcRegistry, t).Some? <==> t in {"true", "false", "fsspec"}
    ensures GetCls(SrcRegistry, "false") == GetCls(SrcRegistry, "true") == Some(TrueResourceClass)
    ensures GetCls(SrcRegistry, "fsspec") == Some(FsspecOperator)
  {
  }
}
