/**
 * `LocalEnvKVStore` (`rctl/kv_store/__init__.py`): a key-value store kept in
 * the process environment.  A key becomes the variable prefix + key, with
 * every "/" turned into "_"; values are stored as JSON text.  The
 * environment is shared by every store of the process.
 */
module EnvKv {
  import opened Wrappers
  import opened Strings
  import opened OrderedDict
  import opened Values

  /** `Error`: an exception whose truth value is always False. */
  datatype KvError = KvError(msg: string)

  function ErrorTruth(e: KvError): (b: bool)
    ensures !b
  {
    false
  }

  /** The protocols the module names. */
  const Protocols: set<string> := {"memory", "env", "local"}

  /** `kvstore(protocol)`: no protocol is implemented. */
  function KvStoreFor(protocol: string): (r: Result<()>)
    ensures r.Raises(NotImplementedError)
  {
    Raise(NotImplementedError, "")
  }

  /**
   * The variable prefix: "/" becomes "_", and a non-empty prefix not
   * already ending in "_" gets one appended.
   */
  function Prefix(prefix: string): (r: string)
    ensures '/' !in r
    ensures r == "" <==> prefix == ""
    ensures r != "" ==> r[|r| - 1] == '_'
  {
    var p := ReplaceChar(prefix, '/', "_");
    ReplaceLength(prefix);
    if p != "" && p[|p| - 1] != '_' then p + "_" else p
  }

  /** Replacing one character by one character keeps the length. */
  lemma {:induction false} ReplaceLength(s: string)
    ensures |ReplaceChar(s, '/', "_")| == |s|
  {
    if s != [] {
      ReplaceLength(s[1..]);
    }
  }

  /** The variable a key is stored under. */
  function VarName(prefix: string, key: string): (r: string)
    ensures StartsWith(r, prefix)
  {
    assert (prefix + ReplaceChar(key, '/', "_"))[..|prefix|] == prefix;
    prefix + ReplaceChar(key, '/', "_")
  }

  /** "a/b" and "a_b" name the same variable, so they are the same key. */
  lemma SlashAndUnderscoreCollide(prefix: string)
    ensures VarName(prefix, "a/b") == VarName(prefix, "a_b")
  {
    assert ReplaceChar("a/b", '/', "_") == "a_b";
    assert ReplaceChar("a_b", '/', "_") == "a_b";
  }

  /**
   * The names the process environment takes: not empty, with no "=" and
   * no NUL character.  The JSON text of a value never holds a NUL, since
   * JSON escapes it.
   */
  predicate LegalName(name: string) {
    name != "" && '=' !in name && '\0' !in name
  }

  /**
   * What assigning to `os.environ` does with a name on a POSIX system:
   * converting it to bytes refuses a NUL with ValueError "embedded null
   * byte"; `putenv` then refuses an "=" with ValueError "illegal
   * environment variable name"; an empty name reaches `setenv`, which fails
   * with EINVAL, an OSError.  Every other name is accepted.
   */
  function Refusal(name: string): (r: Option<PyError>)
    ensures r.None? <==> LegalName(name)
    ensures r.Some? && r.value.kind == OSError <==> name == ""
    ensures r.Some? && r.value.kind == ValueError <==> name != "" && ('=' in name || '\0' in name)
  {
    if '\0' in name then Some(PyError(ValueError, "embedded null byte"))
    else if '=' in name then Some(PyError(ValueError, "illegal environment variable name"))
    else if name == "" then Some(PyError(OSError, "[Errno 22] Invalid argument"))
    else None
  }

  /** A variable name is empty only when both the prefix and the key are: that one store key is an OSError. */
  lemma EmptyNameRefusedByOS(prefix: string, key: string)
    ensures var r := Refusal(VarName(Prefix(prefix), key));
            r.Some? && r.value.kind == OSError <==> prefix == "" && key == ""
  {
  }

  /** "/" is the only character the key's rewriting touches, so an "=" in the key survives it. */
  lemma {:induction false} ReplaceKeepsOther(s: string, c: char)
    requires c != '/' && c in s
    ensures c in ReplaceChar(s, '/', "_")
  {
    if s[0] != c {
      ReplaceKeepsOther(s[1..], c);
      assert ReplaceChar(s, '/', "_") == (if s[0] == '/' then "_" else [s[0]]) + ReplaceChar(s[1..], '/', "_");
    }
  }

  /** A key holding "=" is refused, whatever the prefix. */
  lemma EqualsInKeyRefused(prefix: string, key: string)
    requires '=' in key
    ensures !LegalName(VarName(prefix, key))
  {
    ReplaceKeepsOther(key, '=');
  }

  /** `to_json`: None and "" stand for None; other text is decoded as JSON. */
  function ToJson(json: Codec<Value>, text: Option<string>): (r: Result<Value>)
    ensures text.None? || text == Some("") ==> r == Ok(Null)
    ensures text.Some? && text.value != "" && json.decode(text.value).Some? ==> r == Ok(json.decode(text.value).value)
    ensures text.Some? && text.value != "" && json.decode(text.value).None? ==> r.Raises(ValueError)
  {
    if text.None? || text.value == "" then Ok(Null)
    else match json.decode(text.value)
      case Some(v) => Ok(v)
      case None => Raise(ValueError, "Expecting value")
  }

  /** The process environment, shared by every store. */
  class Environment {
    var vars: Dict<string>

    constructor (vars: Dict<string>)
      ensures this.vars == vars
    {
      this.vars := vars;
    }
  }

  class LocalEnvKVStore {
    const env: Environment
    const prefix: string
    const json: Codec<Value>

    /** `get`: the variable of the key, decoded; absent or empty is None. */
    function Get(key: string): (r: Result<Value>)
      reads env
      ensures r == ToJson(json, OrderedDict.Get(env.vars, VarName(prefix, key)))
    {
      ToJson(json, OrderedDict.Get(env.vars, VarName(prefix, key)))
    }

    /**
     * `set`: the variable of the key holds the value's JSON text and nothing
     * else changes; a name the environment refuses raises its refusal
     * (OSError for the empty name, ValueError otherwise) and changes nothing.
     */
    method Set(key: string, value: Value) returns (r: Result<()>)
      modifies env
      ensures r.Ok? <==> LegalName(VarName(prefix, key))
      ensures r.Err? ==> r.error == Refusal(VarName(prefix, key)).value && env.vars == old(env.vars)
      ensures r.Err? ==> (r.Raises(OSError) <==> VarName(prefix, key) == "")
      ensures r.Ok? ==> env.vars == OrderedDict.Set(old(env.vars), VarName(prefix, key), json.encode(value))
    {
      var name := VarName(prefix, key);
      var refused := Refusal(name);
      if refused.Some? {
        return Err(refused.value);
      }
      env.vars := OrderedDict.Set(env.vars, name, json.encode(value));
      r := Ok(());
    }

    /** The part of `__init__` before the variables: the environment and the normalised prefix. */
    constructor (env: Environment, prefix: string, json: Codec<Value>)
      ensures this.env == env && this.prefix == Prefix(prefix) && this.json == json
    {
      this.env := env;
      this.prefix := Prefix(prefix);
      this.json := json;
    }

    /** `keys`: every variable whose name contains the prefix anywhere. */
    function Keys(): (r: seq<string>)
      reads env
      ensures forall k :: k in r <==> k in OrderedDict.Keys(env.vars) && Contains(k, prefix)
    {
      Matching(OrderedDict.Keys(env.vars), prefix)
    }

    /** `items`: the whole environment, unfiltered. */
    function Items(): (r: Dict<string>)
      reads env
      ensures r == env.vars
    {
      env.vars
    }

    /** `dump`: the protocol, the prefix and every variable of the environment. */
    function Dump(): (r: Value)
      reads env
      ensures r.Map? && OrderedDict.Keys(r.entries) == ["type", "prefix", "variables"]
      ensures OrderedDict.Get(r.entries, "prefix") == Some(Str(prefix))
      ensures OrderedDict.Get(r.entries, "variables") == Some(Map(Texts(env.vars)))
    {
      var r := Map([("type", Str("env")), ("prefix", Str(prefix)), ("variables", Map(Texts(env.vars)))]);
      assert OrderedDict.Keys(r.entries) == ["type", "prefix", "variables"];
      r
    }
  }

  /**
   * `LocalEnvKVStore(prefix, variables)`: the prefix normalised, then every
   * supplied variable set in turn.  The first name the environment refuses
   * raises its refusal, and the variables set before it stay set.
   */
  method NewLocalEnvKVStore(env: Environment, prefix: string, variables: Dict<Value>, json: Codec<Value>)
      returns (r: Result<LocalEnvKVStore>)
    modifies env
    ensures var n := FirstIllegal(Prefix(prefix), variables);
            && env.vars == SetAll(old(env.vars), Prefix(prefix), variables[..n], json)
            && (r.Ok? <==> n == |variables|)
            && (r.Err? ==> r.error == Refusal(VarName(Prefix(prefix), variables[n].0)).value)
    ensures r.Ok? ==> fresh(r.value) && r.value.env == env && r.value.prefix == Prefix(prefix) && r.value.json == json
  {
    var store := new LocalEnvKVStore(env, prefix, json);
    ghost var n := FirstIllegal(store.prefix, variables);
    var i := 0;
    while i < |variables|
      invariant 0 <= i <= n
      invariant env.vars == SetAll(old(env.vars), store.prefix, variables[..i], json)
    {
      ghost var before := env.vars;
      var written := store.Set(variables[i].0, variables[i].1);
      if written.Err? {
        assert i == n;
        return Err(written.error);
      }
      assert env.vars == OrderedDict.Set(before, VarName(store.prefix, variables[i].0), json.encode(variables[i].1));
      SetAllSnoc(old(env.vars), store.prefix, variables[..i], variables[i], json);
      assert variables[..i + 1] == variables[..i] + [variables[i]];
      i := i + 1;
    }
    assert variables[..i] == variables;
    r := Ok(store);
  }

  /** The position of the first variable whose name the environment refuses, or the count when there is none. */
  function FirstIllegal(prefix: string, variables: Dict<Value>): (n: nat)
    ensures n <= |variables|
    ensures forall i :: 0 <= i < n ==> LegalName(VarName(prefix, variables[i].0))
    ensures n < |variables| ==> !LegalName(VarName(prefix, variables[n].0))
  {
    if variables == [] || !LegalName(VarName(prefix, variables[0].0)) then 0
    else 1 + FirstIllegal(prefix, variables[1..])
  }

  /** The names among `ks` that contain `p`, in order. */
  function Matching(ks: seq<string>, p: string): (r: seq<string>)
    ensures forall k :: k in r <==> k in ks && Contains(k, p)
  {
    if ks == [] then []
    else (if Contains(ks[0], p) then [ks[0]] else []) + Matching(ks[1..], p)
  }

  /** A dict of texts as a dict of string values. */
  function Texts(d: Dict<string>): (r: Dict<Value>)
    ensures |r| == |d|
    ensures forall i :: 0 <= i < |d| ==> r[i] == (d[i].0, Str(d[i].1))
  {
    if d == [] then [] else [(d[0].0, Str(d[0].1))] + Texts(d[1..])
  }

  /** The environment after setting every variable in order. */
  function SetAll(vars: Dict<string>, prefix: string, variables: Dict<Value>, json: Codec<Value>): Dict<string>
    decreases |variables|
  {
    if variables == [] then vars
    else SetAll(OrderedDict.Set(vars, VarName(prefix, variables[0].0), json.encode(variables[0].1)),
                prefix, variables[1..], json)
  }

  lemma {:induction false} SetAllSnoc(vars: Dict<string>, prefix: string, variables: Dict<Value>, last: (string, Value), json: Codec<Value>)
    ensures SetAll(vars, prefix, variables + [last], json) ==
            OrderedDict.Set(SetAll(vars, prefix, variables, json), VarName(prefix, last.0), json.encode(last.1))
    decreases |variables|
  {
    if variables == [] {
      assert variables + [last] == [last];
    } else {
      assert (variables + [last])[1..] == variables[1..] + [last];
      SetAllSnoc(OrderedDict.Set(vars, VarName(prefix, variables[0].0), json.encode(variables[0].1)),
                 prefix, variables[1..], last, json);
    }
  }

  /**
   * What is set can be got back: JSON text is never empty, so a set value
   * decodes to itself.  Only a refused name stops it, with its refusal.
   */
  method SetThenGet(store: LocalEnvKVStore, key: string, value: Value) returns (r: Result<Value>)
    requires RoundTrips(store.json) && store.json.encode(value) != ""
    modifies store.env
    ensures r.Ok? <==> LegalName(VarName(store.prefix, key))
    ensures r.Ok? ==> r.value == value
    ensures r.Err? ==> r.error == Refusal(VarName(store.prefix, key)).value
  {
    var written := store.Set(key, value);
    if written.Err? {
      return Err(written.error);
    }
    SetGet(old(store.env.vars), VarName(store.prefix, key), store.json.encode(value), VarName(store.prefix, key));
    r := store.Get(key);
  }

  /** A store whose prefix is empty lists every variable among its keys. */
  lemma EmptyPrefixKeysAll(ks: seq<string>)
    ensures Matching(ks, "") == ks
  {
    if ks != [] {
      assert StartsWith(ks[0], "");
      EmptyPrefixKeysAll(ks[1..]);
    }
  }

  /** A name that merely contains the prefix inside it still counts as one of the store's keys. */
  lemma InnerPrefixMatches()
    ensures Matching(["X_app_KEY"], "app_") == ["X_app_KEY"]
  {
    assert StartsWith("app_KEY", "app_");
    assert Contains("_app_KEY", "app_");
    assert Contains("X_app_KEY", "app_");
  }
}
