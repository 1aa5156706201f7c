/**
 * The lookup functions templates call (`rctl2/envirnoment/functions.py`):
 * `env`, `val` and `secret` read one of three stores, with or without a
 * default; `env` answers the JSON text of what it found.
 */
module TemplateFunctions {
  import opened Wrappers
  import opened OrderedDict
  import opened Values

  /**
   * A store lookup: without a default, `store[key]` (KeyError when
   * missing); with one, `store.get(key, default)`.
   */
  function Lookup(store: Dict<Value>, key: string, default: Option<Value>): (r: Result<Value>)
    ensures key in Keys(store) ==> r == Ok(Get(store, key).value)
    ensures key !in Keys(store) && default.Some? ==> r == Ok(default.value)
    ensures key !in Keys(store) && default.None? ==> r == Raise(KeyError, key)
  {
    match Get(store, key)
    case Some(v) => Ok(v)
    case None => if default.Some? then Ok(default.value) else Raise(KeyError, key)
  }

  /** The three stores the functions read. */
  datatype Functions = Functions(storeEnv: Dict<Value>, storeVal: Dict<Value>, storeSecret: Dict<Value>)

  /** `env`: the lookup in the environment store, as JSON text. */
  function Env(f: Functions, json: Codec<Value>, key: string, default: Option<Value>): (r: Result<string>)
    ensures r.Ok? <==> Lookup(f.storeEnv, key, default).Ok?
    ensures r.Ok? ==> r.value == json.encode(Lookup(f.storeEnv, key, default).value)
    ensures r.Err? ==> r == Raise(KeyError, key)
  {
    var v :- Lookup(f.storeEnv, key, default);
    Ok(json.encode(v))
  }

  /** `val`. */
  function Val(f: Functions, key: string, default: Option<Value>): (r: Result<Value>)
    ensures r == Lookup(f.storeVal, key, default)
  {
    Lookup(f.storeVal, key, default)
  }

  /** `secret`. */
  function Secret(f: Functions, key: string, default: Option<Value>): (r: Result<Value>)
    ensures r == Lookup(f.storeSecret, key, default)
  {
    Lookup(f.storeSecret, key, default)
  }

  /** Decoding what `env` answers gives back the stored value. */
  lemma EnvDecodes(f: Functions, json: Codec<Value>, key: string)
    requires RoundTrips(json) && key in Keys(f.storeEnv)
    ensures json.decode(Env(f, json, key, None).value) == Get(f.storeEnv, key)
  {
  }

  /** A default, even None, is answered only for a missing key; a present key ignores it. */
  lemma DefaultOnlyWhenMissing(store: Dict<Value>, key: string, d: Value)
    ensures Lookup(store, key, Some(d)).Ok?
    ensures key in Keys(store) ==> Lookup(store, key, Some(d)) == Lookup(store, key, None)
    ensures key !in Keys(store) ==> Lookup(store, key, None).Raises(KeyError)
  {
  }

  /** The names `to_dict` exposes. */
  datatype Name = EnvFn | ValFn | SecretFn

  function ToDict(): (r: seq<(string, Name)>)
    ensures Keys(r) == ["env", "val", "secret"]
  {
    var r := [("env", EnvFn), ("val", ValFn), ("secret", SecretFn)];
    assert Keys(r) == ["env", "val", "secret"];
    r
  }
}
