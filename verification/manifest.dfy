/**
 * Manifest steps (`src/base2.py`): loading a one-root YAML document,
 * validating the target state, normalising the module block, and applying
 * a step by dispatching its module type through the registry, its subtype
 * through the class's `get_operator`, and running the engine on the result.
 */
module Manifest {
  import opened Wrappers
  import opened OrderedDict
  import opened Values
  import opened Engine
  import opened EngineSpec
  import opened Registry
  import opened Mock
  import opened FileSystem
  import opened Kwargs
  import opened FsOperators

  /** A step: the mapping under the manifest's root key. */
  type Step = Dict<Value>

  /**
   * `_load_from_stream` after `yaml.safe_load`: the document must be a
   * mapping with exactly one root key, whose value is the step; the step
   * gets "id" set to that key.
   */
  function LoadFromStream(data: Value): (r: Result<Step>)
    ensures r.Ok? <==> data.Map? && |data.entries| == 1 && data.entries[0].1.Map?
    ensures r.Err? ==> r.Raises(TypeError)
  {
    if !data.Map? then Raise(TypeError, "dict型")
    else if |data.entries| != 1 then Raise(TypeError, "ルート要素は１つ")
    else
      var (key, v) := data.entries[0];
      if !v.Map? then Raise(TypeError, "object does not support item assignment")
      else Ok(Set(v.entries, "id", Str(key)))
  }

  /** A loaded step is the root's mapping with "id" naming the root key, and nothing else changed. */
  lemma LoadedStep(data: Value, k: string)
    requires LoadFromStream(data).Ok?
    ensures var step := LoadFromStream(data).value;
            var (key, v) := data.entries[0];
            && Get(step, "id") == Some(Str(key))
            && (k != "id" ==> Get(step, k) == Get(v.entries, k))
            && Keys(step) == if "id" in Keys(v.entries) then Keys(v.entries) else Keys(v.entries) + ["id"]
  {
    var (key, v) := data.entries[0];
    SetGet(v.entries, "id", Str(key), "id");
    SetGet(v.entries, "id", Str(key), k);
    SetKeys(v.entries, "id", Str(key));
  }

  /** The target state a step names, if it names one. */
  function StateOf(step: Step): Option<Target> {
    match Get(step, "state")
    case Some(v) => if v.Str? then ParseTarget(v.s) else None
    case None => None
  }

  /**
   * `StepDataExtension.validate`: `data["state"]` must be present (else
   * `KeyError`), hashable (else `TypeError`) and one of the five target
   * names (else `ValueError`); the step itself is returned unchanged.
   */
  function Validate(step: Step): (r: Result<Step>)
    ensures r.Ok? <==> StateOf(step).Some?
    ensures r.Ok? ==> r.value == step
    ensures Get(step, "state").None? ==> r.Raises(KeyError)
    ensures Get(step, "state").Some? && !Hashable(Get(step, "state").value) ==> r.Raises(TypeError)
    ensures Get(step, "state").Some? && Hashable(Get(step, "state").value) && r.Err? ==> r.Raises(ValueError)
  {
    match Get(step, "state")
    case None => Raise(KeyError, "state")
    case Some(v) =>
      if !Hashable(v) then Raise(TypeError, "unhashable type")
      else if v.Str? && v.s in TargetNames then Ok(step)
      else Raise(ValueError, if v.Str? then v.s else "")
  }

  /** A step is accepted exactly when its state is one of the five target names. */
  lemma ValidateAcceptsTargets(step: Step)
    ensures Validate(step).Ok? <==> exists t :: Get(step, "state") == Some(Str(TargetName(t)))
  {
    if Validate(step).Ok? {
      var t := StateOf(step).value;
      assert Get(step, "state") == Some(Str(TargetName(t)));
    }
    if exists t :: Get(step, "state") == Some(Str(TargetName(t))) {
      var t :| Get(step, "state") == Some(Str(TargetName(t)));
      ParseTargetName(t);
    }
  }

  /**
   * `Module.validate`: a mapping with a truthy "type"; "subtype" defaults to
   * "default", "params" to {}, and every other key is dropped.
   */
  function ModuleValidate(data: Value): (r: Result<Dict<Value>>)
    ensures r.Ok? <==> data.Map? && Truthy(Get(data.entries, "type").GetOr(Str("")))
    ensures r.Err? ==> r.Raises(TypeError)
    ensures r.Ok? ==> Keys(r.value) == ["type", "subtype", "params"]
    ensures r.Ok? ==> Get(r.value, "type") == Get(data.entries, "type")
    ensures r.Ok? ==> Get(r.value, "subtype") == Some(Get(data.entries, "subtype").GetOr(Str("default")))
    ensures r.Ok? ==> Get(r.value, "params") == Some(Get(data.entries, "params").GetOr(Map([])))
  {
    if !data.Map? then Raise(TypeError, "")
    else
      var d := data.entries;
      var ty := Get(d, "type").GetOr(Str(""));
      if !Truthy(ty) then Raise(TypeError, "")
      else Ok([("type", ty), ("subtype", Get(d, "subtype").GetOr(Str("default"))), ("params", Get(d, "params").GetOr(Map([])))])
  }

  /**
   * The step `override(state)` builds from a valid step: the same keys in
   * the same order and the same values, but for "state"; it is accepted
   * exactly when the new state names a target.
   */
  lemma OverriddenStep(step: Step, state: Value, k: string)
    requires Validate(step).Ok?
    ensures var s := Set(step, "state", state);
            && Keys(s) == Keys(step)
            && Get(s, "state") == Some(state)
            && (k != "state" ==> Get(s, k) == Get(step, k))
            && (Validate(s).Ok? <==> state.Str? && state.s in TargetNames)
  {
    SetKeys(step, "state", state);
    SetGet(step, "state", state, "state");
    SetGet(step, "state", state, k);
  }

  /** The operators `src/base2.py` can construct: `TrueResource`, or a file or directory operator. */
  datatype SrcOperator = TrueRes | FsOperator(op: FsOp)

  /** `registry.get_cls(type)`: an unhashable type raises, any other miss answers `None`. */
  function LookupClass(ty: Value): (r: Result<Option<SrcClass>>)
    ensures r.Err? <==> !Hashable(ty)
    ensures r.Err? ==> r.Raises(TypeError)
    ensures r.Ok? && r.value.Some? <==> ty.Str? && ty.s in {"true", "false", "fsspec"}
  {
    if !Hashable(ty) then Raise(TypeError, "unhashable type")
    else if ty.Str? then (SrcRegistryTable(ty.s); Ok(GetCls(SrcRegistry, ty.s)))
    else Ok(None)
  }

  /** `res_cls.get_operator(subtype)` for the classes of the src registry. */
  function GetOperatorOf(cls: SrcClass, subtype: Value): (r: Result<SrcOperator>)
    ensures r.Err? ==> r.Raises(TypeError)
    ensures cls == TrueResourceClass ==> (r.Ok? <==> subtype == Str("default"))
    ensures cls == FsspecOperator ==> (r.Ok? <==> subtype == Str("file") || subtype == Str("dir"))
    ensures subtype == Str("file") && cls == FsspecOperator ==> r == Ok(FsOperator(SrcFile))
    ensures subtype == Str("dir") && cls == FsspecOperator ==> r == Ok(FsOperator(SrcDir))
    ensures cls == TrueResourceClass && r.Ok? ==> r.value == TrueRes
  {
    if !subtype.Str? then Raise(TypeError, "")
    else
      match cls
      case TrueResourceClass => GetOperatorDefault(TrueRes, subtype.s)
      case FsspecOperator =>
        match SrcGetOperator(subtype.s)
        case Ok(op) => Ok(FsOperator(op))
        case Err(e) => Err(e)
  }

  /**
   * `operator_cls(**connector)`: the connector must be a mapping;
   * `TrueResource` takes no arguments and the filesystem operators need a
   * "protocol".
   */
  function Instantiate(op: SrcOperator, connector: Value): (r: Result<()>)
    ensures r.Ok? <==> connector.Map? && (if op == TrueRes then connector.entries == [] else "protocol" in Keys(connector.entries))
    ensures r.Err? ==> r.Raises(TypeError)
  {
    if !connector.Map? then Raise(TypeError, "argument after ** must be a mapping")
    else if op == TrueRes then
      if connector.entries == [] then Ok(()) else Raise(TypeError, "TrueResource() takes no arguments")
    else if "protocol" in Keys(connector.entries) then Ok(())
    else Raise(TypeError, "missing 1 required positional argument: 'protocol'")
  }

  /** Keyword arguments as strings, when every value is a string. */
  function StrParams(params: Dict<Value>): Option<Params> {
    if forall k :: k in Keys(params) ==> Get(params, k).value.Str? then
      Some(map k | k in Keys(params) :: Get(params, k).value.s)
    else None
  }

  /** The backend an operator is, called with the keyword arguments `params`. */
  function OperatorBackend(op: SrcOperator, params: Dict<Value>, tb: string): Backend<FsState> {
    match op
    case TrueRes => TrueResource(Keys(params), tb)
    case FsOperator(fop) =>
      match StrParams(params)
      case Some(p) => Operator(fop, p, tb)
      case None => (st: FsState, c: Capability) => (st, Raised("expected str", tb))
  }

  /**
   * `CliExecutor.execute` once `execute` has answered: a false answer
   * becomes an exception " must be <state> but: <err>", success returns
   * nothing, and an exception of `execute` itself passes through.
   */
  function CliOutcome(state: Target, res: Result<(Option<bool>, string)>): (r: Result<()>)
    ensures r.Ok? <==> res.Ok? && res.value.0 == Some(true)
    ensures res.Err? ==> r == Err(res.error)
    ensures res.Ok? && res.value.0 != Some(true) ==>
              r == Raise(GenericException, " must be " + TargetName(state) + " but: " + res.value.1)
  {
    match res
    case Err(e) => Err(e)
    case Ok((ok, msg)) =>
      if ok == Some(true) then Ok(())
      else Raise(GenericException, " must be " + TargetName(state) + " but: " + msg)
  }

  /**
   * `CliExecutor.execute(operator, state, params)`: params that are not
   * truthy count as {}; params that are then not a mapping make the
   * controller's own call raise `TypeError` before any capability runs.
   */
  function CliExecution<S>(mk: Dict<Value> -> Backend<S>, state: Target, params: Value, s: S): (S, Result<()>) {
    var p := Or(params, Map([]));
    if !p.Map? then (s, Raise(TypeError, "argument after ** must be a mapping"))
    else
      var run := Execution(mk(p.entries), state, s);
      (run.state, CliOutcome(state, ExecuteResult(run)))
  }

  /** Missing params behave exactly as empty params. */
  lemma NoParamsIsEmptyParams<S>(mk: Dict<Value> -> Backend<S>, state: Target, s: S)
    ensures CliExecution(mk, state, Null, s) == CliExecution(mk, state, Map([]), s)
    ensures CliExecution(mk, state, Null, s) == CliExecution(mk, state, List([]), s)
  {
  }

  method CliExecute<S>(mk: Dict<Value> -> Backend<S>, state: Target, params: Value, s: S) returns (s': S, r: Result<()>)
    ensures (s', r) == CliExecution(mk, state, params, s)
  {
    var p := if Truthy(params) then params else Map([]);
    if !p.Map? {
      return s, Raise(TypeError, "argument after ** must be a mapping");
    }
    var log, res;
    s', log, res := Execute(mk(p.entries), state, s);
    match res {
      case Err(e) =>
        r := Err(e);
      case Ok(pair) =>
        if pair.0 == Some(true) {
          r := Ok(());
        } else {
          r := Raise(GenericException, " must be " + TargetName(state) + " but: " + pair.1);
        }
    }
  }

  /** The step after `apply` has normalised its module block in place. */
  function AppliedStep(step: Step): Step {
    match Get(step, "module")
    case Some(m) =>
      if ModuleValidate(m).Ok? then Set(step, "module", Map(ModuleValidate(m).value)) else step
    case None => step
  }

  /** The backends an operator gives for each set of keyword arguments. */
  function OperatorMaker(op: SrcOperator, tb: string): Dict<Value> -> Backend<FsState> {
    (p: Dict<Value>) => OperatorBackend(op, p, tb)
  }

  /**
   * What `apply` settles before the engine runs: normalise the module, look
   * its type up, pick the operator by subtype and construct it from the
   * connector (default {}).  The answer is the operator and the module's
   * params; every failure here is raised before any capability runs.
   */
  function Dispatch(step: Step): (r: Result<(SrcOperator, Value)>)
    ensures Get(step, "module").None? ==> r.Raises(KeyError)
  {
    match Get(step, "module")
    case None => Raise(KeyError, "module")
    case Some(m) =>
      match ModuleValidate(m)
      case Err(e) => Err(e)
      case Ok(md) => Resolve(md, Get(step, "connector").GetOr(Map([])))
  }

  /** The dispatch of a normalised module block `md`. */
  function Resolve(md: Dict<Value>, connector: Value): (r: Result<(SrcOperator, Value)>)
  {
    match LookupClass(Get(md, "type").GetOr(Null))
    case Err(e) => Err(e)
    case Ok(None) => Raise(RuntimeError, "")
    case Ok(Some(cls)) =>
      match GetOperatorOf(cls, Get(md, "subtype").GetOr(Null))
      case Err(e) => Err(e)
      case Ok(op) =>
        match Instantiate(op, connector)
        case Err(e) => Err(e)
        case Ok(_) => Ok((op, Get(md, "params").GetOr(Null)))
  }

  /** `apply` on a validated step: dispatch, then run the step's own state with the module's params. */
  function ApplySpec(step: Step, st: FsState, tb: string): (r: (FsState, Result<()>))
    requires StateOf(step).Some?
    ensures Dispatch(step).Err? ==> r == (st, Err(Dispatch(step).error))
  {
    match Dispatch(step)
    case Err(e) => (st, Err(e))
    case Ok((op, params)) => CliExecution(OperatorMaker(op, tb), StateOf(step).value, params, st)
  }

  /** A module block that names only its type. */
  lemma TypeOnlyModule(ty: string)
    requires ty != ""
    ensures ModuleValidate(Map([("type", Str(ty))])) == Ok([("type", Str(ty)), ("subtype", Str("default")), ("params", Map([]))])
  {
    var d := [("type", Str(ty))];
    assert Get(d, "type") == Some(Str(ty));
    assert Get(d, "subtype") == None by { assert Get(d[1..], "subtype") == None; }
    assert Get(d, "params") == None by { assert Get(d[1..], "params") == None; }
  }

  /** A module type the registry does not know makes `apply` raise `RuntimeError` before any capability runs. */
  lemma ApplyUnknownType(step: Step, st: FsState, tb: string, ty: string)
    requires StateOf(step).Some?
    requires Get(step, "module") == Some(Map([("type", Str(ty))]))
    requires ty != "" && ty !in {"true", "false", "fsspec"}
    ensures ApplySpec(step, st, tb) == (st, Raise(RuntimeError, ""))
  {
    TypeOnlyModule(ty);
    var md := [("type", Str(ty)), ("subtype", Str("default")), ("params", Map([]))];
    assert Get(md, "type") == Some(Str(ty));
    assert LookupClass(Str(ty)) == Ok(None);
  }

  /** A type-only "true" or "false" module dispatches to `TrueResource` without arguments. */
  lemma TrueDispatch(step: Step, ty: string)
    requires Get(step, "module") == Some(Map([("type", Str(ty))]))
    requires Get(step, "connector").None?
    requires ty == "true" || ty == "false"
    ensures Dispatch(step) == Ok((TrueRes, Map([])))
  {
    TypeOnlyModule(ty);
    var md := [("type", Str(ty)), ("subtype", Str("default")), ("params", Map([]))];
    assert Dispatch(step) == Resolve(md, Map([]));
    TrueResolve(ty);
  }

  lemma TrueResolve(ty: string)
    requires ty == "true" || ty == "false"
    ensures Resolve([("type", Str(ty)), ("subtype", Str("default")), ("params", Map([]))], Map([])) == Ok((TrueRes, Map([])))
  {
    var md := [("type", Str(ty)), ("subtype", Str("default")), ("params", Map([]))];
    assert Get(md, "type") == Some(Str(ty));
    assert Get(md, "subtype") == Some(Str("default"));
    assert Get(md, "params") == Some(Map([]));
    assert LookupClass(Str(ty)) == Ok(Some(TrueResourceClass));
    assert GetOperatorOf(TrueResourceClass, Str("default")) == Ok(TrueRes);
  }

  /**
   * A step whose module is `{type: "true"}` or `{type: "false"}` reaches
   * `TrueResource` and succeeds for every state without touching the
   * filesystem: the registry maps "false" to the same class as "true".
   */
  lemma ApplyTrueModule(step: Step, st: FsState, tb: string, ty: string)
    requires StateOf(step).Some?
    requires Get(step, "module") == Some(Map([("type", Str(ty))]))
    requires Get(step, "connector").None?
    requires ty == "true" || ty == "false"
    ensures ApplySpec(step, st, tb) == (st, Ok(()))
  {
    TrueDispatch(step, ty);
    assert OperatorMaker(TrueRes, tb)([]) == TrueResource([], tb);
    TrueResourceSucceeds(tb, StateOf(step).value, st);
  }

  /** A validated manifest step (`StepDataExtension`), whose `apply` rewrites its module block. */
  class StepDataExtension {
    var step: Step

    ghost predicate Valid()
      reads this
    {
      StateOf(step).Some?
    }

    constructor (s: Step)
      requires Validate(s).Ok?
      ensures step == s && Valid()
    {
      step := s;
    }

    /** `StepDataExtension(step)`: validation runs first, so an invalid step builds nothing. */
    static method New(s: Step) returns (r: Result<StepDataExtension>)
      ensures r.Ok? <==> Validate(s).Ok?
      ensures r.Err? ==> r.error == Validate(s).error
      ensures r.Ok? ==> fresh(r.value) && r.value.step == s && r.value.Valid()
    {
      var v := Validate(s);
      if v.Err? {
        return Err(v.error);
      }
      var x := new StepDataExtension(s);
      r := Ok(x);
    }

    /** `from_stream`: load the one-root document, then validate it. */
    static method FromStream(data: Value) returns (r: Result<StepDataExtension>)
      ensures r.Ok? <==> LoadFromStream(data).Ok? && Validate(LoadFromStream(data).value).Ok?
      ensures r.Ok? ==> fresh(r.value) && r.value.step == LoadFromStream(data).value
    {
      var loaded := LoadFromStream(data);
      if loaded.Err? {
        return Err(loaded.error);
      }
      r := New(loaded.value);
    }

    /**
     * `override(state)`: a new step equal to this one but for its state,
     * validated afresh; this step is left as it was.
     */
    method Override(state: Value) returns (r: Result<StepDataExtension>)
      ensures r.Ok? <==> Validate(Set(step, "state", state)).Ok?
      ensures r.Ok? ==> fresh(r.value) && r.value.step == Set(step, "state", state)
      ensures step == old(step)
    {
      r := New(Set(step, "state", state));
    }

    /**
     * `apply`: rewrites this step's module block when it validates, then
     * dispatches and runs the step against the filesystem `st`.
     */
    method Apply(st: FsState, tb: string) returns (st': FsState, r: Result<()>)
      requires Valid()
      modifies this
      ensures step == AppliedStep(old(step))
      ensures (st', r) == ApplySpec(old(step), st, tb)
    {
      var state := StateOf(step).value;
      var connector := Get(step, "connector").GetOr(Map([]));
      var m := Get(step, "module");
      if m.None? {
        return st, Raise(KeyError, "module");
      }
      var mv := ModuleValidate(m.value);
      if mv.Err? {
        return st, Err(mv.error);
      }
      step := Set(step, "module", Map(mv.value));
      var cls := LookupClass(Get(mv.value, "type").GetOr(Null));
      if cls.Err? {
        return st, Err(cls.error);
      }
      if cls.value.None? {
        return st, Raise(RuntimeError, "");
      }
      var op := GetOperatorOf(cls.value.value, Get(mv.value, "subtype").GetOr(Null));
      if op.Err? {
        return st, Err(op.error);
      }
      var made := Instantiate(op.value, connector);
      if made.Err? {
        return st, Err(made.error);
      }
      var o := op.value;
      st', r := CliExecute(OperatorMaker(o, tb), state, Get(mv.value, "params").GetOr(Null), st);
    }
  }
}
