/**
 * The boto3 adapter (`rctl/modules/_boto3.py`): a bucket-policy controller
 * over an abstract S3 service, the `safe_get` helper that reads the error
 * code out of a client error, and the fixed table of canned policies.
 *
 * `safe_get` as written looks every key up in the top-level mapping, so it
 * never finds `Code`, which S3 nests under `Error`: the controller's
 * `exists` then re-raises instead of answering `(False, code)`.  The
 * controller is modelled as written; the corrected `safe_get` and the
 * `exists` it would give are here beside it.
 */
module Boto3 {
  import opened Wrappers
  import opened OrderedDict
  import opened Values
  import opened Kwargs
  import opened Engine
  import opened EngineSpec

  /** The one concrete class of `Boto3Controller`. */
  datatype Boto3Class = PolicyController

  /** `Boto3Controller.get_operator`: only "policy" is known. */
  function GetOperator(subtype: string): (r: Result<Boto3Class>)
    ensures r.Ok? <==> subtype == "policy"
    ensures r.Ok? ==> r.value == PolicyController
    ensures r.Err? ==> r.Raises(TypeError)
  {
    if subtype == "policy" then Ok(PolicyController) else Raise(TypeError, "")
  }

  /** The message prefix `safe_get` reports a missing key with (spelled as in the source). */
  const NotFoundPrefix := "Key not founc"

  /** Every key of `keys` is a top-level key of `obj`. */
  predicate AllPresent(obj: Dict<Value>, keys: seq<string>) {
    forall i :: 0 <= i < |keys| ==> keys[i] in Keys(obj)
  }

  /**
   * The loop of `safe_get`, over a non-empty key list.  Which key a failed
   * scan names is `SafeGetFirstMissing`.
   */
  function Scan(obj: Dict<Value>, keys: seq<string>): (r: (bool, Value))
    requires keys != []
    ensures r.0 <==> AllPresent(obj, keys)
    ensures r.0 ==> Get(obj, keys[|keys| - 1]) == Some(r.1)
    ensures !r.0 ==> r.1.Str?
  {
    if keys[0] !in Keys(obj) then (false, Str(NotFoundPrefix + keys[0]))
    else if |keys| == 1 then (true, Get(obj, keys[0]).value)
    else
      var t := Scan(obj, keys[1..]);
      ScanStep(obj, keys, t.0);
      t
  }

  /** A scan that passed the first key answers for the rest of the keys. */
  lemma ScanStep(obj: Dict<Value>, keys: seq<string>, rest: bool)
    requires |keys| > 1 && keys[0] in Keys(obj)
    requires rest <==> AllPresent(obj, keys[1..])
    ensures rest <==> AllPresent(obj, keys)
    ensures keys[1..][|keys[1..]| - 1] == keys[|keys| - 1]
  {
    forall i | 0 <= i < |keys[1..]|
      ensures keys[1..][i] == keys[i + 1]
    {
    }
  }

  /**
   * `safe_get(obj, *keys)` as written: `ValueError` for no keys; otherwise
   * each key is looked up in `obj` itself, the first missing one answers
   * `(False, "Key not founc" + key)`, and when all are present the answer is
   * the value of the last key.
   */
  function SafeGet(obj: Dict<Value>, keys: seq<string>): (r: Result<(bool, Value)>)
    ensures r.Err? <==> keys == []
    ensures r.Err? ==> r.Raises(ValueError)
    ensures r.Ok? ==> (r.value.0 <==> AllPresent(obj, keys))
    ensures r.Ok? && r.value.0 ==> Get(obj, keys[|keys| - 1]) == Some(r.value.1)
  {
    if keys == [] then Raise(ValueError, "") else Ok(Scan(obj, keys))
  }

  /** The first missing key decides the answer: it names exactly that key. */
  lemma {:induction false} SafeGetFirstMissing(obj: Dict<Value>, keys: seq<string>, i: int)
    requires 0 <= i < |keys| && AllPresent(obj, keys[..i]) && keys[i] !in Keys(obj)
    ensures SafeGet(obj, keys) == Ok((false, Str(NotFoundPrefix + keys[i])))
    decreases i
  {
    if i > 0 {
      assert keys[..i][0] == keys[0];
      var t := keys[1..][..i - 1];
      forall k | 0 <= k < |t|
        ensures t[k] in Keys(obj)
      {
        assert t[k] == keys[..i][k + 1];
      }
      SafeGetFirstMissing(obj, keys[1..], i - 1);
    }
  }

  /** `safe_get` as the source runs it: a loop that overwrites `result` key by key. */
  method SafeGetLoop(obj: Dict<Value>, keys: seq<string>) returns (r: Result<(bool, Value)>)
    ensures r == SafeGet(obj, keys)
  {
    if |keys| == 0 {
      return Raise(ValueError, "");
    }
    var result := Null;
    for i := 0 to |keys|
      invariant AllPresent(obj, keys[..i])
      invariant i > 0 ==> Get(obj, keys[i - 1]) == Some(result)
    {
      var found := Get(obj, keys[i]);
      if found.None? {
        SafeGetFirstMissing(obj, keys, i);
        return Ok((false, Str(NotFoundPrefix + keys[i])));
      }
      result := found.value;
      PresentRound(obj, keys, i);
    }
    assert keys[..|keys|] == keys;
    r := Ok((true, result));
  }

  lemma PresentRound(obj: Dict<Value>, keys: seq<string>, i: nat)
    requires i < |keys| && AllPresent(obj, keys[..i]) && keys[i] in Keys(obj)
    ensures AllPresent(obj, keys[..i + 1])
  {
    assert forall j :: 0 <= j < i ==> keys[..i + 1][j] == keys[..i][j];
  }

  /** The corrected walk: each key is looked up in the value the previous key found. */
  function Descend(v: Value, keys: seq<string>): (r: (bool, Value))
    requires keys != []
    decreases |keys|
  {
    var found := if v.Map? then Get(v.entries, keys[0]) else None;
    if found.None? then (false, Str(NotFoundPrefix + keys[0]))
    else if |keys| == 1 then (true, found.value)
    else Descend(found.value, keys[1..])
  }

  /** `safe_get` as evidently intended: the keys are a path into nested mappings. */
  function SafeGetNested(obj: Dict<Value>, keys: seq<string>): (r: Result<(bool, Value)>)
    ensures r.Err? <==> keys == []
    ensures r.Err? ==> r.Raises(ValueError)
  {
    if keys == [] then Raise(ValueError, "") else Ok(Descend(Map(obj), keys))
  }

  /** With a single key, the two readings agree. */
  lemma SafeGetSingleKey(obj: Dict<Value>, k: string)
    ensures SafeGetNested(obj, [k]) == SafeGet(obj, [k])
  {
  }

  /** A path of two keys reaches the inner value exactly when both mappings hold their key. */
  lemma SafeGetNestedPair(obj: Dict<Value>, k1: string, k2: string, inner: Dict<Value>, v: Value)
    requires Get(obj, k1) == Some(Map(inner)) && Get(inner, k2) == Some(v)
    ensures SafeGetNested(obj, [k1, k2]) == Ok((true, v))
  {
    assert [k1, k2][1..] == [k2];
    assert Descend(Map(inner), [k2]) == (true, v);
  }

  /** The `response` of a botocore `ClientError`: the code is nested under "Error". */
  function ErrorResponse(code: string): Dict<Value> {
    [("Error", Map([("Code", Str(code)), ("Message", Str(""))])), ("ResponseMetadata", Map([]))]
  }

  /**
   * As written, `safe_get(e.response, "Error", "Code")` reports "Code" as
   * missing for every client error, so `exists` re-raises.
   */
  lemma SafeGetMissesErrorCode(code: string)
    ensures SafeGet(ErrorResponse(code), ["Error", "Code"]) == Ok((false, Str(NotFoundPrefix + "Code")))
  {
    var obj := ErrorResponse(code);
    assert Keys(obj) == ["Error", "ResponseMetadata"];
    SafeGetFirstMissing(obj, ["Error", "Code"], 1);
  }

  /** The corrected lookup finds the code of every client error. */
  lemma SafeGetNestedFindsErrorCode(code: string)
    ensures SafeGetNested(ErrorResponse(code), ["Error", "Code"]) == Ok((true, Str(code)))
  {
    SafeGetNestedPair(ErrorResponse(code), "Error", "Code", [("Code", Str(code)), ("Message", Str(""))], Str(code));
  }

  /** The canned policy documents, by service and policy name; `${bucket_name}` is filled in at create. */
  const Policies: map<string, map<string, string>> := map[
    "s3" := map[
      "public" := PublicPolicy,
      "private" := "{\"Version\": \"2012-10-17\", \"Statement\": []}"]]

  const PublicPolicy: string :=
    "{\n"
    + "    \"Version\": \"2012-10-17\",\n"
    + "    \"Statement\": [\n"
    + "        {\n"
    + "        \"Effect\": \"Allow\",\n"
    + "        \"Principal\": {\n"
    + "            \"AWS\": [\n"
    + "            \"*\"\n"
    + "            ]\n"
    + "        },\n"
    + "        \"Action\": [\n"
    + "            \"s3:GetBucketLocation\",\n"
    + "            \"s3:ListBucket\",\n"
    + "            \"s3:ListBucketMultipartUploads\"\n"
    + "        ],\n"
    + "        \"Resource\": [\n"
    + "            \"arn:aws:s3:::${bucket_name}\"\n"
    + "        ]\n"
    + "        },\n"
    + "        {\n"
    + "        \"Effect\": \"Allow\",\n"
    + "        \"Principal\": {\n"
    + "            \"AWS\": [\n"
    + "            \"*\"\n"
    + "            ]\n"
    + "        },\n"
    + "        \"Action\": [\n"
    + "            \"s3:PutObject\",\n"
    + "            \"s3:AbortMultipartUpload\",\n"
    + "            \"s3:DeleteObject\",\n"
    + "            \"s3:GetObject\",\n"
    + "            \"s3:ListMultipartUploadParts\"\n"
    + "        ],\n"
    + "        \"Resource\": [\n"
    + "            \"arn:aws:s3:::${bucket_name}/*\"\n"
    + "        ]\n"
    + "        }\n"
    + "    ]\n"
    + "    }"

  /** The canned policies exist for S3 only, under exactly the names "public" and "private". */
  lemma PoliciesTable()
    ensures Policies.Keys == {"s3"}
    ensures Policies["s3"].Keys == {"public", "private"}
  {
  }

  /** The S3 buckets the client can see, and the policy attached to each bucket that has one. */
  datatype S3State = S3State(buckets: set<string>, policy: map<string, string>)

  /** The text of a botocore `ClientError` with the given code. */
  function ClientErrorMessage(code: string, operation: string): string {
    "An error occurred (" + code + ") when calling the " + operation + " operation"
  }

  /** Python's truthiness for an optional string argument. */
  predicate Given(s: Option<string>) {
    s.Some? && s.value != ""
  }

  /**
   * The policy text `create` would put, before any client call: `ValueError`
   * when both a policy name and a custom policy are given; the canned policy
   * `policies[service_name][policy_name]` when a policy name is given (a
   * missing service name, service or name is a `KeyError`); the custom policy
   * otherwise (`TypeError` when there is none); then the bucket name is
   * substituted by `template`.
   */
  function PolicyText(connector: Params, template: (string, string) -> Result<string>,
                      bucket: string, policyName: string, custom: Option<string>): (r: Result<string>)
    ensures policyName != "" && Given(custom) ==> r.Raises(ValueError)
    ensures r.Ok? && policyName != "" ==>
              && "service_name" in connector
              && connector["service_name"] in Policies
              && policyName in Policies[connector["service_name"]]
              && r == template(Policies[connector["service_name"]][policyName], bucket)
    ensures r.Ok? && policyName == "" ==> custom.Some? && r == template(custom.value, bucket)
  {
    if policyName != "" && Given(custom) then Raise(ValueError, "")
    else if policyName != "" then
      if "service_name" !in connector then Raise(KeyError, "service_name")
      else if connector["service_name"] !in Policies then Raise(KeyError, connector["service_name"])
      else if policyName !in Policies[connector["service_name"]] then Raise(KeyError, policyName)
      else template(Policies[connector["service_name"]][policyName], bucket)
    else if custom.None? then Raise(TypeError, "expected string or bytes-like object")
    else template(custom.value, bucket)
  }

  /** The service check `create` makes after building the policy: it must be "s3". */
  function ServiceCheck(connector: Params): (r: Result<()>)
    ensures r.Ok? <==> "service_name" in connector && connector["service_name"] == "s3"
  {
    if "service_name" !in connector then Raise(KeyError, "service_name")
    else if connector["service_name"] != "s3" then Raise(AssertionError, "")
    else Ok(())
  }

  /** The code of the client error `get_bucket_policy` raises, or "" when the bucket has a policy. */
  function PolicyErrorCode(st: S3State, bucket: string): string {
    if bucket !in st.buckets then "NoSuchBucket"
    else if bucket !in st.policy then "NoSuchBucketPolicy"
    else ""
  }

  /**
   * `exists` as written: `get_bucket_policy` answers the policy; on a client
   * error the code is read with `safe_get(e.response, "Error", "Code")`,
   * which never finds it, so the client error is raised again.
   */
  function PolicyExists(st: S3State, bucket: string, tb: string): (r: Outcome)
    ensures r.Returned? <==> bucket in st.buckets && bucket in st.policy
    ensures r.Returned? ==> r == Returned(true, st.policy[bucket])
    ensures !r.Returned? ==> r == Raised(ClientErrorMessage(PolicyErrorCode(st, bucket), "GetBucketPolicy"), tb)
  {
    var code := PolicyErrorCode(st, bucket);
    if code == "" then Returned(true, st.policy[bucket])
    else
      SafeGetMissesErrorCode(code);
      match SafeGet(ErrorResponse(code), ["Error", "Code"])
      case Ok((true, Str(found))) => Returned(false, found)
      case _ => Raised(ClientErrorMessage(code, "GetBucketPolicy"), tb)
  }

  /** `exists` as intended: the nested code is found, and a client error answers `(False, code)`. */
  function PolicyExistsIntended(st: S3State, bucket: string): (r: Outcome)
    ensures r.Returned?
    ensures r.ok <==> bucket in st.buckets && bucket in st.policy
    ensures r.ok ==> r.msg == st.policy[bucket]
    ensures !r.ok ==> r.msg == PolicyErrorCode(st, bucket)
  {
    var code := PolicyErrorCode(st, bucket);
    if code == "" then Returned(true, st.policy[bucket])
    else
      SafeGetNestedFindsErrorCode(code);
      var found := SafeGetNested(ErrorResponse(code), ["Error", "Code"]).value;
      Returned(false, found.1.s)
  }

  /**
   * The two readings of `exists` fail on the same buckets and agree where
   * the policy is found; where it is not, only the message differs: the
   * client error's text instead of its code.
   */
  lemma PolicyExistsAgree(st: S3State, bucket: string, tb: string)
    ensures var w, i := PolicyExists(st, bucket, tb), PolicyExistsIntended(st, bucket);
            && (w.Returned? <==> i.ok)
            && (w.Returned? ==> w == i)
            && (!w.Returned? ==> w.err == ClientErrorMessage(i.msg, "GetBucketPolicy"))
  {
  }

  /**
   * `create`: build the policy text, check the service, then put the policy;
   * the first step that fails raises and leaves the state alone.
   */
  function CreatePolicy(connector: Params, template: (string, string) -> Result<string>, params: Params, tb: string,
                        st: S3State, b: string, name: string): (r: (S3State, Outcome))
    ensures var custom := if "custom_policy" in params then Some(params["custom_policy"]) else None;
            var text := PolicyText(connector, template, b, name, custom);
            && (r.1.Returned? <==> text.Ok? && ServiceCheck(connector).Ok? && b in st.buckets)
            && (r.1.Returned? ==> r.1 == Returned(true, "") && r.0 == st.(policy := st.policy[b := text.value]))
    ensures !r.1.Returned? ==> r.1.Raised? && r.0 == st
  {
    var custom := if "custom_policy" in params then Some(params["custom_policy"]) else None;
    var text := PolicyText(connector, template, b, name, custom);
    var check := ServiceCheck(connector);
    if text.Err? then (st, Raised(text.error.msg, tb))
    else if check.Err? then (st, Raised(check.error.msg, tb))
    else if b !in st.buckets then (st, Raised(ClientErrorMessage("NoSuchBucket", "PutBucketPolicy"), tb))
    else (st.(policy := st.policy[b := text.value]), Returned(true, ""))
  }

  /** `delete`: an unknown bucket raises; otherwise its policy, if any, is gone. */
  function DeletePolicy(tb: string, st: S3State, b: string): (r: (S3State, Outcome))
    ensures r.1.Returned? <==> b in st.buckets
    ensures r.1.Returned? ==> r.1 == Returned(true, "") && r.0 == st.(policy := st.policy - {b})
    ensures !r.1.Returned? ==> r.1.Raised? && r.0 == st
  {
    if b !in st.buckets then (st, Raised(ClientErrorMessage("NoSuchBucket", "DeleteBucketPolicy"), tb))
    else (st.(policy := st.policy - {b}), Returned(true, ""))
  }

  /**
   * One capability of `PolicyController` against the S3 state.  Every
   * capability first binds `bucket_name` and `policy_name`.  `absent` calls
   * `exists` without `policy_name`, so it always raises `TypeError`.
   */
  function Invoke(connector: Params, template: (string, string) -> Result<string>, params: Params, tb: string,
                  st: S3State, c: Capability): (r: (S3State, Outcome))
    ensures !r.1.StopIter?
    ensures c != CreateCap && c != DeleteCap ==> r.0 == st
    ensures c == AbsentCap ==> r.1.Raised?
  {
    var bucket := Bind(params, "bucket_name");
    var name := Bind(params, "policy_name");
    if bucket.Err? then (st, Raised(bucket.error.msg, tb))
    else if name.Err? then (st, Raised(name.error.msg, tb))
    else
      var b := bucket.value;
      match c
      case CreateCap => CreatePolicy(connector, template, params, tb, st, b, name.value)
      case DeleteCap => DeletePolicy(tb, st, b)
      case ExistsCap =>
        (st, PolicyExists(st, b, tb))
      case AbsentCap =>
        (st, Raised("exists() missing 1 required positional argument: 'policy_name'", tb))
  }

  /** The controller as a backend for the engine. */
  function Controller(connector: Params, template: (string, string) -> Result<string>, params: Params, tb: string): Backend<S3State> {
    (st: S3State, c: Capability) => Invoke(connector, template, params, tb, st, c)
  }

  /** A boto3 S3 client: the bucket policies it changes in place. */
  class S3Client {
    var state: S3State

    constructor(st: S3State)
      ensures state == st
    {
      state := st;
    }

    /** `put_bucket_policy`: fails with `NoSuchBucket` for an unknown bucket. */
    method PutBucketPolicy(bucket: string, text: string) returns (err: Option<string>)
      modifies this
      ensures err.None? <==> bucket in old(state).buckets
      ensures err.None? ==> state == old(state).(policy := old(state).policy[bucket := text])
      ensures err.Some? ==> state == old(state) && err.value == ClientErrorMessage("NoSuchBucket", "PutBucketPolicy")
    {
      if bucket !in state.buckets {
        return Some(ClientErrorMessage("NoSuchBucket", "PutBucketPolicy"));
      }
      state := state.(policy := state.policy[bucket := text]);
      err := None;
    }

    /** `delete_bucket_policy`: fails with `NoSuchBucket` for an unknown bucket. */
    method DeleteBucketPolicy(bucket: string) returns (err: Option<string>)
      modifies this
      ensures err.None? <==> bucket in old(state).buckets
      ensures err.None? ==> state == old(state).(policy := old(state).policy - {bucket})
      ensures err.Some? ==> state == old(state) && err.value == ClientErrorMessage("NoSuchBucket", "DeleteBucketPolicy")
    {
      if bucket !in state.buckets {
        return Some(ClientErrorMessage("NoSuchBucket", "DeleteBucketPolicy"));
      }
      state := state.(policy := state.policy - {bucket});
      err := None;
    }
  }

  /** A capability as the source runs it: the checks, then the calls on the client. */
  method Call(client: S3Client, connector: Params, template: (string, string) -> Result<string>,
              params: Params, tb: string, c: Capability) returns (o: Outcome)
    modifies client
    ensures (client.state, o) == Invoke(connector, template, params, tb, old(client.state), c)
  {
    var bucket := Bind(params, "bucket_name");
    var name := Bind(params, "policy_name");
    if bucket.Err? {
      return Raised(bucket.error.msg, tb);
    }
    if name.Err? {
      return Raised(name.error.msg, tb);
    }
    var b := bucket.value;
    match c {
      case CreateCap =>
        o := Create(client, connector, template, params, tb, b, name.value);
      case DeleteCap =>
        o := Delete(client, tb, b);
      case ExistsCap =>
        o := PolicyExists(client.state, b, tb);
      case AbsentCap =>
        o := Raised("exists() missing 1 required positional argument: 'policy_name'", tb);
    }
  }

  /** `PolicyController.create` as the source runs it, against the client. */
  method Create(client: S3Client, connector: Params, template: (string, string) -> Result<string>,
                params: Params, tb: string, b: string, name: string) returns (o: Outcome)
    modifies client
    ensures (client.state, o) == CreatePolicy(connector, template, params, tb, old(client.state), b, name)
  {
    var custom := if "custom_policy" in params then Some(params["custom_policy"]) else None;
    var text := PolicyText(connector, template, b, name, custom);
    if text.Err? {
      return Raised(text.error.msg, tb);
    }
    var check := ServiceCheck(connector);
    if check.Err? {
      return Raised(check.error.msg, tb);
    }
    var err := client.PutBucketPolicy(b, text.value);
    if err.Some? {
      return Raised(err.value, tb);
    }
    o := Returned(true, "");
  }

  /** `PolicyController.delete` as the source runs it, against the client. */
  method Delete(client: S3Client, tb: string, b: string) returns (o: Outcome)
    modifies client
    ensures (client.state, o) == DeletePolicy(tb, old(client.state), b)
  {
    var err := client.DeleteBucketPolicy(b);
    if err.Some? {
      return Raised(err.value, tb);
    }
    o := Returned(true, "");
  }

  /** One capability of the controller, seen from the straight-line policy. */
  lemma ControllerCall(connector: Params, template: (string, string) -> Result<string>, params: Params,
                       tb: string, c: Capability, r: Ref<S3State>)
    requires !r.aborted
    ensures var (st', o) := Invoke(connector, template, params, tb, r.state, c);
            Call1(Controller(connector, template, params, tb), c, r) ==
              Ref(st', r.calls + [c], Some(if o.Returned? then (o.ok, o.msg) else (false, o.err + "\n" + o.tb)), false)
  {
  }

  /**
   * Because `absent` always raises, the deleted and absent targets never
   * succeed under the engine, whatever the bucket policies are.
   */
  lemma AbsentNeverSucceeds(connector: Params, template: (string, string) -> Result<string>, params: Params,
                            tb: string, st: S3State, t: Target)
    requires t == Deleted || t == Absent
    ensures ExecuteResult(Execution(Controller(connector, template, params, tb), t, st)).Ok?
    ensures ExecuteResult(Execution(Controller(connector, template, params, tb), t, st)).value.0 == Some(false)
  {
    var call := Controller(connector, template, params, tb);
    ExecuteFollowsReference(call, t, st);
    var r1 := Call1(call, AbsentCap, Begin(st));
    AbsentStep(connector, template, params, tb, Begin(st));
    if t == Deleted {
      var r2 := Call1(call, DeleteCap, r1);
      ControllerCall(connector, template, params, tb, DeleteCap, r1);
      AbsentStep(connector, template, params, tb, r2);
      assert Reference(call, t, Begin(st)) == Call1(call, AbsentCap, r2);
    }
  }

  /** One `absent` call in a reference run: it raises, so the run goes on with a failed answer. */
  lemma AbsentStep(connector: Params, template: (string, string) -> Result<string>, params: Params,
                   tb: string, r: Ref<S3State>)
    requires !r.aborted
    ensures var r' := Call1(Controller(connector, template, params, tb), AbsentCap, r);
            !r'.aborted && r'.last == Some((false, r'.last.value.1))
  {
    ControllerCall(connector, template, params, tb, AbsentCap, r);
  }

  /**
   * The created target on a bucket that already carries a policy probes
   * once and succeeds with that policy, leaving the state alone.
   */
  lemma CreatedWithPolicy(connector: Params, template: (string, string) -> Result<string>, params: Params,
                          tb: string, st: S3State)
    requires "bucket_name" in params && "policy_name" in params
    requires params["bucket_name"] in st.buckets && params["bucket_name"] in st.policy
    ensures var run := Execution(Controller(connector, template, params, tb), Created, st);
            && run.state == st
            && LeafCalls(run.trace) == [ExistsCap]
            && ExecuteResult(run) == Ok((Some(true), st.policy[params["bucket_name"]]))
  {
    ExecuteFollowsReference(Controller(connector, template, params, tb), Created, st);
  }

  /** `create` with a canned S3 policy on an existing bucket attaches the filled-in text. */
  lemma CreatePuts(template: (string, string) -> Result<string>, params: Params, tb: string,
                   st: S3State, text: string)
    requires "bucket_name" in params && "policy_name" in params && "custom_policy" !in params
    requires params["policy_name"] in {"public", "private"}
    requires params["bucket_name"] in st.buckets
    requires template(Policies["s3"][params["policy_name"]], params["bucket_name"]) == Ok(text)
    ensures Invoke(map["service_name" := "s3"], template, params, tb, st, CreateCap)
            == (st.(policy := st.policy[params["bucket_name"] := text]), Returned(true, ""))
  {
    var connector := map["service_name" := "s3"];
    var b, name := params["bucket_name"], params["policy_name"];
    CannedText(template, b, name, text);
    assert ServiceCheck(connector) == Ok(());
    assert CreatePolicy(connector, template, params, tb, st, b, name) == (st.(policy := st.policy[b := text]), Returned(true, ""));
  }

  /** A canned S3 policy name gives the template's filled-in text. */
  lemma CannedText(template: (string, string) -> Result<string>, b: string, name: string, text: string)
    requires name in {"public", "private"}
    requires template(Policies["s3"][name], b) == Ok(text)
    ensures PolicyText(map["service_name" := "s3"], template, b, name, None) == Ok(text)
  {
    assert "s3" in Policies && name in Policies["s3"];
  }

  /**
   * The created target on an existing bucket without a policy, with a
   * canned S3 policy whose template fills in: it probes, puts the policy,
   * and the second probe answers the filled-in text.
   */
  lemma CreatedPutsPolicy(template: (string, string) -> Result<string>, params: Params, tb: string,
                          st: S3State, text: string)
    requires "bucket_name" in params && "policy_name" in params && "custom_policy" !in params
    requires params["policy_name"] in {"public", "private"}
    requires params["bucket_name"] in st.buckets && params["bucket_name"] !in st.policy
    requires template(Policies["s3"][params["policy_name"]], params["bucket_name"]) == Ok(text)
    ensures var run := Execution(Controller(map["service_name" := "s3"], template, params, tb), Created, st);
            && run.state == st.(policy := st.policy[params["bucket_name"] := text])
            && LeafCalls(run.trace) == [ExistsCap, CreateCap, ExistsCap]
            && ExecuteResult(run) == Ok((Some(true), text))
  {
    var connector := map["service_name" := "s3"];
    var call := Controller(connector, template, params, tb);
    var b := params["bucket_name"];
    var st1 := st.(policy := st.policy[b := text]);
    CreatePuts(template, params, tb, st, text);
    ExistsProbe(connector, template, params, tb, st);
    ExistsProbe(connector, template, params, tb, st1);
    assert call(st, ExistsCap) == (st, PolicyExists(st, b, tb));
    assert call(st1, ExistsCap) == (st1, Returned(true, text));
    ConvergeOnce(call, Created, ExistsCap, CreateCap, st, st1, text);
  }

  /** `exists` leaves the account alone and answers the policy probe as written. */
  lemma ExistsProbe(connector: Params, template: (string, string) -> Result<string>, params: Params,
                    tb: string, st: S3State)
    requires "bucket_name" in params && "policy_name" in params
    ensures Invoke(connector, template, params, tb, st, ExistsCap) == (st, PolicyExists(st, params["bucket_name"], tb))
  {
  }

  /**
   * The exists target on a bucket without a policy: the re-raised client
   * error becomes the run's failure, with the error text and traceback as
   * its message, and nothing changes.
   */
  lemma ExistsReRaises(connector: Params, template: (string, string) -> Result<string>, params: Params,
                       tb: string, st: S3State)
    requires "bucket_name" in params && "policy_name" in params
    requires params["bucket_name"] !in st.policy
    ensures var run := Execution(Controller(connector, template, params, tb), Exists, st);
            var code := if params["bucket_name"] in st.buckets then "NoSuchBucketPolicy" else "NoSuchBucket";
            && run.state == st
            && LeafCalls(run.trace) == [ExistsCap]
            && ExecuteResult(run) == Ok((Some(false), ClientErrorMessage(code, "GetBucketPolicy") + "\n" + tb))
  {
    var call := Controller(connector, template, params, tb);
    ExistsProbe(connector, template, params, tb, st);
    ExecuteFollowsReference(call, Exists, st);
    ControllerCall(connector, template, params, tb, ExistsCap, Begin(st));
  }

  /**
   * `create` with a custom policy and no policy name, on an existing bucket
   * of an S3 connector, attaches the custom text with the bucket filled in.
   */
  lemma CreatePutsCustom(template: (string, string) -> Result<string>, params: Params, tb: string,
                         st: S3State, text: string)
    requires "bucket_name" in params && "policy_name" in params && "custom_policy" in params
    requires params["policy_name"] == "" && params["bucket_name"] in st.buckets
    requires template(params["custom_policy"], params["bucket_name"]) == Ok(text)
    ensures Invoke(map["service_name" := "s3"], template, params, tb, st, CreateCap)
            == (st.(policy := st.policy[params["bucket_name"] := text]), Returned(true, ""))
  {
    var connector := map["service_name" := "s3"];
    assert ServiceCheck(connector) == Ok(());
  }
}
