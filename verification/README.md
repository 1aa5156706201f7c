# resource_manager in Dafny

A model of the core of `resource_manager`, a Python tool that drives resources (files, directories, bucket policies, database schemas) towards a declared state. The model covers the following parts:

- **The engine** (`src/base.py`). A resource controller turns a target state (`created`, `deleted`, `exists`, `absent`, `recreated`) into a generator. The generator asks an operator's capabilities (`create`, `delete`, `exists`, `absent`) in turn. `execute_generator` drives these generators recursively and records every call. `execute` returns the last record's `(ok, err)`.
- **The operators**:
  - the mock operators `TrueResource` and `FalseResource`;
  - the fsspec file, directory and bucket operators, in both the `src` and `rctl` variants;
  - the boto3 bucket-policy controller;
  - the psycopg2 schema operator and the database connector;
  - the RisingWave query helpers.
- **Manifest handling**: loading and validating a step (`src/base2.py`), the registries that map a module type to its operator class, and the CLI executor.
- **The configuration side of `rctl2`**:
  - the Lark transformer that builds the manifest tree;
  - path normalisation;
  - the dict and Vault filesystems;
  - the key-value stores (dict, file, environment);
  - the environment-variable store of `rctl/kv_store`;
  - the template lookup functions;
  - the serializer indexes;
  - the `Result` pair.
- **The file scanner** (`rctl/scanner.py`): breadth-first, depth-first, by-name and by-mtime scans of a directory tree.

Backends are values: a filesystem is a set of directories plus a map from file paths to contents, an S3 account is a set of buckets with their policies, and a database is a set of schemas plus the errors its connection or query raises. A directory tree to scan is a `Node` tree.

What changes in place is a class with `modifies` clauses:
- the filesystem an operator writes to;
- the S3 client;
- the database connection;
- the environment;
- the Vault secrets and its write buffer;
- the manifest step that `apply` rewrites.

Every such method is proved equal to a function on the old state. The properties are proved about those functions. Python's exceptions are a `Result` whose error carries the exception class and its message. A Python dict is a sequence of key/value pairs in insertion order.

The engine is proved against an independent reference policy (`EngineSpec.Reference`):
- `created` probes with `exists`; only if that fails does it call `create` and probe again;
- `deleted` does the same with `absent` and `delete`;
- `exists` and `absent` only probe;
- `recreated` is `deleted` followed by `created`.

Lifecycle lemmas then follow each operator through these steps on concrete states: the file created, probed, deleted and gone; the schema added and dropped; the bucket policy put.

## Model

| member | source | states |
|---|---|---|
| Engine.ParseTarget | src/base.py:171 | A state name selects a controller method exactly when it is one of the five target names, and the method it selects carries that name |
| Engine.ParseTargetName | src/base.py:54-78 | Each of the five controller methods is found again from its own name |
| Engine.Yield | src/base.py:54-78 | A controller generator yields at most three children, always yields something first, and every child is a capability or a simpler state (only `recreated` yields states) |
| Engine.RunLeaf | src/base.py:189-203 | Calling a capability records exactly one entry, with a definite ok flag, unless a `StopIteration` escapes, which aborts the run with nothing recorded |
| Engine.RunTransition | src/base.py:187-224 | A run that is not aborted records at least one entry, and its last entry holds a definite ok flag |
| Engine.Drive | src/base.py:205-224 | The generator loop ends with a record that holds a definite ok flag, and records something whenever the generator yields |
| Engine.DriveStep | src/base.py:215-221 | One round of the loop runs the yielded child, then resumes the generator with the child's last `(ok, err)`, or stops if the child aborted |
| Engine.PrefixPrefix | src/base.py:217-220 | Records passed up through two levels of nesting keep their order |
| Engine.ExecuteGenerator | src/base.py:187-224 | The recursive generator, run step by step with its `while next_func` loop, produces exactly the run that the recursive definition describes |
| Engine.DriveGenerator | src/base.py:208-224 | The `gen.send` loop over a controller generator produces the run that `Drive` describes |
| Engine.Execute | src/base.py:163-184 | `execute` hands every record to the trace hook in order and leaves the backend in the run's final state. It returns the last `(ok, err)`, which always has a definite ok flag; the only exception it raises is the `RuntimeError` for an escaping `StopIteration` |
| Engine.Emit | src/base.py:176-178 | The hook loop hands on every record of the run in order and ends holding the last one, or nothing when the run emitted none |
| Engine.Executable | src/base.py:81-103 | `Executable.<state>` returns the ok flag of `execute` for that state and passes its exceptions through |
| Engine.InheritedCapability | src/base.py:27-44 | A capability the operator does not define changes nothing and answers `(False, "Not Supported Error")` |
| Engine.GetOperatorDefault | src/base.py:18-24 | `get_operator` returns the class itself for subtype "default" and raises `TypeError` for any other subtype |
| EngineSpec.LeafCallsAppend | src/base.py:217-220 | The capabilities called by a concatenated trace are the calls of its parts, in order |
| EngineSpec.LeafAgrees | src/base.py:189-203 | One capability call as the engine runs it matches one call in the reference policy: same state, same call list, same reply |
| EngineSpec.ChildAgrees | src/base.py:215-221 | Agreement with the reference survives putting the records of earlier children in front |
| EngineSpec.Finished | src/base.py:223-224 | A generator that returns after its last child leaves that child's run as the whole run |
| EngineSpec.ConvergeAgrees | src/base.py:54-68 | `created` and `deleted` behave like the reference: probe; if the probe fails, act and probe again |
| EngineSpec.ProbeAgrees | src/base.py:70-74 | `exists` and `absent` behave like the reference: a single probe |
| EngineSpec.RecreatedAgrees | src/base.py:76-78 | `recreated` behaves like the reference: `deleted`, then `created` from the resulting state |
| EngineSpec.ConvergeOnce | src/base.py:54-68 | When the first probe fails, the action does not stop the generator and the second probe succeeds, `created`/`deleted` make exactly the calls probe, action, probe. They end in the state the action left and answer the second probe |
| EngineSpec.ProbeOnce | src/base.py:70-74 | `exists`/`absent` make their single probe, keep the state and answer what the probe answered |
| EngineSpec.DriverAgrees | src/base.py:187-224 | Driving any target agrees with the reference policy for that target |
| EngineSpec.ExecuteFollowsReference | src/base.py:163-184 | For every operator, state and target, `execute` ends in the reference policy's final state, has made the reference's calls in order, and answers the reference's last reply, or the `StopIteration` error when the reference aborts |
| EngineSpec.RecreatedIsDeletedThenCreated | src/base.py:76-78 | Recreating makes the calls of deleting followed by the calls of creating from the deleted state, and ends as that creation does |
| EngineSpec.ShapedAppend | src/base.py:217-220 | The shape of a trace (depth range; `START` exactly on state records) is kept when traces are concatenated |
| EngineSpec.TransitionShape | src/base.py:187-205 | Every record of a run lies one to three levels below its caller, and state records alone carry `None` and "START". A state's run opens with its own START record |
| EngineSpec.DriveShape | src/base.py:205-224 | The records of a controller generator lie within its own depth range |
| EngineSpec.ExecutionShape | src/base.py:163-184 | Every trace `execute` emits opens with the target's START record at depth 1 and stays within depth `1 + rank` |
| EngineSpec.BareOperatorFails | src/base.py:27-44 | An operator that defines no capability leaves the backend unchanged, and `execute` answers `(False, "Not Supported Error")` for every target |
| Mock.TrueResourceAnswers | src/modules/mock.py:4-15 | Every capability of `TrueResource` answers `(True, <its fixed message>)` |
| Mock.FalseResourceAnswers | src/modules/mock.py:18-29 | Every capability of `FalseResource` answers `(False, <its fixed message>)` |
| Mock.MockCall | src/modules/mock.py:4-29 | One call of a mock appends that capability to the call list and replies with its fixed answer, or with the unexpected-keyword `TypeError` when step parameters are given |
| Mock.MockConverge | src/base.py:54-68 | Against a mock, a converging target probes once when the mock succeeds; otherwise it probes, acts and probes again |
| Mock.MockReference | src/base.py:54-78 | The reference policy's call list and final reply against each mock, for every target |
| Mock.TrueResourceSucceeds | src/modules/mock.py:4-15 | `execute` on `TrueResource` succeeds for every target with the probe's message, probing once (twice for `recreated`) and changing nothing |
| Mock.FalseResourceFails | src/modules/mock.py:18-29 | `execute` on `FalseResource` fails for every target with the probe's message; converging targets make three calls (six for `recreated`) |
| Mock.MockWithParamsFails | src/modules/mock.py:4-29 | Mocks given step parameters fail every target with the `TypeError` message and its traceback |
| Registry.GetCls | src/registry.py:10-12 | `get_cls` finds a class exactly for the registered types, and returns the registered class |
| Registry.EmptyRegistryFindsNothing | rctl/registry.py:8-13 | A registry built without a table finds no type |
| Registry.RctlRegistryTable | rctl/registry.py:16-24 | The rctl registry knows exactly `true`, `false`, `fsspec`, `psycopg2` and `boto3`; `false` maps to the same operator as `true` |
| Registry.SrcRegistryTable | src/registry.py:15-17 | The src registry knows exactly `true`, `false` and `fsspec`; `false` maps to `TrueResource` |
| Kwargs.Bind | src/modules/file.py:25-93 | Binding a required keyword succeeds exactly when it is given, and yields its value; a missing one is a `TypeError` |
| FileSystem.Mkdirs | src/modules/file.py:66-70 | `mkdirs(p, exist_ok=True)` fails with `FileExistsError` exactly when `p` or a directory above it is a file. Otherwise `p` and all its ancestors are directories afterwards, no file changes, and only `p` is added when its ancestors already existed |
| FileSystem.Mkdir | rctl/modules/_fsspec.py:113-130 | `mkdir` refuses an existing path with `FileExistsError`; on success the path is a new directory |
| FileSystem.CreateFile | src/modules/file.py:25-33 | Exclusive creation succeeds exactly when the path is free and its parent is a directory, and adds just that file. An existing path is `FileExistsError`; a missing parent is `FileNotFoundError` |
| FileSystem.Delete | src/modules/file.py:35-38 | Recursive delete succeeds exactly on an existing path. It removes the path and everything below it and keeps every other file and directory unchanged; a missing path is `FileNotFoundError` |
| FileSystem.Rmdir | src/modules/file.py:72-76 | `rmdir` succeeds exactly on an empty directory and removes only it |
| FileSystem.FileSystem.MakeDirs | src/modules/file.py:66-70 | The in-place filesystem after `mkdirs` is the one `Mkdirs` describes, or is unchanged when it raises |
| FileSystem.FileSystem.MakeDir | rctl/modules/_fsspec.py:113-130 | The in-place filesystem after `mkdir` is the one `Mkdir` describes, or is unchanged when it raises |
| FileSystem.FileSystem.OpenExclusiveWrite | src/modules/file.py:25-33 | Opening with "x" and writing changes the filesystem as `CreateFile` describes, or not at all when it raises |
| FileSystem.FileSystem.DeleteRecursive | src/modules/file.py:35-38 | `delete(recursive=True)` changes the filesystem as `Delete` describes, or not at all when it raises |
| FileSystem.FileSystem.RemoveDir | src/modules/file.py:72-76 | `rmdir` changes the filesystem as `Rmdir` describes, or not at all when it raises |
| FileSystem.FileSystem.Commit | src/modules/file.py:25-93 | A filesystem call either takes effect in full or leaves the filesystem as it was and reports its exception |
| FsOperators.RctlGetOperator | rctl/modules/_fsspec.py:26-35 | The rctl fsspec root maps exactly `file`, `dir` and `bucket` to their operators; anything else is `TypeError` |
| FsOperators.SrcGetOperator | src/modules/file.py:7-14 | The src fsspec root maps exactly `file` and `dir`; anything else is `TypeError` |
| FsOperators.PosixJoin | rctl/modules/_fsspec.py:11-15 | Joining with an absolute path yields that path; otherwise the result starts with the base and ends with the joined part |
| FsOperators.SafeJoin | rctl/modules/_fsspec.py:11-15 | `safe_join` raises `ValueError` exactly when the bucket is empty; otherwise it joins the parts onto the bucket, and with no parts it is the bucket itself |
| FsOperators.TargetPath | rctl/modules/_fsspec.py:39-145 | Which path each rctl operator acts on. A bucket acts on the bucket; files and directories act on `bucket/path`. A missing `path` is `TypeError`; an empty bucket is `ValueError`; the directory operator refuses to delete an empty path with `RuntimeError` |
| FsOperators.ExistsAnswer | rctl/modules/_fsspec.py:39-110 | `exists` is true exactly when the path is a file (file operators) or a directory (directory and bucket operators); a missing path answers "Not Exists <path>" |
| FsOperators.AbsentAnswer | rctl/modules/_fsspec.py:39-110 | `absent` is true exactly when nothing is at the path; otherwise it answers "Exists <path>" |
| FsOperators.Invoke | rctl/modules/_fsspec.py:39-145 | No fsspec capability lets `StopIteration` escape, and `exists` and `absent` never change the filesystem |
| FsOperators.Call | src/modules/file.py:25-93 | Each capability run step by step on the mutable filesystem ends in the state and answer that `Invoke` gives |
| FsScenarios.RctlTarget | rctl/modules/_fsspec.py:39-110 | With a bucket and a path, file and directory operators act on `bucket/path` for every capability |
| FsScenarios.OperatorCall | src/base.py:189-203 | One engine call of an fsspec operator records the capability and the operator's answer; a raised exception becomes `(False, message + traceback)` |
| FsScenarios.ProbeMissing | rctl/modules/_fsspec.py:56-73 | On a path that is not there, `exists` answers `(False, "Not Exists <path>")` and `absent` answers `(True, "")`; neither changes the filesystem |
| FsScenarios.ProbePresent | rctl/modules/_fsspec.py:56-73 | On a file for the file operator, or a directory for the directory operator, `exists` answers `(True, "")` and `absent` answers `(False, "Exists <path>")` |
| FsScenarios.ProbesBefore | tests/test_modules/test_file.py:109-144 | Before creation, `exists` answers `(False, "Not Exists <path>")` and `absent` answers `(True, "")`, and neither changes anything |
| FsScenarios.ProbesAfter | tests/test_modules/test_file.py:109-144 | After creation, `exists` answers `(True, "")` and `absent` answers `(False, "Exists <path>")` |
| FsScenarios.DirCreateStep | src/modules/file.py:66-70 | Creating a free directory whose parents exist adds exactly that directory |
| FsScenarios.DirCreated | tests/test_modules/test_file.py:109-125 | `created` on a free directory probes, creates and probes again, succeeds, and adds exactly that directory |
| FsScenarios.DirDeleteStep | src/modules/file.py:72-76 | Deleting the directory just created restores the state before it |
| FsScenarios.DirDeleted | tests/test_modules/test_file.py:109-125 | `deleted` on that directory probes, deletes and probes again, succeeds, and restores the earlier state |
| FsScenarios.FileCreated | tests/test_modules/test_file.py:128-144 | `created` on a free file path probes, creates and probes again, succeeds, and adds exactly one empty file |
| FsScenarios.FileCreateStep | rctl/modules/_fsspec.py:39-48 | Creating a free file path, without content, adds exactly one empty file there and leaves the directories as they were |
| FsScenarios.DeleteRestores | src/modules/file.py:35-38 | Deleting a file that was just added restores the filesystem before it |
| FsScenarios.FileDeleted | tests/test_modules/test_file.py:128-144 | `deleted` on that file succeeds with three calls and restores the earlier state |
| FsScenarios.DirLifecycle | tests/test_modules/test_file.py:109-125 | The directory scenario end to end: absent, created, exists, deleted; the final state is the starting one |
| FsScenarios.FileLifecycle | tests/test_modules/test_file.py:128-144 | The file scenario end to end: absent, created, exists, deleted; the final state is the starting one |
| FsScenarios.DirCreatedIdempotent | src/base.py:54-57 | `created` on an existing directory only probes and changes nothing |
| FsScenarios.DirDeleteEmptyPathFails | rctl/modules/_fsspec.py:85-86 | The directory operator refuses to delete an empty path: `deleted` reports failure and leaves the filesystem untouched |
| Manifest.LoadFromStream | src/base2.py:16-28 | A document loads exactly when it is a mapping with one root key whose value is a mapping; anything else is `TypeError` |
| Manifest.LoadedStep | src/base2.py:25-28 | The loaded step is the root's mapping with `id` set to the root key, and every other key unchanged |
| Manifest.Validate | src/base2.py:39-45 | A step validates exactly when its `state` is one of the five target names; the step is returned unchanged. A missing state is `KeyError`; an unhashable one is `TypeError`; any other value is `ValueError` |
| Manifest.ValidateAcceptsTargets | src/base2.py:39-45 | The accepted states are exactly the names of the five targets |
| Manifest.ModuleValidate | src/base2.py:66-81 | A module validates exactly when it is a mapping with a truthy `type`. The result has the keys `type`, `subtype` and `params`, with defaults "default" and `{}`; otherwise `TypeError` |
| Manifest.OverriddenStep | src/base2.py:47-49 | Overriding changes only the `state` value, keeps the key order, and validates exactly when the new state is a target name |
| Manifest.LookupClass | src/base2.py:57-59 | The module type finds a class exactly for `true`, `false` and `fsspec`; an unhashable type is `TypeError` |
| Manifest.GetOperatorOf | src/base2.py:61 | The subtype selects an operator: "default" for the mocks, `file` or `dir` for fsspec; anything else is `TypeError` |
| Manifest.Instantiate | src/base2.py:62 | Constructing the operator from the connector succeeds exactly when the connector is a mapping the operator accepts: empty for the mocks, holding `protocol` for fsspec |
| Manifest.CliOutcome | src/base2.py:85-97 | The CLI executor returns normally exactly when `execute` answers true. A false answer raises " must be <state> but: <err>"; exceptions of `execute` pass through |
| Manifest.NoParamsIsEmptyParams | src/base2.py:93 | Missing or empty step parameters behave exactly like `{}` |
| Manifest.CliExecute | src/base2.py:85-97 | The CLI executor run step by step gives the outcome `CliExecution` describes |
| Manifest.Dispatch | src/base2.py:51-62 | A step without a module raises `KeyError` before anything runs |
| Manifest.ApplySpec | src/base2.py:51-64 | Every failure while resolving the module is raised before any capability runs, and leaves the backend unchanged |
| Manifest.TypeOnlyModule | src/base2.py:72-76 | A module given only its type gets subtype "default" and empty params |
| Manifest.ApplyUnknownType | src/base2.py:57-59 | Applying a step whose module type is not registered raises `RuntimeError` and changes nothing |
| Manifest.TrueDispatch | src/base2.py:51-62 | A `true` or `false` module without a connector dispatches to `TrueResource` with empty params |
| Manifest.TrueResolve | src/base2.py:57-62 | Resolving a normalised `true`/`false` module gives `TrueResource` |
| Manifest.ApplyTrueModule | src/base2.py:51-64 | Applying a valid step whose module is `true` or `false` succeeds and leaves the backend unchanged |
| Manifest.StepDataExtension.constructor | src/base2.py:7-8 | A step extension holds a validated step |
| Manifest.StepDataExtension.New | src/base2.py:7-8 | Construction succeeds exactly when the step validates, and raises the validation error otherwise |
| Manifest.StepDataExtension.FromStream | src/base2.py:30-37 | `from_stream` succeeds exactly when the document loads and the loaded step validates |
| Manifest.StepDataExtension.Override | src/base2.py:47-49 | `override` builds a new extension with only the state replaced, validated afresh; the original step is untouched |
| Manifest.StepDataExtension.Apply | src/base2.py:51-64 | `apply` rewrites the step's module block to its normalised form, then runs the step as `ApplySpec` describes |
| Boto3.GetOperator | rctl/modules/_boto3.py:19-24 | The boto3 controller has the single subtype `policy`; anything else is `TypeError` |
| Boto3.Scan | rctl/modules/_boto3.py:83-88 | The `safe_get` loop reports success exactly when every key is present in the top-level dict, and then yields the last key's value. Otherwise it answers a message string |
| Boto3.SafeGet | rctl/modules/_boto3.py:78-88 | `safe_get` raises `ValueError` exactly when no key is given. It succeeds exactly when every key is present in the outer dict (it does not descend), and then yields the last key's value |
| Boto3.SafeGetFirstMissing | rctl/modules/_boto3.py:83-86 | When the first missing key is `keys[i]`, `safe_get` reports that key |
| Boto3.SafeGetLoop | rctl/modules/_boto3.py:78-88 | The loop run step by step returns what `SafeGet` describes |
| Boto3.SafeGetNested | rctl/modules/_boto3.py:78-88 | The descending form of `safe_get` also raises `ValueError` exactly on an empty key list |
| Boto3.SafeGetSingleKey | rctl/modules/_boto3.py:78-88 | With one key, the as-written and descending forms agree |
| Boto3.SafeGetNestedPair | rctl/modules/_boto3.py:62 | The descending form finds a value nested two levels deep |
| Boto3.SafeGetMissesErrorCode | rctl/modules/_boto3.py:61-64 | As written, `safe_get(response, "Error", "Code")` reports "Code" missing for every client error response |
| Boto3.SafeGetNestedFindsErrorCode | rctl/modules/_boto3.py:61-65 | The descending form finds the error code of a client error response |
| Boto3.PoliciesTable | rctl/modules/_boto3.py:95-138 | The canned policies exist for the single service `s3`, under the names `public` and `private` |
| Boto3.PolicyText | rctl/modules/_boto3.py:28-44 | Giving both a policy name and a custom policy is `ValueError`. A policy name takes the canned policy for the connector's service and substitutes the bucket; otherwise the custom policy is used |
| Boto3.ServiceCheck | rctl/modules/_boto3.py:31-32 | `create` only accepts the service name `s3` |
| Boto3.PolicyExists | rctl/modules/_boto3.py:55-66 | As written, `exists` answers `(True, policy)` exactly when the bucket exists and has a policy. Every client error (`NoSuchBucket`, `NoSuchBucketPolicy`) is re-raised, because `safe_get` never finds its code |
| Boto3.PolicyExistsIntended | rctl/modules/_boto3.py:55-66 | With a descending `safe_get`, `exists` never raises: it is true exactly when the bucket has a policy and answers it, and otherwise answers the client error code |
| Boto3.PolicyExistsAgree | rctl/modules/_boto3.py:55-66 | The source answers exactly where the intended `exists` is true, with the same answer; where that is false, the source raises the client error carrying the same code |
| Boto3.CreatePolicy | rctl/modules/_boto3.py:28-46 | `create` succeeds exactly when the policy text can be built, the service is `s3` and the bucket exists. It then answers `(True, "")` and sets that bucket's policy to exactly that text. Any failure raises and leaves the account unchanged |
| Boto3.DeletePolicy | rctl/modules/_boto3.py:48-53 | `delete` succeeds exactly when the bucket exists, and then removes exactly its policy; otherwise it raises and changes nothing |
| Boto3.Invoke | rctl/modules/_boto3.py:28-75 | No capability lets `StopIteration` escape. Only `create` and `delete` change the account. `exists` answers or raises as the as-written probe does; `absent` always raises, because it omits a required argument |
| Boto3.S3Client.PutBucketPolicy | rctl/modules/_boto3.py:45-46 | Putting a policy on an existing bucket sets exactly that bucket's policy; a missing bucket is a `NoSuchBucket` client error and changes nothing |
| Boto3.S3Client.DeleteBucketPolicy | rctl/modules/_boto3.py:48-53 | Deleting a policy on an existing bucket removes exactly that bucket's policy; a missing bucket is a `NoSuchBucket` client error |
| Boto3.Call | rctl/modules/_boto3.py:28-75 | Each capability run against the mutable client ends in the state and answer `Invoke` gives, including the re-raised client error of `exists` |
| Boto3.Create | rctl/modules/_boto3.py:28-46 | `create` run against the mutable client ends in the state and answer `CreatePolicy` gives |
| Boto3.Delete | rctl/modules/_boto3.py:48-53 | `delete` run against the mutable client ends in the state and answer `DeletePolicy` gives |
| Boto3.ControllerCall | src/base.py:189-203 | One engine call of the controller records the capability and its answer, or the exception with its traceback |
| Boto3.AbsentNeverSucceeds | rctl/modules/_boto3.py:68-75 | `deleted` and `absent` always fail for the policy controller |
| Boto3.CreatedWithPolicy | rctl/modules/_boto3.py:55-66 | `created` on a bucket that already has a policy only probes and answers that policy |
| Boto3.ExistsProbe | rctl/modules/_boto3.py:55-66 | `exists` never changes the account; it answers the policy when there is one and otherwise raises the client error |
| Boto3.ExistsReRaises | rctl/modules/_boto3.py:55-66 | The `exists` target on a bucket without a policy makes one probe, changes nothing, and ends failed with the `NoSuchBucket` or `NoSuchBucketPolicy` client error and its traceback |
| Boto3.CannedText | rctl/modules/_boto3.py:34-39 | A canned S3 policy name, with no custom policy, gives the template filled in with the bucket |
| Boto3.CreatePuts | rctl/modules/_boto3.py:28-46 | `create` with a canned policy name puts the substituted policy on the bucket |
| Boto3.CreatePutsCustom | rctl/modules/_boto3.py:28-46 | `create` with only a custom policy puts the text the template builds from it on the bucket |
| Boto3.CreatedPutsPolicy | rctl/modules/_boto3.py:28-66 | `created` on a bucket without a policy probes, puts the canned policy and probes again, and answers the new policy |
| Postgres.GetOperator | rctl/modules/_psycopg2.py:10-15 | The psycopg2 root has the single subtype `schema`; anything else is `TypeError` |
| Postgres.Instantiate | rctl/modules/_psycopg2.py:17-24 | The operator needs `host`, `dbname` and `user`, and accepts no connector key beyond those and `password` and `port`; anything else is `TypeError`. `password` defaults to "" and `port` to 5432 |
| Postgres.FetchScalar | rctl/modules/_psycopg2.py:101-116 | `fetch_scalar` succeeds exactly when the first row has a column, and returns that first value. No row is the no-record answer; a failed query answers its error |
| Postgres.EqualsOne | rctl/modules/_psycopg2.py:37 | Python's `result == 1` holds for the integer 1 and for `True` |
| Postgres.SchemaQuery | rctl/modules/_psycopg2.py:30-34 | The existence query answers whether the schema is present, or fails with the server's query error |
| Postgres.ShapeExists | rctl/modules/_psycopg2.py:35-45 | Shaping a fetched value: none when the fetch failed, `(True, "")` exactly when it equals 1, otherwise "Not exists <schema>" |
| Postgres.Invert | rctl/modules/_psycopg2.py:47-52 | `absent` flips the ok flag of `exists`. It keeps the failure message when the schema is absent, and uses the fixed "not absent" message when it is present |
| Postgres.SchemaExists | rctl/modules/_psycopg2.py:26-45 | `exists` gives `None` exactly when connecting works but the query fails, and `(True, "")` exactly on a healthy server that has the schema. An unreachable server answers its error and traceback |
| Postgres.RunDdl | rctl/modules/_psycopg2.py:119-125 | Running DDL fails exactly when the server's queries fail, and then changes nothing. `CREATE SCHEMA` adds the schema and `DROP SCHEMA` removes it |
| Postgres.SchemaChange | rctl/modules/_psycopg2.py:54-90 | `create`/`delete` succeed exactly on a healthy server and then apply the DDL; otherwise nothing changes, and a connection error is reported with its traceback |
| Postgres.Invoke | rctl/modules/_psycopg2.py:26-90 | No capability lets `StopIteration` escape, and `exists` and `absent` never change the database |
| Postgres.Database.Execute | rctl/modules/_psycopg2.py:119-125 | DDL run on the connection changes the database as `RunDdl` describes |
| Postgres.Change | rctl/modules/_psycopg2.py:54-90 | `create`/`delete` run step by step end as `SchemaChange` describes |
| Postgres.Call | rctl/modules/_psycopg2.py:26-90 | Each capability run against the mutable database ends in the state and answer `Invoke` gives |
| Postgres.OperatorCall | src/base.py:189-203 | One engine call of the schema operator records the capability and its answer |
| Postgres.SchemaCreated | rctl/modules/_psycopg2.py:26-71 | `created` on a healthy server without the schema probes, creates and probes again, adds the schema and succeeds |
| Postgres.SchemaDeleted | rctl/modules/_psycopg2.py:47-90 | `deleted` on a healthy server with the schema probes, drops and probes again, and removes the schema |
| Postgres.UnreachableLooksAbsent | rctl/modules/_psycopg2.py:26-52 | With an unreachable server, `absent` and `deleted` report success (the failed `exists` is inverted), while `created` fails; nothing changes |
| Postgres.QueryFailureIsUnpackError | rctl/modules/_psycopg2.py:26-45 | When the query fails, `exists` returns `None`, which the engine reports as an unpacking `TypeError` |
| DbConnector.ProbeQuery | src/connectors/db.py:21-32 | The connection probe returns 1 unless the server's queries fail |
| DbConnector.ExistsDb | src/connectors/db.py:21-32 | `exists_db` is true exactly on a healthy server; otherwise it reports the connection or query error |
| DbConnector.AbsentDb | src/connectors/db.py:34-39 | `absent_db` is the negation of `exists_db`, with "Not absent" when the database exists |
| DbConnector.ExistsSchema | src/connectors/db.py:41-56 | `exists_schema` falls through to `None` exactly when the query fails; otherwise it answers as the psycopg2 operator does, without a traceback |
| DbConnector.ExistsSchemaAgrees | src/connectors/db.py:41-56 | The connector's `exists_schema` and the psycopg2 operator's `exists` agree on every outcome but the message |
| DbConnector.AsWrittenDdl | src/connectors/db.py:73-75 | The statement text renders the schema name by the identifier's repr, `Identifier('name')` |
| DbConnector.AdapterChangeAsWritten | src/connectors/db.py:65-97 | As written, `create_schema`/`delete_schema` never succeed and never change the schemas; a healthy server answers the syntax error |
| DbConnector.CreateSchemaAsWrittenFails | src/connectors/db.py:65-80 | On a healthy server without the schema, `create_schema` as written leaves it missing and reports the syntax error, where the intended statement creates it |
| DbConnector.AbsentSchema | src/connectors/db.py:58-63 | `absent_schema` inverts `exists_schema`, and raises `TypeError` where that falls through to `None` |
| DbConnector.AdapterChange | src/connectors/db.py:65-97 | With the statement composed as intended, `create_schema`/`delete_schema` succeed exactly on a healthy server and apply the DDL; otherwise they report the error and change nothing |
| DbConnector.AdapterChangeAgrees | src/connectors/db.py:65-97 | The connector's intended schema changes have the same effect and success as the psycopg2 operator's; a failure reports the same error, which the operator follows with its traceback |
| DbConnector.ChangeSchema | src/connectors/db.py:65-97 | The schema change run on the mutable connection ends as `AdapterChange` describes |
| DbConnector.AssertValue | src/connectors/db.py:135-143 | `assert_value` is true exactly when the query succeeded and its value equals the expected one, and otherwise answers the given message |
| DbConnector.AssertSchemaPresent | src/connectors/db.py:135-143 | On a healthy server, asserting that the schema query returns 1 holds exactly when the schema exists |
| Risingwave.GetOperator | rctl/modules/_risingwave.py:174-185 | The subtypes are exactly `sync`, `source`, `subscription` and `view`; `view` returns a `NotImplementedError` instance instead of raising; anything else raises `TypeError` |
| Risingwave.CatalogTable | rctl/modules/_risingwave.py:55-63 | The catalog table is found exactly for the lower-cased kinds the table lists |
| Risingwave.FormatCheck | rctl/modules/_risingwave.py:83-87 | Formatting succeeds exactly when every placeholder has an argument; otherwise `KeyError` |
| Risingwave.CompileExistsAsWritten | rctl/modules/_risingwave.py:51-87 | `schema` and `db` are refused with `NotImplementedError`. A kind the table does not list raises `TypeError` from `sql.Identifier(None)` before any formatting |
| Risingwave.CompileExistsNeverBuilds | rctl/modules/_risingwave.py:51-87 | As written, `compile_exists` never builds a query. A listed kind other than `schema`/`db` ends in `KeyError` for the `TALBLE` placeholder, and an unlisted kind in `TypeError` |
| Risingwave.CompileExists | rctl/modules/_risingwave.py:51-87 | The intended `compile_exists` builds the query exactly for the listed kinds other than `schema`/`db`. It uses the kind's catalog table with schema and name lower-cased; every other target is `NotImplementedError` |
| Risingwave.GuardIsCaseSensitive | rctl/modules/_risingwave.py:52-63 | The `schema` guard is case-sensitive while the lookup is not, so every other spelling of "schema" reaches the schemas catalog |
| Risingwave.MixedCaseSchema | rctl/modules/_risingwave.py:52-63 | "Schema" is one such spelling: it differs from "schema" and lowers to it |
| Risingwave.Scalar | rctl/modules/_risingwave.py:207-226 | `scalar` returns the first column of the first row. No row, or an empty one, raises `NoRecordError`; a failed statement raises its error |
| Risingwave.ScalarAgreesWithFetch | rctl/modules/_risingwave.py:207-226 | `scalar` succeeds exactly where psycopg2's `fetch_scalar` does, with the same value |
| Risingwave.FirstOrNone | rctl/modules/_risingwave.py:245-249 | `first_or_none` is the first row, `None` exactly for no rows, and passes a query error through |
| Risingwave.LastOrNone | rctl/modules/_risingwave.py:258-262 | `last_or_none` is the last row, `None` exactly for no rows, and passes a query error through |
| Risingwave.OneOrNone | rctl/modules/_risingwave.py:251-256 | As written, `one_or_none` raises exactly when there are more than two rows; otherwise it answers as `last_or_none` |
| Risingwave.OneOrNoneAcceptsTwoRows | rctl/modules/_risingwave.py:253-256 | Two rows are not refused: the second is returned |
| Risingwave.OneOrNoneStrict | rctl/modules/_risingwave.py:251-256 | The intended `one_or_none` raises exactly when there is more than one row, and otherwise agrees with both `first_or_none` and `last_or_none` |
| Risingwave.OneOrNoneStrictAgrees | rctl/modules/_risingwave.py:251-256 | Wherever the strict form answers, it answers as the source does; exactly two rows are where they differ |
| Risingwave.AtMostOneRowAgree | rctl/modules/_risingwave.py:245-262 | With at most one row, the three row helpers agree |
| Risingwave.RowExists | rctl/modules/_risingwave.py:264-269 | The row-level `exists` is `True` exactly when the first row is truthy, otherwise `None`, never `False` |
| Risingwave.FirstOrNoneLoop | rctl/modules/_risingwave.py:245-249 | The loop returning in its first round gives `FirstOrNone` |
| Risingwave.OneOrNoneLoop | rctl/modules/_risingwave.py:251-256 | The counting loop gives `OneOrNone` |
| Risingwave.LastOrNoneLoop | rctl/modules/_risingwave.py:258-262 | The loop that keeps the latest row gives `LastOrNone` |
| Transformer.PairsOf | rctl2/transformer.py:5-6 | A list converts to key/value pairs exactly when every item is a pair, and keeps them in order |
| Transformer.DictOf | rctl2/transformer.py:5-6 | `dict(items)` succeeds exactly when every item is a pair; otherwise `TypeError` |
| Transformer.PairsOfKeys | rctl2/transformer.py:5-6 | The keys of the pairs are the items' names, and a key's last pair gives its value |
| Transformer.StartSpec | rctl2/transformer.py:5-6 | The root dict has each name once, in first-appearance order, with the value of its last occurrence |
| Transformer.Start | rctl2/transformer.py:5-6 | `start` succeeds exactly when `dict(items)` does, and yields that dict |
| Transformer.Node | rctl2/transformer.py:14-54 | Declaration nodes have the keys `kind`, `type`, `attr` and a final body key, in that order, and `attr` holds the annotation it was given |
| Transformer.WithAttr | rctl2/transformer.py:15-16 | `assignment` prepends an empty attribute dict exactly when the first item is not one |
| Transformer.Assignment | rctl2/transformer.py:14-36 | An empty item list is `IndexError`; lengths other than 4 or 5 raise. Four items make a `variable` of type `default`; five items take kind and type from the type expression, lower-cased. The attribute is always a dict |
| Transformer.VariableStatement | rctl2/transformer.py:8-36 | A `name = value` statement, transformed bottom-up through `identifier`, `atom`, `assignment` and `statement`, is the pair of the name and a `variable` node of type `default` with `{}` as annotation |
| Transformer.AssignedNames | rctl2/transformer.py:5-36 | The names of a run of variable statements are the assigned names, in order |
| Transformer.AssignedLast | rctl2/transformer.py:5-36 | The node a run of variable statements keeps for a name is that of its last assignment |
| Transformer.DocumentOfVariables | rctl2/transformer.py:5-36 | A document of variable statements is a dict with each assigned name once, in order of first assignment, holding the node of its last assignment |
| Transformer.Attr | rctl2/transformer.py:38-42 | An attribute is the first item, or `{}` when there is none |
| Transformer.Object | rctl2/transformer.py:72-73 | An object succeeds exactly when every item is a pair, and keeps each key's last value |
| Transformer.ObjectOfPairs | rctl2/transformer.py:72-86 | An object built from `pair` rules succeeds, has each key once, and holds under each key the value written last for it |
| Transformer.LastNodeWritten | rctl2/transformer.py:75-86 | The pairs that `pair` builds are pairs, and the last one for a key carries the value written last for it |
| Transformer.GroupBlock | rctl2/transformer.py:44-54 | A group needs 3 or 4 items (else `ValueError`); without attributes its `attr` is `{}`; its body is the dict of the block's pairs |
| Transformer.GroupOfBlock | rctl2/transformer.py:44-60 | A group over a block of statements is keyed by its identifier, has `{}` as annotation, and its body holds each statement name once, in first-appearance order, with its last statement's node |
| Transformer.GroupType | rctl2/transformer.py:56-57 | A group type is its text token, or "" when there is none |
| Transformer.TypeExpr | rctl2/transformer.py:62-70 | A type expression has one or two items; a missing type argument defaults to `default` |
| Transformer.StringToken | rctl2/transformer.py:94-95 | A string token loses its leading and trailing double quotes and keeps what lies between them |
| Transformer.ParseInt | rctl2/transformer.py:97-98 | `int` succeeds exactly on an optionally signed run of digits, and is `ValueError` otherwise; the result is negative only when the text starts with "-", and non-negative otherwise |
| Transformer.Decimal | rctl2/transformer.py:97-98 | A decimal rendering is a non-empty string of digits |
| Transformer.DecimalDigits | rctl2/transformer.py:97-98 | A decimal rendering reads back as its number |
| Transformer.ParseDecimal | rctl2/transformer.py:97-98 | `int` of a signed decimal rendering gives back the integer |
| Transformer.ParseNatural | rctl2/transformer.py:97-98 | `int` of the decimal rendering of a natural number gives that number back |
| Transformer.ParseNegative | rctl2/transformer.py:97-98 | `int` of "-" followed by a decimal rendering gives the negated number |
| Transformer.SignedNumber | rctl2/transformer.py:97-98 | A number is a float exactly when its text has ".", "e" or "E", and otherwise the integer it spells |
| Paths.Keep | rctl2/filesystems/utils.py:28 | The kept segments are neither empty nor ".", and come from the input |
| Paths.KeepAppend | rctl2/filesystems/utils.py:28 | Filtering segments distributes over concatenation |
| Paths.CollapseSegments | rctl2/filesystems/utils.py:27 | Collapsing runs of "/" changes no non-empty segment |
| Paths.CollapseKeep | rctl2/filesystems/utils.py:27-28 | After filtering, collapsing slashes makes no difference |
| Paths.NormalizeKeepsSegments | rctl2/filesystems/utils.py:24-29 | `Paths.NormalizePath`, the model of `normalize_path`, is exactly the non-empty, non-"." segments of the path, in order and unchanged, joined by "/" |
| Paths.LStripKeep | rctl2/filesystems/utils.py:26-28 | After filtering, stripping leading slashes makes no difference |
| Paths.RStripKeep | rctl2/filesystems/utils.py:26-28 | After filtering, stripping trailing slashes makes no difference |
| Paths.KeptSegmentsSlashFree | rctl2/filesystems/utils.py:28 | No kept segment holds a "/" |
| Paths.KeepNormal | rctl2/filesystems/utils.py:28 | Filtering leaves already-normal segments alone |
| Paths.NormalizedSegments | rctl2/filesystems/utils.py:24-29 | A normalised path splits back into exactly its kept segments, which are normal |
| Paths.NormalizedEmpty | tests/test_filesystems/test_utils.py:4-17 | A path without real segments ("", "/", ".") normalises to "" |
| Paths.NormalizeIdempotent | rctl2/filesystems/utils.py:24-29 | Normalising twice is normalising once |
| Paths.NormalizedHasNoOuterSlash | rctl2/filesystems/utils.py:26 | A normalised path neither starts nor ends with "/" |
| Paths.RFind | rctl2/filesystems/utils.py:19 | The last occurrence of a character, or -1 |
| Paths.ExtractExt | rctl2/filesystems/utils.py:18-21 | An extension has no "." and no "/", and when non-empty is what follows the last "." of the path |
| Paths.ExtractExtOfName | rctl2/filesystems/utils.py:18-21 | The extension of `dir/name.ext` is `ext` |
| Paths.ExtractExtOfDotFile | rctl2/filesystems/utils.py:18-21 | A dot file without a further dot has no extension |
| DictFs.SourceDict.Put | rctl2/filesystems/_dict.py:9-13 | Writing into the source dict sets that key |
| DictFs.New | rctl2/filesystems/_dict.py:9-13 | `cache=True` snapshots the source dict; otherwise the filesystem reads the live dict |
| DictFs.InfoOf | rctl2/filesystems/_dict.py:15-19 | `info` succeeds exactly for a stored key and describes it as a file; otherwise `FileNotFoundError` |
| DictFs.Details | rctl2/filesystems/_dict.py:24-31 | Detailed listings are file records of the keys, in order |
| DictFs.Names | rctl2/filesystems/_dict.py:24-31 | Plain listings are the keys, in order |
| DictFs.Ls | rctl2/filesystems/_dict.py:24-31 | The root lists every key in insertion order, as records or names; any other path lists nothing |
| DictFs.LsAgreesWithInfo | rctl2/filesystems/_dict.py:15-31 | Each listed record is what `info` says of that name |
| DictFs.Find | rctl2/filesystems/_dict.py:33-37 | `find` at the root is `ls` at the root; elsewhere it finds nothing |
| DictFs.Open | rctl2/filesystems/_dict.py:39-55 | Only modes "r" and "rb" are accepted (else `ValueError`). A missing key is `FileNotFoundError`; otherwise the stored text is returned, as text or as UTF-8 bytes |
| DictFs.OpenIffExists | rctl2/filesystems/_dict.py:21-55 | Opening for reading succeeds exactly when `exists` (`DictFs.Exists`: the path is a key of the data) holds, and so exactly when `info` succeeds |
| DictFs.PutAfterBuild | rctl2/filesystems/_dict.py:9-13 | After a write into the source dict, a cached filesystem still shows the old data while a live one shows the write |
| Vault.ExcludeNone | rctl2/filesystems/_vault.py:116-117 | `exclude_none` keeps exactly the entries whose value is not `None` |
| Vault.ExcludeNoneAppend | rctl2/filesystems/_vault.py:116-117 | Dropping `None` entries distributes over concatenation |
| Vault.ExcludeNoneKeepsAll | rctl2/filesystems/_vault.py:116-117 | A dict without `None` values is kept as it is |
| Vault.ChooseClient | rctl2/filesystems/_vault.py:186-209 | Passing a client together with any non-`None` connection argument is `ValueError`. A given client is used as is; otherwise a client is built from the non-`None` arguments |
| Vault.ClientWithUrlRefused | rctl2/filesystems/_vault.py:186-209 | A client together with a URL is refused |
| Vault.SecretData | rctl2/filesystems/_vault.py:357-370 | Written content that parses as JSON becomes the parsed value; other text becomes `{"value": text}` |
| Vault.StoredSecret | rctl2/filesystems/_vault.py:357-374 | The KV version 2 engine takes the secret exactly when it is a map: text that is not JSON, or JSON of an object. Any other JSON value is `InvalidRequest` |
| Vault.SecretDataOfJson | rctl2/filesystems/_vault.py:357-374 | Writing the JSON text of a value stores that value, and the engine accepts it exactly when it is a map |
| Vault.InfoDir | rctl2/filesystems/_vault.py:444-447 | A directory record is the path without outer slashes plus one trailing "/", typed `dir`, with no size |
| Vault.InfoDirIdempotent | rctl2/filesystems/_vault.py:444-447 | Describing a directory record's own name gives the same record |
| Vault.ParseMode | rctl2/filesystems/_vault.py:554-557 | Exactly "r", "rb", "w" and "wb" are accepted (else `ValueError`); "b" marks binary modes |
| Vault.Append | rctl2/filesystems/_vault.py:49 | Writing into a buffer adds the data's length |
| Vault.Slice | rctl2/filesystems/_vault.py:66 | Reading from a buffer yields no more than what lies after the position |
| Vault.VaultFileSystem.constructor | rctl2/filesystems/_vault.py:125-212 | A new Vault filesystem sees the secrets its mount point already holds |
| Vault.VaultFileSystem.WriteSecret | rctl2/filesystems/_vault.py:357-374 | A secret the engine takes is added as a new version holding its `SecretData`, which becomes the current value. One it refuses is `InvalidRequest` and changes nothing |
| Vault.VaultFileSystem.Rm | rctl2/filesystems/_vault.py:478-522 | `rm` with `recursive` raises `NotImplementedError` and changes nothing. Otherwise it deletes every version at the normalised path, which then no longer exists (`Vault.VaultFileSystem.Exists`: the normalised path holds a secret) |
| Vault.VaultFileSystem.Open | rctl2/filesystems/_vault.py:524-574 | Unsupported modes are `ValueError`. Reading a missing secret is `FileNotFoundError`; reading an existing one gives its JSON text (as UTF-8 bytes for "rb"). Writing modes return a fresh open writer for the path |
| Vault.VaultWriteIO.constructor | rctl2/filesystems/_vault.py:16-32 | A new writer is open, with an empty text buffer |
| Vault.VaultWriteIO.Write | rctl2/filesystems/_vault.py:34-49 | Writing to a closed writer is `ValueError`. Data of the other kind than the buffer is `TypeError`; otherwise it is appended and its length returned |
| Vault.VaultWriteIO.Read | rctl2/filesystems/_vault.py:51-66 | Reading from a closed writer is `ValueError`; an open writer's buffer sits at its end, so nothing is read |
| Vault.VaultWriteIO.Flush | rctl2/filesystems/_vault.py:68-72 | Flushing fails exactly on a closed writer |
| Vault.VaultWriteIO.Close | rctl2/filesystems/_vault.py:74-89 | The first close marks the writer closed and writes the buffer out as `WriteSecret` does: one new version, or `InvalidRequest` with nothing written. Closing again changes nothing |
| Vault.WriteAndCloseTwice | tests/test_filesystems/test_vault.py:218-238 | Writing a text through a "w" or "wb" writer and closing it twice writes it at most once. The first close adds one version holding the text's secret data exactly when that is a map, and otherwise raises `InvalidRequest`; the second close succeeds and changes nothing |
| Stores.ItemsFrom | rctl2/fsstore.py:91-104 | No value `items` yields is a dict |
| Stores.ItemsSound | rctl2/fsstore.py:91-104 | Every yielded pair is a leaf of the tree, listed under the "/"-joined keys of the path that reaches it. The paths are given one per item, in order |
| Stores.ItemsComplete | rctl2/fsstore.py:91-104 | Every leaf of the tree is yielded, under the "/"-joined keys of its path |
| Stores.ItemsAreLeafPaths | rctl2/fsstore.py:91-104 | `Stores.Items` (`items()` of the whole dict) lists a pair exactly when its value is a leaf of the dict and its key is the "/"-joined path of keys reaching that leaf |
| Stores.ItemsOfFlat | rctl2/fsstore.py:91-104 | A dict without nested dicts yields exactly its own entries, keys joined under the parent |
| Stores.EmptyDictNoItems | rctl2/fsstore.py:91-104 | An empty nested dict contributes nothing |
| Stores.ItemsShift | rctl2/fsstore.py:91-104 | Iterating from position n is iterating the rest of the dict |
| Stores.ItemsShiftFrom | rctl2/fsstore.py:91-104 | Iterating from position n + i is iterating the rest from i |
| Stores.NestedItem | rctl2/kvstores/dictstore.py:17-30 | Example: the dict `{a: {b: x}}` lists exactly the one pair `("a/b", x)` |
| Stores.KvKeys | rctl2/fsstore.py:85-86 | `keys` are the keys of `items`, in order |
| Stores.KvValues | rctl2/fsstore.py:88-89 | `values` are the values of `items`, in order |
| Stores.FirstMatch | rctl2/fsstore.py:106-114 | The search finds a path exactly when some item has it, and returns the value of its first occurrence |
| Stores.SearchGet | rctl2/fsstore.py:106-114 | `get` returns the first match; a missing path gives the default when one is given and `KeyError` otherwise |
| Stores.NewKvStore | rctl2/fsstore.py:79-83 | The store accepts exactly a dict, keeping it as is |
| Stores.KvGet | rctl2/kvstores/dictstore.py:32-40 | `get` searches the leaves `items` lists |
| Stores.KvGetTopLevel | rctl2/kvstores/dictstore.py:32-40 | A top-level leaf is found by its own key |
| Stores.FlattenFrom | rctl2/fsstore.py:43-49 | `flatten` yields only leaves |
| Stores.FlattenKeysAreLeafKeys | rctl2/fsstore.py:43-49 | With no parent, every flattened pair is a leaf of the tree listed under the last key of the path that reaches it, not the joined path |
| Stores.FlattenListsEveryLeaf | rctl2/fsstore.py:43-49 | With no parent, every leaf of the tree is flattened, under the last key of its path |
| Stores.FlattenDropsParent | rctl2/fsstore.py:43-49 | `flatten` drops the parent's name, while `DictKVStore.items` keeps it |
| Stores.NormalizeKeys | rctl2/fsstore.py:52-54 | `normalize_keys` normalises every key and keeps the values and the order |
| Stores.NewDictStore | rctl2/fsstore.py:57-62 | `DictStore` accepts exactly a dict |
| Stores.DictStoreKeys | rctl2/fsstore.py:43-62 | A `DictStore` has each key once; every key is already normalised and every value is a leaf. Its keys are the normalised keys of the flattened dict, deduplicated, and each holds the last value normalised to it |
| Stores.NewFileStore | rctl2/fsstore.py:118-124 | A file store accepts exactly a `DirFileSystem` (else `RuntimeError`) |
| Stores.CreateFileStore | rctl2/fsstore.py:126-141 | `create` is not implemented |
| Stores.FileLoad | rctl2/fsstore.py:146-148 | `load` hands a file's text to the loader; opening a directory is `IsADirectoryError`, and a path that does not exist is `FileNotFoundError` |
| Stores.FileKeys | rctl2/fsstore.py:154-168 | `keys` lists every file once, in the filesystem's order, and nothing else: a path is listed exactly when it is a file. A path exists (`Stores.FileExists`, `exists`) exactly when it is listed or is a directory |
| Stores.DirectoryExistsUnlisted | rctl2/fsstore.py:146-177 | A directory exists (`Stores.FileExists`) but is never a key, and `load` and `get` of it raise `IsADirectoryError` whatever the default |
| Stores.LoadAll | rctl2/fsstore.py:162-165 | Loading every listed file keeps the keys in order with their loaded values, or raises the first failing load |
| Stores.FileItems | rctl2/fsstore.py:162-165 | `items` pairs each listed file with its loaded value |
| Stores.FileItemsAgreeGet | rctl2/fsstore.py:154-173 | When every file loads, each pair of `items` is what `get` answers for its path |
| Stores.FileValues | rctl2/fsstore.py:158-160 | `values` are the values of `items`, failing where it fails |
| Stores.FileGet | rctl2/fsstore.py:170-177 | `get` loads any path that exists, so a directory raises `IsADirectoryError`; a missing path gives the default when one is given and `KeyError` otherwise |
| Stores.RenameKeys | rctl2/fsstore.py:179-181 | Each key has "/" replaced by the separator and is then renamed |
| Stores.FileToDict | rctl2/fsstore.py:179-181 | `to_dict` is the dict of the renamed items |
| Stores.FileToDictDefault | rctl2/kvstores/stores/fsstore.py:55-57 | With the default separator and no renaming, `to_dict` has the listed keys, each once |
| Stores.EnvOpen | rctl2/kvstores/stores/envstore.py:12-14 | `open` gives the variable's text; a missing variable is `KeyError` |
| Stores.EnvLoad | rctl2/kvstores/stores/envstore.py:16-18 | `load` hands the variable's text to the serializer |
| Stores.EnvDump | rctl2/kvstores/stores/envstore.py:20-21 | `dump` is not implemented |
| Stores.EnvGet | rctl2/kvstores/stores/envstore.py:23-33 | `get` loads an existing variable; a missing one gives the default when one is given and `KeyError` otherwise |
| Stores.EnvKeys | rctl2/kvstores/stores/envstore.py:35-36 | `keys` are the variable names in order |
| Stores.EnvItems | rctl2/kvstores/stores/envstore.py:42-44 | `items` succeeds only when every name is one character long; then it lists each name with its loaded value |
| Stores.EnvItemsOf | rctl2/kvstores/stores/envstore.py:42-44 | The loop over the names loads each from the environment, and fails on any name that is not one character long |
| Stores.EnvValues | rctl2/kvstores/stores/envstore.py:38-40 | `values` are the loaded values in order, failing where `items` does |
| Stores.EnvItemsIntended | rctl2/kvstores/stores/envstore.py:42-44 | Iterating the names themselves, `items` pairs every name with its loaded value, or raises the first failing load |
| Stores.EnvItemsAgree | rctl2/kvstores/stores/envstore.py:42-44 | Where every name is one character long, `items` as written and as intended agree |
| Stores.EnvItemsRejectsPath | rctl2/kvstores/stores/envstore.py:42-44 | With the single variable `PATH`, `items` as written raises `ValueError`, while the intended form lists it |
| EnvKv.ErrorTruth | rctl/kv_store/__init__.py:5-7 | The store's `Error` is always falsy |
| EnvKv.KvStoreFor | rctl/kv_store/__init__.py:20-28 | `kvstore` raises `NotImplementedError` for every protocol |
| EnvKv.Prefix | rctl/kv_store/__init__.py:32-41 | The normalised prefix has no "/", is empty exactly when the given prefix is, and otherwise ends in "_" |
| EnvKv.ReplaceLength | rctl/kv_store/__init__.py:48 | Replacing "/" by "_" keeps the length |
| EnvKv.VarName | rctl/kv_store/__init__.py:48 | Variable names start with the prefix |
| EnvKv.SlashAndUnderscoreCollide | rctl/kv_store/__init__.py:48-52 | The keys "a/b" and "a_b" map to the same variable |
| EnvKv.Refusal | rctl/kv_store/__init__.py:51-54 | The environment refuses a name exactly when it is empty or holds "=" or NUL. The empty name is an `OSError` (from `setenv`); a name with "=" or NUL is a `ValueError` |
| EnvKv.EmptyNameRefusedByOS | rctl/kv_store/__init__.py:32-54 | The variable name is empty, and so an `OSError`, exactly when both the prefix and the key are empty |
| EnvKv.EqualsInKeyRefused | rctl/kv_store/__init__.py:51-54 | A key holding "=" names a variable the environment refuses, whatever the prefix |
| EnvKv.ToJson | rctl/kv_store/__init__.py:13-17 | A missing or empty text is `None`; otherwise the text is parsed as JSON, and unparsable text is `ValueError` |
| EnvKv.Environment.constructor | rctl/kv_store/__init__.py:32-41 | The environment holds the given variables |
| EnvKv.LocalEnvKVStore.Get | rctl/kv_store/__init__.py:47-49 | `get` parses the prefixed variable's text |
| EnvKv.LocalEnvKVStore.Set | rctl/kv_store/__init__.py:51-54 | `set` writes the JSON text of the value under the prefixed name and changes nothing else. A refused name raises its refusal and changes nothing: `OSError` exactly when the name is empty, `ValueError` for one holding "=" or NUL |
| EnvKv.LocalEnvKVStore.constructor | rctl/kv_store/__init__.py:32-38 | Construction normalises the prefix |
| EnvKv.NewLocalEnvKVStore | rctl/kv_store/__init__.py:32-41 | Construction sets the given variables in order up to the first refused name. It succeeds exactly when no name is refused; otherwise it raises the refusal of that name, and the variables set before stay set |
| EnvKv.FirstIllegal | rctl/kv_store/__init__.py:40-41 | The first variable whose name is refused, or the count when none is; every earlier name is accepted |
| EnvKv.LocalEnvKVStore.Keys | rctl/kv_store/__init__.py:56-61 | `keys` are the variables whose name contains the prefix anywhere |
| EnvKv.LocalEnvKVStore.Items | rctl/kv_store/__init__.py:63-65 | `items` are all the environment's variables, whatever the prefix |
| EnvKv.LocalEnvKVStore.Dump | rctl/kv_store/__init__.py:67-72 | `dump` has exactly the keys `type`, `prefix` and `variables`, holding the prefix and every variable's text |
| EnvKv.Matching | rctl/kv_store/__init__.py:56-61 | The names kept are exactly those containing the prefix |
| EnvKv.Texts | rctl/kv_store/__init__.py:71 | The variables are listed as strings, in order |
| EnvKv.SetAllSnoc | rctl/kv_store/__init__.py:40-41 | Setting one more variable after the others sets it last |
| EnvKv.SetThenGet | rctl/kv_store/__init__.py:47-54 | A value set and read back is the same value; only a refused name stops it, with its refusal |
| EnvKv.EmptyPrefixKeysAll | rctl/kv_store/__init__.py:56-61 | With no prefix, `keys` lists every variable |
| EnvKv.InnerPrefixMatches | rctl/kv_store/__init__.py:60 | The prefix test is containment, so a name with the prefix in its middle also matches |
| TemplateFunctions.Lookup | rctl2/envirnoment/functions.py:14-35 | A present key gives its value; a missing key gives the default when one is given and `KeyError` otherwise |
| TemplateFunctions.Env | rctl2/envirnoment/functions.py:14-21 | `env` answers the JSON text of the environment lookup, failing as it does |
| TemplateFunctions.Val | rctl2/envirnoment/functions.py:23-28 | `val` is the lookup in the value store |
| TemplateFunctions.Secret | rctl2/envirnoment/functions.py:30-35 | `secret` is the lookup in the secret store |
| TemplateFunctions.EnvDecodes | rctl2/envirnoment/functions.py:14-21 | Decoding what `env` answers gives back the stored value |
| TemplateFunctions.DefaultOnlyWhenMissing | rctl2/envirnoment/functions.py:14-35 | A default, even `None`, is used only for a missing key |
| TemplateFunctions.ToDict | rctl2/envirnoment/functions.py:37-38 | `to_dict` exposes exactly `env`, `val` and `secret` |
| Api.OkResult | rctl2/api.py:10-12 | `ok(msg)` is truthy with flag 1 and keeps the message |
| Api.ErrResult | rctl2/api.py:14-16 | `err(msg)` is falsy with flag 0 and keeps the message |
| Api.Create | rctl2/api.py:18-24 | `create` keeps the flag as given and is truthy exactly when the flag is; a truthy flag drops the message |
| Api.CreateKeepsBool | rctl2/api.py:18-24 | `create(True, m)` keeps the bool `True` as its flag and drops the message. It equals `ok()` under Python's `==` (`True == 1`) but differs in the stored flag. `create(False, m)` keeps `False` and the message, and equals `err(m)` under `==` |
| Api.CreateMatchesOkErr | rctl2/api.py:10-24 | Under Python's `==`, `create` with a flag equal to 1 is `ok()`, with a flag equal to 0 is `err(msg)`, and with any other flag is neither |
| Api.Dispatch | rctl2/api.py:29-38 | Exactly one handler runs, chosen by truthiness, on the message; an exception it returns is raised, anything else returned |
| Api.DispatchPicksHandler | rctl2/api.py:29-38 | `ok` results go to `on_ok` and `err` results to `on_err` |
| Serializers.MatchWild | rctl2/serializers/abc.py:12-19 | The rctl2 serializer matches an extension it lists, or any extension when it lists "*", and returns itself |
| Serializers.MatchExact | rctl2/kvstores/serializers/abc.py:12-16 | The kvstores serializer matches only an extension it lists |
| Serializers.MatchExamples | rctl2/serializers/basics.py:91-99 | The abstract serializer matches nothing; the null serializer ("*") matches everything, but exactly only "*" |
| Serializers.BaseLoad | rctl2/serializers/abc.py:4-10 | The base `load` is not implemented |
| Serializers.BaseDump | rctl2/kvstores/serializers.py:8-14 | The base `dump` is not implemented |
| Serializers.Claim | rctl2/serializers/basics.py:16-17 | Registering a serializer points each of its extensions at it and keeps every other entry |
| Serializers.FirstWinsSpec | rctl2/serializers/basics.py:12-18 | An extension is indexed exactly when some serializer lists it, and it goes to the first serializer that lists it |
| Serializers.LastWinsSpec | rctl2/kvstores/serializers.py:27-33 | An extension is indexed exactly when some serializer lists it, and it goes to the last serializer that lists it |
| Serializers.SharedExtension | rctl2/kvstores/serializers/basics.py:10-16 | The two index builders differ on a shared extension: one keeps the first, the other the last |
| Serializers.ClaimAll | rctl2/serializers/basics.py:16-17 | The inner loop registers every extension of one serializer |
| Serializers.FromSerializersFirstWins | rctl2/serializers/basics.py:12-18 | The reversed nested loop builds the first-wins index |
| Serializers.FromSerializersLastWins | rctl2/kvstores/serializers.py:27-33 | The forward loop builds the last-wins index |
| Serializers.MultiMatchWild | rctl2/serializers/basics.py:20-25 | The multi-serializer returns the extension's serializer, else the "*" one, else nothing |
| Serializers.MultiMatchExact | rctl2/kvstores/serializers.py:35-36 | The kvstores multi-serializer returns the extension's serializer only |
| Serializers.CatchAllMatchesEverything | rctl2/serializers/basics.py:20-25 | With the null serializer registered, every extension finds a serializer |
| Serializers.ByExt | rctl2/kvstores/serializers.py:38-50 | `load_by_ext`/`dump_by_ext` raise `NotImplementedError` for an unknown extension and delegate otherwise |
| Serializers.AsText | rctl2/serializers/basics.py:43-64 | Text stays text; UTF-8 bytes are decoded; anything else is `ValueError` |
| Serializers.AsBytes | rctl2/serializers/basics.py:67-88 | Text is UTF-8 encoded; bytes stay bytes; anything else is `ValueError` |
| Serializers.BytesThenText | rctl2/serializers/basics.py:43-88 | Text turned into bytes and back is the same text |
| Serializers.TextIsBytesOfText | rctl2/serializers/basics.py:43-88 | Reading text, or the UTF-8 bytes of that text, gives the same result |
| Scanner.AnyMatch | rctl/scanner.py:42-44 | `any(fnmatch(...))` holds exactly when some pattern matches |
| Scanner.ShouldIncludeMeaning | rctl/scanner.py:38-46 | A path is included exactly when no exclude pattern matches it and, if include patterns are given, one of them matches; an exclude match always wins |
| Scanner.IncludedFiles | rctl/scanner.py:59-61 | Every file a directory contributes passes the filter |
| Scanner.SubDirs | rctl/scanner.py:62-63 | The subdirectories collected are directories |
| Scanner.Kept | rctl/scanner.py:92-95 | Every path kept passes the filter |
| Scanner.BfsScan | rctl/scanner.py:49-68 | The queue loop yields the breadth-first order: each directory's included files sorted, with subdirectories queued sorted. A root that is not a directory raises `OSError` |
| Scanner.ScanDir | rctl/scanner.py:56-63 | One `scandir` pass separates the included files from the subdirectories, in listing order |
| Scanner.DfsScan | rctl/scanner.py:71-83 | The stack loop yields the depth-first order: each directory's included files in listing order, with the last pushed subdirectory visited next. A root that is not a directory raises `OSError` |
| Scanner.VisitDir | rctl/scanner.py:78-83 | One directory visit appends its included files to the output and its subdirectories to the stack |
| Scanner.SortedScan | rctl/scanner.py:86-96 | The by-name scan is the walk's included paths, sorted |
| Scanner.WalkFilter | rctl/scanner.py:90-95 | The `os.walk` loop collects exactly the walk's included paths, in walk order |
| Scanner.KeepIncluded | rctl/scanner.py:92-95 | The inner loop appends the included names of one directory |
| Scanner.Keyed | rctl/scanner.py:108-109 | Each path is keyed by its negated mtime |
| Scanner.PathsOf | rctl/scanner.py:112-113 | Popping yields the path of each entry, in order |
| Scanner.HeapMin | rctl/scanner.py:112 | `heappop` takes a least entry |
| Scanner.MtimeScan | rctl/scanner.py:99-113 | The mtime scan yields the walk's included paths in the order of their `(-mtime, path)` keys |
| Scanner.PopAll | rctl/scanner.py:111-113 | Popping the heap to empty yields the entries in sorted order |
| Scanner.PopSorted | rctl/scanner.py:111-113 | Each pop extends the sorted prefix |
| Scanner.PopBelow | rctl/scanner.py:111-113 | Every popped entry stays below every entry still in the heap |
| Scanner.ScanFiles | rctl/scanner.py:7-35 | An unknown strategy is `ValueError`. `bfs` and `bfs_name` are the breadth-first order and `dfs` the depth-first one; both raise `OSError` for a root that is not a directory. `name` is the sorted walk and `mtime` the newest-first walk; neither raises |
| Scanner.BfsFindsEveryFile | rctl/scanner.py:49-68 | The breadth-first scan yields every included regular file of the tree exactly once |
| Scanner.DfsFindsEveryFile | rctl/scanner.py:71-83 | The depth-first scan yields every included regular file of the tree exactly once |
| Scanner.NameOrderSortedPermutation | rctl/scanner.py:86-96 | The by-name scan is sorted and yields every included non-directory entry exactly once |
| Scanner.NameOrderSortsBfs | rctl/scanner.py:22-31 | On a tree of plain files and directories, sorting the breadth-first scan gives the by-name scan |
| Scanner.MtimeNewestFirst | rctl/scanner.py:99-113 | The mtime scan yields every walked path once, newest first, with equal mtimes in name order |
| Scanner.SumSizeSort | rctl/scanner.py:68 | Sorting the queued directories does not change how much is left to scan |
| Scanner.BfsStep | rctl/scanner.py:54-68 | Each round of the breadth-first loop strictly shrinks what is left to scan |
| Scanner.DfsStep | rctl/scanner.py:76-83 | Each round of the depth-first loop strictly shrinks what is left to scan |
| Scanner.BfsFiles | rctl/scanner.py:54-68 | The breadth-first order from any queue yields the included files of the queued trees |
| Scanner.DfsFiles | rctl/scanner.py:76-83 | The depth-first order from any stack yields the included files of the stacked trees |
| Scanner.WalkFiles | rctl/scanner.py:91-95 | The walk's included paths are the included non-directory entries of the tree |
| Scanner.EntryLeOrder | rctl/scanner.py:109-112 | The `(-mtime, path)` key order is total, transitive and antisymmetric |
| Sorting.SortPermutes | rctl/scanner.py:65 | `sorted` returns a permutation of its input |
| Sorting.SortSorted | rctl/scanner.py:65 | `sorted` returns its input in order |
| Sorting.SortedUnique | rctl/scanner.py:96 | Under an antisymmetric order only one ordering is sorted, so the sorted result is determined by its contents |
| Sorting.StrLeOrder | rctl/scanner.py:96 | Python's string order is total, transitive and antisymmetric |

## Left out

- Backends are abstract state; real I/O in fsspec, boto3, psycopg2, hvac and `os.scandir`/`os.walk` is not modelled. Neither are connections, authentication, retries or backend failures other than the error kinds named above.
- `time.sleep(wait_time)` in `created`/`deleted` is a no-op, and `get_default_wait_time` (a float) is not modelled.
- The trace hook that prints each record is modelled as the returned sequence of records. Traceback text is a parameter (`tb`), since `traceback.format_exc()` depends on the interpreter.
- The `isinstance(resource, Operator)` check of `ResourceController` and the tuple check in `execute_generator` are not modelled. Every backend in the model is an operator, and no capability is a tuple.
- The `*_or_raise` helpers of `Executable` (src/base.py:105-138) unpack a bare bool and always fail; they are left out.
- `src/modules/__init__.py` is not part of this model. The src registry's `fsspec` entry is taken to be the root operator of `src/modules/file.py`.
- Manifest.OperatorBackend: module params that are not all strings make every file and directory capability fail. This approximates the `TypeError` Python raises on the first unexpected argument.
- `StepDataExtension.from_file` opens a file; only `from_stream` on the already parsed document is modelled.
- SQL text rendering through `psycopg2.sql` is not modelled:
  - `format_value`, `compile_with`, `compile_create_*` and `compile_drop` in the RisingWave module;
  - the statement text in the psycopg2 operator.
  Statements are values (`CREATE SCHEMA`/`DROP SCHEMA` of a name). The query result is the server's answer. The database connector's `str.format` text is modelled only as far as the server's refusal of it (see Findings): DbConnector.AdapterChangeAsWritten answers a fixed syntax error message without the `LINE 1:` echo that psycopg2 adds.
- The RisingWave per-resource operators (rctl/modules/_risingwave.py:272-338) are left out: their `exists` calls itself. Also left out are `RisingwaveOperator.__init__` (it only stores connection parameters) and `execute` (database I/O). `all` is the row sequence, or the error the query raised.
- `get_conn`, `fetch_scalar`'s cursor handling and `execute` in src/connectors/db.py are modelled only through their results.
- Boto3.CreatePolicy and Boto3.DeletePolicy answer the empty message where the source answers the response dict of `put_bucket_policy`/`delete_bucket_policy`, since that dict is backend metadata.
- `string.Template` substitution is a parameter of the boto3 model, and `fnmatch` is the parameter `matches` of the scanner filter.
- JSON, YAML, TOML and UTF-8 are abstract encode/decode pairs, with the round-trip property assumed as a precondition where a lemma needs it. The Json/Yaml/Toml serializers' `load`/`dump` are these codecs. The pass-through `TextSerializer` and `NullSerializer` load and dump are the identity and have no member.
- The Str/Bytes/Null serializers' `dump` writes into a file object; only the conversion of the payload (`AsText`/`AsBytes`) is modelled.
- `DictStore.from_fs` and `_from_fs` (rctl2/fsstore.py:36-41, 65-69) read a whole filesystem through a serializer and are left out.
- `FileStore.open`/`dump` and `FileHandler.open`/`dump` hand a file object to a loader or dumper that is never given data; they are left out.
- `FileStore` (rctl2/fsstore.py) and `FileHandler` (rctl2/kvstores/stores/fsstore.py) behave the same, with the loader being `serializer.load`; they are modelled once. So are the two identical `DictKVStore` classes (rctl2/fsstore.py:78-114 and rctl2/kvstores/dictstore.py).
- The `.abc` module of `rctl2/kvstores/stores` is not part of this model. Its `Undefined` sentinel is modelled as an absent optional default.
- Generators are modelled as the complete sequence they yield. An error raised while iterating is an error of the whole call, so what a caller sees before the error is not modelled.
- `LocalEnvKVStore.load_from_path` and `load` (rctl/kv_store/__init__.py:74-82) read a file and call the constructor. `get_protocol` is the constant "env" used by `Dump`. `FileKVStore` has no body.
- The REPL and jinja2 rendering in rctl2/envirnoment/functions.py:41-94 are left out.
- The Lark grammar and parser are not part of this model. The transformer works on already built trees, and `SIGNED_NUMBER` keeps only the int/float distinction, not the float's value.
- The Vault filesystem:
  - `rm` of a path without secrets is not an error in the model, because the backend's delete is taken to succeed;
  - `info`, `ls`, `find`, `_read_secret`, `from_client`, `from_url` and authentication are left out, since they are backend queries;
  - `__enter__`/`__exit__` are `Close`.
- The Vault writer's buffer is always a text buffer: the source picks a byte buffer only for mode "rb", which a writer never has. So "wb" writers accept only text.
- Vault.VaultWriteIO.Read does not model a writer's read position beyond its end-of-buffer state, since writes leave it there.
- The scanner:
  - symbolic links and errors raised inside subdirectories (permissions, races) are not modelled;
  - the tree is a value whose entries carry their joined path;
  - modification times are integers rather than floats;
  - the heap's internal layout is not modelled: `heappop` takes a least entry;
  - `mtime_scan` collects the included paths before pushing them, which yields the same order;
  - `bfs_sorted_scan` is the same code as `bfs_scan` and is modelled by `BfsScan`.
- Scanner.ScanFiles: an unknown strategy raises at call time. For `bfs`, `bfs_name` and `dfs`, which call `os.scandir`, the model reports the `OSError` of a non-directory root as the result of the call, whereas the source raises it at first iteration. `name` and `mtime` use `os.walk`, which never raises, and yield nothing for such a root.
- Strings.Lower: lower-cases ASCII letters only, whereas Python's `str.lower` also maps non-ASCII letters (and can change a string's length). The catalog lookup compares against ASCII names, so only a non-ASCII kind could be looked up differently. The transformer's kinds and types and the schema and target names lower-cased into the RisingWave query differ from Python's for text with non-ASCII capitals.
- Transformer.StrOf: `str()` of a child that is not a token (a dict, a list) is an error in the model instead of that value's Python text. The grammar gives `identifier`, `pair` keys and `group_type` only tokens.
- Transformer.ParseInt: does not accept the surrounding whitespace and the `_` digit separators that Python's `int` allows, since a `SIGNED_NUMBER` token never holds them.
- EnvKv.LocalEnvKVStore.Set: the names refused and their errors are those of CPython on a POSIX system (NUL and "=" are `ValueError`, the empty name is the `OSError` of `setenv`); the rules of other platforms (Windows refuses other names) are not modelled.
- Manifest.Validate: a state that is hashable but not a string raises `ValueError` with the message "" instead of `str(state)`, since values other than strings have no text in the model.
- Boto3.ClientErrorMessage: the message omits the ": <server message>" tail botocore appends, since that text comes from the server.
- `Resource`, imported from src/base.py by src/base2.py:2, src/modules/mock.py:1 and src/modules/db.py:1, is not defined there (src/base.py defines `Operator`), so those imports fail with `ImportError` as written. The model reads `Resource` as `Operator`, the evidently intended base class.
- Vault.StoredSecret: only the engine's refusal of a secret that is not a map is modelled; its other checks (check-and-set versions, size limits) are backend behaviour and left out.

## Findings

| source | as written | input that shows it | evidently intended | confidence | as-written member | corrected member |
|---|---|---|---|---|---|---|
| rctl/modules/_boto3.py:78-88 | `safe_get` looks every key up in the outer dict instead of descending | `safe_get({"Error": {"Code": "NoSuchBucketPolicy"}}, "Error", "Code")` reports "Code" missing, so `exists` re-raises every client error | descend one level per key and return the nested value | high, not executed | Boto3.SafeGetMissesErrorCode | Boto3.SafeGetNestedFindsErrorCode |
| rctl/modules/_risingwave.py:74 | the template names `{TALBLE}` but `format` supplies `TABLE` | `compile_exists("table", "t")` raises `KeyError` | the placeholder is `{TABLE}`, giving a query over the kind's catalog table | high, not executed | Risingwave.CompileExistsNeverBuilds | Risingwave.CompileExists |
| src/connectors/db.py:65-97 | the DDL is built with `str.format`, which renders `sql.Identifier(name)` by its repr | `create_schema("s")` sends `CREATE SCHEMA IF NOT EXISTS Identifier('s');`, a syntax error, so no schema is ever created or dropped | compose with `sql.SQL(...).format(...)`, quoting the name as an identifier | high, not executed | DbConnector.CreateSchemaAsWrittenFails | DbConnector.AdapterChange |
| rctl2/fsstore.py:43-49 | `flatten` recurses into a nested dict without passing the joined key as the parent | `DictStore({"a": {"b": 1}})` holds `b` instead of `a/b` | recurse with `flatten(v, key)`, as `DictKVStore.items` joins the path | medium, not executed | Stores.FlattenDropsParent | Stores.ItemsAreLeafPaths |
| rctl2/kvstores/stores/envstore.py:42-44 | `for (k,) in environ.keys()` unpacks each name as a one-element tuple | an environment holding `PATH` makes `items()` raise `ValueError` | iterate the names themselves, `for k in environ.keys()` | high, not executed | Stores.EnvItemsRejectsPath | Stores.EnvItemsIntended |
| rctl/modules/_risingwave.py:251-256 | `one_or_none` raises only at row index 2 | two rows `[a, b]` return `b` with no error | raise as soon as a second row (index 1) appears | medium, not executed | Risingwave.OneOrNoneAcceptsTwoRows | Risingwave.OneOrNoneStrict |
