/**
 * The rctl file and directory operators under the engine: the lifecycle
 * `exists`, `absent`, `created`, `exists`, `absent`, `deleted`, `exists`,
 * `absent` on a path inside an existing bucket directory, as the operator
 * tests walk through it, and the fact that `created` followed by `deleted`
 * leaves the filesystem exactly as it was.
 */
module FsScenarios {
  import opened Wrappers
  import opened Strings
  import opened FileSystem
  import opened Engine
  import opened EngineSpec
  import opened Kwargs
  import opened FsOperators

  /** The step parameters of the scenario: a bucket directory and a path inside it. */
  function Params2(bucket: string, path: string): Params {
    map["bucket" := bucket, "path" := path]
  }

  /** A file or directory operator resolves `bucket/path` for every capability. */
  lemma RctlTarget(op: FsOp, c: Capability, bucket: string, path: string)
    requires op == RctlFile || op == RctlDir
    requires bucket != "" && path != ""
    ensures TargetPath(op, c, Params2(bucket, path)) == Ok(PosixJoin(bucket, path))
  {
    var params := Params2(bucket, path);
    assert "path" in params && params["path"] == path;
    assert BindOr(params, "bucket", "") == bucket;
    assert PosixJoinAll(bucket, [path]) == PosixJoinAll(PosixJoin(bucket, path), []);
  }

  /** One capability of an operator, seen from the straight-line policy. */
  lemma OperatorCall(op: FsOp, params: Params, tb: string, c: Capability, r: Ref<FsState>)
    requires !r.aborted
    ensures var (st', o) := Invoke(op, params, tb, r.state, c);
            Call1(Operator(op, params, tb), c, r) ==
              Ref(st', r.calls + [c], Some(if o.Returned? then (o.ok, o.msg) else (false, o.err + "\n" + o.tb)), false)
  {
  }

  /** `p` is free, nothing lies below it, and every directory above it exists. */
  predicate FreeDir(st: FsState, p: string) {
    && !Present(st, p)
    && NothingUnder(st, p)
    && (forall a :: a in Ancestors(p) ==> IsDir(st, a) && !IsFile(st, a))
  }

  /** `p` is free, nothing lies below it, and the directory that holds it exists. */
  predicate FreeFile(st: FsState, p: string) {
    && !Present(st, p)
    && NothingUnder(st, p)
    && IsDir(st, Parent(p))
  }

  /** Both probes on a path that holds nothing: `exists` fails, `absent` holds. */
  lemma ProbeMissing(op: FsOp, bucket: string, path: string, tb: string, st: FsState)
    requires op == RctlFile || op == RctlDir
    requires bucket != "" && path != ""
    requires !Present(st, PosixJoin(bucket, path))
    ensures Invoke(op, Params2(bucket, path), tb, st, ExistsCap) == (st, Returned(false, "Not Exists " + PosixJoin(bucket, path)))
    ensures Invoke(op, Params2(bucket, path), tb, st, AbsentCap) == (st, Returned(true, ""))
  {
    RctlTarget(op, ExistsCap, bucket, path);
    RctlTarget(op, AbsentCap, bucket, path);
  }

  /** Both probes once the operator's own kind of entry is at the path: `exists` holds, `absent` fails. */
  lemma ProbePresent(op: FsOp, bucket: string, path: string, tb: string, st: FsState)
    requires op == RctlFile || op == RctlDir
    requires bucket != "" && path != ""
    requires if op == RctlFile then IsFile(st, PosixJoin(bucket, path)) else IsDir(st, PosixJoin(bucket, path))
    ensures Invoke(op, Params2(bucket, path), tb, st, ExistsCap) == (st, Returned(true, ""))
    ensures Invoke(op, Params2(bucket, path), tb, st, AbsentCap) == (st, Returned(false, "Exists " + PosixJoin(bucket, path)))
  {
    RctlTarget(op, ExistsCap, bucket, path);
    RctlTarget(op, AbsentCap, bucket, path);
  }

  /** The answers of `exists` and `absent` on a path that holds nothing. */
  lemma ProbesBefore(op: FsOp, bucket: string, path: string, tb: string, st: FsState)
    requires op == RctlFile || op == RctlDir
    requires bucket != "" && path != ""
    requires !Present(st, PosixJoin(bucket, path))
    ensures var call := Operator(op, Params2(bucket, path), tb);
            && ExecuteResult(Execution(call, Exists, st)) == Ok((Some(false), "Not Exists " + PosixJoin(bucket, path)))
            && ExecuteResult(Execution(call, Absent, st)) == Ok((Some(true), ""))
            && Execution(call, Exists, st).state == st
            && Execution(call, Absent, st).state == st
  {
    var call := Operator(op, Params2(bucket, path), tb);
    ProbeMissing(op, bucket, path, tb, st);
    ProbeOnce(call, Exists, ExistsCap, st, false, "Not Exists " + PosixJoin(bucket, path));
    ProbeOnce(call, Absent, AbsentCap, st, true, "");
  }

  /** The answers of `exists` and `absent` once the operator's own kind of entry is at the path. */
  lemma ProbesAfter(op: FsOp, bucket: string, path: string, tb: string, st: FsState)
    requires op == RctlFile || op == RctlDir
    requires bucket != "" && path != ""
    requires if op == RctlFile then IsFile(st, PosixJoin(bucket, path)) else IsDir(st, PosixJoin(bucket, path))
    ensures var call := Operator(op, Params2(bucket, path), tb);
            && ExecuteResult(Execution(call, Exists, st)) == Ok((Some(true), ""))
            && ExecuteResult(Execution(call, Absent, st)) == Ok((Some(false), "Exists " + PosixJoin(bucket, path)))
            && Execution(call, Exists, st).state == st
            && Execution(call, Absent, st).state == st
  {
    var call := Operator(op, Params2(bucket, path), tb);
    ProbePresent(op, bucket, path, tb, st);
    ProbeOnce(call, Exists, ExistsCap, st, true, "");
    ProbeOnce(call, Absent, AbsentCap, st, false, "Exists " + PosixJoin(bucket, path));
  }

  /** The `create` of the directory operator on a free path adds exactly that directory. */
  lemma DirCreateStep(bucket: string, path: string, tb: string, st: FsState)
    requires bucket != "" && path != ""
    requires FreeDir(st, PosixJoin(bucket, path))
    ensures Invoke(RctlDir, Params2(bucket, path), tb, st, CreateCap) ==
            (FsState(st.files, st.dirs + {PosixJoin(bucket, path)}), Returned(true, ""))
  {
    var p := PosixJoin(bucket, path);
    RctlTarget(RctlDir, CreateCap, bucket, path);
    assert Mkdirs(st, p).Ok?;
    assert ({p} - {""}) == {p};
  }

  /** `created` on a free directory path: one failed probe, `mkdirs`, one successful probe. */
  lemma DirCreated(bucket: string, path: string, tb: string, st: FsState)
    requires bucket != "" && path != ""
    requires FreeDir(st, PosixJoin(bucket, path))
    ensures var p := PosixJoin(bucket, path);
            var run := Execution(Operator(RctlDir, Params2(bucket, path), tb), Created, st);
            && ExecuteResult(run) == Ok((Some(true), ""))
            && run.state == FsState(st.files, st.dirs + {p})
            && LeafCalls(run.trace) == [ExistsCap, CreateCap, ExistsCap]
  {
    var p := PosixJoin(bucket, path);
    var st1 := FsState(st.files, st.dirs + {p});
    ProbeMissing(RctlDir, bucket, path, tb, st);
    DirCreateStep(bucket, path, tb, st);
    ProbePresent(RctlDir, bucket, path, tb, st1);
    ConvergeOnce(Operator(RctlDir, Params2(bucket, path), tb), Created, ExistsCap, CreateCap, st, st1, "");
  }

  /** The `delete` of the directory operator removes a directory made by `create`, and only it. */
  lemma DirDeleteStep(bucket: string, path: string, tb: string, st: FsState)
    requires bucket != "" && path != ""
    requires FreeDir(st, PosixJoin(bucket, path))
    ensures Invoke(RctlDir, Params2(bucket, path), tb, FsState(st.files, st.dirs + {PosixJoin(bucket, path)}), DeleteCap) ==
            (st, Returned(true, ""))
  {
    var p := PosixJoin(bucket, path);
    var st1 := FsState(st.files, st.dirs + {p});
    RctlTarget(RctlDir, DeleteCap, bucket, path);
    assert NothingUnder(st1, p) by {
      assert !StartsWith(p, p + "/");
    }
    assert st1.dirs - {p} == st.dirs;
  }

  /** `deleted` on a directory made by `created`: `rmdir` brings back the state before it. */
  lemma DirDeleted(bucket: string, path: string, tb: string, st: FsState)
    requires bucket != "" && path != ""
    requires FreeDir(st, PosixJoin(bucket, path))
    ensures var p := PosixJoin(bucket, path);
            var run := Execution(Operator(RctlDir, Params2(bucket, path), tb), Deleted, FsState(st.files, st.dirs + {p}));
            && ExecuteResult(run) == Ok((Some(true), ""))
            && run.state == st
            && LeafCalls(run.trace) == [AbsentCap, DeleteCap, AbsentCap]
  {
    var p := PosixJoin(bucket, path);
    var st1 := FsState(st.files, st.dirs + {p});
    ProbePresent(RctlDir, bucket, path, tb, st1);
    DirDeleteStep(bucket, path, tb, st);
    ProbeMissing(RctlDir, bucket, path, tb, st);
    ConvergeOnce(Operator(RctlDir, Params2(bucket, path), tb), Deleted, AbsentCap, DeleteCap, st1, st, "");
  }

  /** The `create` of the file operator on a free path writes an empty file there and nothing else. */
  lemma FileCreateStep(bucket: string, path: string, tb: string, st: FsState)
    requires bucket != "" && path != ""
    requires FreeFile(st, PosixJoin(bucket, path))
    ensures Invoke(RctlFile, Params2(bucket, path), tb, st, CreateCap).0 == FsState(st.files[PosixJoin(bucket, path) := ""], st.dirs)
  {
    RctlTarget(RctlFile, CreateCap, bucket, path);
    assert BindOr(Params2(bucket, path), "content", "") == "";
  }

  /** `created` on a free file path: one failed probe, an exclusive write of "", one successful probe. */
  lemma FileCreated(bucket: string, path: string, tb: string, st: FsState)
    requires bucket != "" && path != ""
    requires FreeFile(st, PosixJoin(bucket, path))
    ensures var p := PosixJoin(bucket, path);
            var run := Execution(Operator(RctlFile, Params2(bucket, path), tb), Created, st);
            && ExecuteResult(run) == Ok((Some(true), ""))
            && run.state == FsState(st.files[p := ""], st.dirs)
            && LeafCalls(run.trace) == [ExistsCap, CreateCap, ExistsCap]
  {
    var p := PosixJoin(bucket, path);
    var st1 := FsState(st.files[p := ""], st.dirs);
    ProbeMissing(RctlFile, bucket, path, tb, st);
    FileCreateStep(bucket, path, tb, st);
    ProbePresent(RctlFile, bucket, path, tb, st1);
    ConvergeOnce(Operator(RctlFile, Params2(bucket, path), tb), Created, ExistsCap, CreateCap, st, st1, "");
  }

  /** The recursive delete of a file made by `created` brings back the state before it. */
  lemma DeleteRestores(st: FsState, p: string, content: string)
    requires !Present(st, p) && NothingUnder(st, p)
    ensures Delete(FsState(st.files[p := content], st.dirs), p) == Ok(st)
  {
    var st1 := FsState(st.files[p := content], st.dirs);
    var r := Delete(st1, p);
    assert r.value.files == st.files by {
      forall f | f in st.files
        ensures f != p && !StartsWith(f, p + "/")
      {
      }
    }
    assert r.value.dirs == st.dirs by {
      forall d | d in st.dirs
        ensures d != p && !StartsWith(d, p + "/")
      {
      }
    }
  }

  /** `deleted` on a file made by `created`: the recursive delete brings back the state before it. */
  lemma FileDeleted(bucket: string, path: string, tb: string, st: FsState)
    requires bucket != "" && path != ""
    requires FreeFile(st, PosixJoin(bucket, path))
    ensures var p := PosixJoin(bucket, path);
            var run := Execution(Operator(RctlFile, Params2(bucket, path), tb), Deleted, FsState(st.files[p := ""], st.dirs));
            && ExecuteResult(run) == Ok((Some(true), ""))
            && run.state == st
            && LeafCalls(run.trace) == [AbsentCap, DeleteCap, AbsentCap]
  {
    var p := PosixJoin(bucket, path);
    var st1 := FsState(st.files[p := ""], st.dirs);
    ProbePresent(RctlFile, bucket, path, tb, st1);
    RctlTarget(RctlFile, DeleteCap, bucket, path);
    DeleteRestores(st, p, "");
    ProbeMissing(RctlFile, bucket, path, tb, st);
    ConvergeOnce(Operator(RctlFile, Params2(bucket, path), tb), Deleted, AbsentCap, DeleteCap, st1, st, "");
  }

  /**
   * The directory lifecycle: before `created` the path is missing, after it
   * the directory is there, after `deleted` the filesystem is back where it
   * started, and every step succeeds exactly where the scenario expects.
   */
  lemma DirLifecycle(bucket: string, path: string, tb: string, st: FsState)
    requires bucket != "" && path != ""
    requires FreeDir(st, PosixJoin(bucket, path))
    ensures var call := Operator(RctlDir, Params2(bucket, path), tb);
            var made := Execution(call, Created, st);
            var gone := Execution(call, Deleted, made.state);
            var p := PosixJoin(bucket, path);
            && ExecuteResult(Execution(call, Exists, st)) == Ok((Some(false), "Not Exists " + p))
            && ExecuteResult(Execution(call, Absent, st)) == Ok((Some(true), ""))
            && ExecuteResult(made) == Ok((Some(true), ""))
            && ExecuteResult(Execution(call, Exists, made.state)) == Ok((Some(true), ""))
            && ExecuteResult(Execution(call, Absent, made.state)) == Ok((Some(false), "Exists " + p))
            && ExecuteResult(gone) == Ok((Some(true), ""))
            && gone.state == st
  {
    var p := PosixJoin(bucket, path);
    ProbesBefore(RctlDir, bucket, path, tb, st);
    DirCreated(bucket, path, tb, st);
    ProbesAfter(RctlDir, bucket, path, tb, FsState(st.files, st.dirs + {p}));
    DirDeleted(bucket, path, tb, st);
  }

  /** The file lifecycle, as for directories: `deleted` undoes `created` exactly. */
  lemma FileLifecycle(bucket: string, path: string, tb: string, st: FsState)
    requires bucket != "" && path != ""
    requires FreeFile(st, PosixJoin(bucket, path))
    ensures var call := Operator(RctlFile, Params2(bucket, path), tb);
            var made := Execution(call, Created, st);
            var gone := Execution(call, Deleted, made.state);
            var p := PosixJoin(bucket, path);
            && ExecuteResult(Execution(call, Exists, st)) == Ok((Some(false), "Not Exists " + p))
            && ExecuteResult(Execution(call, Absent, st)) == Ok((Some(true), ""))
            && ExecuteResult(made) == Ok((Some(true), ""))
            && ExecuteResult(Execution(call, Exists, made.state)) == Ok((Some(true), ""))
            && ExecuteResult(Execution(call, Absent, made.state)) == Ok((Some(false), "Exists " + p))
            && ExecuteResult(gone) == Ok((Some(true), ""))
            && gone.state == st
  {
    var p := PosixJoin(bucket, path);
    ProbesBefore(RctlFile, bucket, path, tb, st);
    FileCreated(bucket, path, tb, st);
    ProbesAfter(RctlFile, bucket, path, tb, FsState(st.files[p := ""], st.dirs));
    FileDeleted(bucket, path, tb, st);
  }

  /** `created` on a directory that is already there probes once and changes nothing. */
  lemma DirCreatedIdempotent(bucket: string, path: string, tb: string, st: FsState)
    requires bucket != "" && path != ""
    requires IsDir(st, PosixJoin(bucket, path))
    ensures var run := Execution(Operator(RctlDir, Params2(bucket, path), tb), Created, st);
            && ExecuteResult(run) == Ok((Some(true), ""))
            && run.state == st
            && LeafCalls(run.trace) == [ExistsCap]
  {
    var call := Operator(RctlDir, Params2(bucket, path), tb);
    RctlTarget(RctlDir, ExistsCap, bucket, path);
    ExecuteFollowsReference(call, Created, st);
    OperatorCall(RctlDir, Params2(bucket, path), tb, ExistsCap, Begin(st));
  }

  /** An empty directory path can never be deleted: the guard raises `RuntimeError` on every attempt. */
  lemma DirDeleteEmptyPathFails(bucket: string, tb: string, st: FsState)
    requires Present(st, PosixJoin(bucket, ""))
    ensures var run := Execution(Operator(RctlDir, Params2(bucket, ""), tb), Deleted, st);
            && ExecuteResult(run).Ok?
            && ExecuteResult(run).value.0 == Some(false)
            && run.state == st
  {
    var params := Params2(bucket, "");
    var call := Operator(RctlDir, params, tb);
    assert "path" in params && params["path"] == "";
    ExecuteFollowsReference(call, Deleted, st);
    var r1 := Call1(call, AbsentCap, Begin(st));
    OperatorCall(RctlDir, params, tb, AbsentCap, Begin(st));
    assert PosixJoinAll(bucket, [""]) == PosixJoinAll(PosixJoin(bucket, ""), []);
    OperatorCall(RctlDir, params, tb, DeleteCap, r1);
    var r2 := Call1(call, DeleteCap, r1);
    OperatorCall(RctlDir, params, tb, AbsentCap, r2);
  }
}
