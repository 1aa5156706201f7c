/**
 * The file, directory and bucket operators of `rctl/modules/_fsspec.py` and
 * their older twins in `src/modules/file.py`, over the abstract filesystem.
 * A capability binds its keyword parameters, resolves the path it works on,
 * then probes or changes the filesystem.  Whatever it raises reaches the
 * engine as a raised outcome.
 */
module FsOperators {
  import opened Wrappers
  import opened Strings
  import opened FileSystem
  import opened Engine
  import opened EngineSpec
  import opened Kwargs

  /** The concrete operator classes. */
  datatype FsOp = SrcFile | SrcDir | RctlFile | RctlDir | RctlBucket {
    predicate FileLike() {
      this == SrcFile || this == RctlFile
    }
  }

  /** `FsspecRootOperator.get_operator` of `rctl/modules/_fsspec.py`. */
  function RctlGetOperator(subtype: string): (r: Result<FsOp>)
    ensures r.Ok? <==> subtype in {"file", "dir", "bucket"}
    ensures subtype == "file" ==> r == Ok(RctlFile)
    ensures subtype == "dir" ==> r == Ok(RctlDir)
    ensures subtype == "bucket" ==> r == Ok(RctlBucket)
    ensures r.Err? ==> r.Raises(TypeError)
  {
    if subtype == "file" then Ok(RctlFile)
    else if subtype == "dir" then Ok(RctlDir)
    else if subtype == "bucket" then Ok(RctlBucket)
    else Raise(TypeError, "")
  }

  /** `FsspecRootOperator.get_operator` of `src/modules/file.py`: no buckets. */
  function SrcGetOperator(subtype: string): (r: Result<FsOp>)
    ensures r.Ok? <==> subtype in {"file", "dir"}
    ensures subtype == "file" ==> r == Ok(SrcFile)
    ensures subtype == "dir" ==> r == Ok(SrcDir)
    ensures r.Err? ==> r.Raises(TypeError)
  {
    if subtype == "file" then Ok(SrcFile)
    else if subtype == "dir" then Ok(SrcDir)
    else Raise(TypeError, "")
  }

  /** `posixpath.join(a, b)`. */
  function PosixJoin(a: string, b: string): (r: string)
    ensures StartsWith(b, "/") ==> r == b
    ensures !StartsWith(b, "/") ==> EndsWith(r, b) && StartsWith(r, a)
  {
    if StartsWith(b, "/") then b
    else if a == [] || EndsWith(a, "/") then a + b
    else a + "/" + b
  }

  /** `posixpath.join(bucket, *args)`. */
  function PosixJoinAll(bucket: string, args: seq<string>): string
    decreases |args|
  {
    if args == [] then bucket else PosixJoinAll(PosixJoin(bucket, args[0]), args[1..])
  }

  /** `safe_join`: an empty bucket is refused before any path is built. */
  function SafeJoin(bucket: string, args: seq<string>): (r: Result<string>)
    ensures r.Err? <==> bucket == ""
    ensures r.Err? ==> r.Raises(ValueError)
    ensures r.Ok? ==> r.value == PosixJoinAll(bucket, args)
    ensures args == [] && r.Ok? ==> r.value == bucket
  {
    if bucket == "" then Raise(ValueError, bucket) else Ok(PosixJoinAll(bucket, args))
  }

  /**
   * The path a capability works on, after argument binding and the guards
   * that run before the filesystem is touched.
   */
  function TargetPath(op: FsOp, c: Capability, params: Params): (r: Result<string>)
    ensures op.RctlBucket? ==> r == (if "bucket" !in params then Bind(params, "bucket") else SafeJoin(params["bucket"], []))
    ensures op.RctlDir? && c == DeleteCap && "path" in params && params["path"] == "" ==> r.Raises(RuntimeError)
    ensures ((op.RctlFile? || op.RctlDir?) && "path" in params && BindOr(params, "bucket", "") == ""
             && !(op.RctlDir? && c == DeleteCap && params["path"] == "")) ==> r.Raises(ValueError)
    ensures "path" !in params && !op.RctlBucket? ==> r.Raises(TypeError)
  {
    match op
    case SrcFile => Bind(params, "path")
    case SrcDir => Bind(params, "path")
    case RctlBucket =>
      var bucket :- Bind(params, "bucket");
      SafeJoin(bucket, [])
    case _ =>
      var path :- Bind(params, "path");
      if op == RctlDir && c == DeleteCap && path == "" then Raise(RuntimeError, "")
      else SafeJoin(BindOr(params, "bucket", ""), [path])
  }

  /** The answer of `exists` for an operator whose path is `p`. */
  function ExistsAnswer(op: FsOp, st: FsState, p: string): (o: Outcome)
    ensures o.Returned?
    ensures o.ok <==> (if op.FileLike() then IsFile(st, p) else IsDir(st, p))
    ensures !Present(st, p) ==> o.msg == "Not Exists " + p
    ensures o.ok ==> o.msg == ""
  {
    if Present(st, p) then
      if op.FileLike() then
        if IsFile(st, p) then Returned(true, "") else Returned(false, "Not File.")
      else
        if IsDir(st, p) then Returned(true, "") else Returned(false, "Not directory.")
    else Returned(false, "Not Exists " + p)
  }

  /** The answer of `absent`: it holds exactly when nothing is at `p`. */
  function AbsentAnswer(st: FsState, p: string): (o: Outcome)
    ensures o.Returned? && (o.ok <==> !Present(st, p))
    ensures o.msg == if o.ok then "" else "Exists " + p
  {
    if Present(st, p) then Returned(false, "Exists " + p) else Returned(true, "")
  }

  /** A filesystem step that may raise: commit its state, or report the exception. */
  function Step(st: FsState, r: Result<FsState>, tb: string): (FsState, Outcome) {
    match r
    case Ok(st') => (st', Returned(true, ""))
    case Err(e) => (st, Raised(e.msg, tb))
  }

  /** `create` for an operator whose path is `p`. */
  function CreateAt(op: FsOp, st: FsState, p: string, content: string, tb: string): (FsState, Outcome) {
    if op.FileLike() then
      var dir := Parent(p);
      var made := if !Present(st, dir) then Mkdirs(st, dir) else Ok(st);
      if made.Err? then (st, Raised(made.error.msg, tb))
      else Step(made.value, CreateFile(made.value, p, content), tb)
    else if op == RctlBucket then
      match Mkdir(st, p)
      case Err(e) => (st, Raised(e.msg, tb))
      case Ok(st1) => if !Present(st1, p) then Step(st1, Mkdirs(st1, p), tb) else (st1, Returned(true, ""))
    else if !Present(st, p) then Step(st, Mkdirs(st, p), tb)
    else (st, Returned(true, ""))
  }

  /** `delete`: files are removed recursively, directories and buckets with `rmdir`. */
  function DeleteAt(op: FsOp, st: FsState, p: string, tb: string): (FsState, Outcome) {
    Step(st, if op.FileLike() then Delete(st, p) else Rmdir(st, p), tb)
  }

  /** One capability of operator `op`, called with the step parameters `params`. */
  function Invoke(op: FsOp, params: Params, tb: string, st: FsState, c: Capability): (r: (FsState, Outcome))
    ensures !r.1.StopIter?
    ensures c == ExistsCap || c == AbsentCap ==> r.0 == st
  {
    match TargetPath(op, c, params)
    case Err(e) => (st, Raised(e.msg, tb))
    case Ok(p) =>
      match c
      case ExistsCap => (st, ExistsAnswer(op, st, p))
      case AbsentCap => (st, AbsentAnswer(st, p))
      case CreateCap => CreateAt(op, st, p, BindOr(params, "content", ""), tb)
      case DeleteCap => DeleteAt(op, st, p, tb)
  }

  /** The operator as a backend for the engine. */
  function Operator(op: FsOp, params: Params, tb: string): Backend<FsState> {
    (st: FsState, c: Capability) => Invoke(op, params, tb, st, c)
  }

  /** The capability as the source runs it: step by step against the mutable filesystem. */
  method Call(fs: FileSystem, op: FsOp, params: Params, tb: string, c: Capability) returns (o: Outcome)
    modifies fs
    ensures (fs.State(), o) == Invoke(op, params, tb, old(fs.State()), c)
  {
    var target := TargetPath(op, c, params);
    if target.Err? {
      return Raised(target.error.msg, tb);
    }
    var p := target.value;
    match c {
      case ExistsCap =>
        o := ExistsAnswer(op, fs.State(), p);
      case AbsentCap =>
        o := AbsentAnswer(fs.State(), p);
      case CreateCap =>
        var content := BindOr(params, "content", "");
        if op.FileLike() {
          var dir := Parent(p);
          if !Present(fs.State(), dir) {
            var e := fs.MakeDirs(dir);
            if e.Some? {
              return Raised(e.value.msg, tb);
            }
          }
          var e := fs.OpenExclusiveWrite(p, content);
          if e.Some? {
            return Raised(e.value.msg, tb);
          }
        } else if op == RctlBucket {
          var e := fs.MakeDir(p);
          if e.Some? {
            return Raised(e.value.msg, tb);
          }
          if !Present(fs.State(), p) {
            // the second `mkdirs` of the bucket operator is dead code: `mkdir` has just made `p`
            assert false;
          }
        } else if !Present(fs.State(), p) {
          var e := fs.MakeDirs(p);
          if e.Some? {
            return Raised(e.value.msg, tb);
          }
        }
        o := Returned(true, "");
      case DeleteCap =>
        var e;
        if op.FileLike() {
          e := fs.DeleteRecursive(p);
        } else {
          e := fs.RemoveDir(p);
        }
        o := if e.Some? then Raised(e.value.msg, tb) else Returned(true, "");
    }
  }
}
