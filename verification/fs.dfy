/**
 * The abstract filesystem the file and directory operators run against:
 * a map from file paths to contents and a set of directory paths.  The
 * empty path names the working directory and always exists.  Each
 * operation the operators use (`mkdirs`, `mkdir`, an exclusive `open(p, "x")`
 * followed by a write, a recursive `delete`, `rmdir`) is a specification
 * function on the value `FsState` and a method on the mutable `FileSystem`.
 */
module FileSystem {
  import opened Wrappers
  import opened Strings

  datatype FsState = FsState(files: map<string, string>, dirs: set<string>)

  predicate IsFile(st: FsState, p: string) {
    p in st.files
  }

  predicate IsDir(st: FsState, p: string) {
    p == "" || p in st.dirs
  }

  predicate Present(st: FsState, p: string) {
    IsFile(st, p) || IsDir(st, p)
  }

  /** No file or directory lies below `p`. */
  predicate NothingUnder(st: FsState, p: string) {
    (forall f :: f in st.files ==> !StartsWith(f, p + "/")) &&
    (forall d :: d in st.dirs ==> !StartsWith(d, p + "/"))
  }

  /** `"/".join(p.split("/")[:-1])`: the directory part of a path. */
  function Parent(p: string): string {
    var parts := Split(p, '/');
    Join(parts[..|parts| - 1], '/')
  }

  /** The directories above `p`: every prefix of `p` that ends just before a "/". */
  function Ancestors(p: string): set<string> {
    set i | 0 <= i < |p| && p[i] == '/' :: p[..i]
  }

  /** `fs.mkdirs(p, exist_ok=True)`: create `p` and every missing directory above it. */
  function Mkdirs(st: FsState, p: string): (r: Result<FsState>)
    ensures r.Ok? <==> (forall a :: a in Ancestors(p) + {p} ==> a !in st.files)
    ensures r.Ok? ==> r.value.files == st.files && IsDir(r.value, p)
    ensures r.Ok? ==> forall a :: a in Ancestors(p) ==> IsDir(r.value, a)
    ensures r.Ok? && (forall a :: a in Ancestors(p) ==> IsDir(st, a)) ==> r.value.dirs == st.dirs + ({p} - {""})
    ensures r.Err? ==> r.Raises(FileExistsError)
  {
    if exists a :: a in Ancestors(p) + {p} && a in st.files then Raise(FileExistsError, p)
    else Ok(FsState(st.files, st.dirs + ((Ancestors(p) + {p}) - {""})))
  }

  /** `fs.mkdir(p)`: refuses an existing path, else creates it with its parents. */
  function Mkdir(st: FsState, p: string): (r: Result<FsState>)
    ensures Present(st, p) ==> r.Raises(FileExistsError)
    ensures r.Ok? ==> IsDir(r.value, p) && !Present(st, p)
  {
    if Present(st, p) then Raise(FileExistsError, p) else Mkdirs(st, p)
  }

  /** `fs.open(p, "x")` and one write of `content`: create a new file in an existing directory. */
  function CreateFile(st: FsState, p: string, content: string): (r: Result<FsState>)
    ensures r.Ok? <==> !Present(st, p) && IsDir(st, Parent(p))
    ensures r.Ok? ==> r.value == FsState(st.files[p := content], st.dirs)
    ensures Present(st, p) ==> r.Raises(FileExistsError)
    ensures !Present(st, p) && !IsDir(st, Parent(p)) ==> r.Raises(FileNotFoundError)
  {
    if Present(st, p) then Raise(FileExistsError, p)
    else if !IsDir(st, Parent(p)) then Raise(FileNotFoundError, p)
    else Ok(FsState(st.files[p := content], st.dirs))
  }

  /** `fs.delete(p, recursive=True)`: remove `p` and everything below it. */
  function Delete(st: FsState, p: string): (r: Result<FsState>)
    ensures r.Ok? <==> Present(st, p)
    ensures r.Err? ==> r.Raises(FileNotFoundError)
    ensures r.Ok? ==> p !in r.value.files && p !in r.value.dirs && NothingUnder(r.value, p)
    ensures r.Ok? ==> forall f :: f in st.files && f != p && !StartsWith(f, p + "/") ==>
                        f in r.value.files && r.value.files[f] == st.files[f]
    ensures r.Ok? ==> forall d :: d in st.dirs && d != p && !StartsWith(d, p + "/") ==> d in r.value.dirs
    ensures r.Ok? ==> r.value.dirs <= st.dirs && r.value.files.Keys <= st.files.Keys
  {
    if !Present(st, p) then Raise(FileNotFoundError, p)
    else
      Ok(FsState(
        map f | f in st.files && f != p && !StartsWith(f, p + "/") :: st.files[f],
        set d | d in st.dirs && d != p && !StartsWith(d, p + "/")))
  }

  /** `fs.rmdir(p)`: remove an empty directory. */
  function Rmdir(st: FsState, p: string): (r: Result<FsState>)
    ensures r.Ok? <==> p in st.dirs && NothingUnder(st, p)
    ensures r.Ok? ==> r.value == FsState(st.files, st.dirs - {p})
    ensures !Present(st, p) ==> r.Raises(FileNotFoundError)
  {
    if p !in st.dirs then
      if IsFile(st, p) || p == "" then Raise(OSError, p) else Raise(FileNotFoundError, p)
    else if !NothingUnder(st, p) then Raise(OSError, p)
    else Ok(FsState(st.files, st.dirs - {p}))
  }

  /** The filesystem as a mutable object. */
  class FileSystem {
    var files: map<string, string>
    var dirs: set<string>

    function State(): FsState
      reads this
    {
      FsState(files, dirs)
    }

    constructor (st: FsState)
      ensures State() == st
    {
      files := st.files;
      dirs := st.dirs;
    }

    /** Take the new state of a successful operation; keep the old one on error. */
    method Commit(r: Result<FsState>) returns (e: Option<PyError>)
      modifies this
      ensures r.Ok? ==> State() == r.value && e.None?
      ensures r.Err? ==> State() == old(State()) && e == Some(r.error)
    {
      match r {
        case Ok(st) =>
          files := st.files;
          dirs := st.dirs;
          e := None;
        case Err(err) =>
          e := Some(err);
      }
    }

    method MakeDirs(p: string) returns (e: Option<PyError>)
      modifies this
      ensures Mkdirs(old(State()), p).Ok? ==> State() == Mkdirs(old(State()), p).value && e.None?
      ensures Mkdirs(old(State()), p).Err? ==> State() == old(State()) && e == Some(Mkdirs(old(State()), p).error)
    {
      e := Commit(Mkdirs(State(), p));
    }

    method MakeDir(p: string) returns (e: Option<PyError>)
      modifies this
      ensures Mkdir(old(State()), p).Ok? ==> State() == Mkdir(old(State()), p).value && e.None?
      ensures Mkdir(old(State()), p).Err? ==> State() == old(State()) && e == Some(Mkdir(old(State()), p).error)
    {
      e := Commit(Mkdir(State(), p));
    }

    method OpenExclusiveWrite(p: string, content: string) returns (e: Option<PyError>)
      modifies this
      ensures CreateFile(old(State()), p, content).Ok? ==> State() == CreateFile(old(State()), p, content).value && e.None?
      ensures CreateFile(old(State()), p, content).Err? ==> State() == old(State()) && e == Some(CreateFile(old(State()), p, content).error)
    {
      e := Commit(CreateFile(State(), p, content));
    }

    method DeleteRecursive(p: string) returns (e: Option<PyError>)
      modifies this
      ensures Delete(old(State()), p).Ok? ==> State() == Delete(old(State()), p).value && e.None?
      ensures Delete(old(State()), p).Err? ==> State() == old(State()) && e == Some(Delete(old(State()), p).error)
    {
      e := Commit(Delete(State(), p));
    }

    method RemoveDir(p: string) returns (e: Option<PyError>)
      modifies this
      ensures Rmdir(old(State()), p).Ok? ==> State() == Rmdir(old(State()), p).value && e.None?
      ensures Rmdir(old(State()), p).Err? ==> State() == old(State()) && e == Some(Rmdir(old(State()), p).error)
    {
      e := Commit(Rmdir(State(), p));
    }
  }
}
