/**
 * The file scanner of `rctl/scanner.py`: list every file under a root
 * directory, filtered by include/exclude glob patterns, in one of five
 * orders.  The directory tree is a value; `os.scandir` is the list of a
 * directory's entries, `os.walk` the directories of the tree top-down, and
 * `fnmatch` an abstract matcher.
 */
module Scanner {
  import opened Wrappers
  import opened Strings
  import opened Sorting

  /**
   * A directory entry: a directory with its entries in listing order, a
   * regular file, or anything else (a socket, a fifo, a device).
   */
  datatype Node = Dir(path: string, children: seq<Node>) | File(path: string) | Special(path: string)

  /**
   * The `include` and `exclude` arguments (None or a list of patterns) and
   * `fnmatch(path, pattern)`.
   */
  datatype Filter = Filter(includes: Option<seq<string>>, excludes: Option<seq<string>>, matches: (string, string) -> bool)

  /** A pattern list, None read as empty. */
  function Patterns(o: Option<seq<string>>): seq<string> {
    if o.Some? then o.value else []
  }

  /** `any(fnmatch(path, p) for p in pats)`. */
  function AnyMatch(path: string, pats: seq<string>, matches: (string, string) -> bool): (r: bool)
    ensures r <==> exists i :: 0 <= i < |pats| && matches(path, pats[i])
  {
    if pats == [] then false
    else
      assert forall i :: 0 < i < |pats| ==> pats[i] == pats[1..][i - 1];
      matches(path, pats[0]) || AnyMatch(path, pats[1..], matches)
  }

  /** `should_include`. */
  predicate ShouldInclude(f: Filter, path: string) {
    var ex := Patterns(f.excludes);
    var inc := Patterns(f.includes);
    if ex != [] && AnyMatch(path, ex, f.matches) then false
    else if inc != [] && !AnyMatch(path, inc, f.matches) then false
    else true
  }

  /**
   * A path is included exactly when no exclude pattern matches it and some
   * include pattern does, unless there are none: an exclude match wins over
   * an include match, and no patterns at all include everything.
   */
  lemma ShouldIncludeMeaning(f: Filter, path: string)
    ensures ShouldInclude(f, path) <==>
              (forall i :: 0 <= i < |Patterns(f.excludes)| ==> !f.matches(path, Patterns(f.excludes)[i])) &&
              (Patterns(f.includes) == [] || exists i :: 0 <= i < |Patterns(f.includes)| && f.matches(path, Patterns(f.includes)[i]))
  {
    var ex := Patterns(f.excludes);
    var inc := Patterns(f.includes);
    assert AnyMatch(path, ex, f.matches) <==> exists i :: 0 <= i < |ex| && f.matches(path, ex[i]);
    assert AnyMatch(path, inc, f.matches) <==> exists i :: 0 <= i < |inc| && f.matches(path, inc[i]);
  }

  // ---------------------------------------------------------------------
  // The tree

  function Size(n: Node): nat {
    if n.Dir? then 1 + SumSize(n.children) else 1
  }

  function SumSize(ns: seq<Node>): nat {
    if ns == [] then 0 else SumSize(ns[..|ns| - 1]) + Size(ns[|ns| - 1])
  }

  predicate AllDirs(q: seq<Node>) {
    forall i :: 0 <= i < |q| ==> q[i].Dir?
  }

  /** The paths of the regular files among `cs` that pass the filter, in listing order. */
  function IncludedFiles(cs: seq<Node>, f: Filter): (r: seq<string>)
    ensures forall p :: p in r ==> ShouldInclude(f, p)
  {
    if cs == [] then []
    else
      var e := cs[|cs| - 1];
      IncludedFiles(cs[..|cs| - 1], f) + (if e.File? && ShouldInclude(f, e.path) then [e.path] else [])
  }

  /** The subdirectories among `cs`, in listing order. */
  function SubDirs(cs: seq<Node>): (r: seq<Node>)
    ensures AllDirs(r)
  {
    if cs == [] then []
    else
      var e := cs[|cs| - 1];
      SubDirs(cs[..|cs| - 1]) + (if e.Dir? then [e] else [])
  }

  /** The paths of the entries among `cs` that are not directories, in listing order. */
  function NonDirPaths(cs: seq<Node>): seq<string> {
    if cs == [] then []
    else
      var e := cs[|cs| - 1];
      NonDirPaths(cs[..|cs| - 1]) + (if e.Dir? then [] else [e.path])
  }

  /**
   * The included files of a tree, as a multiset: its regular files and,
   * when `specials` holds, its other non-directory entries too.  A root that
   * is not a directory has none.
   */
  function TreeFiles(n: Node, f: Filter, specials: bool): multiset<string>
  {
    if n.Dir? then ChildFiles(n.children, f, specials) else multiset{}
  }

  function ChildFiles(cs: seq<Node>, f: Filter, specials: bool): multiset<string>
  {
    if cs == [] then multiset{}
    else
      var e := cs[|cs| - 1];
      ChildFiles(cs[..|cs| - 1], f, specials) +
        (if e.Dir? then TreeFiles(e, f, specials)
         else if (e.File? || specials) && ShouldInclude(f, e.path) then multiset{e.path}
         else multiset{})
  }

  /** The included files of every tree of a queue or stack. */
  function SumFiles(q: seq<Node>, f: Filter, specials: bool): multiset<string> {
    if q == [] then multiset{} else SumFiles(q[..|q| - 1], f, specials) + TreeFiles(q[|q| - 1], f, specials)
  }

  /** No entry of the tree is a special file. */
  predicate NoSpecial(n: Node) {
    if n.Dir? then NoSpecialIn(n.children) else n.File?
  }

  predicate NoSpecialIn(cs: seq<Node>) {
    cs == [] || (NoSpecialIn(cs[..|cs| - 1]) && NoSpecial(cs[|cs| - 1]))
  }

  // ---------------------------------------------------------------------
  // Breadth-first and depth-first order

  /** `sorted` on directory entries: by path. */
  const PathLe: (Node, Node) -> bool := (a: Node, b: Node) => LessEq(a.path, b.path)

  /**
   * Breadth-first order from a FIFO queue of directories: the head's
   * included files sorted, then the rest, with the head's subdirectories
   * appended sorted.
   */
  function Bfs(q: seq<Node>, f: Filter): seq<string>
    requires AllDirs(q)
    decreases SumSize(q)
  {
    if q == [] then []
    else
      BfsStep(q);
      Sort(IncludedFiles(q[0].children, f), StrLe) + Bfs(q[1..] + Sort(SubDirs(q[0].children), PathLe), f)
  }

  /**
   * Depth-first order from a LIFO stack of directories: the top's included
   * files in listing order, then the rest, with the top's subdirectories
   * pushed in listing order (so the last one is explored first).
   */
  function Dfs(stack: seq<Node>, f: Filter): seq<string>
    requires AllDirs(stack)
    decreases SumSize(stack)
  {
    if stack == [] then []
    else
      DfsStep(stack);
      var top := stack[|stack| - 1];
      IncludedFiles(top.children, f) + Dfs(stack[..|stack| - 1] + SubDirs(top.children), f)
  }

  /**
   * `bfs_scan` (and `bfs_sorted_scan`, the same loop): scanning a root that
   * is not a directory raises; otherwise the files come in breadth-first
   * order.
   */
  method BfsScan(root: Node, f: Filter) returns (r: Result<seq<string>>)
    ensures root.Dir? ==> r == Ok(Bfs([root], f))
    ensures !root.Dir? ==> r.Raises(OSError)
  {
    if !root.Dir? {
      return Raise(OSError, "Not a directory: " + root.path);
    }
    var queue := [root];
    var out: seq<string> := [];
    while queue != []
      invariant AllDirs(queue)
      invariant out + Bfs(queue, f) == Bfs([root], f)
      decreases SumSize(queue)
    {
      var files, dirs := ScanDir(queue[0].children, f);
      BfsRound(out, queue, f);
      out := out + Sort(files, StrLe);
      queue := queue[1..] + Sort(dirs, PathLe);
    }
    assert out + Bfs(queue, f) == out;
    return Ok(out);
  }

  /**
   * The `os.scandir` loop of a breadth-first step: the included regular
   * files and the subdirectories, each in listing order; anything else is
   * skipped.
   */
  method ScanDir(entries: seq<Node>, f: Filter) returns (files: seq<string>, dirs: seq<Node>)
    ensures files == IncludedFiles(entries, f) && dirs == SubDirs(entries)
  {
    files, dirs := [], [];
    for i := 0 to |entries|
      invariant files == IncludedFiles(entries[..i], f)
      invariant dirs == SubDirs(entries[..i])
    {
      var entry := entries[i];
      EntryRound(entries, i, f);
      if entry.File? && ShouldInclude(f, entry.path) {
        files := files + [entry.path];
      } else if entry.Dir? {
        dirs := dirs + [entry];
      }
    }
    assert entries[..|entries|] == entries;
  }

  /**
   * `dfs_scan`: scanning a root that is not a directory raises; otherwise
   * the files come in depth-first order.
   */
  method DfsScan(root: Node, f: Filter) returns (r: Result<seq<string>>)
    ensures root.Dir? ==> r == Ok(Dfs([root], f))
    ensures !root.Dir? ==> r.Raises(OSError)
  {
    if !root.Dir? {
      return Raise(OSError, "Not a directory: " + root.path);
    }
    var stack := [root];
    var out: seq<string> := [];
    while stack != []
      invariant AllDirs(stack)
      invariant out + Dfs(stack, f) == Dfs([root], f)
      decreases SumSize(stack)
    {
      ghost var s, out0 := stack, out;
      var current := stack[|stack| - 1];
      stack := stack[..|stack| - 1];
      var entries := current.children;
      out, stack := VisitDir(entries, f, out, stack);
      DfsStep(s);
      assert Dfs(s, f) == IncludedFiles(entries, f) + Dfs(stack, f);
      assert out + Dfs(stack, f) == out0 + Dfs(s, f);
    }
    assert out + Dfs(stack, f) == out;
    return Ok(out);
  }

  /**
   * The `os.scandir` loop of a depth-first step: included regular files are
   * emitted and subdirectories pushed, each in listing order.
   */
  method VisitDir(entries: seq<Node>, f: Filter, out: seq<string>, stack: seq<Node>)
    returns (out': seq<string>, stack': seq<Node>)
    ensures out' == out + IncludedFiles(entries, f)
    ensures stack' == stack + SubDirs(entries)
  {
    out', stack' := out, stack;
    for i := 0 to |entries|
      invariant out' == out + IncludedFiles(entries[..i], f)
      invariant stack' == stack + SubDirs(entries[..i])
    {
      var entry := entries[i];
      EntryRound(entries, i, f);
      if entry.File? && ShouldInclude(f, entry.path) {
        ConcatAssoc(out, IncludedFiles(entries[..i], f), [entry.path]);
        out' := out' + [entry.path];
      } else if entry.Dir? {
        ConcatAssoc(stack, SubDirs(entries[..i]), [entry]);
        stack' := stack' + [entry];
      }
    }
    assert entries[..|entries|] == entries;
  }

  // ---------------------------------------------------------------------
  // Walk order, by name and by modification time

  /**
   * `os.walk(root)`, top-down: for each directory, the paths of its
   * non-directory entries; then the walks of its subdirectories in listing
   * order.  A root that is not a directory yields nothing.
   */
  function Walk(n: Node): seq<seq<string>> {
    if n.Dir? then [NonDirPaths(n.children)] + WalkDirs(n.children) else []
  }

  function WalkDirs(cs: seq<Node>): seq<seq<string>> {
    if cs == [] then []
    else
      var e := cs[|cs| - 1];
      WalkDirs(cs[..|cs| - 1]) + (if e.Dir? then Walk(e) else [])
  }

  function Concat(ls: seq<seq<string>>): seq<string> {
    if ls == [] then [] else Concat(ls[..|ls| - 1]) + ls[|ls| - 1]
  }

  /** The paths that pass the filter, in order. */
  function Kept(ps: seq<string>, f: Filter): (r: seq<string>)
    ensures forall p :: p in r ==> ShouldInclude(f, p)
  {
    if ps == [] then []
    else Kept(ps[..|ps| - 1], f) + (if ShouldInclude(f, ps[|ps| - 1]) then [ps[|ps| - 1]] else [])
  }

  /** The included paths of the walk, in walk order. */
  function Walked(root: Node, f: Filter): seq<string> {
    Kept(Concat(Walk(root)), f)
  }

  /**
   * `sorted_scan`: the included paths of the walk, sorted.  A root that is
   * not a directory gives no file and no error.
   */
  method SortedScan(root: Node, f: Filter) returns (r: seq<string>)
    ensures r == Sort(Walked(root, f), StrLe)
  {
    var files := WalkFilter(root, f);
    r := Sort(files, StrLe);
  }

  /** The walk loop shared by `sorted_scan` and `mtime_scan`. */
  method WalkFilter(root: Node, f: Filter) returns (files: seq<string>)
    ensures files == Walked(root, f)
  {
    var walk := Walk(root);
    files := [];
    for i := 0 to |walk|
      invariant files == Kept(Concat(walk[..i]), f)
    {
      files := KeepIncluded(files, walk[i], f);
      WalkRound(walk, i, f);
    }
    assert walk[..|walk|] == walk;
  }

  /** The inner loop of the walk: each path of a directory that passes the filter is kept. */
  method KeepIncluded(files: seq<string>, filenames: seq<string>, f: Filter) returns (files': seq<string>)
    ensures files' == files + Kept(filenames, f)
  {
    files' := files;
    for j := 0 to |filenames|
      invariant files' == files + Kept(filenames[..j], f)
    {
      var filepath := filenames[j];
      assert filenames[..j + 1][..j] == filenames[..j];
      if ShouldInclude(f, filepath) {
        files' := files' + [filepath];
      }
    }
    assert filenames[..|filenames|] == filenames;
  }

  /** A heap entry: the negated modification time, then the path. */
  type Entry = (int, string)

  /** Tuple order on heap entries: newer first, then by path. */
  const EntryLe: (Entry, Entry) -> bool := (a: Entry, b: Entry) => a.0 < b.0 || (a.0 == b.0 && LessEq(a.1, b.1))

  function Keyed(ps: seq<string>, mtime: string -> int): (r: seq<Entry>)
    ensures |r| == |ps| && forall i :: 0 <= i < |ps| ==> r[i] == (-mtime(ps[i]), ps[i])
  {
    seq(|ps|, i requires 0 <= i < |ps| => (-mtime(ps[i]), ps[i]))
  }

  function PathsOf(es: seq<Entry>): (r: seq<string>)
    ensures |r| == |es| && forall i :: 0 <= i < |es| ==> r[i] == es[i].1
  {
    if es == [] then [] else [es[0].1] + PathsOf(es[1..])
  }

  /** The paths in the order the heap gives them back. */
  function MtimeOrder(ps: seq<string>, mtime: string -> int): seq<string> {
    PathsOf(Sort(Keyed(ps, mtime), EntryLe))
  }

  /** `heapq.heappop`: the position of a least entry. */
  function HeapMin(heap: seq<Entry>): (m: nat)
    requires heap != []
    ensures m < |heap| && forall j :: 0 <= j < |heap| ==> EntryLe(heap[m], heap[j])
  {
    EntryLeOrder();
    if |heap| == 1 then 0
    else
      var m := HeapMin(heap[1..]) + 1;
      assert forall j :: 1 <= j < |heap| ==> heap[j] == heap[1..][j - 1];
      if EntryLe(heap[0], heap[m]) then 0 else m
  }

  /**
   * `mtime_scan`: the included paths of the walk pushed on a heap keyed by
   * (-mtime, path), then popped until it is empty.
   */
  method MtimeScan(root: Node, f: Filter, mtime: string -> int) returns (r: seq<string>)
    ensures r == MtimeOrder(Walked(root, f), mtime)
  {
    var files := WalkFilter(root, f);
    var heap: seq<Entry> := [];
    for i := 0 to |files|
      invariant heap == Keyed(files[..i], mtime)
    {
      heap := heap + [(-mtime(files[i]), files[i])];
    }
    assert files[..|files|] == files;
    r := PopAll(heap);
  }

  /** The `heappop` loop: the entries come out least first, and only their paths are kept. */
  method PopAll(entries: seq<Entry>) returns (r: seq<string>)
    ensures r == PathsOf(Sort(entries, EntryLe))
  {
    var heap := entries;
    ghost var popped: seq<Entry> := [];
    r := [];
    while heap != []
      invariant r == PathsOf(popped)
      invariant multiset(popped) + multiset(heap) == multiset(entries)
      invariant SortedBy(popped, EntryLe)
      invariant forall i, e :: 0 <= i < |popped| && e in heap ==> EntryLe(popped[i], e)
      decreases |heap|
    {
      var m := HeapMin(heap);
      var top := heap[m];
      RemoveAt(heap, m);
      PathsOfSnoc(popped, top);
      PopSorted(popped, heap, m);
      PopBelow(popped, heap, m);
      heap := heap[..m] + heap[m + 1..];
      popped := popped + [top];
      r := r + [top.1];
    }
    EntryLeOrder();
    SortSorted(entries, EntryLe);
    SortPermutes(entries, EntryLe);
    SortedUnique(popped, Sort(entries, EntryLe), EntryLe);
  }

  /** Popping a least entry keeps the popped entries ordered. */
  lemma PopSorted(popped: seq<Entry>, heap: seq<Entry>, m: nat)
    requires m < |heap|
    requires SortedBy(popped, EntryLe)
    requires forall i, e :: 0 <= i < |popped| && e in heap ==> EntryLe(popped[i], e)
    ensures SortedBy(popped + [heap[m]], EntryLe)
  {
    var p := popped + [heap[m]];
    forall i, j | 0 <= i < j < |p|
      ensures EntryLe(p[i], p[j])
    {
      if j < |popped| {
        assert p[i] == popped[i] && p[j] == popped[j];
      } else {
        assert p[i] == popped[i] && p[j] == heap[m] && heap[m] in heap;
      }
    }
  }

  /** Popping a least entry keeps every popped entry below every entry left. */
  lemma PopBelow(popped: seq<Entry>, heap: seq<Entry>, m: nat)
    requires m < |heap| && forall j :: 0 <= j < |heap| ==> EntryLe(heap[m], heap[j])
    requires forall i, e :: 0 <= i < |popped| && e in heap ==> EntryLe(popped[i], e)
    ensures forall i, e :: 0 <= i < |popped| + 1 && e in heap[..m] + heap[m + 1..] ==> EntryLe((popped + [heap[m]])[i], e)
  {
    RemoveAt(heap, m);
    var p := popped + [heap[m]];
    forall i, e | 0 <= i < |p| && e in heap[..m] + heap[m + 1..]
      ensures EntryLe(p[i], e)
    {
      assert e in heap;
      if i < |popped| {
        assert p[i] == popped[i];
      } else {
        var k :| 0 <= k < |heap| && heap[k] == e;
        assert EntryLe(heap[m], heap[k]);
      }
    }
  }

  lemma PathsOfSnoc(es: seq<Entry>, e: Entry)
    ensures PathsOf(es + [e]) == PathsOf(es) + [e.1]
  {
    var a, b := PathsOf(es + [e]), PathsOf(es) + [e.1];
    forall i | 0 <= i < |a|
      ensures a[i] == b[i]
    {
      if i < |es| {
        assert (es + [e])[i] == es[i];
      }
    }
  }

  /** Removing the entry at `m` leaves the others. */
  lemma RemoveAt(heap: seq<Entry>, m: nat)
    requires m < |heap|
    ensures multiset(heap[..m] + heap[m + 1..]) + multiset{heap[m]} == multiset(heap)
    ensures forall e :: e in heap[..m] + heap[m + 1..] ==> e in heap
  {
    assert heap == heap[..m] + [heap[m]] + heap[m + 1..];
  }

  // ---------------------------------------------------------------------
  // Dispatch

  const Strategies: set<string> := {"bfs", "dfs", "name", "mtime", "bfs_name"}

  /**
   * `scan_files`: an unknown strategy raises ValueError; "bfs" and
   * "bfs_name" give the same breadth-first order; the walk-based orders
   * never raise.
   */
  function ScanFiles(root: Node, strategy: string, f: Filter, mtime: string -> int): (r: Result<seq<string>>)
    ensures strategy !in Strategies ==> r.Raises(ValueError)
    ensures r.Ok? <==> strategy in Strategies && (root.Dir? || strategy == "name" || strategy == "mtime")
    ensures r.Err? && strategy in Strategies ==> r.Raises(OSError)
    ensures root.Dir? && (strategy == "bfs" || strategy == "bfs_name") ==> r == Ok(Bfs([root], f))
    ensures root.Dir? && strategy == "dfs" ==> r == Ok(Dfs([root], f))
    ensures strategy == "name" ==> r == Ok(Sort(Walked(root, f), StrLe))
    ensures strategy == "mtime" ==> r == Ok(MtimeOrder(Walked(root, f), mtime))
  {
    StrategiesDistinct();
    assert root.Dir? ==> AllDirs([root]);
    if strategy == "bfs" || strategy == "bfs_name" then
      if root.Dir? then Ok(Bfs([root], f)) else Raise(OSError, "Not a directory: " + root.path)
    else if strategy == "dfs" then
      if root.Dir? then Ok(Dfs([root], f)) else Raise(OSError, "Not a directory: " + root.path)
    else if strategy == "name" then Ok(Sort(Walked(root, f), StrLe))
    else if strategy == "mtime" then Ok(MtimeOrder(Walked(root, f), mtime))
    else Raise(ValueError, "Invalid strategy. Choose from 'bfs', 'dfs', 'name', 'mtime', 'bfs_name'")
  }

  /** The five strategy names are five different strings. */
  lemma StrategiesDistinct()
    ensures "bfs" != "dfs" && "bfs" != "name" && "bfs" != "mtime" && "bfs" != "bfs_name"
    ensures "dfs" != "name" && "dfs" != "mtime" && "dfs" != "bfs_name"
    ensures "name" != "mtime" && "name" != "bfs_name" && "mtime" != "bfs_name"
  {
    assert "bfs"[0] != "dfs"[0];
    assert |"name"| != |"mtime"|;
  }

  // ---------------------------------------------------------------------
  // What each order finds

  /** Breadth-first order emits every included regular file of the tree, once each. */
  lemma BfsFindsEveryFile(root: Node, f: Filter)
    requires root.Dir?
    ensures multiset(Bfs([root], f)) == TreeFiles(root, f, false)
  {
    BfsFiles([root], f);
    assert [root][..0] == [];
  }

  /** Depth-first order emits every included regular file of the tree, once each. */
  lemma DfsFindsEveryFile(root: Node, f: Filter)
    requires root.Dir?
    ensures multiset(Dfs([root], f)) == TreeFiles(root, f, false)
  {
    DfsFiles([root], f);
    assert [root][..0] == [];
  }

  /**
   * Name order is sorted and emits every included non-directory entry,
   * special files included, once each.
   */
  lemma NameOrderSortedPermutation(root: Node, f: Filter)
    ensures SortedBy(Sort(Walked(root, f), StrLe), StrLe)
    ensures multiset(Sort(Walked(root, f), StrLe)) == TreeFiles(root, f, true)
  {
    StrLeOrder();
    SortSorted(Walked(root, f), StrLe);
    SortPermutes(Walked(root, f), StrLe);
    WalkFiles(root, f);
  }

  /**
   * On a tree without special files, name order is exactly the
   * breadth-first output sorted: the two find the same files.
   */
  lemma NameOrderSortsBfs(root: Node, f: Filter)
    requires root.Dir? && NoSpecial(root)
    ensures Sort(Walked(root, f), StrLe) == Sort(Bfs([root], f), StrLe)
  {
    StrLeOrder();
    NameOrderSortedPermutation(root, f);
    BfsFindsEveryFile(root, f);
    SpecialsAgree(root, f);
    SortSorted(Bfs([root], f), StrLe);
    SortPermutes(Bfs([root], f), StrLe);
    SortedUnique(Sort(Walked(root, f), StrLe), Sort(Bfs([root], f), StrLe), StrLe);
  }

  /**
   * Modification-time order emits every included path of the walk once, the
   * newest first and paths of equal age in ascending order.
   */
  lemma MtimeNewestFirst(ps: seq<string>, mtime: string -> int)
    ensures multiset(MtimeOrder(ps, mtime)) == multiset(ps)
    ensures var r := MtimeOrder(ps, mtime);
            forall i, j :: 0 <= i < j < |r| ==>
              mtime(r[i]) > mtime(r[j]) || (mtime(r[i]) == mtime(r[j]) && LessEq(r[i], r[j]))
  {
    PathsOfSort(Keyed(ps, mtime));
    assert PathsOf(Keyed(ps, mtime)) == ps;
    MtimeOrdered(ps, mtime);
  }

  // ---------------------------------------------------------------------
  // Helper lemmas

  lemma MtimeOrdered(ps: seq<string>, mtime: string -> int)
    ensures var r := MtimeOrder(ps, mtime);
            forall i, j :: 0 <= i < j < |r| ==>
              mtime(r[i]) > mtime(r[j]) || (mtime(r[i]) == mtime(r[j]) && LessEq(r[i], r[j]))
  {
    var k := Keyed(ps, mtime);
    var s := Sort(k, EntryLe);
    var r := PathsOf(s);
    EntryLeOrder();
    SortSorted(k, EntryLe);
    SortPermutes(k, EntryLe);
    forall i, j | 0 <= i < j < |r|
      ensures mtime(r[i]) > mtime(r[j]) || (mtime(r[i]) == mtime(r[j]) && LessEq(r[i], r[j]))
    {
      assert s[i] in multiset(k) && s[j] in multiset(k);
      KeyedShape(ps, mtime, s[i]);
      KeyedShape(ps, mtime, s[j]);
      assert EntryLe(s[i], s[j]);
    }
  }

  lemma KeyedShape(ps: seq<string>, mtime: string -> int, e: Entry)
    requires e in Keyed(ps, mtime)
    ensures e == (-mtime(e.1), e.1)
  {
    var l :| 0 <= l < |ps| && Keyed(ps, mtime)[l] == e;
  }

  lemma {:induction false} SumSizeAppend(a: seq<Node>, b: seq<Node>)
    ensures SumSize(a + b) == SumSize(a) + SumSize(b)
    decreases |b|
  {
    if b != [] {
      assert (a + b)[..|a + b| - 1] == a + b[..|b| - 1];
      SumSizeAppend(a, b[..|b| - 1]);
    } else {
      assert a + b == a;
    }
  }

  lemma SumSizeOne(x: Node)
    ensures SumSize([x]) == Size(x)
  {
    assert [x][..0] == [];
  }

  lemma {:induction false} SumSizeInsert(x: Node, s: seq<Node>, le: (Node, Node) -> bool)
    ensures SumSize(Insert(x, s, le)) == Size(x) + SumSize(s)
  {
    SumSizeOne(x);
    if s == [] || le(x, s[0]) {
      SumSizeAppend([x], s);
    } else {
      SumSizeOne(s[0]);
      SumSizeInsert(x, s[1..], le);
      SumSizeAppend([s[0]], Insert(x, s[1..], le));
      SumSizeAppend([s[0]], s[1..]);
      assert s == [s[0]] + s[1..];
    }
  }

  lemma {:induction false} SumSizeSort(s: seq<Node>, le: (Node, Node) -> bool)
    ensures SumSize(Sort(s, le)) == SumSize(s)
  {
    if s != [] {
      SumSizeSort(s[1..], le);
      SumSizeInsert(s[0], Sort(s[1..], le), le);
      SumSizeOne(s[0]);
      SumSizeAppend([s[0]], s[1..]);
      assert s == [s[0]] + s[1..];
    }
  }

  lemma {:induction false} SubDirsSize(cs: seq<Node>)
    ensures SumSize(SubDirs(cs)) <= SumSize(cs)
  {
    if cs != [] {
      var e := cs[|cs| - 1];
      SubDirsSize(cs[..|cs| - 1]);
      if e.Dir? {
        SumSizeAppend(SubDirs(cs[..|cs| - 1]), [e]);
        SumSizeOne(e);
      } else {
        assert SubDirs(cs) == SubDirs(cs[..|cs| - 1]) + [];
        assert SubDirs(cs[..|cs| - 1]) + [] == SubDirs(cs[..|cs| - 1]);
      }
    }
  }

  lemma SortedDirs(s: seq<Node>, le: (Node, Node) -> bool)
    requires AllDirs(s)
    ensures AllDirs(Sort(s, le))
  {
    var t := Sort(s, le);
    SortPermutes(s, le);
    forall i | 0 <= i < |t|
      ensures t[i].Dir?
    {
      assert t[i] in multiset(s);
    }
  }

  /** One BFS step keeps the queue made of directories and shrinks it. */
  lemma BfsStep(q: seq<Node>)
    requires q != [] && AllDirs(q)
    ensures AllDirs(q[1..] + Sort(SubDirs(q[0].children), PathLe))
    ensures SumSize(q[1..] + Sort(SubDirs(q[0].children), PathLe)) < SumSize(q)
  {
    var sub := SubDirs(q[0].children);
    SortedDirs(sub, PathLe);
    SumSizeSort(sub, PathLe);
    SubDirsSize(q[0].children);
    SumSizeAppend(q[1..], Sort(sub, PathLe));
    SumSizeAppend([q[0]], q[1..]);
    SumSizeOne(q[0]);
    assert q == [q[0]] + q[1..];
  }

  /** One round of breadth-first order: the head's files, then the rest with its subdirectories queued. */
  lemma BfsUnfold(q: seq<Node>, f: Filter)
    requires q != [] && AllDirs(q)
    ensures AllDirs(q[1..] + Sort(SubDirs(q[0].children), PathLe))
    ensures SumSize(q[1..] + Sort(SubDirs(q[0].children), PathLe)) < SumSize(q)
    ensures Bfs(q, f) == Sort(IncludedFiles(q[0].children, f), StrLe) + Bfs(q[1..] + Sort(SubDirs(q[0].children), PathLe), f)
  {
    BfsStep(q);
  }

  /** One round of the breadth-first loop keeps its output plus what remains equal to the whole order. */
  lemma BfsRound(out: seq<string>, q: seq<Node>, f: Filter)
    requires q != [] && AllDirs(q)
    ensures AllDirs(q[1..] + Sort(SubDirs(q[0].children), PathLe))
    ensures SumSize(q[1..] + Sort(SubDirs(q[0].children), PathLe)) < SumSize(q)
    ensures out + Bfs(q, f) ==
            (out + Sort(IncludedFiles(q[0].children, f), StrLe)) + Bfs(q[1..] + Sort(SubDirs(q[0].children), PathLe), f)
  {
    BfsUnfold(q, f);
  }

  /** One DFS step keeps the stack made of directories and shrinks it. */
  lemma DfsStep(s: seq<Node>)
    requires s != [] && AllDirs(s)
    ensures AllDirs(s[..|s| - 1] + SubDirs(s[|s| - 1].children))
    ensures SumSize(s[..|s| - 1] + SubDirs(s[|s| - 1].children)) < SumSize(s)
  {
    SubDirsSize(s[|s| - 1].children);
    SumSizeAppend(s[..|s| - 1], SubDirs(s[|s| - 1].children));
  }

  lemma {:induction false} SumFilesAppend(a: seq<Node>, b: seq<Node>, f: Filter, sp: bool)
    ensures SumFiles(a + b, f, sp) == SumFiles(a, f, sp) + SumFiles(b, f, sp)
    decreases |b|
  {
    if b != [] {
      assert (a + b)[..|a + b| - 1] == a + b[..|b| - 1];
      SumFilesAppend(a, b[..|b| - 1], f, sp);
    } else {
      assert a + b == a;
    }
  }

  lemma SumFilesOne(x: Node, f: Filter, sp: bool)
    ensures SumFiles([x], f, sp) == TreeFiles(x, f, sp)
  {
    assert [x][..0] == [];
  }

  lemma {:induction false} SumFilesInsert(x: Node, s: seq<Node>, le: (Node, Node) -> bool, f: Filter, sp: bool)
    ensures SumFiles(Insert(x, s, le), f, sp) == TreeFiles(x, f, sp) + SumFiles(s, f, sp)
  {
    SumFilesOne(x, f, sp);
    if s == [] || le(x, s[0]) {
      SumFilesAppend([x], s, f, sp);
    } else {
      var head, tail := s[0], Insert(x, s[1..], le);
      assert Insert(x, s, le) == [head] + tail;
      SumFilesOne(head, f, sp);
      SumFilesInsert(x, s[1..], le, f, sp);
      SumFilesAppend([head], tail, f, sp);
      assert s == [head] + s[1..];
      SumFilesAppend([head], s[1..], f, sp);
      var th, tx, rest := TreeFiles(head, f, sp), TreeFiles(x, f, sp), SumFiles(s[1..], f, sp);
      assert SumFiles(Insert(x, s, le), f, sp) == th + (tx + rest);
      assert SumFiles(s, f, sp) == th + rest;
    }
  }

  lemma {:induction false} SumFilesSort(s: seq<Node>, le: (Node, Node) -> bool, f: Filter, sp: bool)
    ensures SumFiles(Sort(s, le), f, sp) == SumFiles(s, f, sp)
  {
    if s != [] {
      SumFilesSort(s[1..], le, f, sp);
      SumFilesInsert(s[0], Sort(s[1..], le), le, f, sp);
      SumFilesOne(s[0], f, sp);
      SumFilesAppend([s[0]], s[1..], f, sp);
      assert s == [s[0]] + s[1..];
    }
  }

  /** A directory's files: those listed in it, plus those of its subdirectories. */
  lemma {:induction false} DirFiles(cs: seq<Node>, f: Filter)
    ensures ChildFiles(cs, f, false) == multiset(IncludedFiles(cs, f)) + SumFiles(SubDirs(cs), f, false)
  {
    if cs != [] {
      var front := cs[..|cs| - 1];
      var e := cs[|cs| - 1];
      DirFiles(front, f);
      if e.Dir? {
        SumFilesAppend(SubDirs(front), [e], f, false);
        SumFilesOne(e, f, false);
      } else {
        assert SubDirs(cs) == SubDirs(front);
      }
    }
  }

  lemma {:induction false} BfsFiles(q: seq<Node>, f: Filter)
    requires AllDirs(q)
    ensures multiset(Bfs(q, f)) == SumFiles(q, f, false)
    decreases SumSize(q)
  {
    if q != [] {
      var sub := SubDirs(q[0].children);
      var files := IncludedFiles(q[0].children, f);
      var next := q[1..] + Sort(sub, PathLe);
      BfsUnfold(q, f);
      BfsFiles(next, f);
      QueueFilesAfter(q[1..], sub, f);
      QueueFilesBefore(q, f);
      SortPermutes(files, StrLe);
      RoundFiles(Sort(files, StrLe), Bfs(next, f), multiset(files), SumFiles(q[1..], f, false), SumFiles(sub, f, false));
    }
  }

  /** The files of a queue: those of its head directory's own files, its subdirectories and the rest of the queue. */
  lemma QueueFilesBefore(q: seq<Node>, f: Filter)
    requires q != [] && q[0].Dir?
    ensures SumFiles(q, f, false) ==
            multiset(IncludedFiles(q[0].children, f)) + SumFiles(SubDirs(q[0].children), f, false) + SumFiles(q[1..], f, false)
  {
    DirFiles(q[0].children, f);
    SumFilesAppend([q[0]], q[1..], f, false);
    SumFilesOne(q[0], f, false);
    assert q == [q[0]] + q[1..];
  }

  /** Queuing sorted subdirectories behind the rest adds exactly their files. */
  lemma QueueFilesAfter(rest: seq<Node>, sub: seq<Node>, f: Filter)
    ensures SumFiles(rest + Sort(sub, PathLe), f, false) == SumFiles(rest, f, false) + SumFiles(sub, f, false)
  {
    SumFilesAppend(rest, Sort(sub, PathLe), f, false);
    SumFilesSort(sub, PathLe, f, false);
  }

  lemma RoundFiles(out: seq<string>, later: seq<string>, own: multiset<string>, rest: multiset<string>, sub: multiset<string>)
    requires multiset(out) == own && multiset(later) == rest + sub
    ensures multiset(out + later) == own + sub + rest
  {
  }

  lemma {:induction false} DfsFiles(s: seq<Node>, f: Filter)
    requires AllDirs(s)
    ensures multiset(Dfs(s, f)) == SumFiles(s, f, false)
    decreases SumSize(s)
  {
    if s != [] {
      var top := s[|s| - 1];
      var rest := s[..|s| - 1];
      DfsStep(s);
      DfsFiles(rest + SubDirs(top.children), f);
      SumFilesAppend(rest, SubDirs(top.children), f, false);
      DirFiles(top.children, f);
    }
  }

  lemma {:induction false} ConcatAppend(a: seq<seq<string>>, b: seq<seq<string>>)
    ensures Concat(a + b) == Concat(a) + Concat(b)
    decreases |b|
  {
    if b != [] {
      assert (a + b)[..|a + b| - 1] == a + b[..|b| - 1];
      ConcatAppend(a, b[..|b| - 1]);
    } else {
      assert a + b == a;
    }
  }

  /** One more entry of a directory listing adds at most one file and one subdirectory. */
  lemma EntryRound(entries: seq<Node>, i: nat, f: Filter)
    requires i < |entries|
    ensures var e := entries[i];
            IncludedFiles(entries[..i + 1], f) ==
              IncludedFiles(entries[..i], f) + (if e.File? && ShouldInclude(f, e.path) then [e.path] else [])
    ensures var e := entries[i];
            SubDirs(entries[..i + 1]) == SubDirs(entries[..i]) + (if e.Dir? then [e] else [])
  {
    assert entries[..i + 1][..i] == entries[..i];
  }

  /** One more directory of the walk adds its included paths. */
  lemma WalkRound(walk: seq<seq<string>>, i: nat, f: Filter)
    requires i < |walk|
    ensures Kept(Concat(walk[..i + 1]), f) == Kept(Concat(walk[..i]), f) + Kept(walk[i], f)
  {
    assert walk[..i + 1][..i] == walk[..i];
    assert Concat(walk[..i + 1]) == Concat(walk[..i]) + walk[i];
    KeptAppend(Concat(walk[..i]), walk[i], f);
  }

  lemma {:induction false} KeptAppend(a: seq<string>, b: seq<string>, f: Filter)
    ensures Kept(a + b, f) == Kept(a, f) + Kept(b, f)
    decreases |b|
  {
    if b != [] {
      assert (a + b)[..|a + b| - 1] == a + b[..|b| - 1];
      KeptAppend(a, b[..|b| - 1], f);
    } else {
      assert a + b == a;
    }
  }

  /** The walk finds the included non-directory entries of the tree. */
  lemma {:induction false} WalkFiles(n: Node, f: Filter)
    ensures multiset(Kept(Concat(Walk(n)), f)) == TreeFiles(n, f, true)
  {
    if n.Dir? {
      var cs := n.children;
      ConcatAppend([NonDirPaths(cs)], WalkDirs(cs));
      assert Concat([NonDirPaths(cs)]) == NonDirPaths(cs) by {
        assert [NonDirPaths(cs)][..0] == [];
      }
      KeptAppend(NonDirPaths(cs), Concat(WalkDirs(cs)), f);
      WalkDirsFiles(cs, f);
    }
  }

  lemma {:induction false} WalkDirsFiles(cs: seq<Node>, f: Filter)
    ensures multiset(Kept(NonDirPaths(cs), f)) + multiset(Kept(Concat(WalkDirs(cs)), f)) == ChildFiles(cs, f, true)
  {
    if cs != [] {
      var front := cs[..|cs| - 1];
      WalkDirsFiles(front, f);
      if cs[|cs| - 1].Dir? {
        WalkFiles(cs[|cs| - 1], f);
        WalkLastDir(cs, f);
      } else {
        WalkLastOther(cs, f);
      }
    }
  }

  /** The walk of a listing whose last entry is a directory: that directory's walk comes last. */
  lemma WalkLastDir(cs: seq<Node>, f: Filter)
    requires cs != [] && cs[|cs| - 1].Dir?
    requires var front := cs[..|cs| - 1];
             multiset(Kept(NonDirPaths(front), f)) + multiset(Kept(Concat(WalkDirs(front)), f)) == ChildFiles(front, f, true)
    requires multiset(Kept(Concat(Walk(cs[|cs| - 1])), f)) == TreeFiles(cs[|cs| - 1], f, true)
    ensures multiset(Kept(NonDirPaths(cs), f)) + multiset(Kept(Concat(WalkDirs(cs)), f)) == ChildFiles(cs, f, true)
  {
    var front := cs[..|cs| - 1];
    var e := cs[|cs| - 1];
    assert WalkDirs(cs) == WalkDirs(front) + Walk(e);
    ConcatAppend(WalkDirs(front), Walk(e));
    KeptAppend(Concat(WalkDirs(front)), Concat(Walk(e)), f);
    assert NonDirPaths(cs) == NonDirPaths(front);
    assert ChildFiles(cs, f, true) == ChildFiles(front, f, true) + TreeFiles(e, f, true);
    SumAfter(Kept(NonDirPaths(front), f), Kept(Concat(WalkDirs(front)), f), Kept(Concat(Walk(e)), f),
             ChildFiles(front, f, true), TreeFiles(e, f, true));
  }

  /** The walk of a listing whose last entry is not a directory: that entry joins the listing's own paths. */
  lemma WalkLastOther(cs: seq<Node>, f: Filter)
    requires cs != [] && !cs[|cs| - 1].Dir?
    requires var front := cs[..|cs| - 1];
             multiset(Kept(NonDirPaths(front), f)) + multiset(Kept(Concat(WalkDirs(front)), f)) == ChildFiles(front, f, true)
    ensures multiset(Kept(NonDirPaths(cs), f)) + multiset(Kept(Concat(WalkDirs(cs)), f)) == ChildFiles(cs, f, true)
  {
    var front := cs[..|cs| - 1];
    var e := cs[|cs| - 1];
    assert WalkDirs(cs) == WalkDirs(front);
    assert NonDirPaths(cs) == NonDirPaths(front) + [e.path];
    KeptAppend(NonDirPaths(front), [e.path], f);
    assert Kept([e.path], f) == if ShouldInclude(f, e.path) then [e.path] else [] by {
      assert [e.path][..0] == [];
    }
    var own := if ShouldInclude(f, e.path) then multiset{e.path} else multiset{};
    assert ChildFiles(cs, f, true) == ChildFiles(front, f, true) + own;
    SumBefore(Kept(NonDirPaths(front), f), Kept([e.path], f), Kept(Concat(WalkDirs(front)), f),
              ChildFiles(front, f, true), own);
  }

  lemma SumAfter(x: seq<string>, a: seq<string>, b: seq<string>, front: multiset<string>, last: multiset<string>)
    requires multiset(x) + multiset(a) == front && multiset(b) == last
    ensures multiset(x) + multiset(a + b) == front + last
  {
  }

  lemma SumBefore(x: seq<string>, y: seq<string>, a: seq<string>, front: multiset<string>, last: multiset<string>)
    requires multiset(x) + multiset(a) == front && multiset(y) == last
    ensures multiset(x + y) + multiset(a) == front + last
  {
  }

  /** Without special files, counting them or not makes no difference. */
  lemma {:induction false} SpecialsAgree(n: Node, f: Filter)
    requires NoSpecial(n)
    ensures TreeFiles(n, f, true) == TreeFiles(n, f, false)
  {
    if n.Dir? {
      ChildSpecialsAgree(n.children, f);
    }
  }

  lemma {:induction false} ChildSpecialsAgree(cs: seq<Node>, f: Filter)
    requires NoSpecialIn(cs)
    ensures ChildFiles(cs, f, true) == ChildFiles(cs, f, false)
  {
    if cs != [] {
      ChildSpecialsAgree(cs[..|cs| - 1], f);
      SpecialsAgree(cs[|cs| - 1], f);
    }
  }

  lemma {:induction false} PathsOfInsert(x: Entry, s: seq<Entry>)
    ensures multiset(PathsOf(Insert(x, s, EntryLe))) == multiset(PathsOf(s)) + multiset{x.1}
  {
    if s == [] || EntryLe(x, s[0]) {
      assert ([x] + s)[1..] == s;
    } else {
      PathsOfInsert(x, s[1..]);
      assert ([s[0]] + Insert(x, s[1..], EntryLe))[1..] == Insert(x, s[1..], EntryLe);
    }
  }

  lemma {:induction false} PathsOfSort(s: seq<Entry>)
    ensures multiset(PathsOf(Sort(s, EntryLe))) == multiset(PathsOf(s))
  {
    if s != [] {
      PathsOfSort(s[1..]);
      PathsOfInsert(s[0], Sort(s[1..], EntryLe));
    }
  }

  lemma EntryLeOrder()
    ensures TotalPreorder(EntryLe) && Antisymmetric(EntryLe)
  {
    StrLeOrder();
    forall a: Entry, b: Entry, c: Entry | EntryLe(a, b) && EntryLe(b, c)
      ensures EntryLe(a, c)
    {
      assert StrLe(a.1, b.1) && StrLe(b.1, c.1) ==> StrLe(a.1, c.1);
    }
    forall a: Entry, b: Entry
      ensures EntryLe(a, b) || EntryLe(b, a)
    {
      assert StrLe(a.1, b.1) || StrLe(b.1, a.1);
    }
    forall a: Entry, b: Entry | EntryLe(a, b) && EntryLe(b, a)
      ensures a == b
    {
      assert StrLe(a.1, b.1) && StrLe(b.1, a.1) ==> a.1 == b.1;
    }
  }
}
