/**
 * The path helpers of `rctl2/filesystems/utils.py`: `normalize_path`, which
 * every store applies to its keys, and `extract_ext`, which picks the
 * serializer for a path.
 */
module Paths {
  import opened Strings

  /** The segments `normalize_path` keeps: non-empty and not ".". */
  function Keep(segs: seq<string>): (r: seq<string>)
    ensures forall i :: 0 <= i < |r| ==> r[i] != "" && r[i] != "."
    ensures forall x :: x in r ==> x in segs
    ensures |r| <= |segs|
  {
    if segs == [] then []
    else (if segs[0] != "" && segs[0] != "." then [segs[0]] else []) + Keep(segs[1..])
  }

  lemma {:induction false} KeepAppend(a: seq<string>, b: seq<string>)
    ensures Keep(a + b) == Keep(a) + Keep(b)
    decreases |a|
  {
    if a != [] {
      assert (a + b)[1..] == a[1..] + b;
      KeepAppend(a[1..], b);
    } else {
      assert a + b == b;
    }
  }

  /** `re.sub(r"/+", "/", s)`: every run of slashes becomes one. */
  function Collapse(s: string): string {
    if |s| >= 2 && s[0] == '/' && s[1] == '/' then Collapse(s[1..])
    else if s == [] then []
    else [s[0]] + Collapse(s[1..])
  }

  /** `normalize_path`: strip the outer slashes, collapse runs, drop empty and "." segments, rejoin. */
  function NormalizePath(path: string): string {
    var p := Strip(path, '/');
    var p' := Collapse(p);
    Join(Keep(Split(p', '/')), '/')
  }

  /** Splitting after a leading character. */
  lemma SplitCons(x: char, t: string)
    ensures x == '/' ==> Split([x] + t, '/') == [""] + Split(t, '/')
    ensures x != '/' ==> Split([x] + t, '/') == [[x] + Split(t, '/')[0]] + Split(t, '/')[1..]
  {
    assert ([x] + t)[1..] == t;
  }

  /** A trailing separator ends the split with an empty segment. */
  lemma SplitTrailing(u: string)
    ensures Split(u + ['/'], '/') == Split(u, '/') + [""]
  {
    SplitAround(u, "", '/');
    assert u + ['/'] + "" == u + ['/'];
  }

  /** Collapsing keeps the first segment and, apart from empty ones, the others. */
  lemma {:induction false} CollapseSegments(s: string)
    ensures Split(Collapse(s), '/')[0] == Split(s, '/')[0]
    ensures Keep(Split(Collapse(s), '/')[1..]) == Keep(Split(s, '/')[1..])
    decreases |s|, 1
  {
    if |s| >= 2 && s[0] == '/' && s[1] == '/' {
      CollapseRun(s);
    } else if s != [] {
      CollapseOther(s);
    }
  }

  /** A doubled slash at the front is dropped. */
  lemma {:induction false} CollapseRun(s: string)
    requires |s| >= 2 && s[0] == '/' && s[1] == '/'
    ensures Split(Collapse(s), '/')[0] == Split(s, '/')[0]
    ensures Keep(Split(Collapse(s), '/')[1..]) == Keep(Split(s, '/')[1..])
    decreases |s|, 0
  {
    var r := s[1..];
    assert Collapse(s) == Collapse(r);
    CollapseSegments(r);
    assert s == [s[0]] + r;
    SplitCons('/', r);
    assert r == [r[0]] + r[1..];
    SplitCons('/', r[1..]);
    var c := Split(Collapse(r), '/');
    KeepHead(c);
    KeepHead(Split(r, '/'));
  }

  /** Any other first character is kept in front of the collapsed rest. */
  lemma {:induction false} CollapseOther(s: string)
    requires s != [] && !(|s| >= 2 && s[0] == '/' && s[1] == '/')
    ensures Split(Collapse(s), '/')[0] == Split(s, '/')[0]
    ensures Keep(Split(Collapse(s), '/')[1..]) == Keep(Split(s, '/')[1..])
    decreases |s|, 0
  {
    var r := s[1..];
    CollapseSegments(r);
    assert s == [s[0]] + r;
    assert Collapse(s) == [s[0]] + Collapse(r);
    SplitCons(s[0], r);
    SplitCons(s[0], Collapse(r));
    if s[0] == '/' {
      KeepHead(Split(Collapse(r), '/'));
      KeepHead(Split(r, '/'));
    }
  }

  /** The kept segments of a list are those of its head followed by those of its tail. */
  lemma KeepHead(a: seq<string>)
    requires a != []
    ensures Keep(a) == Keep([a[0]]) + Keep(a[1..])
  {
    assert a == [a[0]] + a[1..];
    KeepAppend([a[0]], a[1..]);
  }

  /** Collapsing changes no kept segment. */
  lemma CollapseKeep(s: string)
    ensures Keep(Split(Collapse(s), '/')) == Keep(Split(s, '/'))
  {
    CollapseSegments(s);
    var a := Split(Collapse(s), '/');
    var b := Split(s, '/');
    assert a == [a[0]] + a[1..];
    assert b == [b[0]] + b[1..];
    KeepAppend([a[0]], a[1..]);
    KeepAppend([b[0]], b[1..]);
  }

  /** Stripping slashes changes no kept segment. */
  lemma {:induction false} LStripKeep(s: string)
    ensures Keep(Split(LStrip(s, '/'), '/')) == Keep(Split(s, '/'))
    decreases |s|
  {
    if s != [] && s[0] == '/' {
      LStripKeep(s[1..]);
      SplitCons('/', s[1..]);
      assert s == [s[0]] + s[1..];
    }
  }

  lemma {:induction false} RStripKeep(s: string)
    ensures Keep(Split(RStrip(s, '/'), '/')) == Keep(Split(s, '/'))
    decreases |s|
  {
    if s != [] && s[|s| - 1] == '/' {
      var u := s[..|s| - 1];
      assert s == u + ['/'];
      assert RStrip(s, '/') == RStrip(u, '/');
      RStripKeep(u);
      SplitTrailing(u);
      KeepAppend(Split(u, '/'), [""]);
      assert Keep([""]) == [];
    }
  }

  /** The kept segments of any text contain no slash. */
  lemma KeptSegmentsSlashFree(s: string)
    ensures forall i :: 0 <= i < |Keep(Split(s, '/'))| ==> '/' !in Keep(Split(s, '/'))[i]
  {
    var k := Keep(Split(s, '/'));
    forall i | 0 <= i < |k| ensures '/' !in k[i] {
      assert k[i] in k;
    }
  }

  /**
   * `normalize_path` keeps exactly the non-empty segments other than ".",
   * verbatim and in order: stripping and collapsing change nothing more.
   */
  lemma NormalizeKeepsSegments(path: string)
    ensures NormalizePath(path) == Join(Keep(Split(path, '/')), '/')
  {
    LStripKeep(path);
    RStripKeep(LStrip(path, '/'));
    CollapseKeep(Strip(path, '/'));
  }

  /** A list of segments that `normalize_path` leaves as they are. */
  predicate Normal(segs: seq<string>) {
    forall i :: 0 <= i < |segs| ==> segs[i] != "" && segs[i] != "." && '/' !in segs[i]
  }

  lemma {:induction false} KeepNormal(segs: seq<string>)
    requires Normal(segs)
    ensures Keep(segs) == segs
    decreases |segs|
  {
    if segs != [] {
      KeepNormal(segs[1..]);
    }
  }

  /**
   * The segments of a normalised path are its kept segments: so the result
   * has no empty segment (no leading, trailing or doubled "/") and no "."
   * segment.
   */
  lemma NormalizedSegments(path: string)
    requires Keep(Split(path, '/')) != []
    ensures Split(NormalizePath(path), '/') == Keep(Split(path, '/'))
    ensures Normal(Split(NormalizePath(path), '/'))
  {
    NormalizeKeepsSegments(path);
    KeptSegmentsSlashFree(path);
    SplitJoin(Keep(Split(path, '/')), '/');
  }

  /** A path without segments normalises to "". */
  lemma NormalizedEmpty(path: string)
    requires Keep(Split(path, '/')) == []
    ensures NormalizePath(path) == ""
  {
    NormalizeKeepsSegments(path);
  }

  /** `normalize_path` is idempotent. */
  lemma NormalizeIdempotent(path: string)
    ensures NormalizePath(NormalizePath(path)) == NormalizePath(path)
  {
    var n := NormalizePath(path);
    NormalizeKeepsSegments(path);
    NormalizeKeepsSegments(n);
    var k := Keep(Split(path, '/'));
    if k != [] {
      NormalizedSegments(path);
      KeepNormal(k);
    } else {
      assert n == "";
      assert Split(n, '/') == [""];
    }
  }

  /** Text starting with "/" has an empty first segment. */
  lemma LeadingSlashSegment(n: string)
    requires n != [] && n[0] == '/'
    ensures Split(n, '/')[0] == ""
  {
  }

  /** Text ending with "/" has an empty last segment. */
  lemma TrailingSlashSegment(n: string)
    requires n != [] && n[|n| - 1] == '/'
    ensures var sp := Split(n, '/'); sp[|sp| - 1] == ""
  {
    SplitTrailing(n[..|n| - 1]);
    assert n[..|n| - 1] + ['/'] == n;
  }

  /** Text whose segments are all non-empty neither starts nor ends with "/". */
  lemma NormalHasNoOuterSlash(n: string)
    requires n != [] && Normal(Split(n, '/'))
    ensures n[0] != '/' && n[|n| - 1] != '/'
  {
    var sp := Split(n, '/');
    if n[0] == '/' {
      LeadingSlashSegment(n);
    }
    if n[|n| - 1] == '/' {
      TrailingSlashSegment(n);
    }
  }

  /** A normalised path neither starts nor ends with "/". */
  lemma NormalizedHasNoOuterSlash(path: string)
    ensures var n := NormalizePath(path);
            n == [] || (n[0] != '/' && n[|n| - 1] != '/')
  {
    var n := NormalizePath(path);
    if Keep(Split(path, '/')) == [] {
      NormalizedEmpty(path);
    } else if n != [] {
      NormalizedSegments(path);
      NormalHasNoOuterSlash(n);
    }
  }

  /** The index of the last `c` in `s`, or -1: `s.rfind(c)`. */
  function RFind(s: string, c: char): (r: int)
    ensures -1 <= r < |s|
    ensures r >= 0 ==> s[r] == c
    ensures forall i :: r < i < |s| ==> s[i] != c
  {
    if s == [] then -1
    else if s[|s| - 1] == c then |s| - 1
    else RFind(s[..|s| - 1], c)
  }

  /** `rfind` finds the position after which `c` no longer occurs. */
  lemma {:induction false} RFindAt(s: string, c: char, i: int)
    requires 0 <= i < |s| && s[i] == c
    requires forall j :: i < j < |s| ==> s[j] != c
    ensures RFind(s, c) == i
    decreases |s|
  {
    if i < |s| - 1 {
      RFindAt(s[..|s| - 1], c, i);
    }
  }

  /** Some character of `s[from..to]` is not a dot. */
  predicate HasNonDot(s: string, from: int, to: int)
    requires 0 <= from <= to <= |s|
  {
    exists i :: from <= i < to && s[i] != '.'
  }

  /**
   * `extract_ext`: `os.path.splitext` takes the text from the last "." of
   * the final component, unless everything before that dot in the
   * component is dots; `lstrip(".")` then drops the dot.
   */
  function ExtractExt(path: string): (r: string)
    ensures '.' !in r && '/' !in r
    ensures r != [] ==> |r| < |path| && path[|path| - |r| - 1..] == ['.'] + r
  {
    var sep := RFind(path, '/');
    var dot := RFind(path, '.');
    if dot > sep && HasNonDot(path, sep + 1, dot) then
      AfterLastDot(path, sep, dot);
      LStrip(path[dot..], '.')
    else ""
  }

  /** After the last dot, which follows the last separator, come neither dots nor separators. */
  lemma AfterLastDot(path: string, sep: int, dot: int)
    requires -1 <= sep < dot < |path| && path[dot] == '.'
    requires forall i :: sep < i < |path| ==> path[i] != '/'
    requires forall i :: dot < i < |path| ==> path[i] != '.'
    ensures LStrip(path[dot..], '.') == path[dot + 1..]
    ensures '.' !in path[dot + 1..] && '/' !in path[dot + 1..]
    ensures path[|path| - |path[dot + 1..]| - 1..] == ['.'] + path[dot + 1..]
  {
    var ext := path[dot..];
    var tail := path[dot + 1..];
    assert ext[0] == '.' && ext[1..] == tail;
    assert ext == ['.'] + tail;
    forall i | 0 <= i < |tail|
      ensures tail[i] != '.' && tail[i] != '/'
    {
      assert tail[i] == path[dot + 1 + i];
    }
    assert LStrip(ext, '.') == LStrip(tail, '.');
    assert LStrip(tail, '.') == tail;
  }

  /** A file with a name before its last dot yields the text after it. */
  lemma ExtractExtOfName(dir: string, name: string, ext: string)
    requires '/' !in name && '.' !in ext && '/' !in ext
    requires name != [] && name[0] != '.'
    ensures ExtractExt(dir + "/" + name + "." + ext) == ext
  {
    var p := dir + "/" + name + "." + ext;
    var dot := |dir| + 1 + |name|;
    LastDotAndSlash(dir, name, ext);
    NameHasNonDot(dir, name, ext);
    assert p[dot..] == ['.'] + ext;
    DotSuffix(p, dot, ext);
    ExtractExtAt(p, |dir|, dot);
  }

  /** Where the last separator and the last dot are decides the extension. */
  lemma ExtractExtAt(p: string, sep: int, dot: int)
    requires 0 <= sep < dot < |p|
    requires RFind(p, '/') == sep && RFind(p, '.') == dot && HasNonDot(p, sep + 1, dot)
    ensures ExtractExt(p) == LStrip(p[dot..], '.')
  {
  }

  lemma NameHasNonDot(dir: string, name: string, ext: string)
    requires name != [] && name[0] != '.'
    ensures var p := dir + "/" + name + "." + ext;
            HasNonDot(p, |dir| + 1, |dir| + 1 + |name|)
  {
    var p := dir + "/" + name + "." + ext;
    assert p[|dir| + 1] == name[0];
  }

  lemma DotSuffix(p: string, dot: int, ext: string)
    requires 0 <= dot < |p| && p[dot..] == ['.'] + ext && '.' !in ext
    ensures LStrip(p[dot..], '.') == ext
  {
    assert (['.'] + ext)[1..] == ext;
    if ext != [] {
      assert ext[0] != '.';
    }
  }

  lemma LastDotAndSlash(dir: string, name: string, ext: string)
    requires '/' !in name && '.' !in ext && '/' !in ext
    ensures var p := dir + "/" + name + "." + ext;
            RFind(p, '.') == |dir| + 1 + |name| && RFind(p, '/') == |dir|
  {
    var p := dir + "/" + name + "." + ext;
    var dot := |dir| + 1 + |name|;
    assert p[dot] == '.';
    forall i | dot < i < |p| ensures p[i] != '.' && p[i] != '/' {
      assert p[i] == ext[i - dot - 1];
    }
    RFindAt(p, '.', dot);
    assert p[|dir|] == '/';
    forall i | |dir| < i < dot ensures p[i] != '/' {
      assert p[i] == name[i - |dir| - 1];
    }
    RFindAt(p, '/', |dir|);
  }

  /** A final component made only of dots and the extension (".bashrc") has no extension. */
  lemma ExtractExtOfDotFile(dir: string, rest: string)
    requires '/' !in rest && '.' !in rest
    ensures ExtractExt(dir + "/." + rest) == ""
  {
    var p := dir + "/." + rest;
    var dot := |dir| + 1;
    assert p[dot] == '.';
    forall i | dot < i < |p| ensures p[i] != '.' && p[i] != '/' {
      assert p[i] == rest[i - dot - 1];
    }
    RFindAt(p, '.', dot);
    assert p[|dir|] == '/';
    RFindAt(p, '/', |dir|);
  }
}
