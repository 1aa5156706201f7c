/**
 * `DictFileSystem` (`rctl2/filesystems/_dict.py`): a read-only filesystem
 * whose files are the keys of a dict of texts, all at the root.  Built with
 * `cache=True` it holds a copy of the dict; otherwise it reads the caller's
 * dict itself, so later changes to that dict show through.
 */
module DictFs {
  import opened Wrappers
  import opened OrderedDict

  /** An `info` record: the name, the size (always None here) and the type. */
  datatype Info = Info(name: string, size: Option<int>, kind: string)

  /** One element of an `ls` or `find` listing: an info record or a bare name. */
  datatype Entry = Detail(info: Info) | Name(name: string)

  /** What `open` hands back: the text itself, or the UTF-8 encoding of a text. */
  datatype Stream = TextStream(text: string) | Utf8Stream(encodes: string)

  /** The caller's dict, which the caller may go on changing. */
  class SourceDict {
    var entries: Dict<string>

    constructor (entries: Dict<string>)
      ensures this.entries == entries
    {
      this.entries := entries;
    }

    /** `source[k] = v`. */
    method Put(k: string, v: string)
      modifies this
      ensures entries == Set(old(entries), k, v)
    {
      entries := Set(entries, k, v);
    }
  }

  /** The data a `DictFileSystem` reads: its own copy, or the caller's dict. */
  datatype DictFileSystem = Cached(snapshot: Dict<string>) | Live(source: SourceDict)

  function Footprint(fs: DictFileSystem): set<object> {
    if fs.Live? then {fs.source} else {}
  }

  /** `DictFileSystem(data, cache)`. */
  function New(source: SourceDict, cache: bool): (fs: DictFileSystem)
    reads source
    ensures fs.Cached? <==> cache
    ensures fs.Cached? ==> fs.snapshot == source.entries
    ensures fs.Live? ==> fs.source == source
  {
    if cache then Cached(source.entries) else Live(source)
  }

  /** `self._data`. */
  function Data(fs: DictFileSystem): Dict<string>
    reads Footprint(fs)
  {
    if fs.Cached? then fs.snapshot else fs.source.entries
  }

  /** `info`: a record for a key of the data; anything else is not found. */
  function InfoOf(fs: DictFileSystem, path: string): (r: Result<Info>)
    reads Footprint(fs)
    ensures r.Ok? <==> path in Keys(Data(fs))
    ensures r.Ok? ==> r.value == Info(path, None, "file")
    ensures r.Err? ==> r == Raise(FileNotFoundError, path)
  {
    if path !in Keys(Data(fs)) then Raise(FileNotFoundError, path)
    else Ok(Info(path, None, "file"))
  }

  /** `exists`. */
  predicate Exists(fs: DictFileSystem, path: string)
    reads Footprint(fs)
  {
    path in Keys(Data(fs))
  }

  /** The info records of the given keys, in order. */
  function Details(keys: seq<string>): (r: seq<Entry>)
    ensures |r| == |keys|
    ensures forall i :: 0 <= i < |keys| ==> r[i] == Detail(Info(keys[i], None, "file"))
  {
    if keys == [] then [] else [Detail(Info(keys[0], None, "file"))] + Details(keys[1..])
  }

  /** The bare names of the given keys, in order. */
  function Names(keys: seq<string>): (r: seq<Entry>)
    ensures |r| == |keys|
    ensures forall i :: 0 <= i < |keys| ==> r[i] == Name(keys[i])
  {
    if keys == [] then [] else [Name(keys[0])] + Names(keys[1..])
  }

  /** The name an entry of a listing stands for. */
  function EntryName(e: Entry): string {
    if e.Detail? then e.info.name else e.name
  }

  /**
   * `ls`: the root ("") lists every key in insertion order, as info records
   * or names; any other path lists nothing.
   */
  function Ls(fs: DictFileSystem, path: string, detail: bool): (r: seq<Entry>)
    reads Footprint(fs)
    ensures path != "" ==> r == []
    ensures path == "" ==> |r| == |Data(fs)|
    ensures path == "" ==> forall i :: 0 <= i < |r| ==> EntryName(r[i]) == Data(fs)[i].0
    ensures path == "" ==> forall i :: 0 <= i < |r| ==> (r[i].Detail? <==> detail)
    ensures path == "" && detail ==> forall i :: 0 <= i < |r| ==> r[i].info == Info(Data(fs)[i].0, None, "file")
  {
    if path == "" then
      if detail then Details(Keys(Data(fs))) else Names(Keys(Data(fs)))
    else []
  }

  /** Every record `ls("")` lists is what `info` says of that name. */
  lemma LsAgreesWithInfo(fs: DictFileSystem, i: int)
    requires 0 <= i < |Ls(fs, "", true)|
    ensures InfoOf(fs, Ls(fs, "", true)[i].info.name) == Ok(Ls(fs, "", true)[i].info)
  {
    assert Data(fs)[i].0 == Keys(Data(fs))[i];
  }

  /** `find`: nothing below a non-empty path; the root listing for "". */
  function Find(fs: DictFileSystem, path: string, detail: bool): (r: seq<Entry>)
    reads Footprint(fs)
    ensures path != "" ==> r == []
    ensures path == "" ==> r == Ls(fs, "", detail)
  {
    if path != "" then [] else Ls(fs, path, detail)
  }

  /** `open`: "r" gives the text, "rb" its UTF-8 bytes; other modes are refused. */
  function Open(fs: DictFileSystem, path: string, mode: string): (r: Result<Stream>)
    reads Footprint(fs)
    ensures mode != "r" && mode != "rb" ==> r.Raises(ValueError)
    ensures (mode == "r" || mode == "rb") && !Exists(fs, path) ==> r == Raise(FileNotFoundError, path)
    ensures (mode == "r" || mode == "rb") && Exists(fs, path) ==>
              var text := Get(Data(fs), path).value;
              r == Ok(if mode == "r" then TextStream(text) else Utf8Stream(text))
  {
    if mode == "r" || mode == "rb" then
      match Get(Data(fs), path)
      case None => Raise(FileNotFoundError, path)
      case Some(text) => Ok(if mode == "r" then TextStream(text) else Utf8Stream(text))
    else
      Raise(ValueError, "Unsupported mode: " + mode + ". Supported modes are 'r', 'rb', 'w', 'wb'")
  }

  /** A key whose text the filesystem opens is a key it reports as existing. */
  lemma OpenIffExists(fs: DictFileSystem, path: string)
    ensures Open(fs, path, "r").Ok? <==> Exists(fs, path)
    ensures Open(fs, path, "r").Ok? <==> InfoOf(fs, path).Ok?
  {
  }

  /**
   * A filesystem built with `cache=True` keeps the data as it was when it
   * was built; one built with `cache=False` sees a later write to the
   * caller's dict.
   */
  method PutAfterBuild(source: SourceDict, k: string, v: string) returns (cached: DictFileSystem, live: DictFileSystem)
    modifies source
    ensures Data(cached) == old(source.entries)
    ensures Data(live) == Set(old(source.entries), k, v)
    ensures Exists(live, k)
  {
    cached := New(source, true);
    live := New(source, false);
    source.Put(k, v);
    SetKeys(old(source.entries), k, v);
  }
}
