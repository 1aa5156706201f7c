/**
 * The Vault-backed filesystem of `rctl2/filesystems/_vault.py`: the
 * constructor's argument check, `exclude_none`, the secret write that wraps
 * non-JSON text, `_info_dir`, `open`'s mode dispatch, `rm`'s guard, and the
 * write buffer `VaultWriteIO`, which sends its text to Vault once, on its
 * first `close`.  The KV secret engine is a map from path to the versions
 * written there, newest last.
 */
module Vault {
  import opened Wrappers
  import opened Strings
  import opened OrderedDict
  import opened Values
  import opened Paths

  /** `exclude_none`: the entries whose value is not None, in order. */
  function ExcludeNone(d: Dict<Value>): (r: Dict<Value>)
    ensures |r| <= |d|
    ensures forall e :: e in r <==> e in d && e.1 != Null
  {
    if d == [] then []
    else (if d[0].1 != Null then [d[0]] else []) + ExcludeNone(d[1..])
  }

  /** Filtering keeps the order: it works piece by piece. */
  lemma {:induction false} ExcludeNoneAppend(a: Dict<Value>, b: Dict<Value>)
    ensures ExcludeNone(a + b) == ExcludeNone(a) + ExcludeNone(b)
    decreases |a|
  {
    if a == [] {
      assert a + b == b;
    } else {
      assert (a + b)[1..] == a[1..] + b;
      ExcludeNoneAppend(a[1..], b);
    }
  }

  /** Arguments none of which is None pass through unchanged. */
  lemma {:induction false} ExcludeNoneKeepsAll(d: Dict<Value>)
    requires forall i :: 0 <= i < |d| ==> d[i].1 != Null
    ensures ExcludeNone(d) == d
    decreases |d|
  {
    if d != [] {
      ExcludeNoneKeepsAll(d[1..]);
    }
  }

  /** How the filesystem gets its client. */
  datatype ClientChoice = GivenClient | NewClient(args: Dict<Value>)

  /**
   * The constructor's check: a client may not come with any connection
   * argument that is not None; without a client, one is built from the
   * arguments that are not None.
   */
  function ChooseClient(hasClient: bool, args: Dict<Value>): (r: Result<ClientChoice>)
    ensures r.Err? <==> hasClient && ExcludeNone(args) != []
    ensures r.Err? ==> r.Raises(ValueError)
    ensures r.Ok? && hasClient ==> r.value == GivenClient
    ensures r.Ok? && !hasClient ==> r.value == NewClient(ExcludeNone(args))
  {
    var given := ExcludeNone(args);
    if hasClient && |given| > 0 then
      Raise(ValueError, "When providing a client, url and token parameters should not be provided")
    else if hasClient then Ok(GivenClient)
    else Ok(NewClient(given))
  }

  /** A client together with a URL is refused, whatever else is given. */
  lemma ClientWithUrlRefused(url: string, rest: Dict<Value>)
    ensures ChooseClient(true, [("url", Str(url))] + rest).Raises(ValueError)
  {
    ExcludeNoneAppend([("url", Str(url))], rest);
  }

  /** The secret `_write_secret` stores for a text: its JSON, or {"value": text}. */
  function SecretData(json: Codec<Value>, content: string): (r: Value)
    ensures json.decode(content).Some? ==> r == json.decode(content).value
    ensures json.decode(content).None? ==> r == Map([("value", Str(content))])
  {
    match json.decode(content)
    case Some(v) => v
    case None => Map([("value", Str(content))])
  }

  /**
   * What the KV version 2 engine does with `SecretData`: it keeps only a
   * map, and refuses any other JSON value (a string, a number, a list) with
   * `InvalidRequest` ("expected a map").
   */
  function StoredSecret(json: Codec<Value>, content: string): (r: Result<Value>)
    ensures r.Ok? <==> json.decode(content).None? || json.decode(content).value.Map?
    ensures r.Ok? ==> r.value == SecretData(json, content)
    ensures r.Err? ==> r.Raises(InvalidRequest)
  {
    var data := SecretData(json, content);
    if data.Map? then Ok(data) else Raise(InvalidRequest, "expected a map")
  }

  /**
   * What was dumped as JSON is stored as the value itself, not wrapped; the
   * engine takes it exactly when it is a map.
   */
  lemma SecretDataOfJson(json: Codec<Value>, v: Value)
    requires RoundTrips(json)
    ensures SecretData(json, json.encode(v)) == v
    ensures StoredSecret(json, json.encode(v)).Ok? <==> v.Map?
    ensures v.Map? ==> StoredSecret(json, json.encode(v)) == Ok(v)
  {
  }

  /** An `info` record: the name, the size and the type. */
  datatype Info = Info(name: string, size: Option<int>, kind: string)

  /** `_info_dir`: the path without its outer slashes, plus one "/", as a directory. */
  function InfoDir(path: string): (r: Info)
    ensures r.kind == "dir" && r.size.None?
    ensures r.name != [] && r.name[|r.name| - 1] == '/'
    ensures r.name[..|r.name| - 1] == Strip(path, '/')
  {
    Info(Strip(path, '/') + "/", None, "dir")
  }

  /** Naming a directory entry twice changes nothing. */
  lemma InfoDirIdempotent(path: string)
    ensures InfoDir(InfoDir(path).name) == InfoDir(path)
  {
    var s := Strip(path, '/');
    StripTrailingSlash(s);
  }

  /** Text with no outer slash, followed by one slash, strips back to itself. */
  lemma StripTrailingSlash(s: string)
    requires s == [] || (s[0] != '/' && s[|s| - 1] != '/')
    ensures Strip(s + "/", '/') == s
  {
    var t := s + "/";
    if s == [] {
      assert LStrip(t, '/') == LStrip([], '/');
    } else {
      assert LStrip(t, '/') == t;
      assert t[..|t| - 1] == s;
    }
  }

  /** The modes `open` accepts: reading or writing, as text or as bytes. */
  datatype OpenMode = ReadMode(binary: bool) | WriteMode(binary: bool)

  /** `open`'s mode check and dispatch. */
  function ParseMode(mode: string): (r: Result<OpenMode>)
    ensures r.Ok? <==> mode in ["r", "rb", "w", "wb"]
    ensures r.Err? ==> r.Raises(ValueError)
    ensures r.Ok? ==> (r.value.ReadMode? <==> mode in ["r", "rb"])
    ensures r.Ok? ==> (r.value.binary <==> mode in ["rb", "wb"])
  {
    if mode == "r" then Ok(ReadMode(false))
    else if mode == "rb" then Ok(ReadMode(true))
    else if mode == "w" then Ok(WriteMode(false))
    else if mode == "wb" then Ok(WriteMode(true))
    else Raise(ValueError, "Unsupported mode: " + mode + ". Supported modes are 'r', 'rb', 'w', 'wb'")
  }

  /** The content of an in-memory buffer: text, or bytes. */
  datatype Chunk = Text(text: string) | Bytes(bytes: seq<bv8>)

  function Length(c: Chunk): nat {
    if c.Text? then |c.text| else |c.bytes|
  }

  /** `buffer.write(data)` on a buffer of the same kind. */
  function Append(c: Chunk, d: Chunk): (r: Chunk)
    requires c.Text? == d.Text?
    ensures r.Text? == c.Text?
    ensures Length(r) == Length(c) + Length(d)
  {
    if c.Text? then Text(c.text + d.text) else Bytes(c.bytes + d.bytes)
  }

  /** What `read(size)` returns from position `pos`: up to `size` items, all of them when `size` is negative. */
  function Slice(c: Chunk, pos: nat, size: int): (r: Chunk)
    requires pos <= Length(c)
    ensures r.Text? == c.Text?
    ensures Length(r) <= Length(c) - pos
  {
    var end := if size < 0 || pos + size > Length(c) then Length(c) else pos + size;
    if c.Text? then Text(c.text[pos..end]) else Bytes(c.bytes[pos..end])
  }

  const ClosedMessage := "I/O operation on closed file"

  /** What is read from a file opened for reading. */
  datatype Handle = Reader(stream: Chunk) | Writer(writer: VaultWriteIO)

  /** `VaultFileSystem`: the secrets under its mount point, each a list of versions. */
  class VaultFileSystem {
    var secrets: map<string, seq<Value>>
    const json: Codec<Value>
    const utf8: Utf8

    /** A filesystem over a mount point that already holds `initial`. */
    constructor (json: Codec<Value>, utf8: Utf8, initial: map<string, seq<Value>>)
      ensures secrets == initial && this.json == json && this.utf8 == utf8
    {
      secrets := initial;
      this.json := json;
      this.utf8 := utf8;
    }

    /** The newest version of the secret at `path`, if any. */
    function Current(path: string): Option<Value>
      reads this
    {
      if path in secrets && secrets[path] != [] then Some(secrets[path][|secrets[path]| - 1]) else None
    }

    /** `exists`: the normalised path holds a secret. */
    predicate Exists(path: string)
      reads this
    {
      Current(NormalizePath(path)).Some?
    }

    /**
     * `_write_secret`: one new version at `path`, holding `SecretData`, when
     * the engine takes it; otherwise `InvalidRequest` and nothing changes.
     */
    method WriteSecret(path: string, content: string) returns (r: Result<()>)
      modifies this
      ensures r.Ok? <==> StoredSecret(json, content).Ok?
      ensures r.Err? ==> r.Raises(InvalidRequest) && secrets == old(secrets)
      ensures r.Ok? ==> secrets == old(secrets)[path := Versions(old(secrets), path) + [SecretData(json, content)]]
      ensures r.Ok? ==> Current(path) == Some(SecretData(json, content))
    {
      match StoredSecret(json, content)
      case Err(e) =>
        r := Err(e);
      case Ok(data) =>
        secrets := secrets[path := Versions(secrets, path) + [data]];
        r := Ok(());
    }

    /**
     * `rm`: recursive removal is not implemented; otherwise every version
     * at the normalised path goes.
     */
    method Rm(path: string, recursive: bool) returns (r: Result<()>)
      modifies this
      ensures recursive <==> r.Err?
      ensures r.Err? ==> r.Raises(NotImplementedError) && secrets == old(secrets)
      ensures r.Ok? ==> secrets == old(secrets) - {NormalizePath(path)} && !Exists(path)
    {
      if recursive {
        return Raise(NotImplementedError, "");
      }
      secrets := secrets - {NormalizePath(path)};
      r := Ok(());
    }

    /**
     * `open`: an unknown mode is refused; reading dumps the newest version
     * of the secret as JSON (encoded to bytes for "rb"); writing hands back
     * a fresh, open writer.
     */
    method Open(path: string, mode: string) returns (r: Result<Handle>)
      ensures r.Err? <==> ParseMode(mode).Err? || (ParseMode(mode).value.ReadMode? && Current(path).None?)
      ensures ParseMode(mode).Err? ==> r.Raises(ValueError)
      ensures ParseMode(mode).Ok? && ParseMode(mode).value.ReadMode? ==>
                if Current(path).None? then r == Raise(FileNotFoundError, "File not found: " + path)
                else var dumped := json.encode(Current(path).value);
                     r == Ok(Reader(if mode == "rb" then Bytes(utf8.encode(dumped)) else Text(dumped)))
      ensures ParseMode(mode).Ok? && ParseMode(mode).value.WriteMode? ==> r.Ok? && r.value.Writer?
      ensures r.Ok? && r.value.Writer? ==>
                fresh(r.value.writer) && r.value.writer.Open() && r.value.writer.fs == this &&
                r.value.writer.path == path && r.value.writer.mode == mode
    {
      var m := ParseMode(mode);
      if m.Err? {
        return Err(m.error);
      }
      if m.value.ReadMode? {
        match Current(path)
        case None =>
          r := Raise(FileNotFoundError, "File not found: " + path);
        case Some(data) =>
          var dumped := json.encode(data);
          r := Ok(Reader(if mode == "rb" then Bytes(utf8.encode(dumped)) else Text(dumped)));
      } else {
        var w := new VaultWriteIO(this, path, mode);
        r := Ok(Writer(w));
      }
    }
  }

  /**
   * `VaultWriteIO`: an in-memory buffer (bytes only for mode "rb", text
   * otherwise) with a position, and a `closed` flag.
   */
  class VaultWriteIO {
    const fs: VaultFileSystem
    const path: string
    const mode: string
    var buffer: Chunk
    var pos: nat
    var closed: bool

    /** The buffer's kind follows the mode, and the position stays at the end. */
    predicate Valid()
      reads this
    {
      (buffer.Bytes? <==> mode == "rb") && pos == Length(buffer)
    }

    /** Freshly opened: valid, empty and not closed. */
    predicate Open()
      reads this
    {
      Valid() && Length(buffer) == 0 && !closed
    }

    constructor (fs: VaultFileSystem, path: string, mode: string)
      ensures this.fs == fs && this.path == path && this.mode == mode
      ensures Open()
    {
      this.fs := fs;
      this.path := path;
      this.mode := mode;
      buffer := if mode == "rb" then Bytes([]) else Text("");
      pos := 0;
      closed := false;
    }

    /**
     * `write`: refused once closed; data of the wrong kind is a TypeError;
     * otherwise appended, answering its length.
     */
    method Write(data: Chunk) returns (r: Result<nat>)
      requires Valid()
      modifies this
      ensures Valid()
      ensures closed == old(closed)
      ensures old(closed) ==> r == Raise(ValueError, ClosedMessage) && buffer == old(buffer)
      ensures !old(closed) && data.Text? != buffer.Text? ==> r.Raises(TypeError) && buffer == old(buffer)
      ensures !old(closed) && data.Text? == old(buffer).Text? ==>
                r == Ok(Length(data)) && buffer == Append(old(buffer), data)
    {
      if closed {
        return Raise(ValueError, ClosedMessage);
      }
      if data.Text? != buffer.Text? {
        return Raise(TypeError, if buffer.Text? then "string argument expected, got 'bytes'"
                                else "a bytes-like object is required, not 'str'");
      }
      buffer := Append(buffer, data);
      pos := Length(buffer);
      r := Ok(Length(data));
    }

    /**
     * `read`: refused once closed; otherwise it reads from the position,
     * which writing leaves at the end, so nothing comes back.
     */
    method Read(size: int) returns (r: Result<Chunk>)
      requires Valid()
      ensures closed ==> r == Raise(ValueError, ClosedMessage)
      ensures !closed ==> r.Ok? && r.value.Text? == buffer.Text? && Length(r.value) == 0
    {
      if closed {
        return Raise(ValueError, ClosedMessage);
      }
      r := Ok(Slice(buffer, pos, size));
    }

    /** `flush`: refused once closed, otherwise nothing to do. */
    method Flush() returns (r: Result<()>)
      ensures closed <==> r.Err?
      ensures r.Err? ==> r == Raise(ValueError, ClosedMessage)
    {
      if closed {
        return Raise(ValueError, ClosedMessage);
      }
      r := Ok(());
    }

    /**
     * `close`: the first call marks the writer closed and writes the
     * buffer's text as one new version of the secret (bytes are decoded
     * first, and text that does not decode is a ValueError after the writer
     * is already closed; a secret the engine refuses is its
     * `InvalidRequest`, also after closing); later calls do nothing.
     */
    method Close() returns (r: Result<()>)
      requires Valid()
      modifies this, fs
      ensures Valid() && closed && buffer == old(buffer)
      ensures old(closed) ==> r.Ok? && fs.secrets == old(fs.secrets)
      ensures !old(closed) && buffer.Text? ==> Written(r, old(fs.secrets), fs.secrets, fs.json, path, buffer.text)
      ensures !old(closed) && buffer.Bytes? ==>
                match fs.utf8.decode(buffer.bytes)
                case None => r.Raises(ValueError) && fs.secrets == old(fs.secrets)
                case Some(text) => Written(r, old(fs.secrets), fs.secrets, fs.json, path, text)
    {
      if closed {
        return Ok(());
      }
      closed := true;
      var content: string;
      if buffer.Text? {
        content := buffer.text;
      } else {
        match fs.utf8.decode(buffer.bytes)
        case None =>
          return Raise(ValueError, "'utf-8' codec can't decode");
        case Some(text) =>
          content := text;
      }
      r := fs.WriteSecret(path, content);
    }
  }

  /** The versions already written at a path. */
  function Versions(secrets: map<string, seq<Value>>, path: string): seq<Value> {
    if path in secrets then secrets[path] else []
  }

  /**
   * The outcome of writing `content` at `path`: one new version holding its
   * `SecretData` when the engine takes it, otherwise `InvalidRequest` and
   * the secrets as they were.
   */
  predicate Written(r: Result<()>, before: map<string, seq<Value>>, after: map<string, seq<Value>>,
                    json: Codec<Value>, path: string, content: string)
  {
    && (r.Ok? <==> StoredSecret(json, content).Ok?)
    && (r.Err? ==> r.Raises(InvalidRequest) && after == before)
    && (r.Ok? ==> after == before[path := Versions(before, path) + [SecretData(json, content)]])
  }

  /**
   * Writing a text through a writer opened with "w" or "wb" and closing it
   * twice writes it once: the first close adds one version holding
   * `SecretData` of the text, or is refused when that is not a map; the
   * second close does nothing.
   */
  method WriteAndCloseTwice(fs: VaultFileSystem, path: string, mode: string, text: string)
      returns (r1: Result<()>, r2: Result<()>)
    requires mode == "w" || mode == "wb"
    modifies fs
    ensures r2.Ok?
    ensures r1.Ok? <==> SecretData(fs.json, text).Map?
    ensures r1.Err? ==> r1.Raises(InvalidRequest) && fs.secrets == old(fs.secrets)
    ensures r1.Ok? ==> fs.secrets == old(fs.secrets)[path := Versions(old(fs.secrets), path) + [SecretData(fs.json, text)]]
  {
    var h := fs.Open(path, mode);
    var w := h.value.writer;
    var n := w.Write(Text(text));
    assert w.buffer == Text(text);
    r1 := w.Close();
    r2 := w.Close();
  }
}
