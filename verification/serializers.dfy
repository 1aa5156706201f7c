/**
 * The serializer indexes: which serializer handles a file extension.  Two
 * generations exist.  `rctl2/serializers/` lets the earliest serializer
 * given win a shared extension and falls back to a "*" wildcard;
 * `rctl2/kvstores/serializers/` and `rctl2/kvstores/serializers.py` let the
 * last one win and match exactly.  A serializer is known here by its name
 * and its extension set; JSON and YAML parsing stay outside the model.
 */
module Serializers {
  import opened Wrappers
  import opened Values

  datatype Serializer = Serializer(name: string, extensions: set<string>)

  /** The base class: no extensions. */
  const AbstractSerializer := Serializer("AbstractSerializer", {})
  const JsonSerializer := Serializer("JsonSerializer", {"json"})
  const YamlSerializer := Serializer("YamlSerializer", {"yaml", "yml"})
  /** Declared without extensions of its own. */
  const TomlSerializer := Serializer("TomlSerializer", {})
  const StrSerializer := Serializer("StrSerializer", {"text"})
  const BytesSerializer := Serializer("BytesSerializer", {"bin"})
  /** The catch-all of `rctl2/serializers`. */
  const NullSerializer := Serializer("NullSerializer", {"*"})
  /** The pass-through serializer of the key-value stores. */
  const KvNullSerializer := Serializer("NullSerializer", {"txt"})
  const TextSerializer := Serializer("TextSerializer", {"txt"})

  /** `match` of `rctl2/serializers/abc.py`: its own extension, or anything when it claims "*". */
  function MatchWild(s: Serializer, ext: string): (r: Option<Serializer>)
    ensures r.Some? <==> ext in s.extensions || "*" in s.extensions
    ensures r.Some? ==> r.value == s
  {
    if ext in s.extensions then Some(s)
    else if "*" in s.extensions then Some(s)
    else None
  }

  /** `match` of the key-value serializers: exactly its own extensions; "*" is an ordinary one. */
  function MatchExact(s: Serializer, ext: string): (r: Option<Serializer>)
    ensures r.Some? <==> ext in s.extensions
    ensures r.Some? ==> r.value == s
  {
    if ext in s.extensions then Some(s) else None
  }

  /** The base class never matches; the catch-all always does, but only in the older generation. */
  lemma MatchExamples(ext: string)
    ensures MatchWild(AbstractSerializer, ext).None? && MatchExact(AbstractSerializer, ext).None?
    ensures MatchWild(NullSerializer, ext) == Some(NullSerializer)
    ensures MatchExact(NullSerializer, ext).Some? <==> ext == "*"
  {
  }

  /** The base `load` and `dump`: not implemented. */
  function BaseLoad(): (r: Result<Value>)
    ensures r.Raises(NotImplementedError)
  {
    Raise(NotImplementedError, "")
  }

  function BaseDump(): (r: Result<()>)
    ensures r.Raises(NotImplementedError)
  {
    Raise(NotImplementedError, "")
  }

  /** An extension index: extension to serializer. */
  type Index = map<string, Serializer>

  /** `index[ext] = s` for every extension `ext` in `exts`. */
  function Claim(index: Index, exts: set<string>, s: Serializer): (r: Index)
    ensures r.Keys == index.Keys + exts
    ensures forall e :: e in exts ==> r[e] == s
    ensures forall e :: e in index && e !in exts ==> r[e] == index[e]
  {
    map e | e in index.Keys + exts :: if e in exts then s else index[e]
  }

  /**
   * The index `from_serializers` builds in `rctl2/serializers/basics.py`,
   * walking the serializers in reverse so that earlier ones overwrite.
   */
  function FirstWins(ss: seq<Serializer>): Index
    decreases |ss|
  {
    if ss == [] then map[] else Claim(FirstWins(ss[1..]), ss[0].extensions, ss[0])
  }

  /** The index of the key-value serializers: walked forwards, later ones overwrite. */
  function LastWins(ss: seq<Serializer>): Index
    decreases |ss|
  {
    if ss == [] then map[] else Claim(LastWins(ss[..|ss| - 1]), ss[|ss| - 1].extensions, ss[|ss| - 1])
  }

  /** An extension is indexed iff some serializer claims it; it maps to the earliest such one. */
  lemma {:induction false} FirstWinsSpec(ss: seq<Serializer>, ext: string)
    ensures ext in FirstWins(ss) <==> exists i :: 0 <= i < |ss| && ext in ss[i].extensions
    ensures ext in FirstWins(ss) ==>
              exists i :: (0 <= i < |ss| && ext in ss[i].extensions && FirstWins(ss)[ext] == ss[i] &&
                           forall j :: 0 <= j < i ==> ext !in ss[j].extensions)
    decreases |ss|
  {
    if ss != [] {
      FirstWinsSpec(ss[1..], ext);
      if ext in ss[0].extensions {
        assert FirstWins(ss)[ext] == ss[0];
      } else if ext in FirstWins(ss[1..]) {
        var i :| 0 <= i < |ss[1..]| && ext in ss[1..][i].extensions &&
                 FirstWins(ss[1..])[ext] == ss[1..][i] && forall j :: 0 <= j < i ==> ext !in ss[1..][j].extensions;
        assert ss[i + 1] == ss[1..][i];
        forall j | 0 <= j < i + 1 ensures ext !in ss[j].extensions {
          if j > 0 {
            assert ss[j] == ss[1..][j - 1];
          }
        }
      } else {
        forall i | 0 <= i < |ss| ensures ext !in ss[i].extensions {
          if i > 0 {
            assert ss[i] == ss[1..][i - 1];
          }
        }
      }
    }
  }

  /** An extension is indexed iff some serializer claims it; it maps to the last such one. */
  lemma {:induction false} LastWinsSpec(ss: seq<Serializer>, ext: string)
    ensures ext in LastWins(ss) <==> exists i :: 0 <= i < |ss| && ext in ss[i].extensions
    ensures ext in LastWins(ss) ==>
              exists i :: (0 <= i < |ss| && ext in ss[i].extensions && LastWins(ss)[ext] == ss[i] &&
                           forall j :: i < j < |ss| ==> ext !in ss[j].extensions)
    decreases |ss|
  {
    if ss != [] {
      var init := ss[..|ss| - 1];
      LastWinsSpec(init, ext);
      if ext in ss[|ss| - 1].extensions {
        assert LastWins(ss)[ext] == ss[|ss| - 1];
      } else if ext in LastWins(init) {
        var i :| 0 <= i < |init| && ext in init[i].extensions &&
                 LastWins(init)[ext] == init[i] && forall j :: i < j < |init| ==> ext !in init[j].extensions;
        assert ss[i] == init[i];
        forall j | i < j < |ss| ensures ext !in ss[j].extensions {
          if j < |ss| - 1 {
            assert ss[j] == init[j];
          }
        }
      } else {
        forall i | 0 <= i < |ss| ensures ext !in ss[i].extensions {
          if i < |ss| - 1 {
            assert ss[i] == init[i];
          }
        }
      }
    }
  }

  /** For a shared extension the two generations pick opposite ends. */
  lemma SharedExtension()
    ensures FirstWins([KvNullSerializer, TextSerializer])["txt"] == KvNullSerializer
    ensures LastWins([KvNullSerializer, TextSerializer])["txt"] == TextSerializer
  {
    assert LastWins([KvNullSerializer, TextSerializer][..1]) == LastWins([KvNullSerializer]);
  }

  /** The index filled in, one extension at a time, for one serializer. */
  method ClaimAll(index: Index, s: Serializer) returns (r: Index)
    ensures r == Claim(index, s.extensions, s)
  {
    r := index;
    var rest := s.extensions;
    while rest != {}
      invariant rest <= s.extensions
      invariant r == Claim(index, s.extensions - rest, s)
      decreases rest
    {
      var e :| e in rest;
      r := r[e := s];
      rest := rest - {e};
    }
    assert s.extensions - rest == s.extensions;
  }

  /** `MultiSerializer.from_serializers` of `rctl2/serializers/basics.py`. */
  method FromSerializersFirstWins(ss: seq<Serializer>) returns (index: Index)
    ensures index == FirstWins(ss)
  {
    index := map[];
    var i := |ss|;
    while i > 0
      invariant 0 <= i <= |ss|
      invariant index == FirstWins(ss[i..])
    {
      i := i - 1;
      assert ss[i..][1..] == ss[i + 1..];
      index := ClaimAll(index, ss[i]);
    }
  }

  /** `MultiSerializer.from_serializers` of the key-value serializers. */
  method FromSerializersLastWins(ss: seq<Serializer>) returns (index: Index)
    ensures index == LastWins(ss)
  {
    index := map[];
    for i := 0 to |ss|
      invariant index == LastWins(ss[..i])
    {
      assert ss[..i + 1][..i] == ss[..i];
      index := ClaimAll(index, ss[i]);
    }
    assert ss[..|ss|] == ss;
  }

  /**
   * `MultiSerializer.match` of `rctl2/serializers/basics.py`: the exact
   * entry, else the "*" entry, else nothing.
   */
  function MultiMatchWild(index: Index, ext: string): (r: Option<Serializer>)
    ensures ext in index ==> r == Some(index[ext])
    ensures ext !in index && "*" in index ==> r == Some(index["*"])
    ensures ext !in index && "*" !in index ==> r == None
  {
    if ext in index then Some(index[ext])
    else if "*" in index then Some(index["*"])
    else None
  }

  /** `MultiSerializer.match` of the key-value serializers: the exact entry only. */
  function MultiMatchExact(index: Index, ext: string): (r: Option<Serializer>)
    ensures r.Some? <==> ext in index
    ensures r.Some? ==> r.value == index[ext]
  {
    if ext in index then Some(index[ext]) else None
  }

  /** With the catch-all among them, the older index finds a serializer for every extension. */
  lemma CatchAllMatchesEverything(ss: seq<Serializer>, ext: string)
    requires NullSerializer in ss
    ensures MultiMatchWild(FirstWins(ss), ext).Some?
  {
    var i :| 0 <= i < |ss| && ss[i] == NullSerializer;
    FirstWinsSpec(ss, "*");
  }

  /**
   * `load_by_ext` and `dump_by_ext`: nothing matching is a
   * NotImplementedError; otherwise the matched serializer's operation runs
   * on the arguments unchanged.
   */
  function ByExt<A, B>(index: Index, ext: string, op: (Serializer, A) -> Result<B>, arg: A): (r: Result<B>)
    ensures ext !in index ==> r.Raises(NotImplementedError)
    ensures ext in index ==> r == op(index[ext], arg)
  {
    match MultiMatchExact(index, ext)
    case None => Raise(NotImplementedError, "")
    case Some(s) => op(s, arg)
  }

  /** What a file read gives, or what is handed to `dump`: text, bytes or another value. */
  datatype Payload = PText(text: string) | PBytes(bytes: seq<bv8>) | POther(v: Value)

  /**
   * `StrSerializer`: bytes are decoded as UTF-8, text passes, anything else
   * is a ValueError.  `load` applies it to what was read, `dump` to what it
   * writes.
   */
  function AsText(p: Payload, utf8: Utf8): (r: Result<string>)
    ensures p.PText? ==> r == Ok(p.text)
    ensures p.PBytes? && utf8.decode(p.bytes).Some? ==> r == Ok(utf8.decode(p.bytes).value)
    ensures p.POther? || (p.PBytes? && utf8.decode(p.bytes).None?) ==> r.Raises(ValueError)
  {
    match p
    case PText(s) => Ok(s)
    case PBytes(b) =>
      (match utf8.decode(b)
       case Some(s) => Ok(s)
       case None => Raise(ValueError, "'utf-8' codec can't decode"))
    case POther(_) => Raise(ValueError, "")
  }

  /** `BytesSerializer`: text is encoded as UTF-8, bytes pass, anything else is a ValueError. */
  function AsBytes(p: Payload, utf8: Utf8): (r: Result<seq<bv8>>)
    ensures p.PText? ==> r == Ok(utf8.encode(p.text))
    ensures p.PBytes? ==> r == Ok(p.bytes)
    ensures p.POther? ==> r.Raises(ValueError)
  {
    match p
    case PText(s) => Ok(utf8.encode(s))
    case PBytes(b) => Ok(b)
    case POther(_) => Raise(ValueError, "")
  }

  /** What a bytes serializer writes, a string serializer reads back as the original text. */
  lemma BytesThenText(s: string, utf8: Utf8)
    requires Utf8RoundTrips(utf8)
    ensures AsText(PBytes(AsBytes(PText(s), utf8).value), utf8) == Ok(s)
  {
  }

  /** Both text serializers agree on text and on the bytes of a text. */
  lemma TextIsBytesOfText(s: string, utf8: Utf8)
    requires Utf8RoundTrips(utf8)
    ensures AsText(PText(s), utf8) == AsText(PBytes(utf8.encode(s)), utf8)
  {
  }
}
