/**
 * The dynamically typed values the manifests, stores and serializers pass
 * around: what YAML and JSON documents load into.  Python's truthiness and
 * hashability are spelled out, since the source branches on both.  Text
 * formats (JSON, YAML, UTF-8) are an encode/decode pair handed in from
 * outside, never implemented here.
 */
module Values {
  import opened Wrappers
  import opened OrderedDict

  datatype Value =
    | Null
    | Bool(b: bool)
    | Int(i: int)
    | Str(s: string)
    | List(items: seq<Value>)
    | Map(entries: Dict<Value>)

  /** `bool(v)`: empty containers, "", 0, False and None are false. */
  predicate Truthy(v: Value) {
    match v
    case Null => false
    case Bool(b) => b
    case Int(i) => i != 0
    case Str(s) => s != ""
    case List(items) => items != []
    case Map(entries) => entries != []
  }

  /** Lists and dicts cannot be dict keys or set members: Python raises `TypeError`. */
  predicate Hashable(v: Value) {
    !v.List? && !v.Map?
  }

  /** `v or default`. */
  function Or(v: Value, default: Value): (r: Value)
    ensures Truthy(v) ==> r == v
    ensures !Truthy(v) ==> r == default
  {
    if Truthy(v) then v else default
  }

  /** The number a bool or an int stands for in arithmetic and comparisons. */
  function Numeric(v: Value): int
    requires v.Int? || v.Bool?
  {
    if v.Int? then v.i else if v.b then 1 else 0
  }

  /**
   * Python's `==` on loaded values: a bool equals the int it stands for
   * (`True == 1`); other values compare structurally.
   */
  predicate PyEquals(a: Value, b: Value) {
    if (a.Int? || a.Bool?) && (b.Int? || b.Bool?) then Numeric(a) == Numeric(b) else a == b
  }

  /** A text format: an encoder and a decoder that may refuse its input. */
  datatype Codec<!T> = Codec(encode: T -> string, decode: string -> Option<T>)

  /** Decoding what was encoded gives the value back. */
  ghost predicate RoundTrips<T(!new)>(c: Codec<T>) {
    forall v: T :: c.decode(c.encode(v)) == Some(v)
  }

  /** UTF-8: text to bytes, and bytes back to text where they are valid. */
  datatype Utf8 = Utf8(encode: string -> seq<bv8>, decode: seq<bv8> -> Option<string>)

  /** Decoding encoded text gives the text back. */
  ghost predicate Utf8RoundTrips(u: Utf8) {
    forall s: string :: u.decode(u.encode(s)) == Some(s)
  }
}
