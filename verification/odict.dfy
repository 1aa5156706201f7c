/**
 * Python's insertion-ordered `dict` with string keys, as a sequence of (key, value) entries.
 * Assigning to a present key keeps its position and replaces its value;
 * assigning to a new key appends it.
 */
module OrderedDict {
  import opened Wrappers

  type Dict<V> = seq<(string, V)>

  function Keys<V>(d: Dict<V>): (r: seq<string>)
    ensures |r| == |d|
    ensures forall i :: 0 <= i < |d| ==> r[i] == d[i].0
  {
    if d == [] then [] else [d[0].0] + Keys(d[1..])
  }

  function Values<V>(d: Dict<V>): (r: seq<V>)
    ensures |r| == |d|
    ensures forall i :: 0 <= i < |d| ==> r[i] == d[i].1
  {
    if d == [] then [] else [d[0].1] + Values(d[1..])
  }

  /** No key appears twice: every dict the source builds has this shape. */
  predicate Unique<V>(d: Dict<V>) {
    forall i, j :: 0 <= i < j < |d| ==> d[i].0 != d[j].0
  }

  /** `d.get(k)`: the value of the first entry with key `k`. */
  function Get<V>(d: Dict<V>, k: string): (r: Option<V>)
    ensures r.Some? <==> k in Keys(d)
    ensures r.Some? ==> exists i :: 0 <= i < |d| && d[i] == (k, r.value)
  {
    if d == [] then None
    else if d[0].0 == k then Some(d[0].1)
    else
      var r := Get(d[1..], k);
      assert r.Some? ==> exists i :: 0 <= i < |d[1..]| && d[1..][i] == (k, r.value);
      r
  }

  /** `d[k] = v`. */
  function Set<V>(d: Dict<V>, k: string, v: V): Dict<V> {
    if d == [] then [(k, v)]
    else if d[0].0 == k then [(k, v)] + d[1..]
    else [d[0]] + Set(d[1..], k, v)
  }

  /** After `d[k] = v` the key order is unchanged, unless `k` is new: then it comes last. */
  lemma {:induction false} SetKeys<V>(d: Dict<V>, k: string, v: V)
    ensures Keys(Set(d, k, v)) == if k in Keys(d) then Keys(d) else Keys(d) + [k]
  {
    if d != [] {
      assert Keys(d) == [d[0].0] + Keys(d[1..]);
      if d[0].0 != k {
        SetKeys(d[1..], k, v);
        assert Keys(Set(d, k, v)) == [d[0].0] + Keys(Set(d[1..], k, v));
      } else {
        assert Keys(Set(d, k, v)) == [k] + Keys(d[1..]);
      }
    }
  }

  /** After `d[k] = v`, `k` maps to `v` and every other key keeps its value. */
  lemma {:induction false} SetGet<V>(d: Dict<V>, k: string, v: V, j: string)
    ensures Get(Set(d, k, v), j) == if j == k then Some(v) else Get(d, j)
  {
    if d != [] && d[0].0 != k {
      SetGet(d[1..], k, v, j);
    }
  }

  /** `d[k] = v` never duplicates a key. */
  lemma SetUnique<V>(d: Dict<V>, k: string, v: V)
    requires Unique(d)
    ensures Unique(Set(d, k, v))
  {
    var r := Set(d, k, v);
    SetKeys(d, k, v);
    forall i, j | 0 <= i < j < |r| ensures r[i].0 != r[j].0 {
      assert Keys(r)[i] == r[i].0 && Keys(r)[j] == r[j].0;
      if j < |d| {
        assert Keys(d)[i] == d[i].0 && Keys(d)[j] == d[j].0;
      } else {
        assert Keys(d)[i] == d[i].0;
      }
    }
  }

  /** The value of the LAST pair with key `k`, if any. */
  function LastValue<V>(ps: seq<(string, V)>, k: string): Option<V> {
    if ps == [] then None
    else if ps[|ps| - 1].0 == k then Some(ps[|ps| - 1].1)
    else LastValue(ps[..|ps| - 1], k)
  }

  /** The keys of `ks` in order of first occurrence, after those already `seen`. */
  function Dedup(seen: seq<string>, ks: seq<string>): seq<string>
    decreases |ks|
  {
    if ks == [] then seen
    else Dedup(if ks[0] in seen then seen else seen + [ks[0]], ks[1..])
  }

  /** `dict(pairs)`, starting from the entries of `acc`. */
  function FromPairsInto<V>(acc: Dict<V>, ps: seq<(string, V)>): Dict<V>
    decreases |ps|
  {
    if ps == [] then acc else FromPairsInto(Set(acc, ps[0].0, ps[0].1), ps[1..])
  }

  /** `dict(pairs)`. */
  function FromPairs<V>(ps: seq<(string, V)>): Dict<V> {
    FromPairsInto([], ps)
  }

  /**
   * `dict(pairs)` keeps one entry per key, in order of first appearance,
   * holding the value of the key's last pair.
   */
  lemma {:induction false} FromPairsSpec<V>(ps: seq<(string, V)>)
    ensures Unique(FromPairs(ps))
    ensures Keys(FromPairs(ps)) == Dedup([], Keys(ps))
    ensures forall k :: Get(FromPairs(ps), k) == LastValue(ps, k)
  {
    FromPairsIntoSpec([], ps);
    forall k ensures Get(FromPairs(ps), k) == LastValue(ps, k) {
      assert LastValue(ps, k).None? ==> Get<V>([], k).None?;
    }
  }

  lemma {:induction false} FromPairsIntoSpec<V>(acc: Dict<V>, ps: seq<(string, V)>)
    requires Unique(acc)
    ensures Unique(FromPairsInto(acc, ps))
    ensures Keys(FromPairsInto(acc, ps)) == Dedup(Keys(acc), Keys(ps))
    ensures forall k :: Get(FromPairsInto(acc, ps), k) ==
                        if LastValue(ps, k).Some? then LastValue(ps, k) else Get(acc, k)
    decreases |ps|
  {
    if ps != [] {
      var acc' := Set(acc, ps[0].0, ps[0].1);
      SetKeys(acc, ps[0].0, ps[0].1);
      SetUnique(acc, ps[0].0, ps[0].1);
      FromPairsIntoSpec(acc', ps[1..]);
      assert Keys(ps) == [ps[0].0] + Keys(ps[1..]);
      forall k ensures Get(FromPairsInto(acc, ps), k) ==
                       if LastValue(ps, k).Some? then LastValue(ps, k) else Get(acc, k)
      {
        LastValueCons(ps, k);
        SetGet(acc, ps[0].0, ps[0].1, k);
      }
    }
  }

  /** The last value of a pair list, looked up from the front. */
  lemma {:induction false} LastValueCons<V>(ps: seq<(string, V)>, k: string)
    requires ps != []
    ensures LastValue(ps, k) ==
            if LastValue(ps[1..], k).Some? then LastValue(ps[1..], k)
            else if ps[0].0 == k then Some(ps[0].1) else None
    decreases |ps|
  {
    if |ps| > 1 && ps[|ps| - 1].0 != k {
      LastValueCons(ps[..|ps| - 1], k);
      assert ps[..|ps| - 1][1..] == ps[1..][..|ps[1..]| - 1];
    }
  }
}
