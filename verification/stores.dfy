/**
 * The key-value stores of `rctl2/fsstore.py` and `rctl2/kvstores/`: views of
 * a nested dict, of a directory of files and of the environment as flat
 * (path, value) pairs.  Loading a file's text into a value is a function
 * handed in (the serializer's `load`).
 */
module Stores {
  import opened Wrappers
  import opened Strings
  import opened OrderedDict
  import opened Values
  import opened Paths

  /** The path of a child under `parent`: joined with "/" unless the parent is empty. */
  function Child(parent: string, k: string): string {
    if parent != "" then parent + "/" + k else k
  }

  // ---------------------------------------------------------------------
  // DictKVStore.items: nested keys joined with "/"

  /**
   * `DictKVStore.items` from the `i`-th entry of the dict `v` on: leaves
   * depth-first in insertion order, each under its joined path.
   */
  function ItemsFrom(parent: string, v: Value, i: nat): (r: seq<(string, Value)>)
    requires v.Map? && i <= |v.entries|
    ensures forall j :: 0 <= j < |r| ==> !r[j].1.Map?
    decreases v, |v.entries| - i
  {
    if i == |v.entries| then []
    else
      var (k, x) := v.entries[i];
      (if x.Map? then ItemsFrom(Child(parent, k), x, 0) else [(Child(parent, k), x)])
        + ItemsFrom(parent, v, i + 1)
  }

  /** `DictKVStore(data).items()`. */
  function Items(data: Dict<Value>): seq<(string, Value)> {
    ItemsFrom("", Map(data), 0)
  }

  /** A dict without nested dicts yields exactly its own entries. */
  lemma {:induction false} ItemsOfFlat(parent: string, v: Value, i: nat)
    requires v.Map? && i <= |v.entries|
    requires forall j :: 0 <= j < |v.entries| ==> !v.entries[j].1.Map?
    ensures ItemsFrom(parent, v, i) ==
              seq(|v.entries| - i, j requires 0 <= j < |v.entries| - i =>
                (Child(parent, v.entries[i + j].0), v.entries[i + j].1))
    decreases |v.entries| - i
  {
    if i < |v.entries| {
      ItemsOfFlat(parent, v, i + 1);
    }
  }

  /** An empty nested dict contributes no item. */
  lemma EmptyDictNoItems(parent: string, k: string, rest: Dict<Value>)
    ensures ItemsFrom(parent, Map([(k, Map([]))] + rest), 0) == ItemsFrom(parent, Map(rest), 0)
  {
    var v := Map([(k, Map([]))] + rest);
    ItemsShift(parent, v, Map(rest), 1);
  }

  /** Items from a suffix of the entries are the items of that suffix. */
  lemma {:induction false} ItemsShift(parent: string, v: Value, w: Value, n: nat)
    requires v.Map? && w.Map? && n <= |v.entries| && w.entries == v.entries[n..]
    ensures ItemsFrom(parent, v, n) == ItemsFrom(parent, w, 0)
  {
    ItemsShiftFrom(parent, v, w, n, 0);
  }

  lemma {:induction false} ItemsShiftFrom(parent: string, v: Value, w: Value, n: nat, i: nat)
    requires v.Map? && w.Map? && n <= |v.entries| && w.entries == v.entries[n..]
    requires i <= |w.entries|
    ensures ItemsFrom(parent, v, n + i) == ItemsFrom(parent, w, i)
    decreases |w.entries| - i
  {
    if i < |w.entries| {
      assert v.entries[n + i] == w.entries[i];
      ItemsShiftFrom(parent, v, w, n, i + 1);
    }
  }

  /** A dict nested one level deep is listed under "parent/child". */
  lemma NestedItem(a: string, b: string, x: Value)
    requires a != "" && !x.Map?
    ensures Items([(a, Map([(b, x)]))]) == [(a + "/" + b, x)]
  {
    var inner := Map([(b, x)]);
    var outer := Map([(a, inner)]);
    assert ItemsFrom(a, inner, 1) == [];
    assert ItemsFrom(a, inner, 0) == [(a + "/" + b, x)];
    assert ItemsFrom("", outer, 1) == [];
    assert ItemsFrom("", outer, 0) == ItemsFrom(a, inner, 0) + [];
  }

  /**
   * `x` is a leaf of the nested dict `v` reached through its entries from
   * the `i`-th on: `ks[0]` is the key of one of them, and the rest of `ks`
   * leads from that entry's value down to `x`, one dict per key.
   */
  predicate ReachesFrom(v: Value, i: nat, ks: seq<string>, x: Value)
    decreases |ks|
  {
    v.Map? && ks != [] &&
    exists j :: i <= j < |v.entries| && v.entries[j].0 == ks[0] &&
      if |ks| == 1 then v.entries[j].1 == x && !x.Map?
      else ReachesFrom(v.entries[j].1, 0, ks[1..], x)
  }

  /** The path `_iter` builds below `parent` along the keys `ks`. */
  function JoinFrom(parent: string, ks: seq<string>): string
    decreases |ks|
  {
    if ks == [] then parent else JoinFrom(Child(parent, ks[0]), ks[1..])
  }

  /**
   * The key path of every leaf of `v` from entry `i` on, in the order in
   * which `items` and `flatten` visit the leaves.
   */
  ghost function LeafPaths(v: Value, i: nat): seq<seq<string>>
    requires v.Map? && i <= |v.entries|
    decreases v, |v.entries| - i
  {
    if i == |v.entries| then []
    else
      var (k, x) := v.entries[i];
      var sub := if x.Map? then LeafPaths(x, 0) else [];
      (if x.Map? then seq(|sub|, n requires 0 <= n < |sub| => [k] + sub[n]) else [[k]])
        + LeafPaths(v, i + 1)
  }

  /**
   * `r` lists leaves of `v` from entry `i` on: its `n`-th pair is the leaf
   * reached by the key path `ps[n]`, named by those keys joined below `parent`.
   */
  ghost predicate JoinedListing(parent: string, v: Value, i: nat, ps: seq<seq<string>>, r: seq<(string, Value)>) {
    |ps| == |r| &&
    forall n :: 0 <= n < |r| ==> ReachesFrom(v, i, ps[n], r[n].1) && r[n].0 == JoinFrom(parent, ps[n])
  }

  /** Every item is a leaf of the tree, listed under the path of keys that reaches it. */
  lemma {:induction false} ItemsSound(parent: string, v: Value, i: nat)
    requires v.Map? && i <= |v.entries|
    ensures JoinedListing(parent, v, i, LeafPaths(v, i), ItemsFrom(parent, v, i))
    decreases v, |v.entries| - i
  {
    if i < |v.entries| {
      var (k, x) := v.entries[i];
      var tail := ItemsFrom(parent, v, i + 1);
      var tp := LeafPaths(v, i + 1);
      ItemsSound(parent, v, i + 1);
      forall n | 0 <= n < |tail|
        ensures ReachesFrom(v, i, tp[n], tail[n].1)
      {
        ReachesLater(v, i, tp[n], tail[n].1);
      }
      var head: seq<(string, Value)>, hp: seq<seq<string>>;
      if x.Map? {
        head := ItemsFrom(Child(parent, k), x, 0);
        var sub := LeafPaths(x, 0);
        hp := seq(|sub|, n requires 0 <= n < |sub| => [k] + sub[n]);
        ItemsSound(Child(parent, k), x, 0);
        forall n | 0 <= n < |head|
          ensures ReachesFrom(v, i, hp[n], head[n].1) && head[n].0 == JoinFrom(parent, hp[n])
        {
          ReachesThrough(v, i, sub[n], head[n].1);
          JoinStep(parent, k, sub[n]);
        }
      } else {
        head := [(Child(parent, k), x)];
        hp := [[k]];
        assert ReachesFrom(v, i, [k], x);
        JoinStep(parent, k, []);
      }
      assert ItemsFrom(parent, v, i) == head + tail;
      assert LeafPaths(v, i) == hp + tp;
      JoinedListingAppend(parent, v, i, hp, head, tp, tail);
    }
  }

  /** A leaf reached through the `i`-th entry's dict is reached from entry `i`. */
  lemma ReachesThrough(v: Value, i: nat, ks: seq<string>, y: Value)
    requires v.Map? && i < |v.entries| && ReachesFrom(v.entries[i].1, 0, ks, y)
    ensures ReachesFrom(v, i, [v.entries[i].0] + ks, y)
  {
    assert ([v.entries[i].0] + ks)[1..] == ks;
  }

  /** A leaf reached from a later entry is reached from an earlier one. */
  lemma ReachesLater(v: Value, i: nat, ks: seq<string>, y: Value)
    requires v.Map? && i < |v.entries| && ReachesFrom(v, i + 1, ks, y)
    ensures ReachesFrom(v, i, ks, y)
  {
  }

  /** Joining a path below `parent` joins its rest below the first key's child path. */
  lemma JoinStep(parent: string, k: string, ks: seq<string>)
    ensures JoinFrom(parent, [k] + ks) == JoinFrom(Child(parent, k), ks)
  {
    assert ([k] + ks)[1..] == ks;
  }

  /** Two listings of the same entries' leaves put together are one listing. */
  lemma JoinedListingAppend(parent: string, v: Value, i: nat, hp: seq<seq<string>>, head: seq<(string, Value)>,
                            tp: seq<seq<string>>, tail: seq<(string, Value)>)
    requires |hp| == |head| && |tp| == |tail|
    requires forall n :: 0 <= n < |head| ==> ReachesFrom(v, i, hp[n], head[n].1) && head[n].0 == JoinFrom(parent, hp[n])
    requires forall n :: 0 <= n < |tail| ==> ReachesFrom(v, i, tp[n], tail[n].1) && tail[n].0 == JoinFrom(parent, tp[n])
    ensures JoinedListing(parent, v, i, hp + tp, head + tail)
  {
    forall n | 0 <= n < |head + tail|
      ensures ReachesFrom(v, i, (hp + tp)[n], (head + tail)[n].1) && (head + tail)[n].0 == JoinFrom(parent, (hp + tp)[n])
    {
      if n < |head| {
        assert (head + tail)[n] == head[n] && (hp + tp)[n] == hp[n];
      } else {
        assert (head + tail)[n] == tail[n - |head|] && (hp + tp)[n] == tp[n - |head|];
      }
    }
  }

  /** Every leaf of the tree is listed, under the path of keys that reaches it. */
  lemma {:induction false} ItemsComplete(parent: string, v: Value, i: nat, ks: seq<string>, x: Value)
    requires v.Map? && i <= |v.entries| && ReachesFrom(v, i, ks, x)
    ensures (JoinFrom(parent, ks), x) in ItemsFrom(parent, v, i)
    decreases v, |v.entries| - i
  {
    var j :| i <= j < |v.entries| && v.entries[j].0 == ks[0] &&
             if |ks| == 1 then v.entries[j].1 == x && !x.Map? else ReachesFrom(v.entries[j].1, 0, ks[1..], x);
    var (k, y) := v.entries[i];
    var head: seq<(string, Value)> := if y.Map? then ItemsFrom(Child(parent, k), y, 0) else [(Child(parent, k), y)];
    assert ItemsFrom(parent, v, i) == head + ItemsFrom(parent, v, i + 1);
    if j == i {
      assert JoinFrom(parent, ks) == JoinFrom(Child(parent, k), ks[1..]);
      if |ks| == 1 {
        assert head[0] == (JoinFrom(parent, ks), x);
      } else {
        ItemsComplete(Child(parent, k), y, 0, ks[1..], x);
      }
    } else {
      assert ReachesFrom(v, i + 1, ks, x);
      ItemsComplete(parent, v, i + 1, ks, x);
    }
  }

  /**
   * `DictKVStore(data).items()` lists exactly the leaves of `data`, each
   * under the "/"-joined keys of the path that reaches it.
   */
  lemma ItemsAreLeafPaths(data: Dict<Value>, p: string, x: Value)
    ensures (p, x) in Items(data) <==> exists ks :: ReachesFrom(Map(data), 0, ks, x) && p == JoinFrom("", ks)
  {
    var r := Items(data);
    if (p, x) in r {
      var n :| 0 <= n < |r| && r[n] == (p, x);
      ItemsSound("", Map(data), 0);
      var ks := LeafPaths(Map(data), 0)[n];
      assert ReachesFrom(Map(data), 0, ks, r[n].1) && r[n].0 == JoinFrom("", ks);
      assert ReachesFrom(Map(data), 0, ks, x) && p == JoinFrom("", ks);
    }
    if exists ks :: ReachesFrom(Map(data), 0, ks, x) && p == JoinFrom("", ks) {
      var ks :| ReachesFrom(Map(data), 0, ks, x) && p == JoinFrom("", ks);
      ItemsComplete("", Map(data), 0, ks, x);
    }
  }

  /** `keys()`: the paths of `items()`, in the same order. */
  function KvKeys(data: Dict<Value>): (r: seq<string>)
    ensures r == Keys(Items(data))
  {
    Keys(Items(data))
  }

  /** `values()`: the values of `items()`, in the same order. */
  function KvValues(data: Dict<Value>): (r: seq<Value>)
    ensures r == OrderedDict.Values(Items(data))
  {
    OrderedDict.Values(Items(data))
  }

  /** The value of the first pair whose path is `path`. */
  function FirstMatch(ps: seq<(string, Value)>, path: string): (r: Option<Value>)
    ensures r.Some? <==> path in Keys(ps)
    ensures r.Some? ==> exists i :: 0 <= i < |ps| && ps[i] == (path, r.value) &&
                                    forall j :: 0 <= j < i ==> ps[j].0 != path
  {
    if ps == [] then None
    else if ps[0].0 == path then
      assert ps[0] == (path, ps[0].1);
      Some(ps[0].1)
    else
      var r := FirstMatch(ps[1..], path);
      assert Keys(ps) == [ps[0].0] + Keys(ps[1..]);
      if r.Some? then
        var i :| 0 <= i < |ps[1..]| && ps[1..][i] == (path, r.value) &&
                 forall j :: 0 <= j < i ==> ps[1..][j].0 != path;
        assert ps[i + 1] == (path, r.value);
        assert forall j :: 0 <= j < i + 1 ==> ps[j].0 != path by {
          forall j | 0 <= j < i + 1
            ensures ps[j].0 != path
          {
            if j > 0 {
              assert ps[j] == ps[1..][j - 1];
            }
          }
        }
        r
      else r
  }

  /**
   * `get(path, default)` for a search over `items`: the first match, else
   * the default, else KeyError.
   */
  function SearchGet(ps: seq<(string, Value)>, path: string, default: Option<Value>): (r: Result<Value>)
    ensures path in Keys(ps) ==> r == Ok(FirstMatch(ps, path).value)
    ensures path !in Keys(ps) && default.Some? ==> r == Ok(default.value)
    ensures path !in Keys(ps) && default.None? ==> r == Raise(KeyError, path)
  {
    match FirstMatch(ps, path)
    case Some(v) => Ok(v)
    case None => if default.Some? then Ok(default.value) else Raise(KeyError, path)
  }

  /** The store that `DictKVStore(data)` builds: anything but a dict is a TypeError. */
  function NewKvStore(data: Value): (r: Result<Dict<Value>>)
    ensures r.Ok? <==> data.Map?
    ensures r.Ok? ==> r.value == data.entries
    ensures r.Err? ==> r.Raises(TypeError)
  {
    if data.Map? then Ok(data.entries) else Raise(TypeError, "")
  }

  /** `DictKVStore.get`. */
  function KvGet(data: Dict<Value>, path: string, default: Option<Value>): (r: Result<Value>)
    ensures r == SearchGet(Items(data), path, default)
  {
    SearchGet(Items(data), path, default)
  }

  /** A top-level entry that is not a dict is found under its own key. */
  lemma KvGetTopLevel(k: string, x: Value, rest: Dict<Value>, default: Option<Value>)
    requires k != "" && !x.Map?
    ensures KvGet([(k, x)] + rest, k, default) == Ok(x)
  {
    var ps := Items([(k, x)] + rest);
    assert ps[0] == (k, x);
    assert Keys(ps)[0] == k;
  }

  // ---------------------------------------------------------------------
  // flatten and DictStore: bare leaf keys

  /**
   * `flatten(data, parent)` from the `i`-th entry on.  The recursive call
   * passes no parent, so only the top-level leaves are joined to `parent`;
   * every nested leaf comes out under its bare key.
   */
  function FlattenFrom(parent: string, v: Value, i: nat): (r: seq<(string, Value)>)
    requires v.Map? && i <= |v.entries|
    ensures forall j :: 0 <= j < |r| ==> !r[j].1.Map?
    decreases v, |v.entries| - i
  {
    if i == |v.entries| then []
    else
      var (k, x) := v.entries[i];
      (if x.Map? then FlattenFrom("", x, 0) else [(Child(parent, k), x)])
        + FlattenFrom(parent, v, i + 1)
  }

  /**
   * `r` lists leaves of `v` from entry `i` on: its `n`-th pair is the leaf
   * reached by the key path `ps[n]`, named by the last key of that path.
   */
  ghost predicate BareListing(v: Value, i: nat, ps: seq<seq<string>>, r: seq<(string, Value)>) {
    |ps| == |r| &&
    forall n :: 0 <= n < |r| ==> ps[n] != [] && ReachesFrom(v, i, ps[n], r[n].1) && r[n].0 == ps[n][|ps[n]| - 1]
  }

  /** With no parent, `flatten` lists each leaf under the last key of the path that reaches it. */
  lemma {:induction false} FlattenKeysAreLeafKeys(v: Value, i: nat)
    requires v.Map? && i <= |v.entries|
    ensures BareListing(v, i, LeafPaths(v, i), FlattenFrom("", v, i))
    decreases v, |v.entries| - i
  {
    if i < |v.entries| {
      var (k, x) := v.entries[i];
      var tail := FlattenFrom("", v, i + 1);
      var tp := LeafPaths(v, i + 1);
      FlattenKeysAreLeafKeys(v, i + 1);
      forall n | 0 <= n < |tail|
        ensures ReachesFrom(v, i, tp[n], tail[n].1)
      {
        ReachesLater(v, i, tp[n], tail[n].1);
      }
      var head: seq<(string, Value)>, hp: seq<seq<string>>;
      if x.Map? {
        head := FlattenFrom("", x, 0);
        var sub := LeafPaths(x, 0);
        hp := seq(|sub|, n requires 0 <= n < |sub| => [k] + sub[n]);
        FlattenKeysAreLeafKeys(x, 0);
        forall n | 0 <= n < |head|
          ensures hp[n] != [] && ReachesFrom(v, i, hp[n], head[n].1) && head[n].0 == hp[n][|hp[n]| - 1]
        {
          ReachesThrough(v, i, sub[n], head[n].1);
        }
      } else {
        head := [(k, x)];
        hp := [[k]];
        assert ReachesFrom(v, i, [k], x);
      }
      assert FlattenFrom("", v, i) == head + tail;
      assert LeafPaths(v, i) == hp + tp;
      BareListingAppend(v, i, hp, head, tp, tail);
    }
  }

  /** Two listings of the same entries' leaves put together are one listing. */
  lemma BareListingAppend(v: Value, i: nat, hp: seq<seq<string>>, head: seq<(string, Value)>,
                          tp: seq<seq<string>>, tail: seq<(string, Value)>)
    requires |hp| == |head| && |tp| == |tail|
    requires forall n :: 0 <= n < |head| ==> hp[n] != [] && ReachesFrom(v, i, hp[n], head[n].1) && head[n].0 == hp[n][|hp[n]| - 1]
    requires forall n :: 0 <= n < |tail| ==> tp[n] != [] && ReachesFrom(v, i, tp[n], tail[n].1) && tail[n].0 == tp[n][|tp[n]| - 1]
    ensures BareListing(v, i, hp + tp, head + tail)
  {
    forall n | 0 <= n < |head + tail|
      ensures (hp + tp)[n] != [] && ReachesFrom(v, i, (hp + tp)[n], (head + tail)[n].1)
      ensures (head + tail)[n].0 == (hp + tp)[n][|(hp + tp)[n]| - 1]
    {
      if n < |head| {
        assert (head + tail)[n] == head[n] && (hp + tp)[n] == hp[n];
      } else {
        assert (head + tail)[n] == tail[n - |head|] && (hp + tp)[n] == tp[n - |head|];
      }
    }
  }

  /** Every leaf of the tree is listed by `flatten` under the last key of its path. */
  lemma {:induction false} FlattenListsEveryLeaf(v: Value, i: nat, ks: seq<string>, x: Value)
    requires v.Map? && i <= |v.entries| && ks != [] && ReachesFrom(v, i, ks, x)
    ensures (ks[|ks| - 1], x) in FlattenFrom("", v, i)
    decreases v, |v.entries| - i
  {
    var j :| i <= j < |v.entries| && v.entries[j].0 == ks[0] &&
             if |ks| == 1 then v.entries[j].1 == x && !x.Map? else ReachesFrom(v.entries[j].1, 0, ks[1..], x);
    var (k, y) := v.entries[i];
    var head: seq<(string, Value)> := if y.Map? then FlattenFrom("", y, 0) else [(k, y)];
    assert FlattenFrom("", v, i) == head + FlattenFrom("", v, i + 1);
    if j == i {
      if |ks| == 1 {
        assert head[0] == (ks[|ks| - 1], x);
      } else {
        FlattenListsEveryLeaf(y, 0, ks[1..], x);
        assert ks[1..][|ks[1..]| - 1] == ks[|ks| - 1];
      }
    } else {
      assert ReachesFrom(v, i + 1, ks, x);
      FlattenListsEveryLeaf(v, i + 1, ks, x);
    }
  }

  /** The bare-key flattening of a nested dict drops the parent: {"a": {"b": x}} gives ("b", x). */
  lemma FlattenDropsParent(a: string, b: string, x: Value)
    requires a != "" && !x.Map?
    ensures FlattenFrom("", Map([(a, Map([(b, x)]))]), 0) == [(b, x)]
    ensures Items([(a, Map([(b, x)]))]) == [(a + "/" + b, x)]
  {
    var inner := Map([(b, x)]);
    var outer := Map([(a, inner)]);
    assert FlattenFrom("", inner, 1) == [];
    assert FlattenFrom("", inner, 0) == [(b, x)];
    assert FlattenFrom("", outer, 1) == [];
    assert FlattenFrom("", outer, 0) == FlattenFrom("", inner, 0) + [];
    NestedItem(a, b, x);
  }

  /** `normalize_keys`: every key normalised, values untouched, order kept. */
  function NormalizeKeys(ps: seq<(string, Value)>): (r: seq<(string, Value)>)
    ensures |r| == |ps|
    ensures forall i :: 0 <= i < |ps| ==> r[i] == (NormalizePath(ps[i].0), ps[i].1)
  {
    if ps == [] then [] else [(NormalizePath(ps[0].0), ps[0].1)] + NormalizeKeys(ps[1..])
  }

  /**
   * `DictStore(data)`: anything but a dict is a TypeError; otherwise the
   * flattened pairs, made a dict, with normalised keys, made a dict again.
   */
  function NewDictStore(data: Value): (r: Result<Dict<Value>>)
    ensures r.Ok? <==> data.Map?
    ensures r.Err? ==> r.Raises(TypeError)
  {
    if !data.Map? then Raise(TypeError, "")
    else Ok(FromPairs(NormalizeKeys(FromPairs(FlattenFrom("", data, 0)))))
  }

  /**
   * A `DictStore` holds one entry per key; every key is already normalised;
   * every value is a leaf.  Its keys are the normalised keys of the
   * flattening, each once, in the order they first appear after the raw
   * keys were made unique; under each key sits the last value normalised to
   * it.
   */
  lemma DictStoreKeys(data: Value)
    requires data.Map?
    ensures var d := NewDictStore(data).value;
            Unique(d) &&
            (forall i :: 0 <= i < |d| ==> NormalizePath(d[i].0) == d[i].0 && !d[i].1.Map?)
    ensures var normalised := NormalizeKeys(FromPairs(FlattenFrom("", data, 0)));
            var d := NewDictStore(data).value;
            && Keys(d) == Dedup([], Keys(normalised))
            && forall k :: Get(d, k) == LastValue(normalised, k)
  {
    var once := FromPairs(FlattenFrom("", data, 0));
    var ps := NormalizeKeys(once);
    var d := FromPairs(ps);
    FromPairsSpec(ps);
    FromPairsSpec(FlattenFrom("", data, 0));
    forall i | 0 <= i < |d| ensures NormalizePath(d[i].0) == d[i].0 && !d[i].1.Map? {
      assert d[i].0 in Keys(d);
      assert d[i].0 in Keys(ps) by { DedupSubset([], Keys(ps), d[i].0); }
      var j :| 0 <= j < |ps| && Keys(ps)[j] == d[i].0;
      NormalizeIdempotent(once[j].0);
      assert Get(d, d[i].0) == Some(d[i].1) by { GetAt(d, i); }
      LastValueIn(ps, d[i].0);
      var m :| 0 <= m < |ps| && ps[m] == (d[i].0, d[i].1);
      LastValueFromFlatten(once, FlattenFrom("", data, 0), m);
    }
  }

  /** A key `Dedup` lists comes from what it was given. */
  lemma {:induction false} DedupSubset(seen: seq<string>, ks: seq<string>, k: string)
    requires k in Dedup(seen, ks)
    ensures k in seen || k in ks
    decreases |ks|
  {
    if ks != [] {
      DedupSubset(if ks[0] in seen then seen else seen + [ks[0]], ks[1..], k);
    }
  }

  /** In a dict with one entry per key, `Get` finds the entry at its index. */
  lemma GetAt(d: Dict<Value>, i: int)
    requires Unique(d) && 0 <= i < |d|
    ensures Get(d, d[i].0) == Some(d[i].1)
  {
    var r := Get(d, d[i].0);
    assert d[i].0 in Keys(d);
    var j :| 0 <= j < |d| && d[j] == (d[i].0, r.value);
    if j != i {
      assert d[j].0 == d[i].0;
    }
  }

  /** The last value under a key is the value of some pair with that key. */
  lemma {:induction false} LastValueIn(ps: seq<(string, Value)>, k: string)
    requires LastValue(ps, k).Some?
    ensures exists m :: 0 <= m < |ps| && ps[m] == (k, LastValue(ps, k).value)
    decreases |ps|
  {
    if ps[|ps| - 1].0 != k {
      LastValueIn(ps[..|ps| - 1], k);
      var m :| 0 <= m < |ps[..|ps| - 1]| && ps[..|ps| - 1][m] == (k, LastValue(ps, k).value);
      assert ps[m] == (k, LastValue(ps, k).value);
    }
  }

  /** A pair of the normalised dict carries a leaf value of the flattening. */
  lemma LastValueFromFlatten(once: Dict<Value>, flat: seq<(string, Value)>, m: int)
    requires forall j :: 0 <= j < |flat| ==> !flat[j].1.Map?
    requires once == FromPairs(flat) && 0 <= m < |NormalizeKeys(once)|
    ensures !NormalizeKeys(once)[m].1.Map?
    ensures NormalizePath(NormalizeKeys(once)[m].0) == NormalizeKeys(once)[m].0
  {
    FromPairsSpec(flat);
    var k := once[m].0;
    GetAt(once, m);
    assert LastValue(flat, k) == Some(once[m].1);
    LastValueIn(flat, k);
    var m' :| 0 <= m' < |flat| && flat[m'] == (k, once[m].1);
    assert !flat[m'].1.Map?;
    NormalizeIdempotent(k);
  }

  // ---------------------------------------------------------------------
  // FileStore / FileHandler: a directory of files

  /**
   * The filesystem a file store reads: whether it is a `DirFileSystem`, its
   * files with their texts, in the order `find("")` lists them, and its
   * directories (the root "" among them), which `exists` reports but
   * `find` does not list.
   */
  datatype DirFs = DirFs(isDirFs: bool, files: Dict<string>, dirs: set<string>)

  /** A file store: the filesystem and the loader turning a file's text into a value. */
  datatype FileStore = FileStore(fs: DirFs, load: string -> Result<Value>)

  /** The constructor: only a `DirFileSystem` is accepted. */
  function NewFileStore(fs: DirFs, load: string -> Result<Value>): (r: Result<FileStore>)
    ensures r.Ok? <==> fs.isDirFs
    ensures r.Err? ==> r.Raises(RuntimeError)
    ensures r.Ok? ==> r.value == FileStore(fs, load)
  {
    if fs.isDirFs then Ok(FileStore(fs, load)) else Raise(RuntimeError, "")
  }

  /** `create`: not implemented, whatever it is given. */
  function CreateFileStore(fs: DirFs, root: string): (r: Result<FileStore>)
    ensures r.Raises(NotImplementedError)
  {
    Raise(NotImplementedError, "")
  }

  /** A path naming a file of the store's filesystem. */
  predicate IsFile(st: FileStore, path: string) {
    path in Keys(st.fs.files)
  }

  /** `exists`: a file or a directory. */
  predicate FileExists(st: FileStore, path: string) {
    IsFile(st, path) || path in st.fs.dirs
  }

  /**
   * `load`: open the path for reading and hand the file's text to the
   * loader; opening a directory is `IsADirectoryError`, a missing path
   * `FileNotFoundError`.
   */
  function FileLoad(st: FileStore, path: string): (r: Result<Value>)
    ensures IsFile(st, path) ==> r == st.load(Get(st.fs.files, path).value)
    ensures !IsFile(st, path) && path in st.fs.dirs ==> r == Raise(IsADirectoryError, path)
    ensures !FileExists(st, path) ==> r == Raise(FileNotFoundError, path)
  {
    match Get(st.fs.files, path)
    case Some(text) => st.load(text)
    case None =>
      if path in st.fs.dirs then Raise(IsADirectoryError, path) else Raise(FileNotFoundError, path)
  }

  /**
   * `keys`: what `find("")` lists, in its order: exactly the files, so a
   * path that exists is listed or is a directory.
   */
  function FileKeys(st: FileStore): (r: seq<string>)
    ensures |r| == |st.fs.files|
    ensures forall i :: 0 <= i < |r| ==> r[i] == st.fs.files[i].0
    ensures forall path :: path in r <==> IsFile(st, path)
    ensures forall path :: FileExists(st, path) <==> path in r || path in st.fs.dirs
  {
    Keys(st.fs.files)
  }

  /**
   * A directory exists but is not a key: `keys` leaves it out, and both
   * `load` and `get` (whatever the default) raise `IsADirectoryError`.
   */
  lemma DirectoryExistsUnlisted(st: FileStore, path: string, default: Option<Value>)
    requires path in st.fs.dirs && !IsFile(st, path)
    ensures FileExists(st, path) && path !in FileKeys(st)
    ensures FileLoad(st, path) == Raise(IsADirectoryError, path)
    ensures FileGet(st, path, default) == Raise(IsADirectoryError, path)
  {
  }

  /** The (key, loaded value) pairs for the given keys; the first failing load is raised. */
  function LoadAll(st: FileStore, keys: seq<string>): (r: Result<seq<(string, Value)>>)
    ensures r.Ok? ==> Keys(r.value) == keys
    ensures r.Ok? ==> forall i :: 0 <= i < |keys| ==> FileLoad(st, keys[i]) == Ok(r.value[i].1)
    ensures r.Err? ==> exists i :: 0 <= i < |keys| && FileLoad(st, keys[i]) == Err(r.error)
  {
    if keys == [] then Ok([])
    else
      match FileLoad(st, keys[0])
      case Err(e) => Err(e)
      case Ok(v) =>
        match LoadAll(st, keys[1..])
        case Err(e) =>
          var i :| 0 <= i < |keys[1..]| && FileLoad(st, keys[1..][i]) == Err(e);
          assert FileLoad(st, keys[i + 1]) == Err(e);
          Err(e)
        case Ok(rest) =>
          assert Keys([(keys[0], v)] + rest) == [keys[0]] + Keys(rest);
          Ok([(keys[0], v)] + rest)
  }

  /** `items`: every listed file paired with its loaded value. */
  function FileItems(st: FileStore): (r: Result<seq<(string, Value)>>)
    ensures r.Ok? ==> Keys(r.value) == FileKeys(st)
  {
    LoadAll(st, FileKeys(st))
  }

  /**
   * `items` agrees with `get`: when every file loads, each listed pair is
   * what `get` answers for its path, whatever the default.
   */
  lemma FileItemsAgreeGet(st: FileStore, default: Option<Value>)
    requires FileItems(st).Ok?
    ensures var items := FileItems(st).value;
            forall i :: 0 <= i < |items| ==> FileGet(st, items[i].0, default) == Ok(items[i].1)
  {
    var items := FileItems(st).value;
    forall i | 0 <= i < |items|
      ensures FileGet(st, items[i].0, default) == Ok(items[i].1)
    {
      assert Keys(items)[i] == FileKeys(st)[i];
      assert IsFile(st, items[i].0);
    }
  }

  /** `values`: the values of `items`, in the same order. */
  function FileValues(st: FileStore): (r: Result<seq<Value>>)
    ensures r.Ok? <==> FileItems(st).Ok?
    ensures r.Ok? ==> r.value == OrderedDict.Values(FileItems(st).value)
  {
    match FileItems(st)
    case Err(e) => Err(e)
    case Ok(items) => Ok(OrderedDict.Values(items))
  }

  /**
   * `get`: a missing path answers the default, or raises KeyError; one that
   * exists is loaded, a directory included.
   */
  function FileGet(st: FileStore, path: string, default: Option<Value>): (r: Result<Value>)
    ensures !FileExists(st, path) && default.Some? ==> r == Ok(default.value)
    ensures !FileExists(st, path) && default.None? ==> r == Raise(KeyError, path)
    ensures FileExists(st, path) ==> r == FileLoad(st, path)
  {
    if !FileExists(st, path) then
      if default.Some? then Ok(default.value) else Raise(KeyError, path)
    else FileLoad(st, path)
  }

  /** `k.replace("/", sep)` for each key, then `map`. */
  function RenameKeys(items: seq<(string, Value)>, sep: string, rename: string -> string): (r: seq<(string, Value)>)
    ensures |r| == |items|
    ensures forall i :: 0 <= i < |items| ==> r[i] == (rename(ReplaceChar(items[i].0, '/', sep)), items[i].1)
  {
    if items == [] then []
    else [(rename(ReplaceChar(items[0].0, '/', sep)), items[0].1)] + RenameKeys(items[1..], sep, rename)
  }

  /** `to_dict(sep, map)`: the items under renamed keys, as a dict; no `map` means the identity. */
  function FileToDict(st: FileStore, sep: string, rename: Option<string -> string>): (r: Result<Dict<Value>>)
    ensures r.Ok? <==> FileItems(st).Ok?
    ensures r.Ok? ==> r.value == FromPairs(RenameKeys(FileItems(st).value, sep, rename.GetOr(s => s)))
  {
    match FileItems(st)
    case Err(e) => Err(e)
    case Ok(items) => Ok(FromPairs(RenameKeys(items, sep, rename.GetOr(s => s))))
  }

  /** With the defaults ("/" and no map) every key comes back as the path itself. */
  lemma FileToDictDefault(st: FileStore)
    requires FileItems(st).Ok?
    ensures Keys(FileToDict(st, "/", None).value) == Dedup([], FileKeys(st))
  {
    var items := FileItems(st).value;
    var ps := RenameKeys(items, "/", s => s);
    assert ps == items;
    FromPairsSpec(ps);
  }

  // ---------------------------------------------------------------------
  // EnvStore: the environment, read through a serializer

  /** `open`: the variable's text; a missing variable is a KeyError. */
  function EnvOpen(env: Dict<string>, path: string): (r: Result<string>)
    ensures r.Ok? <==> path in Keys(env)
    ensures r.Ok? ==> r == Ok(Get(env, path).value)
    ensures r.Err? ==> r == Raise(KeyError, path)
  {
    match Get(env, path)
    case None => Raise(KeyError, path)
    case Some(text) => Ok(text)
  }

  /** `load`: the variable's text, unchanged, handed to the serializer. */
  function EnvLoad(env: Dict<string>, load: string -> Result<Value>, path: string): (r: Result<Value>)
    ensures path in Keys(env) ==> r == load(Get(env, path).value)
    ensures path !in Keys(env) ==> r == Raise(KeyError, path)
  {
    var text :- EnvOpen(env, path);
    load(text)
  }

  /** `dump`: not implemented. */
  function EnvDump(env: Dict<string>, path: string): (r: Result<()>)
    ensures r.Raises(NotImplementedError)
  {
    Raise(NotImplementedError, "")
  }

  /** `get`. */
  function EnvGet(env: Dict<string>, load: string -> Result<Value>, path: string, default: Option<Value>): (r: Result<Value>)
    ensures path !in Keys(env) && default.Some? ==> r == Ok(default.value)
    ensures path !in Keys(env) && default.None? ==> r == Raise(KeyError, path)
    ensures path in Keys(env) ==> r == load(Get(env, path).value)
  {
    if path !in Keys(env) then
      if default.Some? then Ok(default.value) else Raise(KeyError, path)
    else EnvLoad(env, load, path)
  }

  /** `keys`: the variable names, in the environment's order. */
  function EnvKeys(env: Dict<string>): (r: seq<string>)
    ensures |r| == |env|
    ensures forall i :: 0 <= i < |env| ==> r[i] == env[i].0
  {
    Keys(env)
  }

  /**
   * `items` as written unpacks every key as a one-element tuple: a key of
   * one character passes, any other length is a ValueError.
   */
  function EnvItems(env: Dict<string>, load: string -> Result<Value>): (r: Result<seq<(string, Value)>>)
    ensures r.Ok? ==> forall i :: 0 <= i < |env| ==> |env[i].0| == 1
    ensures r.Ok? ==> Keys(r.value) == Keys(env)
    ensures r.Ok? ==> forall i :: 0 <= i < |env| ==> EnvLoad(env, load, env[i].0) == Ok(r.value[i].1)
  {
    EnvItemsOf(env, load, Keys(env))
  }

  /** The loop of `items` over the names `keys`, each loaded from the whole environment. */
  function EnvItemsOf(env: Dict<string>, load: string -> Result<Value>, keys: seq<string>): (r: Result<seq<(string, Value)>>)
    ensures r.Ok? ==> forall i :: 0 <= i < |keys| ==> |keys[i]| == 1
    ensures r.Ok? ==> Keys(r.value) == keys
    ensures r.Ok? ==> forall i :: 0 <= i < |keys| ==> EnvLoad(env, load, keys[i]) == Ok(r.value[i].1)
    decreases |keys|
  {
    if keys == [] then Ok([])
    else
      var k := keys[0];
      if |k| != 1 then
        Raise(ValueError, if |k| == 0 then "not enough values to unpack (expected 1, got 0)"
                          else "too many values to unpack (expected 1)")
      else
        var v :- EnvLoad(env, load, k);
        var rest :- EnvItemsOf(env, load, keys[1..]);
        EnvItemsCons(env, load, keys, v, rest);
        Ok([(k, v)] + rest)
  }

  lemma EnvItemsCons(env: Dict<string>, load: string -> Result<Value>, keys: seq<string>, v: Value, rest: seq<(string, Value)>)
    requires keys != [] && |keys[0]| == 1 && EnvLoad(env, load, keys[0]) == Ok(v)
    requires forall i :: 0 <= i < |keys[1..]| ==> |keys[1..][i]| == 1
    requires Keys(rest) == keys[1..]
    requires forall i :: 0 <= i < |keys[1..]| ==> EnvLoad(env, load, keys[1..][i]) == Ok(rest[i].1)
    ensures forall i :: 0 <= i < |keys| ==> |keys[i]| == 1
    ensures Keys([(keys[0], v)] + rest) == keys
    ensures forall i :: 0 <= i < |keys| ==> EnvLoad(env, load, keys[i]) == Ok(([(keys[0], v)] + rest)[i].1)
  {
    var items := [(keys[0], v)] + rest;
    assert Keys(items) == [keys[0]] + Keys(rest);
    assert keys == [keys[0]] + keys[1..];
    forall i | 1 <= i < |keys|
      ensures |keys[i]| == 1 && EnvLoad(env, load, keys[i]) == Ok(items[i].1)
    {
      assert keys[i] == keys[1..][i - 1] && items[i] == rest[i - 1];
    }
  }

  /** `values`: the second components of `items`, failing where it fails. */
  function EnvValues(env: Dict<string>, load: string -> Result<Value>): (r: Result<seq<Value>>)
    ensures r.Ok? <==> EnvItems(env, load).Ok?
    ensures r.Ok? ==> |r.value| == |env|
    ensures r.Ok? ==> forall i :: 0 <= i < |env| ==> EnvLoad(env, load, env[i].0) == Ok(r.value[i])
  {
    var items :- EnvItems(env, load);
    Ok(OrderedDict.Values(items))
  }

  /** An environment holding any variable whose name is longer than one character cannot list its items. */
  lemma EnvItemsFailOnLongNames(env: Dict<string>, load: string -> Result<Value>, i: int)
    requires 0 <= i < |env| && |env[i].0| > 1
    ensures EnvItems(env, load).Err?
  {
  }

  /**
   * `items` as evidently intended, iterating the names themselves: every
   * variable paired with its loaded value, or the first failing load.
   */
  function EnvItemsIntended(env: Dict<string>, load: string -> Result<Value>, keys: seq<string>): (r: Result<seq<(string, Value)>>)
    ensures r.Ok? ==> Keys(r.value) == keys
    ensures r.Ok? ==> forall i :: 0 <= i < |keys| ==> EnvLoad(env, load, keys[i]) == Ok(r.value[i].1)
    ensures r.Err? ==> exists i :: 0 <= i < |keys| && EnvLoad(env, load, keys[i]) == Err(r.error)
    decreases |keys|
  {
    if keys == [] then Ok([])
    else
      match EnvLoad(env, load, keys[0])
      case Err(e) => Err(e)
      case Ok(v) =>
        match EnvItemsIntended(env, load, keys[1..])
        case Err(e) =>
          var i :| 0 <= i < |keys[1..]| && EnvLoad(env, load, keys[1..][i]) == Err(e);
          assert EnvLoad(env, load, keys[i + 1]) == Err(e);
          Err(e)
        case Ok(rest) =>
          assert Keys([(keys[0], v)] + rest) == [keys[0]] + Keys(rest);
          Ok([(keys[0], v)] + rest)
  }

  /**
   * The discrepancy: with the single variable "PATH", whose text loads, the
   * intended `items` lists it while `items` as written raises ValueError.
   */
  lemma EnvItemsRejectsPath(text: string, load: string -> Result<Value>, v: Value)
    requires load(text) == Ok(v)
    ensures EnvItems([("PATH", text)], load).Raises(ValueError)
    ensures EnvItemsIntended([("PATH", text)], load, ["PATH"]) == Ok([("PATH", v)])
  {
    var env := [("PATH", text)];
    assert Keys(env) == ["PATH"];
    assert Get(env, "PATH") == Some(text);
    assert EnvLoad(env, load, "PATH") == Ok(v);
    var keys: seq<string> := ["PATH"];
    assert keys[1..] == [];
    assert EnvItemsIntended(env, load, keys[1..]) == Ok([]);
    assert [("PATH", v)] + [] == [("PATH", v)];
    assert EnvItemsIntended(env, load, keys) == Ok([("PATH", v)]);
  }

  /** Where every name is one character long, `items` as written and as intended agree. */
  lemma {:induction false} EnvItemsAgree(env: Dict<string>, load: string -> Result<Value>, keys: seq<string>)
    requires forall i :: 0 <= i < |keys| ==> |keys[i]| == 1
    ensures EnvItemsOf(env, load, keys) == EnvItemsIntended(env, load, keys)
    decreases |keys|
  {
    if keys != [] {
      EnvItemsAgree(env, load, keys[1..]);
    }
  }
}
