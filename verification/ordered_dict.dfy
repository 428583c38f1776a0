/**
 * A JavaScript plain object used as a dictionary with string keys that are not array indices: its own keys
 * enumerate in insertion order, assigning to an existing key keeps its position, and
 * the spread `{ ...a, ...b }` copies `a` and then assigns every key of `b` in order.
 */
module OrderedDict {

  datatype Dict<V> = Dict(keys: seq<string>, entries: map<string, V>)

  /** Keys are listed once each, and exactly the keys that carry an entry are listed. */
  ghost predicate Valid<V>(d: Dict<V>) {
    && (forall i, j :: 0 <= i < j < |d.keys| ==> d.keys[i] != d.keys[j])
    && (forall k :: k in d.entries <==> k in d.keys)
  }

  function Empty<V>(): (d: Dict<V>)
    ensures Valid(d) && d.entries == map[]
  {
    Dict([], map[])
  }

  /** `obj[k] = v`. */
  function Put<V>(d: Dict<V>, k: string, v: V): (r: Dict<V>)
    requires Valid(d)
    ensures Valid(r)
    ensures r.entries == d.entries[k := v]
    ensures |r.keys| <= |d.keys| + 1
    ensures d.keys <= r.keys
  {
    if k in d.entries then Dict(d.keys, d.entries[k := v]) else Dict(d.keys + [k], d.entries[k := v])
  }

  /** The keys of `ks` that `d` does not hold, in the order of `ks`. */
  function NewKeys<V>(d: Dict<V>, ks: seq<string>): (r: seq<string>)
    ensures forall k :: k in r <==> k in ks && k !in d.entries
  {
    if ks == [] then []
    else (if ks[0] in d.entries then [] else [ks[0]]) + NewKeys(d, ks[1..])
  }

  /** Taking the new keys of a list without repeats gives a list without repeats. */
  lemma {:induction false} NewKeysDistinct<V>(d: Dict<V>, ks: seq<string>)
    requires forall i, j :: 0 <= i < j < |ks| ==> ks[i] != ks[j]
    ensures forall i, j :: 0 <= i < j < |NewKeys(d, ks)| ==> NewKeys(d, ks)[i] != NewKeys(d, ks)[j]
  {
    if ks != [] {
      var tail := ks[1..];
      forall i, j | 0 <= i < j < |tail|
        ensures tail[i] != tail[j]
      {
        assert tail[i] == ks[i + 1] && tail[j] == ks[j + 1];
      }
      NewKeysDistinct(d, tail);
      var rest := NewKeys(d, tail);
      var r := NewKeys(d, ks);
      if ks[0] in d.entries {
        assert r == rest;
      } else {
        assert r == [ks[0]] + rest;
        forall m | 0 <= m < |tail|
          ensures tail[m] != ks[0]
        {
          assert tail[m] == ks[m + 1];
        }
        forall i, j | 0 <= i < j < |r|
          ensures r[i] != r[j]
        {
          assert r[j] == rest[j - 1] && rest[j - 1] in rest;
          if i > 0 {
            assert r[i] == rest[i - 1];
          }
        }
      }
    }
  }

  /**
   * `{ ...base, ...over }`: the union of both, the value of `over` winning on a shared
   * key; the keys of `base` keep their order and come first, then the new keys of `over`
   * in its order.
   */
  function Spread<V>(base: Dict<V>, over: Dict<V>): (r: Dict<V>)
    requires Valid(base) && Valid(over)
    ensures Valid(r)
    ensures r.entries == base.entries + over.entries
    ensures base.keys <= r.keys
    ensures r.keys == base.keys + NewKeys(base, over.keys)
  {
    var added := NewKeys(base, over.keys);
    NewKeysDistinct(base, over.keys);
    var r := Dict(base.keys + added, base.entries + over.entries);
    forall i, j | 0 <= i < j < |r.keys|
      ensures r.keys[i] != r.keys[j]
    {
      if j < |base.keys| {
        assert r.keys[i] == base.keys[i] && r.keys[j] == base.keys[j];
      } else {
        assert r.keys[j] == added[j - |base.keys|] && added[j - |base.keys|] in added;
        if i >= |base.keys| {
          assert r.keys[i] == added[i - |base.keys|];
        } else {
          assert r.keys[i] == base.keys[i] && base.keys[i] in base.keys;
        }
      }
    }
    assert forall k :: k in r.keys <==> k in base.keys || k in added;
    r
  }

  /** Assigning the same value to the same key a second time changes nothing. */
  lemma PutIdempotent<V>(d: Dict<V>, k: string, v: V)
    requires Valid(d)
    ensures Put(Put(d, k, v), k, v) == Put(d, k, v)
  {
  }
}
