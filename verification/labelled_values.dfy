/**
 * The value store shared by the pushed histogram and summary metrics: a plain object
 * from a storage key, spelled out from the default labels of the pushing instance, to
 * that instance's latest list of samples, each relabelled with those defaults.
 */
module LabelledValues {
  import OrderedDict
  import opened MetricValues

  /** What the exposition methods return: the metric's own fields and all stored samples. */
  datatype Snapshot = Snapshot(name: string, help: string, kind: string, values: seq<Sample>, aggregator: string)

  /** A string in which neither separator of the storage key occurs. */
  predicate Plain(s: string)
  {
    ':' !in s && ';' !in s
  }

  /** Every key and every printed value of the labels is plain. */
  ghost predicate PlainLabels(d: OrderedDict.Dict<LabelValue>)
  {
    forall k :: k in d.entries ==> Plain(k) && Plain(Text(d.entries[k]))
  }

  /** The labels as (key, printed value) pairs, in key order. */
  function LabelPairs(d: OrderedDict.Dict<LabelValue>): (ps: seq<(string, string)>)
    requires OrderedDict.Valid(d)
    ensures |ps| == |d.keys|
    ensures forall i :: 0 <= i < |ps| ==> ps[i] == (d.keys[i], Text(d.entries[d.keys[i]]))
  {
    seq(|d.keys|, i requires 0 <= i < |d.keys| => (d.keys[i], Text(d.entries[d.keys[i]])))
  }

  /** One `key:value;` part of a storage key. */
  function Part(p: (string, string)): string
  {
    p.0 + ":" + p.1 + ";"
  }

  /** The parts of all pairs, in order. */
  function Encode(ps: seq<(string, string)>): string
  {
    if |ps| == 0 then "" else Part(ps[0]) + Encode(ps[1..])
  }

  /** The storage key of a set of default labels. */
  function ValueKey(d: OrderedDict.Dict<LabelValue>): string
    requires OrderedDict.Valid(d)
  {
    Encode(LabelPairs(d))
  }

  /** Appending a pair to the list appends its part to the key. */
  lemma {:induction false} EncodeSnoc(ps: seq<(string, string)>, p: (string, string))
    ensures Encode(ps + [p]) == Encode(ps) + Part(p)
  {
    if |ps| > 0 {
      assert (ps + [p])[1..] == ps[1..] + [p];
      EncodeSnoc(ps[1..], p);
    }
  }

  /** The position of the first `c` in `s`, or `|s|` when there is none. */
  function Find(s: string, c: char): (i: nat)
    ensures i <= |s| && c !in s[..i]
    ensures i < |s| ==> s[i] == c
  {
    if |s| == 0 || s[0] == c then 0
    else
      var i := 1 + Find(s[1..], c);
      assert s[..i] == [s[0]] + s[1..][..i - 1];
      i
  }

  /** A position holding `c` with no earlier `c` is what `Find` returns. */
  lemma {:induction false} FindUnique(s: string, c: char, j: nat)
    requires j < |s| && s[j] == c && c !in s[..j]
    ensures Find(s, c) == j
  {
    if j > 0 {
      assert s[0] == s[..j][0];
      assert s[1..][..j - 1] == s[..j][1..];
      FindUnique(s[1..], c, j - 1);
    }
  }

  /** Reads the pairs back from a key, stopping at the first malformed part. */
  function Decode(s: string): seq<(string, string)>
    decreases |s|
  {
    if |s| == 0 then []
    else
      var i := Find(s, ':');
      var j := Find(s, ';');
      if i < j < |s| then [(s[..i], s[i + 1..j])] + Decode(s[j + 1..]) else []
  }

  /** Both halves of every pair are plain. */
  ghost predicate PlainPairs(ps: seq<(string, string)>)
  {
    forall i :: 0 <= i < |ps| ==> Plain(ps[i].0) && Plain(ps[i].1)
  }

  /** A key built from plain pairs reads back as those pairs. */
  lemma {:induction false} DecodeEncode(ps: seq<(string, string)>)
    requires PlainPairs(ps)
    ensures Decode(Encode(ps)) == ps
  {
    if |ps| > 0 {
      var k, t := ps[0].0, ps[0].1;
      var rest := Encode(ps[1..]);
      var s := Encode(ps);
      assert s == k + ":" + t + ";" + rest;
      assert s[..|k|] == k;
      FindUnique(s, ':', |k|);
      assert s[..|k| + 1 + |t|] == k + ":" + t;
      FindUnique(s, ';', |k| + 1 + |t|);
      assert s[|k| + 1..|k| + 1 + |t|] == t;
      assert s[|k| + 1 + |t| + 1..] == rest;
      DecodeEncode(ps[1..]);
    }
  }

  /** A printed number never holds a separator. */
  lemma NumberIsPlain(n: int)
    ensures Plain(Text(Num(n)))
  {
    if n < 0 {
      assert Text(Num(n)) == "-" + NatText(-n);
    }
  }

  /**
   * Labels whose keys are plain and whose string values are plain are plain whatever their
   * numbers, since a number never prints a separator.
   */
  lemma NumbersKeepLabelsPlain(d: OrderedDict.Dict<LabelValue>)
    requires forall k :: k in d.entries ==> Plain(k)
    requires forall k :: k in d.entries && d.entries[k].Str? ==> Plain(d.entries[k].s)
    ensures PlainLabels(d)
  {
    forall k | k in d.entries
      ensures Plain(Text(d.entries[k]))
    {
      if d.entries[k].Num? {
        NumberIsPlain(d.entries[k].n);
      }
    }
  }

  /**
   * Two sets of plain default labels share a storage key only if they have the same
   * keys in the same order and print the same values.
   */
  lemma ValueKeyDistinguishes(d1: OrderedDict.Dict<LabelValue>, d2: OrderedDict.Dict<LabelValue>)
    requires OrderedDict.Valid(d1) && OrderedDict.Valid(d2)
    requires PlainLabels(d1) && PlainLabels(d2)
    requires ValueKey(d1) == ValueKey(d2)
    ensures d1.keys == d2.keys
    ensures forall k :: k in d1.entries ==> k in d2.entries && Text(d1.entries[k]) == Text(d2.entries[k])
  {
    PlainLabelPairs(d1);
    PlainLabelPairs(d2);
    DecodeEncode(LabelPairs(d1));
    DecodeEncode(LabelPairs(d2));
    SamePairs(d1, d2);
  }

  /** Labels with the same pairs have the same keys and print the same values. */
  lemma SamePairs(d1: OrderedDict.Dict<LabelValue>, d2: OrderedDict.Dict<LabelValue>)
    requires OrderedDict.Valid(d1) && OrderedDict.Valid(d2)
    requires LabelPairs(d1) == LabelPairs(d2)
    ensures d1.keys == d2.keys
    ensures forall k :: k in d1.entries ==> k in d2.entries && Text(d1.entries[k]) == Text(d2.entries[k])
  {
    var p1, p2 := LabelPairs(d1), LabelPairs(d2);
    forall i | 0 <= i < |d1.keys|
      ensures d1.keys[i] == d2.keys[i]
    {
      assert p1[i].0 == p2[i].0;
    }
    forall k | k in d1.entries
      ensures k in d2.entries && Text(d1.entries[k]) == Text(d2.entries[k])
    {
      var i :| 0 <= i < |d1.keys| && d1.keys[i] == k;
      assert p1[i].1 == p2[i].1;
    }
  }

  /** Plain labels give plain pairs. */
  lemma PlainLabelPairs(d: OrderedDict.Dict<LabelValue>)
    requires OrderedDict.Valid(d) && PlainLabels(d)
    ensures PlainPairs(LabelPairs(d))
  {
    forall i | 0 <= i < |d.keys|
      ensures Plain(LabelPairs(d)[i].0) && Plain(LabelPairs(d)[i].1)
    {
      assert d.keys[i] in d.entries;
    }
  }

  /** Separators inside a label value let two different label sets share a storage key. */
  lemma SeparatorsCollide()
    ensures var d1 := OrderedDict.Dict(["a"], map["a" := Str("b;c:d")]);
            var d2 := OrderedDict.Dict(["a", "c"], map["a" := Str("b"), "c" := Str("d")]);
            OrderedDict.Valid(d1) && OrderedDict.Valid(d2) && d1.keys != d2.keys && ValueKey(d1) == ValueKey(d2)
  {
    var d1 := OrderedDict.Dict(["a"], map["a" := Str("b;c:d")]);
    var d2 := OrderedDict.Dict(["a", "c"], map["a" := Str("b"), "c" := Str("d")]);
    assert LabelPairs(d1) == [("a", "b;c:d")];
    assert LabelPairs(d2) == [("a", "b"), ("c", "d")];
  }

  /** Builds the storage key with the source's loop over the default labels. */
  method StorageKey(defaults: OrderedDict.Dict<LabelValue>) returns (key: string)
    requires OrderedDict.Valid(defaults)
    ensures key == ValueKey(defaults)
    ensures PlainLabels(defaults) ==> Decode(key) == LabelPairs(defaults)
  {
    key := "";
    var ps := LabelPairs(defaults);
    var i := 0;
    while i < |defaults.keys|
      invariant 0 <= i <= |defaults.keys|
      invariant key == Encode(ps[..i])
    {
      var k := defaults.keys[i];
      assert ps[i] == (k, Text(defaults.entries[k]));
      key := key + (k + ":" + Text(defaults.entries[k]) + ";");
      assert ps[..i + 1] == ps[..i] + [ps[i]];
      EncodeSnoc(ps[..i], ps[i]);
      i := i + 1;
    }
    assert ps[..|defaults.keys|] == ps;
    if PlainLabels(defaults) {
      PlainLabelPairs(defaults);
      DecodeEncode(ps);
    }
  }

  /**
   * `values.map(...)`: every sample keeps its value and gets its labels overlaid with the
   * defaults, so a default wins over a label of the same key; its own keys stay first.
   */
  function Relabel(values: seq<Sample>, defaults: OrderedDict.Dict<LabelValue>): (r: seq<Sample>)
    requires SamplesWellFormed(values) && OrderedDict.Valid(defaults)
    ensures |r| == |values| && SamplesWellFormed(r)
    ensures forall i :: 0 <= i < |r| ==>
      && r[i].value == values[i].value
      && r[i].labels.entries.Keys == values[i].labels.entries.Keys + defaults.entries.Keys
      && (forall k :: k in defaults.entries ==> r[i].labels.entries[k] == defaults.entries[k])
      && (forall k :: k in values[i].labels.entries && k !in defaults.entries ==>
            r[i].labels.entries[k] == values[i].labels.entries[k])
      && values[i].labels.keys <= r[i].labels.keys
  {
    seq(|values|, i requires 0 <= i < |values| =>
      Sample(OrderedDict.Spread(values[i].labels, defaults), values[i].value))
  }

  /** Every list in the store has well-formed labels. */
  ghost predicate StoreWellFormed(store: OrderedDict.Dict<seq<Sample>>)
  {
    && OrderedDict.Valid(store)
    && forall k :: k in store.entries ==> SamplesWellFormed(store.entries[k])
  }

  /** `this.values[valueKey] = ...`: the list under the key of `defaults` is replaced, the rest kept. */
  function Stored(store: OrderedDict.Dict<seq<Sample>>, defaults: OrderedDict.Dict<LabelValue>, values: seq<Sample>)
    : (r: OrderedDict.Dict<seq<Sample>>)
    requires StoreWellFormed(store) && OrderedDict.Valid(defaults) && SamplesWellFormed(values)
    ensures StoreWellFormed(r)
    ensures r.entries.Keys == store.entries.Keys + {ValueKey(defaults)}
    ensures r.entries[ValueKey(defaults)] == Relabel(values, defaults)
    ensures forall k :: k in store.entries && k != ValueKey(defaults) ==> r.entries[k] == store.entries[k]
    ensures store.keys <= r.keys
  {
    OrderedDict.Put(store, ValueKey(defaults), Relabel(values, defaults))
  }

  /** Storing again under the same defaults replaces the earlier list outright. */
  lemma StoredReplaces(store: OrderedDict.Dict<seq<Sample>>, defaults: OrderedDict.Dict<LabelValue>,
                       first: seq<Sample>, second: seq<Sample>)
    requires StoreWellFormed(store) && OrderedDict.Valid(defaults)
    requires SamplesWellFormed(first) && SamplesWellFormed(second)
    ensures Stored(Stored(store, defaults, first), defaults, second) == Stored(store, defaults, second)
  {
    var k := ValueKey(defaults);
    var once := Stored(store, defaults, first);
    assert k in once.entries;
    if k in store.entries {
      assert once.keys == store.keys;
    } else {
      assert once.keys == store.keys + [k];
    }
    assert once.entries[k := Relabel(second, defaults)] == store.entries[k := Relabel(second, defaults)];
  }

  /** Storing the same list twice leaves the store as storing it once. */
  lemma StoredIdempotent(store: OrderedDict.Dict<seq<Sample>>, defaults: OrderedDict.Dict<LabelValue>,
                         values: seq<Sample>)
    requires StoreWellFormed(store) && OrderedDict.Valid(defaults) && SamplesWellFormed(values)
    ensures Stored(Stored(store, defaults, values), defaults, values) == Stored(store, defaults, values)
  {
    StoredReplaces(store, defaults, values, values);
  }

  /** The lists under `keys`, concatenated in the order of `keys`. */
  function Flattened(keys: seq<string>, entries: map<string, seq<Sample>>): seq<Sample>
    requires forall k :: k in keys ==> k in entries
  {
    if |keys| == 0 then []
    else Flattened(keys[..|keys| - 1], entries) + entries[keys[|keys| - 1]]
  }

  /** All stored samples, list after list in key order. */
  function Contents(store: OrderedDict.Dict<seq<Sample>>): seq<Sample>
    requires OrderedDict.Valid(store)
  {
    Flattened(store.keys, store.entries)
  }

  /** The sum of the lengths of the lists under `keys`. */
  function TotalLength(keys: seq<string>, entries: map<string, seq<Sample>>): nat
    requires forall k :: k in keys ==> k in entries
  {
    if |keys| == 0 then 0
    else TotalLength(keys[..|keys| - 1], entries) + |entries[keys[|keys| - 1]]|
  }

  /** The concatenation is as long as all lists together. */
  lemma {:induction false} FlattenedLength(keys: seq<string>, entries: map<string, seq<Sample>>)
    requires forall k :: k in keys ==> k in entries
    ensures |Flattened(keys, entries)| == TotalLength(keys, entries)
  {
    if |keys| > 0 {
      FlattenedLength(keys[..|keys| - 1], entries);
    }
  }

  /** A sample is in the concatenation exactly when it is in the list under one of `keys`. */
  lemma {:induction false} FlattenedMembers(keys: seq<string>, entries: map<string, seq<Sample>>, s: Sample)
    requires forall k :: k in keys ==> k in entries
    ensures s in Flattened(keys, entries) <==> exists i :: 0 <= i < |keys| && s in entries[keys[i]]
  {
    if |keys| > 0 {
      var front := keys[..|keys| - 1];
      FlattenedMembers(front, entries, s);
      if exists i :: 0 <= i < |keys| && s in entries[keys[i]] {
        var i :| 0 <= i < |keys| && s in entries[keys[i]];
        if i < |front| {
          assert front[i] == keys[i];
        }
      }
      if exists i :: 0 <= i < |front| && s in entries[front[i]] {
        var i :| 0 <= i < |front| && s in entries[front[i]];
        assert keys[i] == front[i];
      }
    }
  }

  /** The concatenation over two key lists is the concatenation of each. */
  lemma {:induction false} FlattenedAppend(a: seq<string>, b: seq<string>, entries: map<string, seq<Sample>>)
    requires forall k :: k in a + b ==> k in entries
    ensures Flattened(a + b, entries) == Flattened(a, entries) + Flattened(b, entries)
  {
    if |b| > 0 {
      var front := b[..|b| - 1];
      assert (a + b)[..|a + b| - 1] == a + front;
      FlattenedAppend(a, front, entries);
    } else {
      assert a + b == a;
    }
  }

  /** Changing the list under a key outside `keys` does not change their concatenation. */
  lemma {:induction false} FlattenedOther(keys: seq<string>, entries: map<string, seq<Sample>>, k: string, v: seq<Sample>)
    requires forall x :: x in keys ==> x in entries
    requires k !in keys
    ensures Flattened(keys, entries[k := v]) == Flattened(keys, entries)
  {
    if |keys| > 0 {
      FlattenedOther(keys[..|keys| - 1], entries, k, v);
    }
  }

  /** A first store under new defaults appends their samples after all others. */
  lemma StoredNewAppends(store: OrderedDict.Dict<seq<Sample>>, defaults: OrderedDict.Dict<LabelValue>, values: seq<Sample>)
    requires StoreWellFormed(store) && OrderedDict.Valid(defaults) && SamplesWellFormed(values)
    requires ValueKey(defaults) !in store.entries
    ensures Contents(Stored(store, defaults, values)) == Contents(store) + Relabel(values, defaults)
  {
    var k := ValueKey(defaults);
    var r := Stored(store, defaults, values);
    assert r.keys == store.keys + [k];
    assert r.keys[..|r.keys| - 1] == store.keys;
    FlattenedOther(store.keys, store.entries, k, Relabel(values, defaults));
  }

  /**
   * Storing again under known defaults puts the new samples where the old ones were:
   * the lists stored before and after them are untouched.
   */
  lemma StoredKnownInPlace(store: OrderedDict.Dict<seq<Sample>>, defaults: OrderedDict.Dict<LabelValue>,
                           values: seq<Sample>, before: seq<string>, after: seq<string>)
    requires StoreWellFormed(store) && OrderedDict.Valid(defaults) && SamplesWellFormed(values)
    requires store.keys == before + [ValueKey(defaults)] + after
    ensures Contents(Stored(store, defaults, values)) ==
      Flattened(before, store.entries) + Relabel(values, defaults) + Flattened(after, store.entries)
  {
    var k := ValueKey(defaults);
    var v := Relabel(values, defaults);
    var r := Stored(store, defaults, values);
    assert k in store.keys;
    assert r.keys == store.keys;
    assert k == store.keys[|before|];
    assert k !in before && k !in after by {
      forall i | 0 <= i < |before|
        ensures before[i] != k
      {
        assert store.keys[i] == before[i];
      }
      forall i | 0 <= i < |after|
        ensures after[i] != k
      {
        assert store.keys[|before| + 1 + i] == after[i];
      }
    }
    FlattenedAppend(before + [k], after, r.entries);
    FlattenedAppend(before, [k], r.entries);
    assert [k][..0] == [];
    FlattenedOther(before, store.entries, k, v);
    FlattenedOther(after, store.entries, k, v);
  }

  /** The contents hold every sample of every stored list and nothing else. */
  lemma ContentsMembers(store: OrderedDict.Dict<seq<Sample>>)
    requires OrderedDict.Valid(store)
    ensures forall s :: s in Contents(store) <==> exists k :: k in store.entries && s in store.entries[k]
  {
    forall s
      ensures s in Contents(store) <==> exists k :: k in store.entries && s in store.entries[k]
    {
      FlattenedMembers(store.keys, store.entries, s);
      if exists k :: k in store.entries && s in store.entries[k] {
        var k :| k in store.entries && s in store.entries[k];
        var i :| 0 <= i < |store.keys| && store.keys[i] == k;
      }
    }
  }

  /** Concatenates the stored lists with the source's loop, one sample at a time. */
  method Collect(store: OrderedDict.Dict<seq<Sample>>) returns (values: seq<Sample>)
    requires OrderedDict.Valid(store)
    ensures values == Contents(store)
    ensures |values| == TotalLength(store.keys, store.entries)
    ensures forall s :: s in values <==> exists k :: k in store.entries && s in store.entries[k]
  {
    values := [];
    var i := 0;
    while i < |store.keys|
      invariant 0 <= i <= |store.keys|
      invariant values == Flattened(store.keys[..i], store.entries)
    {
      var entries := store.entries[store.keys[i]];
      var j := 0;
      while j < |entries|
        invariant 0 <= j <= |entries|
        invariant values == Flattened(store.keys[..i], store.entries) + entries[..j]
      {
        values := values + [entries[j]];
        assert entries[..j + 1] == entries[..j] + [entries[j]];
        j := j + 1;
      }
      assert entries[..|entries|] == entries;
      assert store.keys[..i + 1][..i] == store.keys[..i];
      i := i + 1;
    }
    assert store.keys[..|store.keys|] == store.keys;
    FlattenedLength(store.keys, store.entries);
    ContentsMembers(store);
  }
}
