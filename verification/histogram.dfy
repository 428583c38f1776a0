/**
 * The pushed histogram (metrics/prom/histogram.ts): a prom-client histogram whose values
 * are not observed locally but stored as pushed, one list per instance, and the bucket
 * bounds read off the `le` labels of a list of samples.
 */
module PromHistogram {
  import OrderedDict
  import FirstSeen
  import opened MetricValues
  import opened LabelledValues

  class Histogram {
    var name: string
    var help: string
    var kind: string
    var aggregator: string
    var values: OrderedDict.Dict<seq<Sample>>

    ghost predicate Valid()
      reads this
    {
      StoreWellFormed(values)
    }

    /** A histogram with the given fields and no stored values. */
    constructor(name: string, help: string, kind: string, aggregator: string)
      ensures Valid()
      ensures this.name == name && this.help == help && this.kind == kind && this.aggregator == aggregator
      ensures values.entries == map[]
    {
      this.name := name;
      this.help := help;
      this.kind := kind;
      this.aggregator := aggregator;
      values := OrderedDict.Empty();
    }

    /**
     * Stores the pushed samples of one instance under the key of its default labels,
     * each sample relabelled with those defaults; the lists of other instances are kept.
     */
    method SetValues(defaultLabels: OrderedDict.Dict<LabelValue>, samples: seq<Sample>)
      requires Valid() && OrderedDict.Valid(defaultLabels) && SamplesWellFormed(samples)
      modifies this
      ensures Valid()
      ensures values == Stored(old(values), defaultLabels, samples)
      ensures name == old(name) && help == old(help) && kind == old(kind) && aggregator == old(aggregator)
    {
      var valueKey := StorageKey(defaultLabels);
      values := OrderedDict.Put(values, valueKey, Relabel(samples, defaultLabels));
    }

    /** All stored samples, instance after instance in the order they were first stored. */
    method GetForPromString() returns (r: Snapshot)
      requires Valid()
      ensures r == Snapshot(name, help, kind, Contents(values), aggregator)
      ensures |r.values| == TotalLength(values.keys, values.entries)
      ensures forall s :: s in r.values <==> exists k :: k in values.entries && s in values.entries[k]
    {
      var all := Collect(values);
      r := Snapshot(name, help, kind, all, aggregator);
    }
  }

  /** The sample carries an `le` label other than the string `+Inf`, and it reads as `b`. */
  predicate HasBound(s: Sample, toNumber: LabelValue -> int, b: int)
  {
    "le" in s.labels.entries && s.labels.entries["le"] != Str("+Inf") && toNumber(s.labels.entries["le"]) == b
  }

  /** The bounds read off the labels under `keys`, in key order. */
  function BoundsIn(keys: seq<string>, entries: map<string, LabelValue>, toNumber: LabelValue -> int): seq<int>
    requires forall k :: k in keys ==> k in entries
  {
    if |keys| == 0 then []
    else
      var k := keys[|keys| - 1];
      BoundsIn(keys[..|keys| - 1], entries, toNumber)
        + (if k == "le" && entries[k] != Str("+Inf") then [toNumber(entries[k])] else [])
  }

  /** Extending the key list by one key extends the bounds by that key's bound, if any. */
  lemma BoundsInPrefix(keys: seq<string>, entries: map<string, LabelValue>, toNumber: LabelValue -> int, j: nat)
    requires forall k :: k in keys ==> k in entries
    requires j < |keys|
    ensures BoundsIn(keys[..j + 1], entries, toNumber) == BoundsIn(keys[..j], entries, toNumber)
      + (if keys[j] == "le" && entries[keys[j]] != Str("+Inf") then [toNumber(entries[keys[j]])] else [])
  {
    assert keys[..j + 1][..j] == keys[..j];
  }

  /** The bounds of all samples, in sample order. */
  function Bounds(values: seq<Sample>, toNumber: LabelValue -> int): seq<int>
    requires SamplesWellFormed(values)
  {
    if |values| == 0 then []
    else
      var s := values[|values| - 1];
      Bounds(values[..|values| - 1], toNumber) + BoundsIn(s.labels.keys, s.labels.entries, toNumber)
  }

  /** A label list yields `b` exactly when it holds an `le` label other than `+Inf` reading as `b`. */
  lemma {:induction false} BoundsInMembers(keys: seq<string>, entries: map<string, LabelValue>,
                                           toNumber: LabelValue -> int, b: int)
    requires forall k :: k in keys ==> k in entries
    ensures b in BoundsIn(keys, entries, toNumber) <==>
      "le" in keys && entries["le"] != Str("+Inf") && toNumber(entries["le"]) == b
  {
    if |keys| > 0 {
      var front := keys[..|keys| - 1];
      BoundsInMembers(front, entries, toNumber, b);
      assert keys == front + [keys[|keys| - 1]];
    }
  }

  /** The samples yield `b` exactly when one of them has bound `b`. */
  lemma {:induction false} BoundsMembers(values: seq<Sample>, toNumber: LabelValue -> int, b: int)
    requires SamplesWellFormed(values)
    ensures b in Bounds(values, toNumber) <==> exists i :: 0 <= i < |values| && HasBound(values[i], toNumber, b)
  {
    if |values| > 0 {
      var front := values[..|values| - 1];
      var s := values[|values| - 1];
      assert SamplesWellFormed(front) by {
        forall i | 0 <= i < |front|
          ensures OrderedDict.Valid(front[i].labels)
        {
          assert front[i] == values[i];
        }
      }
      BoundsMembers(front, toNumber, b);
      BoundsInMembers(s.labels.keys, s.labels.entries, toNumber, b);
      if exists i :: 0 <= i < |values| && HasBound(values[i], toNumber, b) {
        var i :| 0 <= i < |values| && HasBound(values[i], toNumber, b);
        if i < |front| {
          assert front[i] == values[i];
        }
      }
      if exists i :: 0 <= i < |front| && HasBound(front[i], toNumber, b) {
        var i :| 0 <= i < |front| && HasBound(front[i], toNumber, b);
        assert values[i] == front[i];
      }
    }
  }

  /** The inner loop of getHistogramBuckets: the bounds of one label object, added to `buckets`. */
  method AddLabelBounds(buckets: seq<int>, labels: OrderedDict.Dict<LabelValue>, toNumber: LabelValue -> int)
    returns (r: seq<int>)
    requires OrderedDict.Valid(labels)
    ensures r == FirstSeen.AddNew(buckets, BoundsIn(labels.keys, labels.entries, toNumber))
  {
    r := buckets;
    var j := 0;
    while j < |labels.keys|
      invariant 0 <= j <= |labels.keys|
      invariant r == FirstSeen.AddNew(buckets, BoundsIn(labels.keys[..j], labels.entries, toNumber))
    {
      var labelKey := labels.keys[j];
      ghost var before := BoundsIn(labels.keys[..j], labels.entries, toNumber);
      ghost var after := BoundsIn(labels.keys[..j + 1], labels.entries, toNumber);
      BoundsInPrefix(labels.keys, labels.entries, toNumber, j);
      if labelKey == "le" && labels.entries[labelKey] != Str("+Inf") {
        var b := toNumber(labels.entries[labelKey]);
        assert after == before + [b];
        assert after[..|after| - 1] == before;
        if b !in r {
          r := r + [b];
        }
      } else {
        assert after == before;
      }
      j := j + 1;
    }
    assert labels.keys[..|labels.keys|] == labels.keys;
  }

  /**
   * getHistogramBuckets: each bound read off an `le` label other than `+Inf`, once,
   * in the order first seen.
   */
  method GetHistogramBuckets(values: seq<Sample>, toNumber: LabelValue -> int) returns (buckets: seq<int>)
    requires SamplesWellFormed(values)
    ensures buckets == FirstSeen.Dedup(Bounds(values, toNumber))
    ensures FirstSeen.Distinct(buckets)
    ensures forall b :: b in buckets <==> exists i :: 0 <= i < |values| && HasBound(values[i], toNumber, b)
  {
    buckets := [];
    var i := 0;
    while i < |values|
      invariant 0 <= i <= |values|
      invariant SamplesWellFormed(values[..i])
      invariant buckets == FirstSeen.AddNew([], Bounds(values[..i], toNumber))
    {
      var labels := values[i].labels;
      assert OrderedDict.Valid(labels);
      ghost var seen := Bounds(values[..i], toNumber);
      buckets := AddLabelBounds(buckets, labels, toNumber);
      FirstSeen.AddNewAppend([], seen, BoundsIn(labels.keys, labels.entries, toNumber));
      assert values[..i + 1][..i] == values[..i];
      assert values[..i + 1][i] == values[i];
      i := i + 1;
    }
    assert values[..|values|] == values;
    FirstSeen.AddNewDistinct([], Bounds(values, toNumber));
    FirstSeen.AddNewMembers([], Bounds(values, toNumber));
    forall b
      ensures b in buckets <==> exists i :: 0 <= i < |values| && HasBound(values[i], toNumber, b)
    {
      BoundsMembers(values, toNumber, b);
    }
  }
}
