/**
 * The pushed summary (metrics/prom/summary.ts): a prom-client summary whose values are
 * stored as pushed, one list per instance, under the key of the instance's default labels.
 */
module PromSummary {
  import OrderedDict
  import opened MetricValues
  import opened LabelledValues

  class Summary {
    var name: string
    var help: string
    var kind: string
    var aggregator: string
    var values: OrderedDict.Dict<seq<Sample>>

    ghost predicate Valid()
      reads this
    {
      StoreWellFormed(values)
    }

    /** A summary with the given fields and no stored values. */
    constructor(name: string, help: string, kind: string, aggregator: string)
      ensures Valid()
      ensures this.name == name && this.help == help && this.kind == kind && this.aggregator == aggregator
      ensures values.entries == map[]
    {
      this.name := name;
      this.help := help;
      this.kind := kind;
      this.aggregator := aggregator;
      values := OrderedDict.Empty();
    }

    /**
     * Replaces the list stored under the key of the default labels with the pushed
     * samples, relabelled with those defaults; the lists of other instances are kept.
     */
    method SetValues(defaultLabels: OrderedDict.Dict<LabelValue>, samples: seq<Sample>)
      requires Valid() && OrderedDict.Valid(defaultLabels) && SamplesWellFormed(samples)
      modifies this
      ensures Valid()
      ensures values == Stored(old(values), defaultLabels, samples)
      ensures name == old(name) && help == old(help) && kind == old(kind) && aggregator == old(aggregator)
    {
      var valueKey := StorageKey(defaultLabels);
      values := OrderedDict.Put(values, valueKey, Relabel(samples, defaultLabels));
    }

    /** The summary's fields with all stored samples, list after list in key order. */
    method Get() returns (r: Snapshot)
      requires Valid()
      ensures r.name == name && r.help == help && r.kind == kind && r.aggregator == aggregator
      ensures r.values == Contents(values)
      ensures forall s :: s in r.values <==> exists k :: k in values.entries && s in values.entries[k]
    {
      var all := Collect(values);
      r := Snapshot(name, help, kind, all, aggregator);
    }
  }
}
