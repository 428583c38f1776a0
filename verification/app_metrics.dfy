/**
 * Registration of pushed metrics (metrics/app.ts): the first time an application pushes
 * a metric with samples, a counter is created for it with the default labels followed by
 * every label key of those samples; a known name is never created again, and a type
 * other than counter is refused with an error line.
 */
module AppMetrics {
  import opened Wrappers
  import FirstSeen
  import opened MetricValues

  /** The configuration a counter is created with. */
  datatype CounterConfig = CounterConfig(name: string, help: string, aggregator: string, labelNames: seq<string>)

  /** The labels every pushed counter carries before its own. */
  const DefaultLabels: seq<string> := ["app", "instance"]

  /** One line written to the console or the error log for an entry with samples. */
  datatype LogLine = Accepted(name: string, pmId: int, values: seq<Sample>) | Unsupported(kind: string)

  /** Every label key of every sample, sample after sample, each in its key order. */
  function LabelKeys(values: seq<Sample>): seq<string>
  {
    if |values| == 0 then []
    else LabelKeys(values[..|values| - 1]) + values[|values| - 1].labels.keys
  }

  /** A key occurs in `LabelKeys` exactly when one of the samples has it. */
  lemma {:induction false} LabelKeysMembers(values: seq<Sample>, k: string)
    ensures k in LabelKeys(values) <==> exists i :: 0 <= i < |values| && k in values[i].labels.keys
  {
    if |values| > 0 {
      var front := values[..|values| - 1];
      LabelKeysMembers(front, k);
      if exists i :: 0 <= i < |values| && k in values[i].labels.keys {
        var i :| 0 <= i < |values| && k in values[i].labels.keys;
        if i < |front| {
          assert front[i] == values[i];
        }
      }
      if exists i :: 0 <= i < |front| && k in front[i].labels.keys {
        var i :| 0 <= i < |front| && k in front[i].labels.keys;
        assert values[i] == front[i];
      }
    }
  }

  /** The inner loop of parseLabels: the keys of one label object, added to `labels`. */
  method AddKeys(labels: seq<string>, keys: seq<string>) returns (r: seq<string>)
    ensures r == FirstSeen.AddNew(labels, keys)
  {
    r := labels;
    var j := 0;
    while j < |keys|
      invariant 0 <= j <= |keys|
      invariant r == FirstSeen.AddNew(labels, keys[..j])
    {
      assert keys[..j + 1][..j] == keys[..j];
      if keys[j] !in r {
        r := r + [keys[j]];
      }
      j := j + 1;
    }
    assert keys[..|keys|] == keys;
  }

  /**
   * parseLabels: every label key of the samples exactly once, in the order first seen,
   * built with the source's nested loops over the samples and their keys.
   */
  method ParseLabels(values: seq<Sample>) returns (labels: seq<string>)
    ensures labels == FirstSeen.Dedup(LabelKeys(values))
    ensures FirstSeen.Distinct(labels)
    ensures forall k :: k in labels <==> exists i :: 0 <= i < |values| && k in values[i].labels.keys
    ensures forall i, j :: 0 <= i < j < |labels| ==>
      labels[i] in LabelKeys(values) && labels[j] in LabelKeys(values) &&
      FirstSeen.FirstIndex(LabelKeys(values), labels[i]) < FirstSeen.FirstIndex(LabelKeys(values), labels[j])
  {
    labels := [];
    var i := 0;
    while i < |values|
      invariant 0 <= i <= |values|
      invariant labels == FirstSeen.AddNew([], LabelKeys(values[..i]))
    {
      var keys := values[i].labels.keys;
      labels := AddKeys(labels, keys);
      FirstSeen.AddNewAppend([], LabelKeys(values[..i]), keys);
      assert values[..i + 1][..i] == values[..i];
      i := i + 1;
    }
    assert values[..|values|] == values;
    var all := LabelKeys(values);
    FirstSeen.AddNewDistinct([], all);
    FirstSeen.AddNewMembers([], all);
    FirstSeen.AddNewFirstSeenOrder([], all);
    forall k
      ensures k in labels <==> exists i :: 0 <= i < |values| && k in values[i].labels.keys
    {
      LabelKeysMembers(values, k);
    }
  }

  /** The entry's `values` is an array with at least one sample. */
  predicate Eligible(e: PushedMetric)
  {
    e.values.Some? && |e.values.value| > 0
  }

  /** An entry that creates a counter when its name is unknown. */
  predicate CounterEntry(e: PushedMetric)
  {
    Eligible(e) && e.kind == Counter
  }

  /** What createMetricByType makes of an entry and its parsed labels. */
  function Created(e: PushedMetric, labels: seq<string>): Option<CounterConfig>
  {
    if e.kind == Counter then Some(CounterConfig(e.name, e.help, e.aggregator, DefaultLabels + labels))
    else None
  }

  /** The counter an entry of type counter is registered as. */
  function CounterFor(e: PushedMetric): CounterConfig
    requires CounterEntry(e)
  {
    Created(e, FirstSeen.Dedup(LabelKeys(e.values.value))).value
  }

  /** The metric an eligible entry ends up with: the registered one, else the one created now. */
  function Resolved(registry: map<string, CounterConfig>, e: PushedMetric): Option<CounterConfig>
    requires Eligible(e)
  {
    if e.name in registry then Some(registry[e.name])
    else Created(e, FirstSeen.Dedup(LabelKeys(e.values.value)))
  }

  /** The registry after one entry. */
  function Step(registry: map<string, CounterConfig>, e: PushedMetric): map<string, CounterConfig>
  {
    if !Eligible(e) || e.name in registry then registry
    else match Resolved(registry, e)
      case Some(c) => registry[e.name := c]
      case None => registry
  }

  /** The log line of one entry. */
  function StepLog(registry: map<string, CounterConfig>, e: PushedMetric, pmId: int): seq<LogLine>
  {
    if !Eligible(e) then []
    else if Resolved(registry, e).Some? then [Accepted(e.name, pmId, e.values.value)]
    else [Unsupported(e.kind)]
  }

  /** The registry after the entries, in order. */
  function Registered(registry: map<string, CounterConfig>, es: seq<PushedMetric>): map<string, CounterConfig>
  {
    if |es| == 0 then registry
    else Step(Registered(registry, es[..|es| - 1]), es[|es| - 1])
  }

  /** The log lines of the entries, in order. */
  function Logged(registry: map<string, CounterConfig>, es: seq<PushedMetric>, pmId: int): seq<LogLine>
  {
    if |es| == 0 then []
    else
      var front := es[..|es| - 1];
      Logged(registry, front, pmId) + StepLog(Registered(registry, front), es[|es| - 1], pmId)
  }

  /**
   * An entry without samples changes nothing and logs nothing; one with samples logs its
   * values exactly when a metric is registered under its name afterwards, and the error
   * line naming its type otherwise.
   */
  lemma StepLogAgrees(registry: map<string, CounterConfig>, e: PushedMetric, pmId: int)
    ensures !Eligible(e) ==> Step(registry, e) == registry && StepLog(registry, e, pmId) == []
    ensures Eligible(e) && e.name in Step(registry, e) ==>
      StepLog(registry, e, pmId) == [Accepted(e.name, pmId, e.values.value)]
    ensures Eligible(e) && e.name !in Step(registry, e) ==>
      StepLog(registry, e, pmId) == [Unsupported(e.kind)] && e.kind != Counter
  {
  }

  /** A registered metric is never replaced: its labels are fixed when first seen. */
  lemma {:induction false} RegisteredKeeps(registry: map<string, CounterConfig>, es: seq<PushedMetric>)
    ensures forall n :: n in registry ==> n in Registered(registry, es) && Registered(registry, es)[n] == registry[n]
  {
    if |es| > 0 {
      RegisteredKeeps(registry, es[..|es| - 1]);
    }
  }

  /** The names registered afterwards are those before and those of counter entries with samples. */
  lemma {:induction false} RegisteredNames(registry: map<string, CounterConfig>, es: seq<PushedMetric>, n: string)
    ensures n in Registered(registry, es) <==>
      n in registry || exists i :: 0 <= i < |es| && CounterEntry(es[i]) && es[i].name == n
  {
    if |es| > 0 {
      var front := es[..|es| - 1];
      RegisteredNames(registry, front, n);
      if exists i :: 0 <= i < |es| && CounterEntry(es[i]) && es[i].name == n {
        var i :| 0 <= i < |es| && CounterEntry(es[i]) && es[i].name == n;
        if i < |front| {
          assert front[i] == es[i];
        }
      }
      if exists i :: 0 <= i < |front| && CounterEntry(front[i]) && front[i].name == n {
        var i :| 0 <= i < |front| && CounterEntry(front[i]) && front[i].name == n;
        assert es[i] == front[i];
      }
    }
  }

  /**
   * A name that was not registered before is registered with the configuration of the
   * first counter entry with samples under that name.
   */
  lemma {:induction false} RegisteredFromFirst(registry: map<string, CounterConfig>, es: seq<PushedMetric>, i: nat)
    requires i < |es| && CounterEntry(es[i]) && es[i].name !in registry
    requires forall j :: 0 <= j < i ==> !(CounterEntry(es[j]) && es[j].name == es[i].name)
    ensures es[i].name in Registered(registry, es)
    ensures Registered(registry, es)[es[i].name] == CounterFor(es[i])
  {
    var front := es[..|es| - 1];
    var n := es[i].name;
    if i < |front| {
      assert front[i] == es[i];
      RegisteredFromFirst(registry, front, i);
    } else {
      RegisteredNames(registry, front, n);
      assert n !in Registered(registry, front) by {
        forall j | 0 <= j < |front|
          ensures !(CounterEntry(front[j]) && front[j].name == n)
        {
          assert front[j] == es[j];
        }
      }
    }
  }

  /** Entries whose counters are all registered leave the registry as it is. */
  lemma {:induction false} RegisteredStable(registry: map<string, CounterConfig>, es: seq<PushedMetric>)
    requires forall i :: 0 <= i < |es| && CounterEntry(es[i]) ==> es[i].name in registry
    ensures Registered(registry, es) == registry
  {
    if |es| > 0 {
      var front := es[..|es| - 1];
      assert forall i :: 0 <= i < |front| ==> front[i] == es[i];
      RegisteredStable(registry, front);
    }
  }

  /** Processing the same entries a second time leaves the registry as after the first. */
  lemma RegisteredIdempotent(registry: map<string, CounterConfig>, es: seq<PushedMetric>)
    ensures Registered(Registered(registry, es), es) == Registered(registry, es)
  {
    forall i | 0 <= i < |es| && CounterEntry(es[i])
      ensures es[i].name in Registered(registry, es)
    {
      RegisteredNames(registry, es, es[i].name);
    }
    RegisteredStable(Registered(registry, es), es);
  }

  /** The module-level registry of pushed metrics, by metric name. */
  class PushedCounters {
    var dynamicAppMetrics: map<string, CounterConfig>

    constructor()
      ensures dynamicAppMetrics == map[]
    {
      dynamicAppMetrics := map[];
    }

    /** createMetricByType: a counter is created and registered under its name; any other type gives nothing. */
    method CreateMetricByType(metric: PushedMetric, labels: seq<string>) returns (created: Option<CounterConfig>)
      modifies this
      ensures metric.kind == Counter ==>
        && created == Some(CounterConfig(metric.name, metric.help, metric.aggregator, DefaultLabels + labels))
        && dynamicAppMetrics == old(dynamicAppMetrics)[metric.name := created.value]
      ensures metric.kind != Counter ==> created == None && dynamicAppMetrics == old(dynamicAppMetrics)
    {
      if metric.kind == Counter {
        var entry := CounterConfig(metric.name, metric.help, metric.aggregator, DefaultLabels + labels);
        dynamicAppMetrics := dynamicAppMetrics[metric.name := entry];
        created := Some(entry);
      } else {
        created := None;
      }
    }

    /**
     * processAppMetrics: a message whose `metrics` is not an array changes nothing;
     * otherwise every entry is registered and logged in order.
     */
    method ProcessAppMetrics(pmId: int, response: AppResponse) returns (log: seq<LogLine>)
      modifies this
      ensures response.metrics.None? ==> dynamicAppMetrics == old(dynamicAppMetrics) && log == []
      ensures response.metrics.Some? ==>
        && dynamicAppMetrics == Registered(old(dynamicAppMetrics), response.metrics.value)
        && log == Logged(old(dynamicAppMetrics), response.metrics.value, pmId)
    {
      log := [];
      if response.metrics.None? {
        return;
      }
      var es := response.metrics.value;
      ghost var start := dynamicAppMetrics;
      var i := 0;
      while i < |es|
        invariant 0 <= i <= |es|
        invariant dynamicAppMetrics == Registered(start, es[..i])
        invariant log == Logged(start, es[..i], pmId)
      {
        var entry := es[i];
        assert es[..i + 1][..i] == es[..i];
        if entry.values.Some? && |entry.values.value| > 0 {
          var metric: Option<CounterConfig>;
          if entry.name in dynamicAppMetrics {
            metric := Some(dynamicAppMetrics[entry.name]);
          } else {
            var labels := ParseLabels(entry.values.value);
            metric := CreateMetricByType(entry, labels);
          }
          if metric.Some? {
            log := log + [Accepted(entry.name, pmId, entry.values.value)];
          } else {
            log := log + [Unsupported(entry.kind)];
          }
        }
        i := i + 1;
      }
      assert es[..|es|] == es;
    }
  }
}
