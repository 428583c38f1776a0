/**
 * The registry of pushed metric names kept by utils/metrics.ts: per application name, an
 * object whose keys are the metric names that application has pushed, each added once,
 * the first time it is seen.
 */
module PushedMetricNames {
  import FirstSeen
  import opened MetricValues

  /** The names of the pushed entries, in order. */
  function MetricNames(ms: seq<PushedMetric>): (names: seq<string>)
    ensures |names| == |ms|
    ensures forall i :: 0 <= i < |ms| ==> names[i] == ms[i].name
  {
    seq(|ms|, i requires 0 <= i < |ms| => ms[i].name)
  }

  /** The names already recorded for `appName`, none when it has no entry yet. */
  function NamesOf(registry: map<string, seq<string>>, appName: string): seq<string>
  {
    if appName in registry then registry[appName] else []
  }

  /** The registry after one message of `appName` whose metrics array is `ms`. */
  function Recorded(registry: map<string, seq<string>>, appName: string, ms: seq<PushedMetric>)
    : map<string, seq<string>>
  {
    registry[appName := FirstSeen.AddNew(NamesOf(registry, appName), MetricNames(ms))]
  }

  /** Every recorded list holds each name once. */
  ghost predicate Distinct(registry: map<string, seq<string>>)
  {
    forall a :: a in registry ==> FirstSeen.Distinct(registry[a])
  }

  /**
   * After a message the application has an entry; it holds every pushed name and the names
   * it held before, those first and in place; nothing else is added, no name twice, and
   * other applications are untouched.
   */
  lemma RecordedMeaning(registry: map<string, seq<string>>, appName: string, ms: seq<PushedMetric>)
    requires Distinct(registry)
    ensures var r := Recorded(registry, appName, ms);
      && appName in r
      && (forall i :: 0 <= i < |ms| ==> ms[i].name in r[appName])
      && NamesOf(registry, appName) <= r[appName]
      && (forall n :: n in r[appName] ==> n in NamesOf(registry, appName) || exists i :: 0 <= i < |ms| && ms[i].name == n)
      && Distinct(r)
      && (forall a :: a in registry && a != appName ==> a in r && r[a] == registry[a])
      && r.Keys == registry.Keys + {appName}
  {
    var names := MetricNames(ms);
    var before := NamesOf(registry, appName);
    FirstSeen.AddNewExtends(before, names);
    FirstSeen.AddNewMembers(before, names);
    FirstSeen.AddNewDistinct(before, names);
    forall i | 0 <= i < |ms|
      ensures ms[i].name in Recorded(registry, appName, ms)[appName]
    {
      assert names[i] in names;
    }
    forall n | n in names
      ensures exists i :: 0 <= i < |ms| && ms[i].name == n
    {
      var i :| 0 <= i < |names| && names[i] == n;
    }
  }

  /** A second identical message changes nothing. */
  lemma RecordedIdempotent(registry: map<string, seq<string>>, appName: string, ms: seq<PushedMetric>)
    ensures Recorded(Recorded(registry, appName, ms), appName, ms) == Recorded(registry, appName, ms)
  {
    var once := Recorded(registry, appName, ms);
    assert NamesOf(once, appName) == FirstSeen.AddNew(NamesOf(registry, appName), MetricNames(ms));
    FirstSeen.AddNewIdempotent(NamesOf(registry, appName), MetricNames(ms));
  }

  /** The module-level registry `dynamicAppMetrics`, by application name. */
  class PushedNames {
    var dynamicAppMetrics: map<string, seq<string>>

    constructor()
      ensures dynamicAppMetrics == map[]
    {
      dynamicAppMetrics := map[];
    }

    /**
     * processAppMetrics: a message whose `metrics` is not an array changes nothing;
     * otherwise the application gets an entry and every pushed name not yet in it is added.
     */
    method ProcessAppMetrics(appName: string, response: AppResponse)
      modifies this
      ensures response.metrics.None? ==> dynamicAppMetrics == old(dynamicAppMetrics)
      ensures response.metrics.Some? ==>
        dynamicAppMetrics == Recorded(old(dynamicAppMetrics), appName, response.metrics.value)
    {
      if response.metrics.None? {
        return;
      }
      var ms := response.metrics.value;
      if appName !in dynamicAppMetrics {
        dynamicAppMetrics := dynamicAppMetrics[appName := []];
      }
      ghost var start := dynamicAppMetrics[appName];
      ghost var rest := dynamicAppMetrics;
      var names := MetricNames(ms);
      var i := 0;
      while i < |ms|
        invariant 0 <= i <= |ms|
        invariant appName in dynamicAppMetrics
        invariant dynamicAppMetrics == rest[appName := FirstSeen.AddNew(start, names[..i])]
      {
        var metricName := ms[i].name;
        assert names[..i + 1] == names[..i] + [metricName];
        if metricName !in dynamicAppMetrics[appName] {
          dynamicAppMetrics := dynamicAppMetrics[appName := dynamicAppMetrics[appName] + [metricName]];
        }
        i := i + 1;
      }
      assert names[..|ms|] == names;
    }
  }
}
