/**
 * The per-application worker table of the current generation (core/app.ts): records keyed
 * by OS pid, each with newest-first memory and cpu histories capped at 30 samples, the
 * pm2 probe values filtered against a fixed name table, and the start time of the app.
 */
module Apps {
  import opened Wrappers
  import opened Samples
  import OrderedDict

  /** MONIT_ITEMS_LIMIT of this generation. */
  const MonitItemsLimit: nat := 30

  /** A pm2 probe (`AxmMonitor`): its value after `Number(...)`, and its unit ("" when absent). */
  datatype AxmMonitor = AxmMonitor(value: int, unit: string)

  datatype ProbeSpec = ProbeSpec(name: string, unit: string)

  /** PM2_METRICS: the probes that are exported, with the unit they are reported in. */
  const Pm2Metrics: seq<ProbeSpec> := [
    ProbeSpec("Used Heap Size", "bytes"),
    ProbeSpec("Heap Usage", "%"),
    ProbeSpec("Heap Size", "bytes"),
    ProbeSpec("Event Loop Latency p95", "ms"),
    ProbeSpec("Event Loop Latency", "ms"),
    ProbeSpec("Active handles", "number"),
    ProbeSpec("Active requests", "number"),
    ProbeSpec("HTTP", "req/min"),
    ProbeSpec("HTTP P95 Latency", "ms"),
    ProbeSpec("HTTP Mean Latency", "ms")
  ]

  /** `PM2_METRICS.map((entry) => entry.name)`. */
  function Pm2MetricNames(): (names: seq<string>)
    ensures |names| == |Pm2Metrics|
    ensures forall i :: 0 <= i < |names| ==> names[i] == Pm2Metrics[i].name
  {
    seq(|Pm2Metrics|, i requires 0 <= i < |Pm2Metrics| => Pm2Metrics[i].name)
  }

  /** What one poll reports about one pid (IPidDataInput). */
  datatype PidInput = PidInput(
    id: nat,
    pmId: nat,
    memory: nat,
    cpu: nat,
    restartCount: nat,
    createdAt: int,
    metrics: Option<OrderedDict.Dict<AxmMonitor>>)

  /** The record kept per pid (IPidData): histories are newest first. */
  datatype PidData = PidData(
    id: nat,
    pmId: nat,
    memory: seq<nat>,
    cpu: seq<nat>,
    restartCount: nat,
    metrics: OrderedDict.Dict<int>)

  /** The value an `App` object holds. */
  datatype AppState = AppState(name: string, pids: map<nat, PidData>, startTime: int)

  /** Every record sits under its own pid, and both histories hold between 1 and 30 samples. */
  ghost predicate WellFormed(pids: map<nat, PidData>)
  {
    forall p :: p in pids ==>
      && pids[p].id == p
      && 1 <= |pids[p].memory| <= MonitItemsLimit
      && 1 <= |pids[p].cpu| <= MonitItemsLimit
      && OrderedDict.Valid(pids[p].metrics)
  }

  ghost predicate InputWellFormed(input: PidInput)
  {
    input.metrics.Some? ==> OrderedDict.Valid(input.metrics.value)
  }

  /** A probe value in the exported unit: values reported in MiB are turned into bytes. */
  function Scaled(m: AxmMonitor): (v: int)
    ensures m.unit == "MiB" ==> v == m.value * 1048576
    ensures m.unit != "MiB" ==> v == m.value
  {
    if m.unit == "MiB" then m.value * 1024 * 1024 else m.value
  }

  /**
   * fillMetricsData: the probes whose name is one of PM2_METRICS, under the key
   * `toUnderscore(name)` (the repository's `toUndescore`, whose definition is not part of
   * this model), with MiB values scaled to bytes; nothing when the probes are absent.
   */
  function FillMetricsData(amx: Option<OrderedDict.Dict<AxmMonitor>>, toUnderscore: string -> string): (r: OrderedDict.Dict<int>)
    requires amx.Some? ==> OrderedDict.Valid(amx.value)
    ensures OrderedDict.Valid(r)
    ensures amx.None? ==> r.entries == map[]
    ensures amx.Some? ==> forall key :: key in r.entries <==>
      exists k :: k in amx.value.entries && k in Pm2MetricNames() && toUnderscore(k) == key
  {
    match amx
    case None => OrderedDict.Empty()
    case Some(d) => FillFrom(OrderedDict.Empty(), d, d.keys, toUnderscore)
  }

  /** The `forEach` over the probe keys `ks`, adding to `acc`. */
  function FillFrom(acc: OrderedDict.Dict<int>, d: OrderedDict.Dict<AxmMonitor>, ks: seq<string>,
                    toUnderscore: string -> string): (r: OrderedDict.Dict<int>)
    requires OrderedDict.Valid(acc) && OrderedDict.Valid(d)
    requires forall k :: k in ks ==> k in d.entries
    ensures OrderedDict.Valid(r)
    ensures forall key :: key in r.entries <==>
      key in acc.entries || exists k :: k in ks && k in Pm2MetricNames() && toUnderscore(k) == key
    decreases |ks|
  {
    if ks == [] then acc
    else
      var k := ks[0];
      var acc' := if k in Pm2MetricNames() then OrderedDict.Put(acc, toUnderscore(k), Scaled(d.entries[k])) else acc;
      var r := FillFrom(acc', d, ks[1..], toUnderscore);
      assert forall j :: j in ks <==> j == k || j in ks[1..];
      r
  }

  /** The key function sends distinct probe names to distinct keys. */
  ghost predicate InjectiveOnProbeNames(toUnderscore: string -> string)
  {
    forall a, b :: a in Pm2MetricNames() && b in Pm2MetricNames() && toUnderscore(a) == toUnderscore(b) ==> a == b
  }

  /** With distinct keys per probe name, every exported probe holds its own scaled value. */
  lemma {:induction false} FillFromValues(acc: OrderedDict.Dict<int>, d: OrderedDict.Dict<AxmMonitor>, ks: seq<string>,
                                          toUnderscore: string -> string)
    requires OrderedDict.Valid(acc) && OrderedDict.Valid(d)
    requires forall k :: k in ks ==> k in d.entries
    requires InjectiveOnProbeNames(toUnderscore)
    ensures forall k :: k in ks && k in Pm2MetricNames() ==>
      FillFrom(acc, d, ks, toUnderscore).entries[toUnderscore(k)] == Scaled(d.entries[k])
    decreases |ks|
  {
    if ks != [] {
      var k := ks[0];
      var acc' := if k in Pm2MetricNames() then OrderedDict.Put(acc, toUnderscore(k), Scaled(d.entries[k])) else acc;
      FillFromValues(acc', d, ks[1..], toUnderscore);
      var r := FillFrom(acc', d, ks[1..], toUnderscore);
      assert r == FillFrom(acc, d, ks, toUnderscore);
      if k in Pm2MetricNames() {
        FillFromKeeps(acc', d, ks[1..], toUnderscore, toUnderscore(k));
      }
    }
  }

  /** A key that no remaining probe name maps to keeps the value it had. */
  lemma {:induction false} FillFromKeeps(acc: OrderedDict.Dict<int>, d: OrderedDict.Dict<AxmMonitor>, ks: seq<string>,
                                         toUnderscore: string -> string, key: string)
    requires OrderedDict.Valid(acc) && OrderedDict.Valid(d)
    requires forall k :: k in ks ==> k in d.entries
    requires key in acc.entries
    requires InjectiveOnProbeNames(toUnderscore)
    requires forall k :: k in ks && k in Pm2MetricNames() && toUnderscore(k) == key ==> Scaled(d.entries[k]) == acc.entries[key]
    ensures FillFrom(acc, d, ks, toUnderscore).entries[key] == acc.entries[key]
    decreases |ks|
  {
    if ks != [] {
      var k := ks[0];
      var acc' := if k in Pm2MetricNames() then OrderedDict.Put(acc, toUnderscore(k), Scaled(d.entries[k])) else acc;
      FillFromKeeps(acc', d, ks[1..], toUnderscore, key);
    }
  }

  /** fillMetricsData for a key function that keeps probe names apart: each exported probe under its key, scaled. */
  lemma FillMetricsDataValues(d: OrderedDict.Dict<AxmMonitor>, toUnderscore: string -> string)
    requires OrderedDict.Valid(d)
    requires InjectiveOnProbeNames(toUnderscore)
    ensures forall k :: k in d.entries && k in Pm2MetricNames() ==>
      FillMetricsData(Some(d), toUnderscore).entries[toUnderscore(k)] == Scaled(d.entries[k])
  {
    FillFromValues(OrderedDict.Empty(), d, d.keys, toUnderscore);
  }

  /** removeNotActivePids as a value: the records whose pid is listed in `activePids`. */
  function Pruned(pids: map<nat, PidData>, activePids: seq<nat>): (r: map<nat, PidData>)
    ensures r.Keys == pids.Keys * (set p | p in activePids)
    ensures forall p :: p in r ==> r[p] == pids[p]
  {
    map p | p in pids && p in activePids :: pids[p]
  }

  /** The record created for a pid seen for the first time. */
  function NewRecord(input: PidInput, toUnderscore: string -> string): PidData
    requires InputWellFormed(input)
  {
    PidData(input.id, input.pmId, [input.memory], [input.cpu], input.restartCount,
            FillMetricsData(input.metrics, toUnderscore))
  }

  /** The record of a known pid after a poll: both samples pushed, restart count and probes replaced. */
  function Refreshed(d: PidData, input: PidInput, toUnderscore: string -> string): PidData
    requires InputWellFormed(input)
  {
    d.(memory := Push(d.memory, input.memory, MonitItemsLimit),
       cpu := Push(d.cpu, input.cpu, MonitItemsLimit),
       restartCount := input.restartCount,
       metrics := FillMetricsData(input.metrics, toUnderscore))
  }

  /**
   * updatePid as a value: the table gains at most the key `input.id`, every other record
   * stays as it was, and the record of `input.id` has the new samples at the head of its
   * histories.
   */
  function UpdatedPids(pids: map<nat, PidData>, input: PidInput, toUnderscore: string -> string): (r: map<nat, PidData>)
    requires WellFormed(pids) && InputWellFormed(input)
    ensures WellFormed(r)
    ensures r.Keys == pids.Keys + {input.id}
    ensures forall p :: p in pids && p != input.id ==> r[p] == pids[p]
    ensures r[input.id].memory[0] == input.memory && r[input.id].cpu[0] == input.cpu
    ensures r[input.id].restartCount == input.restartCount
    ensures r[input.id].metrics == FillMetricsData(input.metrics, toUnderscore)
  {
    if input.id !in pids then pids[input.id := NewRecord(input, toUnderscore)]
    else pids[input.id := Refreshed(pids[input.id], input, toUnderscore)]
  }

  /** A pid seen for the first time gets one-sample histories, the reported pm2 id and restart count, and its probes. */
  lemma NewPid(pids: map<nat, PidData>, input: PidInput, toUnderscore: string -> string)
    requires WellFormed(pids) && InputWellFormed(input)
    requires input.id !in pids
    ensures var d := UpdatedPids(pids, input, toUnderscore)[input.id];
      && d.memory == [input.memory] && d.cpu == [input.cpu]
      && d.pmId == input.pmId && d.restartCount == input.restartCount
      && d.metrics == FillMetricsData(input.metrics, toUnderscore)
  {
  }

  /**
   * A known pid keeps its pm2 id; each history becomes the new sample followed by the old
   * history, cut to 30 samples; the restart count and the probes are replaced.
   */
  lemma KnownPid(pids: map<nat, PidData>, input: PidInput, toUnderscore: string -> string)
    requires WellFormed(pids) && InputWellFormed(input)
    requires input.id in pids
    ensures var d, d' := pids[input.id], UpdatedPids(pids, input, toUnderscore)[input.id];
      && d'.pmId == d.pmId
      && |d'.memory| == Min(MonitItemsLimit, |d.memory| + 1)
      && d'.memory[1..] == d.memory[..|d'.memory| - 1]
      && |d'.cpu| == Min(MonitItemsLimit, |d.cpu| + 1)
      && d'.cpu[1..] == d.cpu[..|d'.cpu| - 1]
      && d'.restartCount == input.restartCount
      && d'.metrics == FillMetricsData(input.metrics, toUnderscore)
  {
    var d, d' := pids[input.id], UpdatedPids(pids, input, toUnderscore)[input.id];
    assert d'.memory[1..] == d.memory[..|d'.memory| - 1];
    assert d'.cpu[1..] == d.cpu[..|d'.cpu| - 1];
  }

  /** The App object: a table keyed by pid, and the time the first record went in. */
  class App {
    const name: string
    var pids: map<nat, PidData>
    var startTime: int

    ghost predicate Valid()
      reads this
    {
      WellFormed(pids)
    }

    constructor (name: string)
      ensures this.name == name && pids == map[] && startTime == 0
      ensures Valid()
    {
      this.name := name;
      pids := map[];
      startTime := 0;
    }

    /** The value this object holds. */
    function State(): (s: AppState)
      reads this
      ensures s.name == name && s.pids == pids && s.startTime == startTime
    {
      AppState(name, pids, startTime)
    }

    /** Deletes every record whose pid is not in `activePids`. */
    method RemoveNotActivePids(activePids: seq<nat>)
      requires Valid()
      modifies this
      ensures Valid()
      ensures pids == Pruned(old(pids), activePids)
      ensures startTime == old(startTime)
    {
      var keys := pids.Keys;
      while keys != {}
        invariant keys <= old(pids).Keys
        invariant pids.Keys == old(pids).Keys * (keys + set p | p in activePids)
        invariant forall p :: p in pids ==> pids[p] == old(pids)[p]
        invariant startTime == old(startTime)
        decreases keys
      {
        var pid :| pid in keys;
        if pid !in activePids {
          pids := pids - {pid};
        }
        keys := keys - {pid};
      }
    }

    /**
     * Records one poll of `pidData.id`; the start time is taken from this poll exactly
     * when the table was empty.
     */
    method UpdatePid(pidData: PidInput, toUnderscore: string -> string)
      requires Valid() && InputWellFormed(pidData)
      modifies this
      ensures Valid()
      ensures pids == UpdatedPids(old(pids), pidData, toUnderscore)
      ensures startTime == if old(pids) == map[] then pidData.createdAt else old(startTime)
    {
      var pid := pidData.id;
      if |pids| == 0 {
        startTime := pidData.createdAt;
      }
      if pid !in pids {
        pids := pids[pid := PidData(pid, pidData.pmId, [pidData.memory], [pidData.cpu],
                                    pidData.restartCount, FillMetricsData(pidData.metrics, toUnderscore))];
        assert pids == UpdatedPids(old(pids), pidData, toUnderscore);
      } else {
        var memoryValues := Push(pids[pid].memory, pidData.memory, MonitItemsLimit);
        var cpuValues := Push(pids[pid].cpu, pidData.cpu, MonitItemsLimit);
        pids := pids[pid := pids[pid].(memory := memoryValues, cpu := cpuValues,
                                       restartCount := pidData.restartCount,
                                       metrics := FillMetricsData(pidData.metrics, toUnderscore))];
        assert pids == UpdatedPids(old(pids), pidData, toUnderscore);
      }
    }
  }

  /** An entry of getCurrentPidsCpu, getCurrentPidsMemory or getRestartCount. */
  datatype PidValue = PidValue(pid: nat, pmId: nat, value: nat)

  /** An entry of getPidPm2Metrics. */
  datatype PidMetrics = PidMetrics(pid: nat, pmId: nat, metrics: OrderedDict.Dict<int>)

  function MemoryHistories(pids: map<nat, PidData>): (h: map<nat, seq<nat>>)
    ensures h.Keys == pids.Keys
    ensures WellFormed(pids) ==> NonEmptyHistories(h)
  {
    map p | p in pids :: pids[p].memory
  }

  function CpuHistories(pids: map<nat, PidData>): (h: map<nat, seq<nat>>)
    ensures h.Keys == pids.Keys
    ensures WellFormed(pids) ==> NonEmptyHistories(h)
  {
    map p | p in pids :: pids[p].cpu
  }

  /** getActivePm2Ids: one pm2 id per record, in pid order. */
  function ActivePm2Ids(pids: map<nat, PidData>): (r: seq<nat>)
    ensures |r| == |pids|
    ensures forall i :: 0 <= i < |r| ==>
      AscendingKeys(pids.Keys)[i] in pids && r[i] == pids[AscendingKeys(pids.Keys)[i]].pmId
  {
    var ks := AscendingKeys(pids.Keys);
    seq(|ks|, i requires 0 <= i < |ks| => pids[ks[i]].pmId)
  }

  /** Every record's pm2 id is among the active pm2 ids, and nothing else is. */
  lemma ActivePm2IdsMembers(pids: map<nat, PidData>)
    ensures forall p :: p in pids ==> pids[p].pmId in ActivePm2Ids(pids)
    ensures forall x :: x in ActivePm2Ids(pids) ==> exists p :: p in pids && pids[p].pmId == x
  {
    var ks := AscendingKeys(pids.Keys);
    var r := ActivePm2Ids(pids);
    forall p | p in pids
      ensures pids[p].pmId in r
    {
      var i :| 0 <= i < |ks| && ks[i] == p;
      assert r[i] == pids[p].pmId;
    }
    forall x | x in r
      ensures exists p :: p in pids && pids[p].pmId == x
    {
      var i :| 0 <= i < |r| && r[i] == x;
      assert ks[i] in pids && pids[ks[i]].pmId == x;
    }
  }

  /** getCurrentPidsCpu: every pid with its pm2 id and its newest cpu sample (`cpu[0] || 0`). */
  function CurrentPidsCpu(pids: map<nat, PidData>): (r: seq<PidValue>)
    ensures |r| == |pids| && forall i :: 0 <= i < |r| ==> r[i].pid == AscendingKeys(pids.Keys)[i]
    ensures forall i :: 0 <= i < |r| ==>
      r[i].pid in pids && r[i].pmId == pids[r[i].pid].pmId && r[i].value == HeadOrZero(pids[r[i].pid].cpu)
  {
    var ks := AscendingKeys(pids.Keys);
    var r := seq(|ks|, i requires 0 <= i < |ks| => PidValue(ks[i], pids[ks[i]].pmId, HeadOrZero(pids[ks[i]].cpu)));
    forall i | 0 <= i < |r|
      ensures r[i].pid == ks[i] && r[i].pid in pids
      ensures r[i].pmId == pids[r[i].pid].pmId && r[i].value == HeadOrZero(pids[r[i].pid].cpu)
    {
    }
    r
  }

  /** getCurrentPidsMemory: every pid with its pm2 id and its newest memory sample (`memory[0] || 0`). */
  function CurrentPidsMemory(pids: map<nat, PidData>): (r: seq<PidValue>)
    ensures |r| == |pids| && forall i :: 0 <= i < |r| ==> r[i].pid == AscendingKeys(pids.Keys)[i]
    ensures forall i :: 0 <= i < |r| ==>
      r[i].pid in pids && r[i].pmId == pids[r[i].pid].pmId && r[i].value == HeadOrZero(pids[r[i].pid].memory)
  {
    var ks := AscendingKeys(pids.Keys);
    var r := seq(|ks|, i requires 0 <= i < |ks| => PidValue(ks[i], pids[ks[i]].pmId, HeadOrZero(pids[ks[i]].memory)));
    forall i | 0 <= i < |r|
      ensures r[i].pid == ks[i] && r[i].pid in pids
      ensures r[i].pmId == pids[r[i].pid].pmId && r[i].value == HeadOrZero(pids[r[i].pid].memory)
    {
    }
    r
  }

  /** getRestartCount: every pid with its pm2 id and its last reported restart count. */
  function RestartCounts(pids: map<nat, PidData>): (r: seq<PidValue>)
    ensures |r| == |pids| && forall i :: 0 <= i < |r| ==> r[i].pid == AscendingKeys(pids.Keys)[i]
    ensures forall i :: 0 <= i < |r| ==>
      r[i].pid in pids && r[i].pmId == pids[r[i].pid].pmId && r[i].value == pids[r[i].pid].restartCount
  {
    var ks := AscendingKeys(pids.Keys);
    var r := seq(|ks|, i requires 0 <= i < |ks| => PidValue(ks[i], pids[ks[i]].pmId, pids[ks[i]].restartCount));
    forall i | 0 <= i < |r|
      ensures r[i].pid == ks[i] && r[i].pid in pids
      ensures r[i].pmId == pids[r[i].pid].pmId && r[i].value == pids[r[i].pid].restartCount
    {
    }
    r
  }

  /** getPidPm2Metrics: every pid with its pm2 id and its exported probe values. */
  function PidPm2Metrics(pids: map<nat, PidData>): (r: seq<PidMetrics>)
    ensures |r| == |pids| && forall i :: 0 <= i < |r| ==> r[i].pid == AscendingKeys(pids.Keys)[i]
    ensures forall i :: 0 <= i < |r| ==>
      r[i].pid in pids && r[i].pmId == pids[r[i].pid].pmId && r[i].metrics == pids[r[i].pid].metrics
  {
    var ks := AscendingKeys(pids.Keys);
    var r := seq(|ks|, i requires 0 <= i < |ks| => PidMetrics(ks[i], pids[ks[i]].pmId, pids[ks[i]].metrics));
    forall i | 0 <= i < |r|
      ensures r[i].pid == ks[i] && r[i].pid in pids
      ensures r[i].pmId == pids[r[i].pid].pmId && r[i].metrics == pids[r[i].pid].metrics
    {
    }
    r
  }

  /** getActiveWorkersCount: the number of records, which is the length of every per-pid projection. */
  function ActiveWorkersCount(pids: map<nat, PidData>): (n: nat)
    ensures n == |CurrentPidsCpu(pids)| == |CurrentPidsMemory(pids)| == |RestartCounts(pids)|
    ensures n == 0 <==> pids == map[]
  {
    if pids == map[] then 0 else
    assert exists p :: p in pids;
    |pids|
  }

  /** getAverageUsedMemory: the rounded mean of the per-pid rounded memory means; throws on an empty table. */
  function AverageUsedMemory(pids: map<nat, PidData>): nat
    requires WellFormed(pids) && |pids| > 0
  {
    MeanOfMeans(MemoryHistories(pids))
  }

  /** getAverageCpu: the rounded mean of the per-pid rounded cpu means; throws on an empty table. */
  function AverageCpu(pids: map<nat, PidData>): nat
    requires WellFormed(pids) && |pids| > 0
  {
    MeanOfMeans(CpuHistories(pids))
  }

  /** Every memory sample, and every cpu sample, of the table lies between `lo` and `hi`. */
  ghost predicate MemoryWithin(pids: map<nat, PidData>, lo: nat, hi: nat)
  {
    forall p, i :: p in pids && 0 <= i < |pids[p].memory| ==> lo <= pids[p].memory[i] <= hi
  }

  ghost predicate CpuWithin(pids: map<nat, PidData>, lo: nat, hi: nat)
  {
    forall p, i :: p in pids && 0 <= i < |pids[p].cpu| ==> lo <= pids[p].cpu[i] <= hi
  }

  /** The averages are averages: they lie between the smallest and the largest sample kept. */
  lemma AveragesWithinSamples(pids: map<nat, PidData>, lo: nat, hi: nat)
    requires WellFormed(pids) && |pids| > 0
    ensures MemoryWithin(pids, lo, hi) ==> lo <= AverageUsedMemory(pids) <= hi
    ensures CpuWithin(pids, lo, hi) ==> lo <= AverageCpu(pids) <= hi
  {
    if MemoryWithin(pids, lo, hi) {
      MeanOfMeansBounds(MemoryHistories(pids), lo, hi);
    }
    if CpuWithin(pids, lo, hi) {
      MeanOfMeansBounds(CpuHistories(pids), lo, hi);
    }
  }

  /** Some record's newest memory sample is non-zero: the condition under which getTotalUsedMemory does not throw. */
  predicate HasUsedMemory(pids: map<nat, PidData>)
  {
    NonZeroHeads(MemoryHistories(pids)) != []
  }

  /** getTotalUsedMemory: the sum of the non-zero newest memory samples. */
  function TotalUsedMemory(pids: map<nat, PidData>): nat
    requires HasUsedMemory(pids)
  {
    TotalOfHeads(MemoryHistories(pids))
  }

  /** getTotalUsedMemory does not throw exactly when some record's newest memory sample is non-zero. */
  lemma HasUsedMemoryMeaning(pids: map<nat, PidData>)
    ensures HasUsedMemory(pids) <==> exists p :: p in pids && HeadOrZero(pids[p].memory) != 0
  {
    NoTotalIffAllHeadsZero(MemoryHistories(pids));
  }

  /** When getTotalUsedMemory does not throw, it is the sum of the values getCurrentPidsMemory reports. */
  lemma TotalUsedMemoryMeaning(pids: map<nat, PidData>)
    requires HasUsedMemory(pids)
    ensures TotalUsedMemory(pids) == Sum(Values(CurrentPidsMemory(pids)))
  {
    var h := MemoryHistories(pids);
    TotalIsSumOfHeads(h);
    assert HeadsInKeyOrder(h) == Values(CurrentPidsMemory(pids));
  }

  function Values(r: seq<PidValue>): (vs: seq<nat>)
    ensures |vs| == |r| && forall i :: 0 <= i < |r| ==> vs[i] == r[i].value
  {
    seq(|r|, i requires 0 <= i < |r| => r[i].value)
  }

  /** getUptime with the clock reading `now` passed in: whole seconds since the start time, rounded. */
  function Uptime(startTime: int, now: int): (seconds: int)
    ensures 2000 * seconds - 1000 <= 2 * (now - startTime) < 2000 * seconds + 1000
  {
    RoundDiv(now - startTime, 1000)
  }
}
