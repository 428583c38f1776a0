/**
 * The per-application worker table of the older generation (src/core/app.ts): records
 * keyed by OS pid with newest-first memory and cpu histories capped at 60 samples, no
 * restart count, probes or start time.
 */
module LegacyApps {
  import opened Samples

  /** MONIT_ITEMS_LIMIT of this generation. */
  const MonitItemsLimit: nat := 60

  /** What one poll reports about one pid (IPidDataInput). */
  datatype PidInput = PidInput(id: nat, pmId: nat, memory: nat, cpu: nat)

  /** The record kept per pid (IPidData): histories are newest first. */
  datatype PidData = PidData(id: nat, pmId: nat, memory: seq<nat>, cpu: seq<nat>)

  /** The value an `App` object holds. */
  datatype AppState = AppState(name: string, pids: map<nat, PidData>)

  /** Every record sits under its own pid, and both histories hold between 1 and 60 samples. */
  ghost predicate WellFormed(pids: map<nat, PidData>)
  {
    forall p :: p in pids ==>
      && pids[p].id == p
      && 1 <= |pids[p].memory| <= MonitItemsLimit
      && 1 <= |pids[p].cpu| <= MonitItemsLimit
  }

  /** removeNotActivePids as a value: exactly the records whose pid is listed in `activePids`. */
  function Pruned(pids: map<nat, PidData>, activePids: seq<nat>): (r: map<nat, PidData>)
    ensures r.Keys == pids.Keys * (set p | p in activePids)
    ensures forall p :: p in r ==> r[p] == pids[p]
  {
    map p | p in pids && p in activePids :: pids[p]
  }

  /**
   * updatePid as a value: only the record of `input.id` changes; a new pid gets
   * one-sample histories, a known one has the new samples pushed at the head.
   */
  function UpdatedPids(pids: map<nat, PidData>, input: PidInput): (r: map<nat, PidData>)
    requires WellFormed(pids)
    ensures WellFormed(r)
    ensures r.Keys == pids.Keys + {input.id}
    ensures forall p :: p in pids && p != input.id ==> r[p] == pids[p]
    ensures r[input.id].memory[0] == input.memory && r[input.id].cpu[0] == input.cpu
  {
    if input.id !in pids then pids[input.id := PidData(input.id, input.pmId, [input.memory], [input.cpu])]
    else
      var d := pids[input.id];
      pids[input.id := d.(memory := Push(d.memory, input.memory, MonitItemsLimit), cpu := Push(d.cpu, input.cpu, MonitItemsLimit))]
  }

  /** A pid seen for the first time gets one-sample histories and the reported pm2 id. */
  lemma NewPid(pids: map<nat, PidData>, input: PidInput)
    requires WellFormed(pids)
    requires input.id !in pids
    ensures var d := UpdatedPids(pids, input)[input.id];
      d.memory == [input.memory] && d.cpu == [input.cpu] && d.pmId == input.pmId
  {
  }

  /**
   * A known pid keeps its pm2 id; each history becomes the new sample followed by the old
   * history, cut to 60 samples.
   */
  lemma KnownPid(pids: map<nat, PidData>, input: PidInput)
    requires WellFormed(pids)
    requires input.id in pids
    ensures var d, d' := pids[input.id], UpdatedPids(pids, input)[input.id];
      && d'.pmId == d.pmId
      && |d'.memory| == Min(MonitItemsLimit, |d.memory| + 1)
      && d'.memory[1..] == d.memory[..|d'.memory| - 1]
      && |d'.cpu| == Min(MonitItemsLimit, |d.cpu| + 1)
      && d'.cpu[1..] == d.cpu[..|d'.cpu| - 1]
  {
    var d, d' := pids[input.id], UpdatedPids(pids, input)[input.id];
    assert d'.memory[1..] == d.memory[..|d'.memory| - 1];
    assert d'.cpu[1..] == d.cpu[..|d'.cpu| - 1];
  }

  /** The older App object. */
  class App {
    const name: string
    var pids: map<nat, PidData>

    ghost predicate Valid()
      reads this
    {
      WellFormed(pids)
    }

    constructor (name: string)
      ensures this.name == name && pids == map[]
      ensures Valid()
    {
      this.name := name;
      pids := map[];
    }

    /** The value this object holds. */
    function State(): (s: AppState)
      reads this
      ensures s.name == name && s.pids == pids
    {
      AppState(name, pids)
    }

    /** Deletes every record whose pid is not in `activePids`. */
    method RemoveNotActivePids(activePids: seq<nat>)
      requires Valid()
      modifies this
      ensures Valid()
      ensures pids == Pruned(old(pids), activePids)
    {
      var keys := pids.Keys;
      while keys != {}
        invariant keys <= old(pids).Keys
        invariant pids.Keys == old(pids).Keys * (keys + set p | p in activePids)
        invariant forall p :: p in pids ==> pids[p] == old(pids)[p]
        decreases keys
      {
        var pid :| pid in keys;
        if pid !in activePids {
          pids := pids - {pid};
        }
        keys := keys - {pid};
      }
    }

    /** Records one poll of `pidData.id`; no other record changes. */
    method UpdatePid(pidData: PidInput)
      requires Valid()
      modifies this
      ensures Valid()
      ensures pids == UpdatedPids(old(pids), pidData)
    {
      var pid := pidData.id;
      if pid !in pids {
        pids := pids[pid := PidData(pid, pidData.pmId, [pidData.memory], [pidData.cpu])];
      } else {
        var memoryValues := Push(pids[pid].memory, pidData.memory, MonitItemsLimit);
        var cpuValues := Push(pids[pid].cpu, pidData.cpu, MonitItemsLimit);
        pids := pids[pid := pids[pid].(memory := memoryValues, cpu := cpuValues)];
      }
    }
  }

  function MemoryHistories(pids: map<nat, PidData>): (h: map<nat, seq<nat>>)
    ensures h.Keys == pids.Keys
    ensures WellFormed(pids) ==> NonEmptyHistories(h)
  {
    map p | p in pids :: pids[p].memory
  }

  function CpuHistories(pids: map<nat, PidData>): (h: map<nat, seq<nat>>)
    ensures h.Keys == pids.Keys
    ensures WellFormed(pids) ==> NonEmptyHistories(h)
  {
    map p | p in pids :: pids[p].cpu
  }

  /** getActiveWorkersCount: the number of records. */
  function ActiveWorkersCount(pids: map<nat, PidData>): (n: nat)
    ensures n == 0 <==> pids == map[]
  {
    if pids == map[] then 0 else
    assert exists p :: p in pids;
    |pids|
  }

  /**
   * getCpuThreshold: one rounded cpu mean per record, in pid order, so as many values as
   * getActiveWorkersCount counts, each between the smallest and largest cpu sample of its record.
   */
  function CpuThreshold(pids: map<nat, PidData>): (r: seq<nat>)
    requires WellFormed(pids)
    ensures |r| == ActiveWorkersCount(pids)
    ensures forall i :: 0 <= i < |r| ==>
      AscendingKeys(pids.Keys)[i] in pids && r[i] == RoundedMean(pids[AscendingKeys(pids.Keys)[i]].cpu)
    ensures forall i :: 0 <= i < |r| ==> exists p :: p in pids && r[i] == RoundedMean(pids[p].cpu)
  {
    var h := CpuHistories(pids);
    var ks := AscendingKeys(h.Keys);
    var r := MeansInKeyOrder(h);
    assert h.Keys == pids.Keys;
    forall i | 0 <= i < |r|
      ensures ks[i] in pids && r[i] == RoundedMean(pids[ks[i]].cpu)
    {
    }
    r
  }

  /** getAverageUsedMemory: the rounded mean of the per-pid rounded memory means; throws on an empty table. */
  function AverageUsedMemory(pids: map<nat, PidData>): nat
    requires WellFormed(pids) && |pids| > 0
  {
    MeanOfMeans(MemoryHistories(pids))
  }

  /** The average lies between the smallest and largest memory sample kept. */
  lemma AverageUsedMemoryWithinSamples(pids: map<nat, PidData>, lo: nat, hi: nat)
    requires WellFormed(pids) && |pids| > 0
    requires forall p, i :: p in pids && 0 <= i < |pids[p].memory| ==> lo <= pids[p].memory[i] <= hi
    ensures lo <= AverageUsedMemory(pids) <= hi
  {
    MeanOfMeansBounds(MemoryHistories(pids), lo, hi);
  }

  /** Some record's newest memory sample is non-zero: the condition under which getTotalUsedMemory does not throw. */
  predicate HasUsedMemory(pids: map<nat, PidData>)
  {
    NonZeroHeads(MemoryHistories(pids)) != []
  }

  /** getTotalUsedMemory: the sum of the non-zero newest memory samples. */
  function TotalUsedMemory(pids: map<nat, PidData>): nat
    requires HasUsedMemory(pids)
  {
    TotalOfHeads(MemoryHistories(pids))
  }

  /**
   * getTotalUsedMemory is defined exactly when some record's newest memory sample is
   * non-zero, and it is then the sum of every record's newest memory sample.
   */
  lemma TotalUsedMemoryMeaning(pids: map<nat, PidData>)
    ensures HasUsedMemory(pids) <==> exists p :: p in pids && HeadOrZero(pids[p].memory) != 0
    ensures HasUsedMemory(pids) ==> TotalUsedMemory(pids) == Sum(HeadsInKeyOrder(MemoryHistories(pids)))
  {
    var h := MemoryHistories(pids);
    NoTotalIffAllHeadsZero(h);
    if HasUsedMemory(pids) {
      TotalIsSumOfHeads(h);
    }
  }
}
