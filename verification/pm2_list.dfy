/**
 * What one `pm2.list` call returns, and the parts of the reconciliation pass that both
 * generations (core/pm2.ts and src/core/pm2.ts) share: grouping the listed pids by
 * application name, dropping tracked applications that are no longer listed, and the
 * test that a record is complete enough to track.
 */
module Pm2List {
  import opened Wrappers
  import OrderedDict
  import Apps

  /**
   * One listed process. A missing name, pm2 id, cpu reading, restart count, creation time
   * or probe table is `None`. A pid of 0 is falsy like a missing one, so a missing pid is
   * modelled as 0.
   */
  datatype ProcessRecord = ProcessRecord(
    givenName: Option<string>,
    pid: nat,
    pmId: Option<nat>,
    isModule: bool,
    status: string,
    memory: nat,
    cpu: Option<nat>,
    restartTime: Option<nat>,
    createdAt: Option<int>,
    axmMonitor: Option<OrderedDict.Dict<Apps.AxmMonitor>>)
  {
    /**
     * The key the record is filed under in `allAppsPids` and `APPS`: its name, or the text
     * "undefined" that a missing name turns into as an object key.
     */
    const name: string := if givenName.Some? then givenName.value else "undefined"
  }

  /** The outcome of `pm2.list`: an error, or the records in listing order. */
  datatype Listing = ListError | Listed(records: seq<ProcessRecord>)

  /** The record's probe table, when present, is a well-formed object. */
  ghost predicate RecordWellFormed(r: ProcessRecord)
  {
    r.axmMonitor.Some? ==> OrderedDict.Valid(r.axmMonitor.value)
  }

  /** Every probe table in the listing is a well-formed object. */
  ghost predicate ListingWellFormed(listing: Listing)
  {
    listing.Listed? ==> forall i :: 0 <= i < |listing.records| ==> RecordWellFormed(listing.records[i])
  }

  /** The names occurring in a listing. */
  function Names(records: seq<ProcessRecord>): (names: set<string>)
    ensures forall n :: n in names <==> exists i :: 0 <= i < |records| && records[i].name == n
  {
    set i | 0 <= i < |records| :: records[i].name
  }

  /** The pids of the records named `name`, in listing order (whatever their status or kind). */
  function PidsNamed(records: seq<ProcessRecord>, name: string): seq<nat>
  {
    if |records| == 0 then []
    else PidsNamed(records[..|records| - 1], name)
         + (if records[|records| - 1].name == name then [records[|records| - 1].pid] else [])
  }

  /** `PidsNamed` keeps exactly the pids of the records with that name. */
  lemma {:induction false} PidsNamedMembers(records: seq<ProcessRecord>, name: string, pid: nat)
    ensures pid in PidsNamed(records, name) <==>
      exists i :: 0 <= i < |records| && records[i].name == name && records[i].pid == pid
  {
    if |records| > 0 {
      var front := records[..|records| - 1];
      PidsNamedMembers(front, name, pid);
      if exists i :: 0 <= i < |records| && records[i].name == name && records[i].pid == pid {
        var i :| 0 <= i < |records| && records[i].name == name && records[i].pid == pid;
        if i < |records| - 1 {
          assert front[i] == records[i];
        }
      }
      if exists i :: 0 <= i < |front| && front[i].name == name && front[i].pid == pid {
        var i :| 0 <= i < |front| && front[i].name == name && front[i].pid == pid;
        assert records[i] == front[i];
      }
    }
  }

  /** A name occurring in the listing has at least one pid grouped under it. */
  lemma {:induction false} PidsNamedNonEmpty(records: seq<ProcessRecord>, i: nat)
    requires i < |records|
    ensures records[i].pid in PidsNamed(records, records[i].name)
  {
    PidsNamedMembers(records, records[i].name, records[i].pid);
  }

  /** allAppsPids as the first forEach builds it, one record at a time. */
  function GroupPids(records: seq<ProcessRecord>): map<string, seq<nat>>
  {
    if |records| == 0 then map[]
    else
      var g := GroupPids(records[..|records| - 1]);
      var r := records[|records| - 1];
      var pids := if r.name in g then g[r.name] else [];
      g[r.name := pids + [r.pid]]
  }

  /** The names of a listing with one more record are those before and the new record's. */
  lemma NamesSnoc(records: seq<ProcessRecord>)
    requires |records| > 0
    ensures Names(records) == Names(records[..|records| - 1]) + {records[|records| - 1].name}
  {
    var front := records[..|records| - 1];
    forall n | n in Names(records)
      ensures n in Names(front) || n == records[|records| - 1].name
    {
      var i :| 0 <= i < |records| && records[i].name == n;
      if i < |records| - 1 {
        assert front[i] == records[i];
      }
    }
    forall n | n in Names(front)
      ensures n in Names(records)
    {
      var i :| 0 <= i < |front| && front[i].name == n;
      assert records[i] == front[i];
    }
  }

  /**
   * allAppsPids has an entry for exactly the listed names, and the entry for a name is
   * the pids of all records with that name, in listing order, module and offline records
   * included.
   */
  lemma {:induction false} GroupPidsMeaning(records: seq<ProcessRecord>)
    ensures GroupPids(records).Keys == Names(records)
    ensures forall n :: n in GroupPids(records) ==> GroupPids(records)[n] == PidsNamed(records, n)
  {
    if |records| > 0 {
      var front := records[..|records| - 1];
      var r := records[|records| - 1];
      var key := r.name;
      GroupPidsMeaning(front);
      NamesSnoc(records);
      forall n | n in GroupPids(records)
        ensures GroupPids(records)[n] == PidsNamed(records, n)
      {
        if n != key {
          assert PidsNamed(records, n) == PidsNamed(front, n) + [];
        } else if key !in Names(front) {
          assert key !in GroupPids(front);
          PidsNamedEmpty(front, n);
        }
      }
    }
  }

  /** A name that does not occur in a listing has no pids in it. */
  lemma {:induction false} PidsNamedEmpty(records: seq<ProcessRecord>, name: string)
    requires name !in Names(records)
    ensures PidsNamed(records, name) == []
  {
    if |records| > 0 {
      var front := records[..|records| - 1];
      forall n | n in Names(front)
        ensures n in Names(records)
      {
        var i :| 0 <= i < |front| && front[i].name == n;
        assert records[i] == front[i];
      }
      PidsNamedEmpty(front, name);
    }
  }

  /** Builds allAppsPids with the source's loop: create the entry on first sight, then append. */
  method GroupPidsByName(records: seq<ProcessRecord>) returns (allAppsPids: map<string, seq<nat>>)
    ensures allAppsPids == GroupPids(records)
    ensures allAppsPids.Keys == Names(records)
    ensures forall n :: n in allAppsPids ==> allAppsPids[n] == PidsNamed(records, n)
  {
    allAppsPids := map[];
    var i := 0;
    while i < |records|
      invariant 0 <= i <= |records|
      invariant allAppsPids == GroupPids(records[..i])
    {
      var r := records[i];
      if r.name !in allAppsPids {
        allAppsPids := allAppsPids[r.name := []];
      }
      allAppsPids := allAppsPids[r.name := allAppsPids[r.name] + [r.pid]];
      assert records[..i + 1][..i] == records[..i];
      i := i + 1;
    }
    assert records[..|records|] == records;
    GroupPidsMeaning(records);
  }

  /** The deletion pass as a value: the tracked applications whose name is still listed. */
  function Dropped<T>(apps: map<string, T>, allAppsPids: map<string, seq<nat>>): (r: map<string, T>)
    ensures r.Keys == apps.Keys * allAppsPids.Keys
    ensures forall n :: n in r ==> r[n] == apps[n]
  {
    map n | n in apps && n in allAppsPids :: apps[n]
  }

  /** After the deletion pass every tracked application is one the listing names. */
  lemma DroppedAreListed<T>(apps: map<string, T>, records: seq<ProcessRecord>)
    ensures forall n :: n in Dropped(apps, GroupPids(records)) ==>
      exists i :: 0 <= i < |records| && records[i].name == n
  {
    GroupPidsMeaning(records);
  }

  /**
   * A record without a name files its pid under the key "undefined", so an application
   * actually named "undefined" survives the deletion pass even when no record carries that name.
   */
  lemma NamelessKeepsUndefined<T>(apps: map<string, T>, records: seq<ProcessRecord>, i: nat)
    requires i < |records| && records[i].givenName.None?
    requires "undefined" in apps
    ensures "undefined" in GroupPids(records) && records[i].pid in GroupPids(records)["undefined"]
    ensures "undefined" in Dropped(apps, GroupPids(records))
    ensures Dropped(apps, GroupPids(records))["undefined"] == apps["undefined"]
  {
    GroupPidsMeaning(records);
    PidsNamedNonEmpty(records, i);
    assert records[i].name == "undefined";
  }

  /** The record is neither a pm2 module nor missing its name (or named ""), pid or pm2 id. */
  predicate Trackable(r: ProcessRecord)
  {
    !r.isModule && r.givenName.Some? && r.name != "" && r.pid != 0 && r.pmId.Some?
  }

  /** The gauges processWorkingApp writes to. */
  datatype Metric =
    | AvailableApps
    | AppInstances
    | AppAverageMemory
    | AppTotalMemory
    | AppAverageCpu
    | AppUptime
    | AppPidsCpu
    | AppPidsMemory
    | AppRestartCount
    | Dynamic(key: string)

  /** One `set` call on a gauge: the `app` and `instance` labels it carries, and the value. */
  datatype GaugeWrite = GaugeWrite(metric: Metric, app: Option<string>, instance: Option<nat>, value: int)

  /** The writes of one processWorkingApp call, and whether it threw part way. */
  datatype Emission = Emission(writes: seq<GaugeWrite>, threw: bool)

  /** One write per value, labelled with the application and `instance` = position + 1. */
  function PerInstance(metric: Metric, app: string, values: seq<nat>): (ws: seq<GaugeWrite>)
    ensures |ws| == |values|
    ensures forall i :: 0 <= i < |ws| ==>
      ws[i] == GaugeWrite(metric, Some(app), Some(i + 1), values[i])
  {
    seq(|values|, i requires 0 <= i < |values| => GaugeWrite(metric, Some(app), Some(i + 1), values[i]))
  }
}
