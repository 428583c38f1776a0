/**
 * The reconciliation pass of core/pm2.ts: the body of the `pm2.list` callback in
 * detectActiveApps, which turns one listing into updates of the tracked applications
 * (`APPS`) and the gauge writes of processWorkingApp.
 *
 * `Reconcile` states the pass on values; `Fleet.DetectActiveApps` performs it on the
 * `Apps.App` objects and is proved to agree with it.
 */
module Pm2Sync {
  import opened Wrappers
  import opened Samples
  import opened Pm2List
  import Apps

  /**
   * What a pass reads besides the listing: the name normaliser of the probe keys, the
   * clock reading used for uptime, and the probe keys that have a dynamic gauge client.
   */
  datatype Env = Env(toUnderscore: string -> string, now: int, registered: set<string>)

  /** Every tracked application sits under its own name and holds a well-formed table. */
  ghost predicate AppsWellFormed(apps: map<string, Apps.AppState>)
  {
    forall n :: n in apps ==> apps[n].name == n && Apps.WellFormed(apps[n].pids)
  }

  /** The updatePid argument built from a listed record; missing cpu, restart count and creation time read as 0. */
  function InputOf(r: ProcessRecord): Apps.PidInput
    requires r.pmId.Some?
  {
    Apps.PidInput(r.pid, r.pmId.value, r.memory, r.cpu.GetOr(0), r.restartTime.GetOr(0),
                  r.createdAt.GetOr(0), r.axmMonitor)
  }

  /** The dynamic gauge writes for the probe keys `keys` of one worker, skipping keys without a client. */
  function KeyWrites(app: string, instance: nat, keys: seq<string>, values: map<string, int>,
                     registered: set<string>): (ws: seq<GaugeWrite>)
    requires forall j :: 0 <= j < |keys| ==> keys[j] in values
    ensures forall w :: w in ws ==>
      && w.metric.Dynamic? && w.metric.key in registered && w.metric.key in keys
      && w == GaugeWrite(w.metric, Some(app), Some(instance), values[w.metric.key])
    ensures forall k :: k in keys && k in registered ==>
      GaugeWrite(Dynamic(k), Some(app), Some(instance), values[k]) in ws
  {
    if |keys| == 0 then []
    else
      var rest := KeyWrites(app, instance, keys[1..], values, registered);
      assert forall k :: k in keys ==> k == keys[0] || k in keys[1..];
      if keys[0] in registered then [GaugeWrite(Dynamic(keys[0]), Some(app), Some(instance), values[keys[0]])] + rest
      else rest
  }

  /**
   * The dynamic gauge writes of processWorkingApp: for the worker at position i, one write
   * per probe key that has a registered client, labelled `instance` = i + 1.
   */
  function DynamicWrites(app: string, probes: seq<OrderedDict.Dict<int>>, registered: set<string>): (ws: seq<GaugeWrite>)
    requires forall i :: 0 <= i < |probes| ==> OrderedDict.Valid(probes[i])
    ensures forall w :: w in ws ==>
      && w.metric.Dynamic? && w.metric.key in registered && w.app == Some(app)
      && w.instance.Some? && 1 <= w.instance.value <= |probes|
      && w.metric.key in probes[w.instance.value - 1].entries
      && w.value == probes[w.instance.value - 1].entries[w.metric.key]
    ensures forall i, k :: 0 <= i < |probes| && k in probes[i].entries && k in registered ==>
      GaugeWrite(Dynamic(k), Some(app), Some(i + 1), probes[i].entries[k]) in ws
  {
    if |probes| == 0 then []
    else
      var n := |probes|;
      var front := DynamicWrites(app, probes[..n - 1], registered);
      var m := probes[n - 1];
      assert OrderedDict.Valid(m);
      assert forall j :: 0 <= j < |m.keys| ==> m.keys[j] in m.entries by {
        forall j | 0 <= j < |m.keys| ensures m.keys[j] in m.entries {
          assert m.keys[j] in m.keys;
        }
      }
      var last := KeyWrites(app, n, m.keys, m.entries, registered);
      forall i, k | 0 <= i < n && k in probes[i].entries && k in registered
        ensures GaugeWrite(Dynamic(k), Some(app), Some(i + 1), probes[i].entries[k]) in front + last
      {
        if i < n - 1 {
          assert probes[..n - 1][i] == probes[i];
        } else {
          assert k in m.keys;
        }
      }
      front + last
  }

  /**
   * What processWorkingApp reads from the application: the worker count, the average
   * memory, the total memory (`None` where getTotalUsedMemory throws), the average cpu, the
   * uptime, and per worker in pid order the newest cpu and memory samples, the restart count
   * and the probe values.
   */
  datatype Report = Report(
    workers: nat,
    averageMemory: nat,
    totalMemory: Option<nat>,
    averageCpu: nat,
    uptime: int,
    cpu: seq<nat>,
    memory: seq<nat>,
    restarts: seq<nat>,
    probes: seq<OrderedDict.Dict<int>>)

  /** The report of one application, read through the App getters: one entry per worker in each per-worker list. */
  function ReportOf(app: Apps.AppState, env: Env): (rep: Report)
    requires Apps.WellFormed(app.pids) && |app.pids| > 0
    ensures ProbesWellFormed(rep)
    ensures |rep.cpu| == |app.pids| && |rep.memory| == |app.pids|
    ensures |rep.restarts| == |app.pids| && |rep.probes| == |app.pids|
  {
    var pids := app.pids;
    var entries := Apps.PidPm2Metrics(pids);
    var probes := seq(|entries|, i requires 0 <= i < |entries| => entries[i].metrics);
    assert forall i :: 0 <= i < |probes| ==> OrderedDict.Valid(probes[i]) by {
      forall i | 0 <= i < |probes| ensures OrderedDict.Valid(probes[i]) {
        assert probes[i] == pids[entries[i].pid].metrics;
      }
    }
    Report(
      Apps.ActiveWorkersCount(pids),
      Apps.AverageUsedMemory(pids),
      if Apps.HasUsedMemory(pids) then Some(Apps.TotalUsedMemory(pids)) else None,
      Apps.AverageCpu(pids),
      Apps.Uptime(app.startTime, env.now),
      Apps.Values(Apps.CurrentPidsCpu(pids)),
      Apps.Values(Apps.CurrentPidsMemory(pids)),
      Apps.Values(Apps.RestartCounts(pids)),
      probes)
  }

  /** The report's worker count is the table size; its total memory is missing exactly when every newest memory sample is 0. */
  lemma ReportTotals(app: Apps.AppState, env: Env)
    requires Apps.WellFormed(app.pids) && |app.pids| > 0
    ensures ReportOf(app, env).workers == |app.pids|
    ensures ReportOf(app, env).averageMemory == Apps.AverageUsedMemory(app.pids)
    ensures ReportOf(app, env).totalMemory.None? <==> forall p :: p in app.pids ==> HeadOrZero(app.pids[p].memory) == 0
  {
    Apps.HasUsedMemoryMeaning(app.pids);
  }

  /** Position i of each per-worker list of the report belongs to the i-th pid in ascending order. */
  lemma ReportPerWorker(app: Apps.AppState, env: Env)
    requires Apps.WellFormed(app.pids) && |app.pids| > 0
    ensures var rep := ReportOf(app, env);
      var ks := AscendingKeys(app.pids.Keys);
      forall i :: 0 <= i < |ks| ==>
        && rep.cpu[i] == HeadOrZero(app.pids[ks[i]].cpu)
        && rep.memory[i] == HeadOrZero(app.pids[ks[i]].memory)
        && rep.restarts[i] == app.pids[ks[i]].restartCount
        && rep.probes[i] == app.pids[ks[i]].metrics
  {
    var pids := app.pids;
    var ks := AscendingKeys(pids.Keys);
    var rep := ReportOf(app, env);
    var cpu := Apps.CurrentPidsCpu(pids);
    var memory := Apps.CurrentPidsMemory(pids);
    var restarts := Apps.RestartCounts(pids);
    var entries := Apps.PidPm2Metrics(pids);
    forall i | 0 <= i < |ks|
      ensures rep.cpu[i] == HeadOrZero(pids[ks[i]].cpu)
      ensures rep.memory[i] == HeadOrZero(pids[ks[i]].memory)
      ensures rep.restarts[i] == pids[ks[i]].restartCount
      ensures rep.probes[i] == pids[ks[i]].metrics
    {
      assert cpu[i].pid == ks[i] && memory[i].pid == ks[i];
      assert restarts[i].pid == ks[i] && entries[i].pid == ks[i];
    }
  }

  /** Every probe table of the report is a well-formed object. */
  ghost predicate ProbesWellFormed(rep: Report)
  {
    forall i :: 0 <= i < |rep.probes| ==> OrderedDict.Valid(rep.probes[i])
  }

  /**
   * The `set` calls of processWorkingApp for a report: the number of tracked applications,
   * the worker count and the average memory; then, unless getTotalUsedMemory throws, the
   * total memory, average cpu and uptime, the per-worker cpu, memory and restart counts, and
   * the dynamic probe gauges.
   */
  function Writes(appCount: nat, app: string, rep: Report, registered: set<string>): Emission
    requires ProbesWellFormed(rep)
  {
    var head := [GaugeWrite(AvailableApps, None, None, appCount),
                 GaugeWrite(AppInstances, Some(app), None, rep.workers),
                 GaugeWrite(AppAverageMemory, Some(app), None, rep.averageMemory)];
    if rep.totalMemory.None? then Emission(head, true)
    else
      Emission(head + [GaugeWrite(AppTotalMemory, Some(app), None, rep.totalMemory.value),
                       GaugeWrite(AppAverageCpu, Some(app), None, rep.averageCpu),
                       GaugeWrite(AppUptime, Some(app), None, rep.uptime)]
               + PerInstance(AppPidsCpu, app, rep.cpu)
               + PerInstance(AppPidsMemory, app, rep.memory)
               + PerInstance(AppRestartCount, app, rep.restarts)
               + DynamicWrites(app, rep.probes, registered), false)
  }

  /**
   * The first three writes always happen: the number of tracked applications, the worker
   * count and the average memory; the call throws exactly when the total memory is missing.
   */
  lemma WritesHead(appCount: nat, app: string, rep: Report, registered: set<string>)
    requires ProbesWellFormed(rep)
    ensures var e := Writes(appCount, app, rep, registered);
      && |e.writes| >= 3
      && e.writes[0] == GaugeWrite(AvailableApps, None, None, appCount)
      && e.writes[1] == GaugeWrite(AppInstances, Some(app), None, rep.workers)
      && e.writes[2] == GaugeWrite(AppAverageMemory, Some(app), None, rep.averageMemory)
      && (e.threw <==> rep.totalMemory.None?)
  {
  }

  /**
   * When the call does not throw, the worker at position i gets `instance` = i + 1 on its
   * cpu, memory and restart-count writes, which follow the six per-application writes.
   */
  lemma WritesPerInstance(appCount: nat, app: string, rep: Report, registered: set<string>)
    requires ProbesWellFormed(rep)
    requires |rep.memory| == |rep.cpu| && |rep.restarts| == |rep.cpu|
    requires rep.totalMemory.Some?
    ensures |Writes(appCount, app, rep, registered).writes| >= 6 + 3 * |rep.cpu|
    ensures forall i :: 0 <= i < |rep.cpu| ==>
      Writes(appCount, app, rep, registered).writes[6 + i]
        == GaugeWrite(AppPidsCpu, Some(app), Some(i + 1), rep.cpu[i])
    ensures forall i :: 0 <= i < |rep.cpu| ==>
      Writes(appCount, app, rep, registered).writes[6 + |rep.cpu| + i]
        == GaugeWrite(AppPidsMemory, Some(app), Some(i + 1), rep.memory[i])
    ensures forall i :: 0 <= i < |rep.cpu| ==>
      Writes(appCount, app, rep, registered).writes[6 + 2 * |rep.cpu| + i]
        == GaugeWrite(AppRestartCount, Some(app), Some(i + 1), rep.restarts[i])
  {
    var e := Writes(appCount, app, rep, registered);
    var n := |rep.cpu|;
    var six := e.writes[..6];
    var cw := PerInstance(AppPidsCpu, app, rep.cpu);
    var mw := PerInstance(AppPidsMemory, app, rep.memory);
    var rw := PerInstance(AppRestartCount, app, rep.restarts);
    var dyn := DynamicWrites(app, rep.probes, registered);
    assert e.writes == six + cw + mw + rw + dyn;
    forall i | 0 <= i < n
      ensures e.writes[6 + i] == GaugeWrite(AppPidsCpu, Some(app), Some(i + 1), rep.cpu[i])
      ensures e.writes[6 + n + i] == GaugeWrite(AppPidsMemory, Some(app), Some(i + 1), rep.memory[i])
      ensures e.writes[6 + 2 * n + i] == GaugeWrite(AppRestartCount, Some(app), Some(i + 1), rep.restarts[i])
    {
      assert e.writes[6 + i] == cw[i];
      assert e.writes[6 + n + i] == mw[i];
      assert e.writes[6 + 2 * n + i] == rw[i];
    }
  }

  /**
   * When the call does not throw, every probe value of the worker at position i that has a
   * registered gauge client is written with `instance` = i + 1.
   */
  lemma WritesProbes(appCount: nat, app: string, rep: Report, registered: set<string>)
    requires ProbesWellFormed(rep)
    requires rep.totalMemory.Some?
    ensures var e := Writes(appCount, app, rep, registered);
      forall i, k :: 0 <= i < |rep.probes| && k in rep.probes[i].entries && k in registered ==>
        GaugeWrite(Dynamic(k), Some(app), Some(i + 1), rep.probes[i].entries[k]) in e.writes
  {
    var e := Writes(appCount, app, rep, registered);
    var dyn := DynamicWrites(app, rep.probes, registered);
    assert e.writes == e.writes[..|e.writes| - |dyn|] + dyn;
  }

  /** processWorkingApp for one application. */
  function WorkingAppGauges(appCount: nat, app: Apps.AppState, env: Env): Emission
    requires Apps.WellFormed(app.pids) && |app.pids| > 0
  {
    var rep := ReportOf(app, env);
    Writes(appCount, app.name, rep, env.registered)
  }

  /**
   * The gauges of one application: the first three writes always happen, and processing
   * throws exactly when no worker reports a non-zero newest memory sample.
   */
  lemma GaugesHead(appCount: nat, app: Apps.AppState, env: Env)
    requires Apps.WellFormed(app.pids) && |app.pids| > 0
    ensures var e := WorkingAppGauges(appCount, app, env);
      && |e.writes| >= 3
      && e.writes[0] == GaugeWrite(AvailableApps, None, None, appCount)
      && e.writes[1] == GaugeWrite(AppInstances, Some(app.name), None, |app.pids|)
      && e.writes[2] == GaugeWrite(AppAverageMemory, Some(app.name), None, Apps.AverageUsedMemory(app.pids))
      && (e.threw <==> forall p :: p in app.pids ==> HeadOrZero(app.pids[p].memory) == 0)
  {
    var rep := ReportOf(app, env);
    ReportTotals(app, env);
    WritesHead(appCount, app.name, rep, env.registered);
  }

  /**
   * When processing does not throw, every probe value of the worker at position i of the
   * ascending pid order that has a registered gauge client is written with `instance` = i + 1.
   */
  lemma GaugesProbes(appCount: nat, app: Apps.AppState, env: Env)
    requires Apps.WellFormed(app.pids) && |app.pids| > 0
    requires !WorkingAppGauges(appCount, app, env).threw
    ensures var e := WorkingAppGauges(appCount, app, env);
      var ks := AscendingKeys(app.pids.Keys);
      forall i, k :: 0 <= i < |ks| && k in app.pids[ks[i]].metrics.entries && k in env.registered ==>
        GaugeWrite(Dynamic(k), Some(app.name), Some(i + 1), app.pids[ks[i]].metrics.entries[k]) in e.writes
  {
    var rep := ReportOf(app, env);
    WritesHead(appCount, app.name, rep, env.registered);
    ReportPerWorker(app, env);
    WritesProbes(appCount, app.name, rep, env.registered);
  }

  /** The tracked applications after one record, and the gauge writes it caused. */
  datatype Outcome = Outcome(apps: map<string, Apps.AppState>, emission: Emission)

  /**
   * One iteration of the second forEach: modules and incomplete records are skipped, a
   * record that is not online deletes its application, and an online record creates the
   * application if needed, prunes it to the listed pids of its name, records the poll and
   * emits the gauges.
   */
  function Tracked(apps: map<string, Apps.AppState>, allAppsPids: map<string, seq<nat>>,
                   r: ProcessRecord, toUnderscore: string -> string): (a: map<string, Apps.AppState>)
    requires AppsWellFormed(apps) && RecordWellFormed(r)
    ensures AppsWellFormed(a)
    ensures Trackable(r) && r.status == "online" ==> r.name in a && |a[r.name].pids| > 0
  {
    if !Trackable(r) then apps
    else if r.status != "online" then apps - {r.name}
    else
      var updated := Refresh(WorkingApp(apps, r.name), ActivePids(allAppsPids, r.name), InputOf(r), toUnderscore);
      assert updated.pids != map[];
      apps[r.name := updated]
  }

  /** The tracked application of that name, or a new empty one (started at 0) when there is none. */
  function WorkingApp(apps: map<string, Apps.AppState>, name: string): (a: Apps.AppState)
    requires AppsWellFormed(apps)
    ensures a.name == name && Apps.WellFormed(a.pids)
    ensures name !in apps ==> a.pids == map[]
  {
    if name in apps then apps[name] else Apps.AppState(name, map[], 0)
  }

  /** The listed pids of that name, when the listing names it. */
  function ActivePids(allAppsPids: map<string, seq<nat>>, name: string): Option<seq<nat>>
  {
    if name in allAppsPids then Some(allAppsPids[name]) else None
  }

  /** The tracked applications after one record, and the gauges of the working application when it is online. */
  function Apply(apps: map<string, Apps.AppState>, allAppsPids: map<string, seq<nat>>,
                 r: ProcessRecord, env: Env): (o: Outcome)
    requires AppsWellFormed(apps) && RecordWellFormed(r)
    ensures AppsWellFormed(o.apps) && o.apps == Tracked(apps, allAppsPids, r, env.toUnderscore)
    ensures !(Trackable(r) && r.status == "online") ==> o.emission == Emission([], false)
  {
    var apps' := Tracked(apps, allAppsPids, r, env.toUnderscore);
    if Trackable(r) && r.status == "online" then Outcome(apps', WorkingAppGauges(|apps'|, apps'[r.name], env))
    else Outcome(apps', Emission([], false))
  }

  /**
   * The working application after `removeNotActivePids` (when its name has listed pids)
   * and `updatePid`.
   */
  function Refresh(app: Apps.AppState, activePids: Option<seq<nat>>, input: Apps.PidInput,
                   toUnderscore: string -> string): (a: Apps.AppState)
    requires Apps.WellFormed(app.pids) && Apps.InputWellFormed(input)
    ensures a.name == app.name && Apps.WellFormed(a.pids) && input.id in a.pids
  {
    var pruned := if activePids.Some? then Apps.Pruned(app.pids, activePids.value) else app.pids;
    Apps.AppState(app.name, Apps.UpdatedPids(pruned, input, toUnderscore),
                  if pruned == map[] then input.createdAt else app.startTime)
  }

  /** The state of a pass part way: the tracked applications, the writes so far, and whether it threw. */
  datatype Pass = Pass(apps: map<string, Apps.AppState>, writes: seq<GaugeWrite>, aborted: bool)

  /** The second forEach over `records`; once an iteration throws, the rest of the records are not visited. */
  function Run(p: Pass, allAppsPids: map<string, seq<nat>>, records: seq<ProcessRecord>, env: Env): (q: Pass)
    requires AppsWellFormed(p.apps)
    requires forall i :: 0 <= i < |records| ==> RecordWellFormed(records[i])
    ensures AppsWellFormed(q.apps)
    ensures p.aborted ==> q == p
    ensures |p.writes| <= |q.writes| && q.writes[..|p.writes|] == p.writes
  {
    if |records| == 0 then p
    else
      var q := Run(p, allAppsPids, records[..|records| - 1], env);
      if q.aborted then q
      else
        var o := Apply(q.apps, allAppsPids, records[|records| - 1], env);
        Pass(o.apps, q.writes + o.emission.writes, o.emission.threw)
  }

  /** One listing turned into a pass: a list error changes nothing. */
  function Reconcile(apps: map<string, Apps.AppState>, listing: Listing, env: Env): (q: Pass)
    requires AppsWellFormed(apps) && ListingWellFormed(listing)
    ensures AppsWellFormed(q.apps)
  {
    match listing
    case ListError => Pass(apps, [], false)
    case Listed(records) =>
      var allAppsPids := GroupPids(records);
      Run(Pass(Dropped(apps, allAppsPids), [], false), allAppsPids, records, env)
  }

  /** A listing without error: the deletion loop, then the second forEach from where it left the applications. */
  lemma ReconcileListed(apps: map<string, Apps.AppState>, records: seq<ProcessRecord>, env: Env)
    requires AppsWellFormed(apps) && ListingWellFormed(Listed(records))
    ensures AppsWellFormed(Dropped(apps, GroupPids(records)))
    ensures Reconcile(apps, Listed(records), env)
         == Run(Pass(Dropped(apps, GroupPids(records)), [], false), GroupPids(records), records, env)
  {
  }

  /** Before the first record the pass is where it started. */
  lemma RunNone(p: Pass, allAppsPids: map<string, seq<nat>>, records: seq<ProcessRecord>, env: Env)
    requires AppsWellFormed(p.apps)
    requires forall j :: 0 <= j < |records| ==> RecordWellFormed(records[j])
    ensures Run(p, allAppsPids, records[..0], env) == p
  {
    assert records[..0] == [];
  }

  /** One more record extends a pass that has not thrown by that record's outcome. */
  lemma RunStep(p: Pass, allAppsPids: map<string, seq<nat>>, records: seq<ProcessRecord>, i: nat, env: Env)
    requires AppsWellFormed(p.apps)
    requires forall j :: 0 <= j < |records| ==> RecordWellFormed(records[j])
    requires i < |records| && !Run(p, allAppsPids, records[..i], env).aborted
    ensures var q := Run(p, allAppsPids, records[..i], env);
      var o := Apply(q.apps, allAppsPids, records[i], env);
      Run(p, allAppsPids, records[..i + 1], env) == Pass(o.apps, q.writes + o.emission.writes, o.emission.threw)
  {
    assert records[..i + 1][..i] == records[..i];
  }

  /** Once a prefix of the records has thrown, the remaining records change nothing. */
  lemma {:induction false} AbortSticks(p: Pass, allAppsPids: map<string, seq<nat>>,
                                       records: seq<ProcessRecord>, i: nat, env: Env)
    requires AppsWellFormed(p.apps)
    requires forall j :: 0 <= j < |records| ==> RecordWellFormed(records[j])
    requires i <= |records|
    requires Run(p, allAppsPids, records[..i], env).aborted
    ensures Run(p, allAppsPids, records, env) == Run(p, allAppsPids, records[..i], env)
  {
    if i < |records| {
      var front := records[..|records| - 1];
      assert front[..i] == records[..i];
      AbortSticks(p, allAppsPids, front, i, env);
    } else {
      assert records[..i] == records;
    }
  }

  /** A module record, or one without name, pid or pm2 id, neither creates nor modifies an application. */
  lemma SkippedRecord(apps: map<string, Apps.AppState>, allAppsPids: map<string, seq<nat>>,
                      r: ProcessRecord, env: Env)
    requires AppsWellFormed(apps) && RecordWellFormed(r)
    requires r.isModule || r.givenName.None? || r.name == "" || r.pid == 0 || r.pmId.None?
    ensures Apply(apps, allAppsPids, r, env) == Outcome(apps, Emission([], false))
  {
  }

  /** A complete record whose status is not online removes its application and leaves the others alone. */
  lemma OfflineRecord(apps: map<string, Apps.AppState>, allAppsPids: map<string, seq<nat>>,
                      r: ProcessRecord, env: Env)
    requires AppsWellFormed(apps) && RecordWellFormed(r)
    requires Trackable(r) && r.status != "online"
    ensures var o := Apply(apps, allAppsPids, r, env);
      r.name !in o.apps && (forall n :: n in apps && n != r.name ==> n in o.apps && o.apps[n] == apps[n])
      && o.emission.writes == []
  {
  }

  /** An online complete record stores the refreshed application under its name and leaves the others alone. */
  lemma OnlineRecordApps(apps: map<string, Apps.AppState>, allAppsPids: map<string, seq<nat>>,
                         r: ProcessRecord, toUnderscore: string -> string)
    requires AppsWellFormed(apps) && RecordWellFormed(r)
    requires Trackable(r) && r.status == "online"
    ensures var a := Tracked(apps, allAppsPids, r, toUnderscore);
      && a.Keys == apps.Keys + {r.name}
      && (forall n :: n in apps && n != r.name ==> a[n] == apps[n])
      && a == apps[r.name := Refresh(WorkingApp(apps, r.name), ActivePids(allAppsPids, r.name), InputOf(r), toUnderscore)]
  {
  }

  /** An online complete record emits the gauges of its refreshed application, counting the applications tracked after it. */
  lemma OnlineRecordGauges(apps: map<string, Apps.AppState>, allAppsPids: map<string, seq<nat>>,
                           r: ProcessRecord, env: Env)
    requires AppsWellFormed(apps) && RecordWellFormed(r)
    requires Trackable(r) && r.status == "online"
    ensures var a := Tracked(apps, allAppsPids, r, env.toUnderscore);
      Apply(apps, allAppsPids, r, env).emission == WorkingAppGauges(|a|, a[r.name], env)
  {
  }

  /**
   * After removeNotActivePids and updatePid the application holds the polled pid, with the
   * poll's memory and cpu as newest samples, its restart count and its exported probes; it holds no pid outside
   * the active list other than the polled one; and an application that was empty is fresh:
   * the polled pid is its only pid and its start time is the poll's creation time.
   */
  lemma RefreshMeaning(app: Apps.AppState, activePids: Option<seq<nat>>, input: Apps.PidInput,
                       toUnderscore: string -> string)
    requires Apps.WellFormed(app.pids) && Apps.InputWellFormed(input)
    ensures var a := Refresh(app, activePids, input, toUnderscore);
      && input.id in a.pids
      && a.pids[input.id].memory[0] == input.memory && a.pids[input.id].cpu[0] == input.cpu
      && a.pids[input.id].restartCount == input.restartCount
      && a.pids[input.id].metrics == Apps.FillMetricsData(input.metrics, toUnderscore)
      && (activePids.Some? ==> forall p :: p in a.pids ==> p in activePids.value || p == input.id)
      && (app.pids == map[] ==> a.pids.Keys == {input.id} && a.startTime == input.createdAt)
  {
  }

  /**
   * After an online record its application exists and holds the record's pid, with the
   * record's memory and cpu (0 when missing) as newest samples, its restart count (0 when
   * missing) and its exported probes, and the application holds no pid that is not listed
   * under its name.
   */
  lemma OnlineRecord(apps: map<string, Apps.AppState>, records: seq<ProcessRecord>, r: ProcessRecord,
                     toUnderscore: string -> string)
    requires AppsWellFormed(apps) && RecordWellFormed(r) && r in records
    requires Trackable(r) && r.status == "online"
    ensures var a := Tracked(apps, GroupPids(records), r, toUnderscore);
      && r.name in a && r.pid in a[r.name].pids
      && a[r.name].pids[r.pid].memory[0] == r.memory
      && a[r.name].pids[r.pid].cpu[0] == r.cpu.GetOr(0)
      && a[r.name].pids[r.pid].restartCount == r.restartTime.GetOr(0)
      && a[r.name].pids[r.pid].metrics == Apps.FillMetricsData(r.axmMonitor, toUnderscore)
      && (forall p :: p in a[r.name].pids ==> p in PidsNamed(records, r.name))
  {
    var g := GroupPids(records);
    var i :| 0 <= i < |records| && records[i] == r;
    GroupPidsMeaning(records);
    PidsNamedNonEmpty(records, i);
    assert r.name in g;
    OnlineRecordApps(apps, g, r, toUnderscore);
    RefreshMeaning(WorkingApp(apps, r.name), ActivePids(g, r.name), InputOf(r), toUnderscore);
  }

  /**
   * An online record for an application that is not tracked (never seen, or deleted earlier
   * in the pass) creates it fresh: the record's pid is its only pid and its start time is the
   * record's creation time (0 when missing).
   */
  lemma OnlineRecordFresh(apps: map<string, Apps.AppState>, allAppsPids: map<string, seq<nat>>,
                          r: ProcessRecord, toUnderscore: string -> string)
    requires AppsWellFormed(apps) && RecordWellFormed(r)
    requires Trackable(r) && r.status == "online" && r.name !in apps
    ensures var a := Tracked(apps, allAppsPids, r, toUnderscore);
      && r.name in a && a[r.name].pids.Keys == {r.pid}
      && a[r.name].startTime == r.createdAt.GetOr(0)
  {
    OnlineRecordApps(apps, allAppsPids, r, toUnderscore);
    RefreshMeaning(WorkingApp(apps, r.name), ActivePids(allAppsPids, r.name), InputOf(r), toUnderscore);
  }

  /** Every application tracked after a pass is named by the listing. */
  lemma {:induction false} RunKeepsListedNames(p: Pass, records: seq<ProcessRecord>, all: seq<ProcessRecord>, env: Env)
    requires AppsWellFormed(p.apps)
    requires forall i :: 0 <= i < |records| ==> RecordWellFormed(records[i])
    requires forall n :: n in p.apps ==> n in Names(all)
    requires forall i :: 0 <= i < |records| ==> records[i].name in Names(all)
    ensures forall n :: n in Run(p, GroupPids(all), records, env).apps ==> n in Names(all)
  {
    if |records| > 0 {
      var front := records[..|records| - 1];
      assert forall i :: 0 <= i < |front| ==> front[i] == records[i];
      RunKeepsListedNames(p, front, all, env);
    }
  }

  /** After a pass over a listing, every tracked application is one the listing names. */
  lemma ReconciledAreListed(apps: map<string, Apps.AppState>, records: seq<ProcessRecord>, env: Env)
    requires AppsWellFormed(apps) && ListingWellFormed(Listed(records))
    ensures forall n :: n in Reconcile(apps, Listed(records), env).apps ==>
      exists i :: 0 <= i < |records| && records[i].name == n
  {
    var g := GroupPids(records);
    GroupPidsMeaning(records);
    RunKeepsListedNames(Pass(Dropped(apps, g), [], false), records, records, env);
  }

  /** removeNotActivePids (when the name has listed pids) followed by updatePid on one application object. */
  method RefreshApp(app: Apps.App, activePids: Option<seq<nat>>, input: Apps.PidInput, toUnderscore: string -> string)
    requires app.Valid() && Apps.InputWellFormed(input)
    modifies app
    ensures app.Valid()
    ensures app.State() == Refresh(old(app.State()), activePids, input, toUnderscore)
  {
    if activePids.Some? {
      app.RemoveNotActivePids(activePids.value);
    }
    app.UpdatePid(input, toUnderscore);
  }

  /** The tracked applications, `APPS`, each an `Apps.App` object filed under its own name. */
  class Fleet {
    var apps: map<string, Apps.App>

    ghost predicate Valid()
      reads this, apps.Values
    {
      forall n :: n in apps ==> apps[n].name == n && apps[n].Valid()
    }

    constructor ()
      ensures apps == map[] && Valid()
    {
      apps := map[];
    }

    /** The value of every tracked application. */
    function State(): (s: map<string, Apps.AppState>)
      reads this, apps.Values
      ensures s.Keys == apps.Keys
      ensures forall n :: n in apps ==> s[n] == apps[n].State()
    {
      map n | n in apps :: apps[n].State()
    }

    /** Handles one record of the second forEach. */
    method Track(r: ProcessRecord, allAppsPids: map<string, seq<nat>>, env: Env) returns (e: Emission)
      requires Valid() && RecordWellFormed(r)
      modifies this, apps.Values
      ensures Valid()
      ensures forall n :: n in apps ==> (n in old(apps) && apps[n] == old(apps)[n]) || fresh(apps[n])
      ensures State() == Tracked(old(State()), allAppsPids, r, env.toUnderscore)
      ensures e == Apply(old(State()), allAppsPids, r, env).emission
    {
      ghost var s := State();
      if !Trackable(r) {
        SkippedRecord(s, allAppsPids, r, env);
        return Emission([], false);
      }
      if r.status != "online" {
        Forget(r.name);
        return Emission([], false);
      }
      OnlineRecordApps(s, allAppsPids, r, env.toUnderscore);
      OnlineRecordGauges(s, allAppsPids, r, env);
      e := TrackOnline(r, allAppsPids, env);
    }

    /** Deletes the application `name`, if it is tracked. */
    method Forget(name: string)
      requires Valid()
      modifies this
      ensures Valid() && forall n :: n in apps ==> n in old(apps) && apps[n] == old(apps)[n]
      ensures State() == old(State()) - {name}
    {
      apps := apps - {name};
      SameEntries(State(), old(State()) - {name});
    }

    /** The online branch: adopt the application, refresh it, and emit its gauges. */
    method TrackOnline(r: ProcessRecord, allAppsPids: map<string, seq<nat>>, env: Env) returns (e: Emission)
      requires Valid() && RecordWellFormed(r) && Trackable(r) && r.status == "online"
      modifies this, apps.Values
      ensures Valid()
      ensures forall n :: n in apps ==> (n in old(apps) && apps[n] == old(apps)[n]) || fresh(apps[n])
      ensures State() == old(State())[r.name := Refresh(WorkingApp(old(State()), r.name),
                                                        ActivePids(allAppsPids, r.name), InputOf(r), env.toUnderscore)]
      ensures e == WorkingAppGauges(|State()|, State()[r.name], env)
    {
      ghost var s := State();
      ghost var w := WorkingApp(s, r.name);
      var workingApp := Adopt(r.name);
      ghost var adopted := State();
      assert workingApp.State() == w;
      RefreshTracked(r.name, workingApp, ActivePids(allAppsPids, r.name), InputOf(r), env.toUnderscore);
      var current := workingApp.State();
      UpdateTwice(s, r.name, w, current);
      e := WorkingAppGauges(|apps|, current, env);
    }

    /** The first loop of detectActiveApps: deletes every tracked application whose name is not listed. */
    method ForgetUnlisted(allAppsPids: map<string, seq<nat>>)
      requires Valid()
      modifies this
      ensures Valid() && forall n :: n in apps ==> n in old(apps) && apps[n] == old(apps)[n]
      ensures State() == Dropped(old(State()), allAppsPids)
    {
      var names := apps.Keys;
      while names != {}
        invariant names <= old(apps).Keys
        invariant apps.Keys == old(apps).Keys * (names + allAppsPids.Keys)
        invariant forall n :: n in apps ==> apps[n] == old(apps)[n]
        decreases names
      {
        var n :| n in names;
        if n !in allAppsPids {
          apps := apps - {n};
        }
        names := names - {n};
      }
      SameEntries(State(), Dropped(old(State()), allAppsPids));
    }

    /** Creates the application `name` when it is not tracked yet, and returns it. */
    method Adopt(name: string) returns (workingApp: Apps.App)
      requires Valid()
      modifies this
      ensures Valid() && name in apps && apps[name] == workingApp
      ensures forall n :: n in apps ==> (n in old(apps) && apps[n] == old(apps)[n]) || fresh(apps[n])
      ensures State() == old(State())[name := WorkingApp(old(State()), name)]
    {
      ghost var s := State();
      if name !in apps {
        var created := new Apps.App(name);
        apps := apps[name := created];
        SameEntries(State(), s[name := WorkingApp(s, name)]);
      } else {
        SameEntries(s, s[name := WorkingApp(s, name)]);
      }
      workingApp := apps[name];
    }

    /** Refreshes the tracked application `name`, which is `workingApp`; no other application changes. */
    method RefreshTracked(name: string, workingApp: Apps.App, activePids: Option<seq<nat>>,
                          input: Apps.PidInput, toUnderscore: string -> string)
      requires Valid() && name in apps && apps[name] == workingApp && Apps.InputWellFormed(input)
      modifies workingApp
      ensures Valid()
      ensures workingApp.State() == Refresh(old(workingApp.State()), activePids, input, toUnderscore)
      ensures State() == old(State())[name := workingApp.State()]
    {
      ghost var s := State();
      assert forall n :: n in apps && n != name ==> apps[n] != workingApp;
      RefreshApp(workingApp, activePids, input, toUnderscore);
      ghost var expected := s[name := workingApp.State()];
      forall n | n in apps
        ensures apps[n].name == n && apps[n].Valid() && apps[n].State() == expected[n]
      {
        if n != name {
          assert apps[n] != workingApp;
        }
      }
      SameEntries(State(), expected);
    }

    /** The second forEach of detectActiveApps: one record after the other, until one throws. */
    method TrackAll(allAppsPids: map<string, seq<nat>>, records: seq<ProcessRecord>, env: Env)
      returns (writes: seq<GaugeWrite>, aborted: bool)
      requires Valid()
      requires forall j :: 0 <= j < |records| ==> RecordWellFormed(records[j])
      modifies this, apps.Values
      ensures Valid()
      ensures Pass(State(), writes, aborted) == Run(Pass(old(State()), [], false), allAppsPids, records, env)
    {
      ghost var start := Pass(State(), [], false);
      writes, aborted := [], false;
      RunNone(start, allAppsPids, records, env);
      var i := 0;
      while i < |records| && !aborted
        invariant 0 <= i <= |records|
        invariant Valid()
        invariant forall n :: n in apps ==> (n in old(apps) && apps[n] == old(apps)[n]) || fresh(apps[n])
        invariant Run(start, allAppsPids, records[..i], env) == Pass(State(), writes, aborted)
      {
        writes, aborted := TrackNext(start, allAppsPids, records, i, env, writes);
        i := i + 1;
      }
      if i < |records| {
        AbortSticks(start, allAppsPids, records, i, env);
      } else {
        assert records[..i] == records;
      }
    }

    /** One iteration of the second forEach, in a pass that has not thrown yet. */
    method TrackNext(ghost start: Pass, allAppsPids: map<string, seq<nat>>, records: seq<ProcessRecord>,
                     i: nat, env: Env, writes: seq<GaugeWrite>)
      returns (writes': seq<GaugeWrite>, aborted: bool)
      requires Valid() && AppsWellFormed(start.apps)
      requires forall j :: 0 <= j < |records| ==> RecordWellFormed(records[j])
      requires i < |records| && Run(start, allAppsPids, records[..i], env) == Pass(State(), writes, false)
      modifies this, apps.Values
      ensures Valid()
      ensures forall n :: n in apps ==> (n in old(apps) && apps[n] == old(apps)[n]) || fresh(apps[n])
      ensures Run(start, allAppsPids, records[..i + 1], env) == Pass(State(), writes', aborted)
    {
      RunStep(start, allAppsPids, records, i, env);
      var e := Track(records[i], allAppsPids, env);
      writes', aborted := writes + e.writes, e.threw;
    }

    lemma UpdateTwice(m: map<string, Apps.AppState>, k: string, x: Apps.AppState, y: Apps.AppState)
      ensures m[k := x][k := y] == m[k := y]
    {
    }

    lemma SameEntries(t: map<string, Apps.AppState>, e: map<string, Apps.AppState>)
      requires t.Keys == e.Keys && forall n :: n in t ==> t[n] == e[n]
      ensures t == e
    {
    }

    /**
     * One detectActiveApps pass over `listing`: returns the gauge writes and whether the
     * pass threw part way. The tracked applications and the writes are those `Reconcile`
     * describes; in particular a list error changes nothing.
     */
    method DetectActiveApps(listing: Listing, env: Env) returns (writes: seq<GaugeWrite>, aborted: bool)
      requires Valid() && ListingWellFormed(listing)
      modifies this, apps.Values
      ensures Valid()
      ensures Pass(State(), writes, aborted) == Reconcile(old(State()), listing, env)
      ensures listing.ListError? ==> State() == old(State()) && writes == []
    {
      writes, aborted := [], false;
      if listing.ListError? {
        return;
      }
      var records := listing.records;
      var allAppsPids := GroupPidsByName(records);
      ghost var start := State();
      assert start == old(State());
      assert listing == Listed(records);
      ReconcileListed(start, records, env);

      ForgetUnlisted(allAppsPids);
      writes, aborted := TrackAll(allAppsPids, records, env);
    }
  }
}
