/**
 * The reconciliation pass of the older generation (src/core/pm2.ts): the same grouping,
 * deletion and per-record steps as core/pm2.ts over `LegacyApps.App` objects, with the
 * four gauges of its processWorkingApp.
 *
 * `Reconcile` states the pass on values; `LegacyFleet.DetectActiveApps` performs it on
 * the objects and is proved to agree with it.
 */
module LegacyPm2Sync {
  import opened Wrappers
  import opened Samples
  import opened Pm2List
  import LegacyApps

  /** Every tracked application sits under its own name and holds a well-formed table. */
  ghost predicate AppsWellFormed(apps: map<string, LegacyApps.AppState>)
  {
    forall n :: n in apps ==> apps[n].name == n && LegacyApps.WellFormed(apps[n].pids)
  }

  /** The updatePid argument built from a listed record; a missing cpu reading is 0. */
  function InputOf(r: ProcessRecord): LegacyApps.PidInput
    requires r.pmId.Some?
  {
    LegacyApps.PidInput(r.pid, r.pmId.value, r.memory, r.cpu.GetOr(0))
  }

  /**
   * processWorkingApp of this generation: the number of tracked applications, the worker
   * count and the average memory are always written; getTotalUsedMemory throws exactly when
   * no worker has a non-zero newest memory sample, and otherwise the sum of the newest
   * memory samples is written as the total.
   */
  function Gauges(appCount: nat, app: LegacyApps.AppState): (e: Emission)
    requires LegacyApps.WellFormed(app.pids) && |app.pids| > 0
    ensures |e.writes| >= 3
    ensures e.writes[0] == GaugeWrite(AvailableApps, None, None, appCount)
    ensures e.writes[1] == GaugeWrite(AppInstances, Some(app.name), None, |app.pids|)
    ensures e.writes[2] == GaugeWrite(AppAverageMemory, Some(app.name), None, LegacyApps.AverageUsedMemory(app.pids))
    ensures e.threw <==> forall p :: p in app.pids ==> HeadOrZero(app.pids[p].memory) == 0
    ensures e.threw ==> |e.writes| == 3
    ensures !e.threw ==>
      && |e.writes| == 4
      && e.writes[3] == GaugeWrite(AppTotalMemory, Some(app.name), None,
                                   Sum(HeadsInKeyOrder(LegacyApps.MemoryHistories(app.pids))))
  {
    LegacyApps.TotalUsedMemoryMeaning(app.pids);
    var head := [GaugeWrite(AvailableApps, None, None, appCount),
                 GaugeWrite(AppInstances, Some(app.name), None, LegacyApps.ActiveWorkersCount(app.pids)),
                 GaugeWrite(AppAverageMemory, Some(app.name), None, LegacyApps.AverageUsedMemory(app.pids))];
    if LegacyApps.HasUsedMemory(app.pids) then
      Emission(head + [GaugeWrite(AppTotalMemory, Some(app.name), None, LegacyApps.TotalUsedMemory(app.pids))], false)
    else Emission(head, true)
  }

  /** The tracked applications after one record, and the gauge writes it caused. */
  datatype Outcome = Outcome(apps: map<string, LegacyApps.AppState>, emission: Emission)

  /**
   * One iteration of the second forEach: modules and incomplete records are skipped, a
   * record that is not online deletes its application, and an online record creates the
   * application if needed, prunes it to the listed pids of its name and records the poll.
   */
  function Tracked(apps: map<string, LegacyApps.AppState>, allAppsPids: map<string, seq<nat>>,
                   r: ProcessRecord): (a: map<string, LegacyApps.AppState>)
    requires AppsWellFormed(apps)
    ensures AppsWellFormed(a)
    ensures Trackable(r) && r.status == "online" ==> r.name in a && |a[r.name].pids| > 0
  {
    if !Trackable(r) then apps
    else if r.status != "online" then apps - {r.name}
    else
      var updated := Refresh(WorkingApp(apps, r.name), ActivePids(allAppsPids, r.name), InputOf(r));
      assert updated.pids != map[];
      apps[r.name := updated]
  }

  /** The tracked application of that name, or a new empty one when there is none. */
  function WorkingApp(apps: map<string, LegacyApps.AppState>, name: string): (a: LegacyApps.AppState)
    requires AppsWellFormed(apps)
    ensures a.name == name && LegacyApps.WellFormed(a.pids)
    ensures name !in apps ==> a.pids == map[]
  {
    if name in apps then apps[name] else LegacyApps.AppState(name, map[])
  }

  /** The listed pids of that name, when the listing names it. */
  function ActivePids(allAppsPids: map<string, seq<nat>>, name: string): Option<seq<nat>>
  {
    if name in allAppsPids then Some(allAppsPids[name]) else None
  }

  /** The working application after `removeNotActivePids` (when its name has listed pids) and `updatePid`. */
  function Refresh(app: LegacyApps.AppState, activePids: Option<seq<nat>>, input: LegacyApps.PidInput): (a: LegacyApps.AppState)
    requires LegacyApps.WellFormed(app.pids)
    ensures a.name == app.name && LegacyApps.WellFormed(a.pids) && input.id in a.pids
  {
    var pruned := if activePids.Some? then LegacyApps.Pruned(app.pids, activePids.value) else app.pids;
    LegacyApps.AppState(app.name, LegacyApps.UpdatedPids(pruned, input))
  }

  /** The tracked applications after one record, and the gauges of the working application when it is online. */
  function Apply(apps: map<string, LegacyApps.AppState>, allAppsPids: map<string, seq<nat>>,
                 r: ProcessRecord): (o: Outcome)
    requires AppsWellFormed(apps)
    ensures AppsWellFormed(o.apps) && o.apps == Tracked(apps, allAppsPids, r)
    ensures !(Trackable(r) && r.status == "online") ==> o.emission == Emission([], false)
  {
    var apps' := Tracked(apps, allAppsPids, r);
    if Trackable(r) && r.status == "online" then Outcome(apps', Gauges(|apps'|, apps'[r.name]))
    else Outcome(apps', Emission([], false))
  }

  /** The state of a pass part way: the tracked applications, the writes so far, and whether it threw. */
  datatype Pass = Pass(apps: map<string, LegacyApps.AppState>, writes: seq<GaugeWrite>, aborted: bool)

  /** The second forEach over `records`; once an iteration throws, the rest of the records are not visited. */
  function Run(p: Pass, allAppsPids: map<string, seq<nat>>, records: seq<ProcessRecord>): (q: Pass)
    requires AppsWellFormed(p.apps)
    ensures AppsWellFormed(q.apps)
    ensures p.aborted ==> q == p
    ensures |p.writes| <= |q.writes| && q.writes[..|p.writes|] == p.writes
  {
    if |records| == 0 then p
    else
      var q := Run(p, allAppsPids, records[..|records| - 1]);
      if q.aborted then q
      else
        var o := Apply(q.apps, allAppsPids, records[|records| - 1]);
        Pass(o.apps, q.writes + o.emission.writes, o.emission.threw)
  }

  /** One listing turned into a pass: a list error changes nothing. */
  function Reconcile(apps: map<string, LegacyApps.AppState>, listing: Listing): (q: Pass)
    requires AppsWellFormed(apps)
    ensures AppsWellFormed(q.apps)
  {
    match listing
    case ListError => Pass(apps, [], false)
    case Listed(records) =>
      var allAppsPids := GroupPids(records);
      Run(Pass(Dropped(apps, allAppsPids), [], false), allAppsPids, records)
  }

  /** A listing without error: the deletion loop, then the second forEach from where it left the applications. */
  lemma ReconcileListed(apps: map<string, LegacyApps.AppState>, records: seq<ProcessRecord>)
    requires AppsWellFormed(apps)
    ensures AppsWellFormed(Dropped(apps, GroupPids(records)))
    ensures Reconcile(apps, Listed(records))
         == Run(Pass(Dropped(apps, GroupPids(records)), [], false), GroupPids(records), records)
  {
  }

  /** Before the first record the pass is where it started. */
  lemma RunNone(p: Pass, allAppsPids: map<string, seq<nat>>, records: seq<ProcessRecord>)
    requires AppsWellFormed(p.apps)
    ensures Run(p, allAppsPids, records[..0]) == p
  {
    assert records[..0] == [];
  }

  /** One more record extends a pass that has not thrown by that record's outcome. */
  lemma RunStep(p: Pass, allAppsPids: map<string, seq<nat>>, records: seq<ProcessRecord>, i: nat)
    requires AppsWellFormed(p.apps)
    requires i < |records| && !Run(p, allAppsPids, records[..i]).aborted
    ensures var q := Run(p, allAppsPids, records[..i]);
      var o := Apply(q.apps, allAppsPids, records[i]);
      Run(p, allAppsPids, records[..i + 1]) == Pass(o.apps, q.writes + o.emission.writes, o.emission.threw)
  {
    assert records[..i + 1][..i] == records[..i];
  }

  /** Once a prefix of the records has thrown, the remaining records change nothing. */
  lemma {:induction false} AbortSticks(p: Pass, allAppsPids: map<string, seq<nat>>,
                                       records: seq<ProcessRecord>, i: nat)
    requires AppsWellFormed(p.apps)
    requires i <= |records|
    requires Run(p, allAppsPids, records[..i]).aborted
    ensures Run(p, allAppsPids, records) == Run(p, allAppsPids, records[..i])
  {
    if i < |records| {
      var front := records[..|records| - 1];
      assert front[..i] == records[..i];
      AbortSticks(p, allAppsPids, front, i);
    } else {
      assert records[..i] == records;
    }
  }

  /** A module record, or one without name, pid or pm2 id, neither creates nor modifies an application. */
  lemma SkippedRecord(apps: map<string, LegacyApps.AppState>, allAppsPids: map<string, seq<nat>>, r: ProcessRecord)
    requires AppsWellFormed(apps)
    requires r.isModule || r.givenName.None? || r.name == "" || r.pid == 0 || r.pmId.None?
    ensures Apply(apps, allAppsPids, r) == Outcome(apps, Emission([], false))
  {
  }

  /** A complete record whose status is not online removes its application and leaves the others alone. */
  lemma OfflineRecord(apps: map<string, LegacyApps.AppState>, allAppsPids: map<string, seq<nat>>, r: ProcessRecord)
    requires AppsWellFormed(apps)
    requires Trackable(r) && r.status != "online"
    ensures var o := Apply(apps, allAppsPids, r);
      r.name !in o.apps && (forall n :: n in apps && n != r.name ==> n in o.apps && o.apps[n] == apps[n])
      && o.emission.writes == []
  {
  }

  /** An online complete record stores the refreshed application under its name and leaves the others alone. */
  lemma OnlineRecordApps(apps: map<string, LegacyApps.AppState>, allAppsPids: map<string, seq<nat>>, r: ProcessRecord)
    requires AppsWellFormed(apps)
    requires Trackable(r) && r.status == "online"
    ensures var a := Tracked(apps, allAppsPids, r);
      && a.Keys == apps.Keys + {r.name}
      && (forall n :: n in apps && n != r.name ==> a[n] == apps[n])
      && a == apps[r.name := Refresh(WorkingApp(apps, r.name), ActivePids(allAppsPids, r.name), InputOf(r))]
  {
  }

  /** An online complete record emits the gauges of its refreshed application, counting the applications tracked after it. */
  lemma OnlineRecordGauges(apps: map<string, LegacyApps.AppState>, allAppsPids: map<string, seq<nat>>, r: ProcessRecord)
    requires AppsWellFormed(apps)
    requires Trackable(r) && r.status == "online"
    ensures var a := Tracked(apps, allAppsPids, r);
      Apply(apps, allAppsPids, r).emission == Gauges(|a|, a[r.name])
  {
  }

  /**
   * After removeNotActivePids and updatePid the application holds the polled pid, with the
   * poll's memory and cpu as newest samples; it holds no pid outside the active list other
   * than the polled one; and an application that was empty ends with the polled pid only.
   */
  lemma RefreshMeaning(app: LegacyApps.AppState, activePids: Option<seq<nat>>, input: LegacyApps.PidInput)
    requires LegacyApps.WellFormed(app.pids)
    ensures var a := Refresh(app, activePids, input);
      && input.id in a.pids
      && a.pids[input.id].memory[0] == input.memory && a.pids[input.id].cpu[0] == input.cpu
      && (activePids.Some? ==> forall p :: p in a.pids ==> p in activePids.value || p == input.id)
      && (app.pids == map[] ==> a.pids.Keys == {input.id})
  {
  }

  /**
   * After an online record its application exists and holds the record's pid, with the
   * record's memory and cpu (0 when missing) as newest samples, and the application holds
   * no pid that is not listed under its name.
   */
  lemma OnlineRecord(apps: map<string, LegacyApps.AppState>, records: seq<ProcessRecord>, r: ProcessRecord)
    requires AppsWellFormed(apps) && r in records
    requires Trackable(r) && r.status == "online"
    ensures var a := Tracked(apps, GroupPids(records), r);
      && r.name in a && r.pid in a[r.name].pids
      && a[r.name].pids[r.pid].memory[0] == r.memory
      && a[r.name].pids[r.pid].cpu[0] == r.cpu.GetOr(0)
      && (forall p :: p in a[r.name].pids ==> p in PidsNamed(records, r.name))
  {
    var g := GroupPids(records);
    var i :| 0 <= i < |records| && records[i] == r;
    GroupPidsMeaning(records);
    PidsNamedNonEmpty(records, i);
    assert r.name in g;
    OnlineRecordApps(apps, g, r);
    RefreshMeaning(WorkingApp(apps, r.name), ActivePids(g, r.name), InputOf(r));
  }

  /** An online record for an application that is not tracked creates it with the record's pid as its only pid. */
  lemma OnlineRecordFresh(apps: map<string, LegacyApps.AppState>, allAppsPids: map<string, seq<nat>>, r: ProcessRecord)
    requires AppsWellFormed(apps)
    requires Trackable(r) && r.status == "online" && r.name !in apps
    ensures var a := Tracked(apps, allAppsPids, r);
      r.name in a && a[r.name].pids.Keys == {r.pid}
  {
    OnlineRecordApps(apps, allAppsPids, r);
    RefreshMeaning(WorkingApp(apps, r.name), ActivePids(allAppsPids, r.name), InputOf(r));
  }

  /** Every application tracked after a pass is named by the listing. */
  lemma {:induction false} RunKeepsListedNames(p: Pass, records: seq<ProcessRecord>, all: seq<ProcessRecord>)
    requires AppsWellFormed(p.apps)
    requires forall n :: n in p.apps ==> n in Names(all)
    requires forall i :: 0 <= i < |records| ==> records[i].name in Names(all)
    ensures forall n :: n in Run(p, GroupPids(all), records).apps ==> n in Names(all)
  {
    if |records| > 0 {
      var front := records[..|records| - 1];
      assert forall i :: 0 <= i < |front| ==> front[i] == records[i];
      RunKeepsListedNames(p, front, all);
    }
  }

  /** After a pass over a listing, every tracked application is one the listing names. */
  lemma ReconciledAreListed(apps: map<string, LegacyApps.AppState>, records: seq<ProcessRecord>)
    requires AppsWellFormed(apps)
    ensures forall n :: n in Reconcile(apps, Listed(records)).apps ==>
      exists i :: 0 <= i < |records| && records[i].name == n
  {
    var g := GroupPids(records);
    GroupPidsMeaning(records);
    RunKeepsListedNames(Pass(Dropped(apps, g), [], false), records, records);
  }

  /** removeNotActivePids (when the name has listed pids) followed by updatePid on one application object. */
  method RefreshApp(app: LegacyApps.App, activePids: Option<seq<nat>>, input: LegacyApps.PidInput)
    requires app.Valid()
    modifies app
    ensures app.Valid()
    ensures app.State() == Refresh(old(app.State()), activePids, input)
  {
    if activePids.Some? {
      app.RemoveNotActivePids(activePids.value);
    }
    app.UpdatePid(input);
  }

  /** The tracked applications, `APPS`, each a `LegacyApps.App` object filed under its own name. */
  class LegacyFleet {
    var apps: map<string, LegacyApps.App>

    ghost predicate Valid()
      reads this, apps.Values
    {
      forall n :: n in apps ==> apps[n].name == n && apps[n].Valid()
    }

    constructor ()
      ensures apps == map[] && Valid()
    {
      apps := map[];
    }

    /** The value of every tracked application. */
    function State(): (s: map<string, LegacyApps.AppState>)
      reads this, apps.Values
      ensures s.Keys == apps.Keys
      ensures forall n :: n in apps ==> s[n] == apps[n].State()
    {
      map n | n in apps :: apps[n].State()
    }

    /** Handles one record of the second forEach. */
    method Track(r: ProcessRecord, allAppsPids: map<string, seq<nat>>) returns (e: Emission)
      requires Valid()
      modifies this, apps.Values
      ensures Valid()
      ensures forall n :: n in apps ==> (n in old(apps) && apps[n] == old(apps)[n]) || fresh(apps[n])
      ensures State() == Tracked(old(State()), allAppsPids, r)
      ensures e == Apply(old(State()), allAppsPids, r).emission
    {
      ghost var s := State();
      if !Trackable(r) {
        SkippedRecord(s, allAppsPids, r);
        return Emission([], false);
      }
      if r.status != "online" {
        Forget(r.name);
        return Emission([], false);
      }
      OnlineRecordApps(s, allAppsPids, r);
      OnlineRecordGauges(s, allAppsPids, r);
      e := TrackOnline(r, allAppsPids);
    }

    /** Deletes the application `name`, if it is tracked. */
    method Forget(name: string)
      requires Valid()
      modifies this
      ensures Valid() && forall n :: n in apps ==> n in old(apps) && apps[n] == old(apps)[n]
      ensures State() == old(State()) - {name}
    {
      apps := apps - {name};
      SameEntries(State(), old(State()) - {name});
    }

    /** The online branch: adopt the application, refresh it, and emit its gauges. */
    method TrackOnline(r: ProcessRecord, allAppsPids: map<string, seq<nat>>) returns (e: Emission)
      requires Valid() && Trackable(r) && r.status == "online"
      modifies this, apps.Values
      ensures Valid()
      ensures forall n :: n in apps ==> (n in old(apps) && apps[n] == old(apps)[n]) || fresh(apps[n])
      ensures State() == old(State())[r.name := Refresh(WorkingApp(old(State()), r.name),
                                                        ActivePids(allAppsPids, r.name), InputOf(r))]
      ensures e == Gauges(|State()|, State()[r.name])
    {
      ghost var s := State();
      ghost var w := WorkingApp(s, r.name);
      var workingApp := Adopt(r.name);
      assert workingApp.State() == w;
      RefreshTracked(r.name, workingApp, ActivePids(allAppsPids, r.name), InputOf(r));
      var current := workingApp.State();
      UpdateTwice(s, r.name, w, current);
      e := Gauges(|apps|, current);
    }

    /** The first loop of detectActiveApps: deletes every tracked application whose name is not listed. */
    method ForgetUnlisted(allAppsPids: map<string, seq<nat>>)
      requires Valid()
      modifies this
      ensures Valid() && forall n :: n in apps ==> n in old(apps) && apps[n] == old(apps)[n]
      ensures State() == Dropped(old(State()), allAppsPids)
    {
      var names := apps.Keys;
      while names != {}
        invariant names <= old(apps).Keys
        invariant apps.Keys == old(apps).Keys * (names + allAppsPids.Keys)
        invariant forall n :: n in apps ==> apps[n] == old(apps)[n]
        decreases names
      {
        var n :| n in names;
        if n !in allAppsPids {
          apps := apps - {n};
        }
        names := names - {n};
      }
      SameEntries(State(), Dropped(old(State()), allAppsPids));
    }

    /** Creates the application `name` when it is not tracked yet, and returns it. */
    method Adopt(name: string) returns (workingApp: LegacyApps.App)
      requires Valid()
      modifies this
      ensures Valid() && name in apps && apps[name] == workingApp
      ensures forall n :: n in apps ==> (n in old(apps) && apps[n] == old(apps)[n]) || fresh(apps[n])
      ensures State() == old(State())[name := WorkingApp(old(State()), name)]
    {
      ghost var s := State();
      if name !in apps {
        var created := new LegacyApps.App(name);
        apps := apps[name := created];
        SameEntries(State(), s[name := WorkingApp(s, name)]);
      } else {
        SameEntries(s, s[name := WorkingApp(s, name)]);
      }
      workingApp := apps[name];
    }

    /** Refreshes the tracked application `name`, which is `workingApp`; no other application changes. */
    method RefreshTracked(name: string, workingApp: LegacyApps.App, activePids: Option<seq<nat>>,
                          input: LegacyApps.PidInput)
      requires Valid() && name in apps && apps[name] == workingApp
      modifies workingApp
      ensures Valid()
      ensures workingApp.State() == Refresh(old(workingApp.State()), activePids, input)
      ensures State() == old(State())[name := workingApp.State()]
    {
      ghost var s := State();
      assert forall n :: n in apps && n != name ==> apps[n] != workingApp;
      RefreshApp(workingApp, activePids, input);
      ghost var expected := s[name := workingApp.State()];
      forall n | n in apps
        ensures apps[n].name == n && apps[n].Valid() && apps[n].State() == expected[n]
      {
        if n != name {
          assert apps[n] != workingApp;
        }
      }
      SameEntries(State(), expected);
    }

    /** The second forEach of detectActiveApps: one record after the other, until one throws. */
    method TrackAll(allAppsPids: map<string, seq<nat>>, records: seq<ProcessRecord>)
      returns (writes: seq<GaugeWrite>, aborted: bool)
      requires Valid()
      modifies this, apps.Values
      ensures Valid()
      ensures Pass(State(), writes, aborted) == Run(Pass(old(State()), [], false), allAppsPids, records)
    {
      ghost var start := Pass(State(), [], false);
      writes, aborted := [], false;
      RunNone(start, allAppsPids, records);
      var i := 0;
      while i < |records| && !aborted
        invariant 0 <= i <= |records|
        invariant Valid()
        invariant forall n :: n in apps ==> (n in old(apps) && apps[n] == old(apps)[n]) || fresh(apps[n])
        invariant Run(start, allAppsPids, records[..i]) == Pass(State(), writes, aborted)
      {
        writes, aborted := TrackNext(start, allAppsPids, records, i, writes);
        i := i + 1;
      }
      if i < |records| {
        AbortSticks(start, allAppsPids, records, i);
      } else {
        assert records[..i] == records;
      }
    }

    /** One iteration of the second forEach, in a pass that has not thrown yet. */
    method TrackNext(ghost start: Pass, allAppsPids: map<string, seq<nat>>, records: seq<ProcessRecord>,
                     i: nat, writes: seq<GaugeWrite>)
      returns (writes': seq<GaugeWrite>, aborted: bool)
      requires Valid() && AppsWellFormed(start.apps)
      requires i < |records| && Run(start, allAppsPids, records[..i]) == Pass(State(), writes, false)
      modifies this, apps.Values
      ensures Valid()
      ensures forall n :: n in apps ==> (n in old(apps) && apps[n] == old(apps)[n]) || fresh(apps[n])
      ensures Run(start, allAppsPids, records[..i + 1]) == Pass(State(), writes', aborted)
    {
      RunStep(start, allAppsPids, records, i);
      var e := Track(records[i], allAppsPids);
      writes', aborted := writes + e.writes, e.threw;
    }

    lemma UpdateTwice(m: map<string, LegacyApps.AppState>, k: string, x: LegacyApps.AppState, y: LegacyApps.AppState)
      ensures m[k := x][k := y] == m[k := y]
    {
    }

    lemma SameEntries(t: map<string, LegacyApps.AppState>, e: map<string, LegacyApps.AppState>)
      requires t.Keys == e.Keys && forall n :: n in t ==> t[n] == e[n]
      ensures t == e
    {
    }

    /**
     * One detectActiveApps pass over `listing`: returns the gauge writes and whether the
     * pass threw part way. The tracked applications and the writes are those `Reconcile`
     * describes; in particular a list error changes nothing.
     */
    method DetectActiveApps(listing: Listing) returns (writes: seq<GaugeWrite>, aborted: bool)
      requires Valid()
      modifies this, apps.Values
      ensures Valid()
      ensures Pass(State(), writes, aborted) == Reconcile(old(State()), listing)
      ensures listing.ListError? ==> State() == old(State()) && writes == []
    {
      writes, aborted := [], false;
      if listing.ListError? {
        return;
      }
      var records := listing.records;
      var allAppsPids := GroupPidsByName(records);
      ghost var start := State();
      assert start == old(State());
      assert listing == Listed(records);
      ReconcileListed(start, records);

      ForgetUnlisted(allAppsPids);
      writes, aborted := TrackAll(allAppsPids, records);
    }
  }
}
