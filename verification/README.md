# pm2-prom-module, modelled in Dafny

pm2-prom-module is a pm2 module that exports Prometheus metrics about the applications pm2
runs. This project models its in-memory bookkeeping and proves properties about it:

- **The per-application worker table `App`.** This covers both generations: core/app.ts and
  the older src/core/app.ts.
  - The table is keyed by OS pid.
  - Each record holds newest-first memory and cpu histories. They are capped at 30 samples
    (60 in the older generation).
  - The table also holds the pm2 probe values, filtered against the `PM2_METRICS` name
    table, and the time the first record went in.
  - Reductions over the table: per-pid rounded means, their rounded mean, the total of the
    newest memory samples, and the worker count.
- **The reconciliation pass.** This is the body of the `pm2.list` callback in core/pm2.ts
  and src/core/pm2.ts.
  - It groups the listed pids by application name.
  - It drops tracked applications that are no longer listed.
  - It skips pm2 modules and incomplete records.
  - It deletes the application of a record that is not online.
  - Otherwise it creates the application when needed, prunes it to the listed pids of its
    name, records the poll, and emits the gauge writes of `processWorkingApp`.
- **The bookkeeping of pushed metrics.**
  - The counter registry of metrics/app.ts, with `parseLabels` and `createMetricByType`.
  - The value stores of the pushed histograms and summaries (metrics/prom/), and
    `getHistogramBuckets`.
  - The first-seen name registry of utils/metrics.ts.

The modules are:

- `Wrappers`: `Option`.
- `OrderedDict`: a JavaScript plain object with string keys. Its keys are kept in insertion
  order, and it supports spread.
- `Samples`: bounded histories, `reduce`-sums, `Math.round` of a quotient, and the ascending
  order in which an object keyed by pids enumerates.
- `Apps` and `LegacyApps`: the two `App` classes.
- `Pm2List`: the listing, and the grouping and deletion steps both generations share.
- `Pm2Sync` and `LegacyPm2Sync`: the reconciliation passes.
- `FirstSeen`: insertion into a JavaScript `Set`.
- `MetricValues`: the pushed payload.
- `AppMetrics`: metrics/app.ts.
- `LabelledValues`: the value store shared by both pushed metric classes.
- `PromHistogram` and `PromSummary`: the two pushed metric classes.
- `PushedMetricNames`: utils/metrics.ts.

Code that changes state in place is modelled as Dafny classes and methods. Each method is
proved against a function on values, and the properties are proved about those functions.
The classes are `Apps.App`, `LegacyApps.App`, `Pm2Sync.Fleet` (`APPS`),
`LegacyPm2Sync.LegacyFleet`, `AppMetrics.PushedCounters`, `PromHistogram.Histogram`,
`PromSummary.Summary` and `PushedMetricNames.PushedNames`.

Some JavaScript semantics are written out explicitly:

- `Math.round(s / n)` is `(2s + n) / (2n)`.
- `reduce` without an initial value throws on an empty array. An empty table is therefore a
  precondition. An empty total inside `processWorkingApp` is a throw, which stops the rest of
  the pass.
- `x || 0` is `Option.GetOr(0)`.
- An object keyed by pids enumerates in ascending pid order.
- An object keyed by names enumerates in insertion order.
- A listed process without a name is filed in `allAppsPids` under the key `"undefined"`, which
  is what `obj[undefined]` uses. It is never tracked itself, because `!app.name` skips it.

Three behaviours of the code are easy to miss:

- Once a pushed metric name is registered, later entries with that name are not checked
  against its type. Any type is accepted and logged.
- Only the counter type is ever registered.
- Nothing evicts pushed series or registered names when an instance or application goes away.

## Model

| member | source | states |
|---|---|---|
| Samples.RoundDiv | core/app.ts:110 | `Math.round(a / b)` for positive `b` is the integer nearest to a/b, with a half rounded up (2br − b ≤ 2a < 2br + b) |
| Samples.RoundedMeanBounds | core/app.ts:203-205 | the rounded mean of samples that all lie in [lo, hi] lies in [lo, hi] |
| Samples.RoundedMean | core/app.ts:203-205 | `Math.round(values.reduce(sum) / values.length)`, requiring a non-empty history because the unseeded reduce throws on an empty one. It has no ensures of its own; the rounding is stated by `RoundDiv` and the bounds by `RoundedMeanBounds` |
| Samples.Push | core/app.ts:79-83 | `[x, ...h].slice(0, cap)`: the new sample first, then the old ones in order, min(cap, \|h\|+1) samples |
| Samples.PushAllWindow | core/app.ts:78-89 | after any run of pushes into a history within its cap, the history is the new samples newest first, then the old history, cut to the cap |
| Samples.NewestSamplesOnly | core/app.ts:78-89 | once at least `cap` samples have been pushed, the history is exactly the newest `cap` of them, newest first |
| Samples.PushAll | core/app.ts:78-89 | a run of polls of one pid, oldest first. It has no ensures of its own; its window is stated by `PushAllWindow` and `NewestSamplesOnly` |
| Samples.AscendingKeys | core/app.ts:97 | enumeration order of an object keyed by pids: every key exactly once, nothing else |
| Samples.AscendingKeysSorted | core/app.ts:97 | the keys of an object keyed by pids enumerate in strictly ascending order |
| Samples.SumNonZero | core/app.ts:177-183 | keeping only the non-zero values does not change their sum |
| Samples.NonZeroEmpty | core/app.ts:177-183 | nothing is kept exactly when every value is zero |
| Samples.HeadOrZero | core/app.ts:153 | `history[0] \|\| 0`. It has no ensures of its own; the per-worker values it gives are stated by `Apps.CurrentPidsCpu` and `Apps.CurrentPidsMemory` |
| Samples.NonZero | core/app.ts:178-181 | the values `if (value) values.push(value)` keeps: every kept value is non-zero and none is added. Its sum and emptiness are stated by `SumNonZero` and `NonZeroEmpty` |
| Samples.HeadsInKeyOrder | core/app.ts:177-182 | the newest sample (or 0) of every pid in enumeration order. It has no ensures of its own; `Apps.TotalUsedMemoryMeaning` ties it to getCurrentPidsMemory |
| Samples.NonZeroHeads | core/app.ts:175-182 | the `memoryValues` array of getTotalUsedMemory. It has no ensures of its own; when it is empty is stated by `NoTotalIffAllHeadsZero` |
| Samples.TotalOfHeads | core/app.ts:183 | the unseeded `reduce` of getTotalUsedMemory, requiring a non-empty array because the reduce throws otherwise. It has no ensures of its own; `TotalIsSumOfHeads` proves it is the sum of every pid's newest sample |
| Samples.TotalIsSumOfHeads | core/app.ts:174-184 | the total of the non-zero newest samples is the sum of every pid's newest sample |
| Samples.NoTotalIffAllHeadsZero | core/app.ts:174-184 | the total-memory reduction has nothing to add (and throws) exactly when every newest sample is 0 or absent |
| Samples.MeansInKeyOrder | core/app.ts:198-223 | getAveragePidsMemory and getAveragePidsCpu: one rounded mean per pid, in enumeration order. It has no ensures of its own; the positions are stated by `LegacyApps.CpuThreshold` and the bounds by `MeanOfMeansBounds` |
| Samples.MeanOfMeans | core/app.ts:108-116 | the rounded mean of `MeansInKeyOrder`, requiring a non-empty table because the unseeded reduce throws otherwise. It has no ensures of its own; the bounds are stated by `MeanOfMeansBounds` |
| Samples.MeanOfMeansBounds | core/app.ts:108-111 | when every sample lies in [lo, hi], so does the rounded mean of the per-pid rounded means |
| Apps.Pm2MetricNames | core/app.ts:229 | the names of `PM2_METRICS`, in table order |
| Apps.Scaled | core/app.ts:236-240 | a probe in MiB is multiplied by 1024·1024, any other unit is kept |
| Apps.FillMetricsData | core/app.ts:225-248 | absent probes give an empty object; otherwise a key is present exactly when it is `toUndescore` (the source's spelling) of a reported probe name that is in `PM2_METRICS` |
| Apps.FillFrom | core/app.ts:231-244 | the `forEach` over probe keys adds exactly the normalised keys of the listed probes |
| Apps.FillFromValues | core/app.ts:231-244 | when the key normaliser keeps the table's names apart, each exported probe holds its own scaled value |
| Apps.FillFromKeeps | core/app.ts:231-244 | a key that no later probe maps to keeps the value already stored |
| Apps.FillMetricsDataValues | core/app.ts:225-248 | every reported probe in `PM2_METRICS` is stored under its normalised key with its scaled value |
| Apps.Pruned | core/app.ts:51-59 | the pid set becomes old pids ∩ active pids; surviving records are unchanged |
| Apps.NewRecord | core/app.ts:69-77 | the record of a pid seen for the first time. It has no ensures of its own; its fields are stated by `NewPid` |
| Apps.Refreshed | core/app.ts:78-89 | the record of a known pid after a poll. It has no ensures of its own; its fields are stated by `KnownPid` |
| Apps.UpdatedPids | core/app.ts:61-92 | adds at most the key `id` and leaves every other record unchanged. `id`'s histories get the new memory and cpu at their head, and its restart count and its probes (`fillMetricsData` of the polled `axm_monitor`) are the polled ones. Histories stay within 1..30 |
| Apps.NewPid | core/app.ts:69-77 | an unseen pid gets `memory == [m]` and `cpu == [c]`, the given pm2 id and restart count, and `fillMetricsData` of its probes |
| Apps.KnownPid | core/app.ts:78-89 | a known pid keeps its pm2 id; each history becomes the new sample followed by the old history, cut to min(30, old length + 1); the restart count and the probes are replaced by the polled ones |
| Apps.App.constructor | core/app.ts:40-49 | a new App has its name, an empty table and start time 0 |
| Apps.App.RemoveNotActivePids | core/app.ts:51-59 | the loop over the keys deletes exactly the pids not in the active list (`Pruned`); the start time is unchanged |
| Apps.App.UpdatePid | core/app.ts:61-92 | the table becomes `UpdatedPids`; the start time becomes `createdAt` exactly when the table was empty, and is kept otherwise |
| Apps.ActivePm2Ids | core/app.ts:94-102 | position i holds the pm2 id of the i-th pid in ascending order, one per record |
| Apps.ActivePm2IdsMembers | core/app.ts:94-102 | every record's pm2 id appears among the active pm2 ids, and nothing else does |
| Apps.CurrentPidsCpu | core/app.ts:146-158 | one entry per pid in ascending pid order, with its pm2 id and its newest cpu sample, or 0 when absent |
| Apps.CurrentPidsMemory | core/app.ts:160-172 | one entry per pid in ascending pid order, with its pm2 id and its newest memory sample, or 0 when absent |
| Apps.RestartCounts | core/app.ts:118-130 | one entry per pid in ascending pid order, with its pm2 id and its last restart count |
| Apps.PidPm2Metrics | core/app.ts:132-144 | one entry per pid in ascending pid order, with its pm2 id and its probe values |
| Apps.ActiveWorkersCount | core/app.ts:190-192 | the number of records; it equals the length of each per-pid projection and is 0 only for an empty table |
| Apps.MemoryHistories | core/app.ts:201-205 | the memory histories read by the averages: one per pid of the table, each non-empty for a well-formed table |
| Apps.CpuHistories | core/app.ts:215-218 | the cpu histories read by the averages: one per pid of the table, each non-empty for a well-formed table |
| Apps.AverageUsedMemory | core/app.ts:108-111 | getAverageUsedMemory: the rounded mean of `MeansInKeyOrder(MemoryHistories)`, requiring a non-empty table. It has no ensures of its own; the bounds are stated by `AveragesWithinSamples` |
| Apps.AverageCpu | core/app.ts:113-116 | getAverageCpu: the rounded mean of `MeansInKeyOrder(CpuHistories)`, requiring a non-empty table. It has no ensures of its own; the bounds are stated by `AveragesWithinSamples` |
| Apps.AveragesWithinSamples | core/app.ts:113-116 | `getAverageUsedMemory` and `getAverageCpu` (which require a non-empty table) lie between the smallest and largest sample kept |
| Apps.HasUsedMemory | core/app.ts:174-184 | the condition under which getTotalUsedMemory does not throw. It has no ensures of its own; its meaning is stated by `HasUsedMemoryMeaning` |
| Apps.TotalUsedMemory | core/app.ts:174-184 | getTotalUsedMemory, requiring `HasUsedMemory`. It has no ensures of its own; `TotalUsedMemoryMeaning` proves it is the sum of the getCurrentPidsMemory values |
| Apps.HasUsedMemoryMeaning | core/app.ts:174-184 | `getTotalUsedMemory` does not throw exactly when some record's newest memory sample is non-zero |
| Apps.TotalUsedMemoryMeaning | core/app.ts:174-184 | when defined, the total equals the sum of the values `getCurrentPidsMemory` reports |
| Apps.Uptime | core/app.ts:194-196 | with the clock reading passed in: the whole number of seconds since the start time nearest to the elapsed time |
| LegacyApps.Pruned | src/core/app.ts:27-35 | exactly the records whose pid is in the active list are kept, unchanged |
| LegacyApps.UpdatedPids | src/core/app.ts:37-59 | only the record of `id` changes or appears; its histories start with the new samples and stay within 1..60 |
| LegacyApps.NewPid | src/core/app.ts:40-46 | a new pid gets one-sample memory and cpu histories and its pm2 id |
| LegacyApps.KnownPid | src/core/app.ts:47-56 | a known pid keeps its pm2 id; the new sample is prepended and the history cut to min(60, old length + 1) |
| LegacyApps.App.constructor | src/core/app.ts:17-25 | a new App has its name and an empty table |
| LegacyApps.App.RemoveNotActivePids | src/core/app.ts:27-35 | the loop deletes exactly the pids not in the active list |
| LegacyApps.App.UpdatePid | src/core/app.ts:37-59 | the table becomes `UpdatedPids` of the old table |
| LegacyApps.ActiveWorkersCount | src/core/app.ts:99-101 | the number of records, 0 exactly for an empty table |
| LegacyApps.CpuThreshold | src/core/app.ts:65-76 | as many values as `getActiveWorkersCount` counts; position i holds the rounded cpu mean of the i-th pid in ascending order |
| LegacyApps.MemoryHistories | src/core/app.ts:106-110 | the memory histories read by the average: one per pid of the table, each non-empty for a well-formed table |
| LegacyApps.CpuHistories | src/core/app.ts:68-71 | the cpu histories read by getCpuThreshold: one per pid of the table, each non-empty for a well-formed table |
| LegacyApps.AverageUsedMemory | src/core/app.ts:78-81 | getAverageUsedMemory: the rounded mean of the per-pid rounded memory means, requiring a non-empty table. It has no ensures of its own; the bounds are stated by `AverageUsedMemoryWithinSamples` |
| LegacyApps.AverageUsedMemoryWithinSamples | src/core/app.ts:78-81 | the average used memory (which requires a non-empty table) lies between the smallest and largest memory sample kept |
| LegacyApps.HasUsedMemory | src/core/app.ts:83-93 | the condition under which getTotalUsedMemory does not throw. It has no ensures of its own; its meaning is stated by `TotalUsedMemoryMeaning` |
| LegacyApps.TotalUsedMemory | src/core/app.ts:83-93 | getTotalUsedMemory, requiring `HasUsedMemory`. It has no ensures of its own; `TotalUsedMemoryMeaning` proves it is the sum of the newest memory samples |
| LegacyApps.TotalUsedMemoryMeaning | src/core/app.ts:83-93 | the total is defined exactly when some newest memory sample is non-zero, and is then the sum of all newest memory samples |
| Pm2List.PidsNamedMembers | core/pm2.ts:29-38 | a pid is grouped under a name exactly when some listed record has that name and pid |
| Pm2List.PidsNamedNonEmpty | core/pm2.ts:29-38 | every listed record's pid is grouped under its name |
| Pm2List.GroupPidsMeaning | core/pm2.ts:29-38 | `allAppsPids` has an entry for exactly the listed names, with a record without a name filed under `"undefined"`. Each entry holds the pids of all records with that name, in listing order, module and offline records included |
| Pm2List.GroupPidsByName | core/pm2.ts:29-38 | the loop (also src/core/pm2.ts:24-33) builds `allAppsPids` with exactly the keys and entries above |
| Pm2List.Names | core/pm2.ts:29-38 | the names occurring in a listing: a name is in it iff some record carries it |
| Pm2List.PidsNamed | core/pm2.ts:29-38 | the pids of the records with a given name, in listing order. It has no ensures of its own; its members are stated by `PidsNamedMembers` |
| Pm2List.GroupPids | core/pm2.ts:29-38 | `allAppsPids` as the first forEach builds it, one record at a time. It has no ensures of its own; its meaning is stated by `GroupPidsMeaning` |
| Pm2List.Dropped | core/pm2.ts:40-45 | the deletion pass keeps exactly the tracked applications whose name is listed, unchanged |
| Pm2List.DroppedAreListed | core/pm2.ts:40-45 | after the deletion pass, every tracked name occurs in the listing |
| Pm2List.NamelessKeepsUndefined | core/pm2.ts:30-45 | a record without a name files its pid under `"undefined"`, so a tracked application named `"undefined"` survives the deletion pass unchanged |
| Pm2List.Trackable | core/pm2.ts:50-56 | the record is neither a pm2 module nor missing its name, pid or pm_id. It has no ensures of its own; its use is stated by `Pm2Sync.SkippedRecord` and `Pm2Sync.OnlineRecord` |
| Pm2List.PerInstance | core/pm2.ts:158-168 | one write per value, labelled with the application and `instance` = position + 1 |
| Pm2Sync.KeyWrites | core/pm2.ts:171-177 | for one worker: a dynamic gauge write for exactly the probe keys that have a registered client, each with the worker's value |
| Pm2Sync.DynamicWrites | core/pm2.ts:170-179 | every write is for a registered key of the worker at `instance` − 1, with its value; every registered probe key of every worker is written with `instance` = position + 1 |
| Pm2Sync.Writes | core/pm2.ts:147-179 | the `set` calls of processWorkingApp for one report, with the throw of getTotalUsedMemory. It has no ensures of its own; its writes are stated by `WritesHead`, `WritesPerInstance` and `WritesProbes` |
| Pm2Sync.ReportOf | core/pm2.ts:150-170 | the values `processWorkingApp` reads through the App getters: one entry per worker in each per-worker list |
| Pm2Sync.ReportTotals | core/pm2.ts:152-154 | the worker count is the table size; the total memory is missing (the getter throws) exactly when every newest memory sample is 0 |
| Pm2Sync.ReportPerWorker | core/pm2.ts:158-170 | position i of each per-worker list belongs to the i-th pid in ascending order |
| Pm2Sync.WritesHead | core/pm2.ts:148-154 | the application count, worker count and average memory are always written first; the call throws exactly when the total memory is missing |
| Pm2Sync.WritesPerInstance | core/pm2.ts:158-168 | without a throw, worker i's cpu, memory and restart-count writes carry `instance` = i + 1 and follow the six per-application writes |
| Pm2Sync.WritesProbes | core/pm2.ts:170-179 | without a throw, every registered probe value of worker i is written with `instance` = i + 1 |
| Pm2Sync.WorkingAppGauges | core/pm2.ts:147-179 | processWorkingApp for one application. It has no ensures of its own; its writes are stated by `GaugesHead` and `GaugesProbes` |
| Pm2Sync.GaugesHead | core/pm2.ts:148-154 | for an application: the first three writes are its count, its worker count and its average memory; processing throws exactly when no newest memory sample is non-zero |
| Pm2Sync.GaugesProbes | core/pm2.ts:170-179 | for an application that does not throw: each registered probe of the i-th pid in ascending order is written with `instance` = i + 1 |
| Pm2Sync.Tracked | core/pm2.ts:47-83 | one record keeps every application well-formed; an online complete record leaves its application present and non-empty |
| Pm2Sync.WorkingApp | core/pm2.ts:63-67 | the tracked application of that name, or a new empty one when none is tracked |
| Pm2Sync.ActivePids | core/pm2.ts:69-72 | `allAppsPids[app.name]` when the listing has the name. It has no ensures of its own; its effect is stated by `Refresh` and `RefreshMeaning` |
| Pm2Sync.InputOf | core/pm2.ts:74-82 | the updatePid argument built from a record: missing cpu, restart count and creation time read as 0. It has no ensures of its own; the resulting record is stated by `RefreshMeaning` and `OnlineRecord` |
| Pm2Sync.Apply | core/pm2.ts:47-86 | the applications after a record are `Tracked`; a record that is skipped or not online emits nothing |
| Pm2Sync.Refresh | core/pm2.ts:69-82 | after `removeNotActivePids` and `updatePid`, the working application keeps its name and holds the polled pid |
| Pm2Sync.Run | core/pm2.ts:47-86 | the second forEach keeps the applications well-formed, only appends writes, and changes nothing once a record has thrown |
| Pm2Sync.Reconcile | core/pm2.ts:26-86 | a list error changes nothing; otherwise group, drop, then run over the records |
| Pm2Sync.RunStep | core/pm2.ts:47-86 | a pass that has not thrown is extended by exactly the next record's outcome |
| Pm2Sync.AbortSticks | core/pm2.ts:47-86 | once a prefix of the records has thrown, the remaining records change nothing |
| Pm2Sync.SkippedRecord | core/pm2.ts:50-56 | a module record, or one without name, pid or pm2 id, neither creates nor modifies an application and emits nothing |
| Pm2Sync.OfflineRecord | core/pm2.ts:58-61 | a complete record that is not online removes its application, leaves every other one unchanged and emits nothing |
| Pm2Sync.OnlineRecordApps | core/pm2.ts:63-82 | an online record stores the refreshed working application under its name and leaves the others unchanged |
| Pm2Sync.OnlineRecordGauges | core/pm2.ts:84-85 | an online record emits the gauges of its refreshed application, counting the applications tracked after it |
| Pm2Sync.RefreshMeaning | core/pm2.ts:69-82 | the refreshed application holds the polled pid with the poll's newest samples, its restart count and `fillMetricsData` of its probes. It holds no pid outside the active list but that one, and an empty application starts at the poll's creation time |
| Pm2Sync.OnlineRecord | core/pm2.ts:63-82 | after an online record its application exists and holds the record's pid. The pid has its memory, its cpu (0 when missing), its restart count (0 when missing) and `fillMetricsData` of its `axm_monitor`. The application holds no pid not listed under its name |
| Pm2Sync.OnlineRecordFresh | core/pm2.ts:58-67 | an online record for an application not tracked (never seen, or deleted earlier in the pass) creates it fresh: only the record's pid, started at its creation time (0 when missing) |
| Pm2Sync.RunKeepsListedNames | core/pm2.ts:47-86 | the second forEach never tracks a name the listing does not contain |
| Pm2Sync.ReconciledAreListed | core/pm2.ts:40-45 | after a pass, every tracked application is named by the listing |
| Pm2Sync.RefreshApp | core/pm2.ts:69-82 | on the App object, `removeNotActivePids` (when the name has listed pids) and `updatePid` leave it in the state `Refresh` gives |
| Pm2Sync.Fleet.constructor | core/pm2.ts:23 | `APPS` starts empty |
| Pm2Sync.Fleet.Track | core/pm2.ts:47-86 | one record changes `APPS` as `Tracked` says and returns the writes `Apply` gives; kept applications are the same objects, new ones are fresh |
| Pm2Sync.Fleet.Forget | core/pm2.ts:58-61 | `delete APPS[name]` removes that application only |
| Pm2Sync.Fleet.TrackOnline | core/pm2.ts:63-85 | the online branch: `APPS` becomes `Tracked`, and the gauges are those of the refreshed application |
| Pm2Sync.Fleet.ForgetUnlisted | core/pm2.ts:40-45 | the deletion loop leaves `APPS` as `Dropped` of the old state, with the same objects |
| Pm2Sync.Fleet.Adopt | core/pm2.ts:63-67 | creates the application when it is not tracked, and returns the tracked object |
| Pm2Sync.Fleet.RefreshTracked | core/pm2.ts:67-82 | refreshing the working application changes that application only |
| Pm2Sync.Fleet.TrackAll | core/pm2.ts:47-86 | the second forEach on the objects ends in the state and writes `Run` gives for all records, from the state it started in |
| Pm2Sync.Fleet.TrackNext | core/pm2.ts:47-86 | one iteration of the second forEach extends the pass `Run` by exactly that record, keeping or freshly creating the App objects |
| Pm2Sync.Fleet.DetectActiveApps | core/pm2.ts:26-86 | one pass over the listing on the objects ends in the state and writes `Reconcile` describes; a list error leaves `APPS` unchanged |
| LegacyPm2Sync.Gauges | src/core/pm2.ts:83-91 | the application count, worker count and average memory are always written; the call throws exactly when no newest memory sample is non-zero, and otherwise writes the sum of the newest memory samples as the fourth write |
| LegacyPm2Sync.Tracked | src/core/pm2.ts:42-77 | one record keeps every application well-formed; an online complete record leaves its application present and non-empty |
| LegacyPm2Sync.WorkingApp | src/core/pm2.ts:58-62 | the tracked application of that name, or a new empty one |
| LegacyPm2Sync.ActivePids | src/core/pm2.ts:64-67 | `allAppsPids[app.name]` when the listing has the name. It has no ensures of its own; its effect is stated by `Refresh` and `RefreshMeaning` |
| LegacyPm2Sync.InputOf | src/core/pm2.ts:69-74 | the updatePid argument built from a record: a missing cpu reading is 0. It has no ensures of its own; the resulting record is stated by `RefreshMeaning` and `OnlineRecord` |
| LegacyPm2Sync.Refresh | src/core/pm2.ts:64-74 | after pruning and `updatePid`, the application keeps its name and holds the polled pid |
| LegacyPm2Sync.Apply | src/core/pm2.ts:42-77 | the applications after a record are `Tracked`; a record that is skipped or not online emits nothing |
| LegacyPm2Sync.Run | src/core/pm2.ts:42-77 | the second forEach keeps the applications well-formed, only appends writes, and changes nothing once a record has thrown |
| LegacyPm2Sync.Reconcile | src/core/pm2.ts:21-77 | a list error changes nothing; otherwise group, drop, then run over the records |
| LegacyPm2Sync.RunStep | src/core/pm2.ts:42-77 | a pass that has not thrown is extended by exactly the next record's outcome |
| LegacyPm2Sync.AbortSticks | src/core/pm2.ts:42-77 | once a prefix has thrown, the remaining records change nothing |
| LegacyPm2Sync.SkippedRecord | src/core/pm2.ts:45-51 | module and incomplete records change nothing and emit nothing |
| LegacyPm2Sync.OfflineRecord | src/core/pm2.ts:53-56 | a complete record that is not online deletes its application and only that one |
| LegacyPm2Sync.OnlineRecordApps | src/core/pm2.ts:58-74 | an online record stores the refreshed working application under its name; the others are unchanged |
| LegacyPm2Sync.OnlineRecordGauges | src/core/pm2.ts:76 | an online record emits the four gauges of its refreshed application |
| LegacyPm2Sync.RefreshMeaning | src/core/pm2.ts:64-74 | the refreshed application holds the polled pid with the poll's newest samples, and no pid outside the active list but that one; an empty application ends with that pid only |
| LegacyPm2Sync.OnlineRecord | src/core/pm2.ts:58-74 | after an online record its application exists, is pruned to the listed pids of its name, and holds the record's pid with its memory and its cpu (0 when missing) |
| LegacyPm2Sync.OnlineRecordFresh | src/core/pm2.ts:53-62 | an online record for an untracked application creates it with the record's pid only |
| LegacyPm2Sync.RunKeepsListedNames | src/core/pm2.ts:42-77 | the second forEach never tracks a name the listing does not contain |
| LegacyPm2Sync.ReconciledAreListed | src/core/pm2.ts:35-40 | tracked applications absent from the listing are gone after the pass |
| LegacyPm2Sync.RefreshApp | src/core/pm2.ts:64-74 | on the App object, pruning and `updatePid` give the state `Refresh` describes |
| LegacyPm2Sync.LegacyFleet.constructor | src/core/pm2.ts:14 | `APPS` starts empty |
| LegacyPm2Sync.LegacyFleet.Track | src/core/pm2.ts:42-77 | one record changes `APPS` as `Tracked` says and returns the writes `Apply` gives |
| LegacyPm2Sync.LegacyFleet.Forget | src/core/pm2.ts:53-56 | removes that application only |
| LegacyPm2Sync.LegacyFleet.TrackOnline | src/core/pm2.ts:58-76 | the online branch: `APPS` becomes `Tracked`, and the gauges are those of the refreshed application |
| LegacyPm2Sync.LegacyFleet.ForgetUnlisted | src/core/pm2.ts:35-40 | the deletion loop leaves `APPS` as `Dropped` of the old state |
| LegacyPm2Sync.LegacyFleet.Adopt | src/core/pm2.ts:58-62 | creates the application when it is not tracked, and returns the tracked object |
| LegacyPm2Sync.LegacyFleet.RefreshTracked | src/core/pm2.ts:62-74 | refreshing the working application changes that application only |
| LegacyPm2Sync.LegacyFleet.TrackAll | src/core/pm2.ts:42-77 | the second forEach on the objects ends in the state and writes `Run` gives for all records |
| LegacyPm2Sync.LegacyFleet.TrackNext | src/core/pm2.ts:42-77 | one iteration of the second forEach extends the pass `Run` by exactly that record |
| LegacyPm2Sync.LegacyFleet.DetectActiveApps | src/core/pm2.ts:21-77 | one pass on the objects ends in the state and writes `Reconcile` describes; a list error leaves `APPS` unchanged |
| OrderedDict.Put | core/app.ts:242 | assigning to a key stores the value under it, keeps every other entry, and lists a new key last while an existing key keeps its place |
| OrderedDict.Empty | core/app.ts:226 | `{}`: a well-formed object without entries |
| OrderedDict.NewKeys | metrics/prom/histogram.ts:20 | the keys of `over` that a spread adds to `base`: exactly those not already in `base` |
| OrderedDict.Spread | metrics/prom/histogram.ts:20 | `{ ...base, ...over }` holds the keys of both, takes `over`'s value on a shared key, and lists `base`'s keys first, in their order |
| OrderedDict.PutIdempotent | metrics/prom/histogram.ts:18 | assigning the same value to the same key twice equals assigning it once |
| FirstSeen.FirstIndex | metrics/app.ts:67-71 | the position of the first occurrence: it holds the element and no earlier position does |
| FirstSeen.AddNewExtends | metrics/app.ts:67-71 | adding to a set never removes or moves what was there, and adds at most one element per input |
| FirstSeen.AddNewMembers | metrics/app.ts:67-71 | the set holds exactly what it held plus the inputs |
| FirstSeen.AddNewDistinct | metrics/app.ts:67-71 | no element is held twice |
| FirstSeen.AddNewPresent | metrics/app.ts:67-71 | adding only elements that are already present changes nothing |
| FirstSeen.AddNewIdempotent | metrics/app.ts:67-71 | adding the same inputs a second time changes nothing |
| FirstSeen.AddNewAppend | metrics/app.ts:67-71 | adding two input lists one after the other is adding their concatenation |
| FirstSeen.AddNewFirstSeenOrder | metrics/app.ts:67-73 | the added elements are in the order of their first occurrence in the input |
| FirstSeen.AddNewDistinctTail | metrics/app.ts:67-71 | every element placed after the starting contents came from the input |
| FirstSeen.FirstIndexPrefix | metrics/app.ts:67-71 | appending an input does not move the first occurrence of an element already present |
| FirstSeen.FirstIndexUnique | metrics/app.ts:67-71 | a position holding the element with no earlier occurrence is the first occurrence |
| FirstSeen.AddNew | metrics/app.ts:65-70 | a `Set` after `add` of every element, in order. It has no ensures of its own; its meaning is stated by the `AddNew…` lemmas above |
| FirstSeen.Dedup | metrics/app.ts:65-73 | `Array.from` of a `Set` filled from a list. It has no ensures of its own; it is `AddNew` from the empty set |
| MetricValues.NatText | metrics/prom/histogram.ts:15 | a number printed in a template literal is a non-empty string of decimal digits |
| MetricValues.NatTextValue | metrics/prom/histogram.ts:15 | the printed digits of `n` read back, as a decimal number, as `n` |
| MetricValues.NatTextInjective | metrics/prom/histogram.ts:15 | different numbers print differently |
| MetricValues.Text | metrics/prom/histogram.ts:15 | `${value}` of a label value: a string as is, a number in decimal. It has no ensures of its own; `LabelledValues.NumberIsPlain` states that a number prints without separators |
| AppMetrics.LabelKeysMembers | metrics/app.ts:67-71 | a key is among the collected label keys exactly when some sample has it |
| AppMetrics.LabelKeys | metrics/app.ts:67-71 | every label key of every sample, in order. It has no ensures of its own; its members are stated by `LabelKeysMembers` |
| AppMetrics.AddKeys | metrics/app.ts:68-70 | the inner loop adds the keys of one sample to the set: the set as `FirstSeen.AddNew` of those keys |
| AppMetrics.ParseLabels | metrics/app.ts:64-74 | the nested loops return every label key of the samples exactly once, in first-seen order, and nothing else |
| AppMetrics.Created | metrics/app.ts:45-62 | what createMetricByType makes: a counter with `['app', 'instance']` and the parsed labels for a counter entry, otherwise nothing. It has no ensures of its own; the same configuration is what `PushedCounters.CreateMetricByType` returns, and `RegisteredFromFirst` states what the registry holds |
| AppMetrics.Resolved | metrics/app.ts:89-94 | the registered metric of an entry, else the one created now. It has no ensures of its own; its use is stated by `StepLogAgrees` |
| AppMetrics.Step | metrics/app.ts:87-101 | the registry after one entry. It has no ensures of its own; its meaning is stated by `StepLogAgrees` and `RegisteredKeeps` |
| AppMetrics.StepLog | metrics/app.ts:96-100 | the log line of one entry. It has no ensures of its own; `StepLogAgrees` ties it to the registry |
| AppMetrics.Registered | metrics/app.ts:86-102 | the registry after every entry, in order. It has no ensures of its own; its meaning is stated by `RegisteredNames`, `RegisteredFromFirst`, `RegisteredKeeps`, `RegisteredStable` and `RegisteredIdempotent` |
| AppMetrics.Logged | metrics/app.ts:86-102 | the log lines of every entry, in order. It has no ensures of its own; each line is stated by `StepLogAgrees` |
| AppMetrics.StepLogAgrees | metrics/app.ts:86-101 | an entry without samples changes and logs nothing; one with samples logs its values exactly when a metric is registered under its name afterwards, and otherwise logs the unsupported-type error (only for a non-counter) |
| AppMetrics.RegisteredKeeps | metrics/app.ts:89-94 | a registered name is never re-created: its configuration, and so its label set, is the one from first sight |
| AppMetrics.RegisteredNames | metrics/app.ts:86-102 | the names registered afterwards are those before plus those of counter entries with samples; no other type registers anything |
| AppMetrics.RegisteredFromFirst | metrics/app.ts:45-59 | a new name is registered with the configuration of the first counter entry with samples under it: its name, help and aggregator, and `['app','instance']` followed by its parsed labels |
| AppMetrics.RegisteredStable | metrics/app.ts:86-102 | entries whose counters are all registered already leave the registry unchanged |
| AppMetrics.RegisteredIdempotent | metrics/app.ts:86-102 | processing the same entries twice leaves the registry as after one pass |
| AppMetrics.PushedCounters.constructor | metrics/app.ts:43 | the registry starts empty |
| AppMetrics.PushedCounters.CreateMetricByType | metrics/app.ts:45-63 | a counter is created with labels `['app','instance'] ++ labels` and registered under its name; any other type returns nothing and stores nothing |
| AppMetrics.PushedCounters.ProcessAppMetrics | metrics/app.ts:76-103 | a message whose `metrics` is not an array changes nothing and logs nothing; otherwise the registry and the log are `Registered` and `Logged` of the entries |
| LabelledValues.LabelPairs | metrics/prom/histogram.ts:14 | the default labels as (key, printed value) pairs, in key order |
| LabelledValues.Part | metrics/prom/histogram.ts:15 | one `` `${key}:${value};` `` part. It has no ensures of its own; `EncodeSnoc` and `DecodeEncode` state its use |
| LabelledValues.Encode | metrics/prom/histogram.ts:12-16 | the parts of all pairs, concatenated in order. It has no ensures of its own; `EncodeSnoc` and `DecodeEncode` state it |
| LabelledValues.ValueKey | metrics/prom/histogram.ts:12-16 | the storage key `valueKey` of the default labels. It has no ensures of its own; it decodes back by `DecodeEncode` and is injective on plain labels by `ValueKeyDistinguishes` |
| LabelledValues.EncodeSnoc | metrics/prom/histogram.ts:14-16 | one more label appends its `key:value;` part to the key |
| LabelledValues.Find | metrics/prom/histogram.ts:15 | the position of the first separator, or the length when there is none |
| LabelledValues.FindUnique | metrics/prom/histogram.ts:15 | a position holding the separator with none before it is what `Find` returns |
| LabelledValues.DecodeEncode | metrics/prom/histogram.ts:12-16 | a storage key built from labels free of `:` and `;` reads back as exactly those labels |
| LabelledValues.NumberIsPlain | metrics/prom/histogram.ts:15 | a printed number never contains a separator |
| LabelledValues.NumbersKeepLabelsPlain | metrics/prom/histogram.ts:11-16 | default labels (string or number values) whose keys and string values are free of separators are plain, whatever their numbers, so `ValueKeyDistinguishes` applies to them |
| LabelledValues.ValueKeyDistinguishes | metrics/prom/histogram.ts:12-18 | two sets of default labels free of separators share a storage key only when they have the same keys in the same order and print the same values |
| LabelledValues.SamePairs | metrics/prom/histogram.ts:14 | labels with the same pairs have the same keys and print the same values |
| LabelledValues.PlainLabelPairs | metrics/prom/histogram.ts:14 | labels free of separators give pairs free of separators |
| LabelledValues.SeparatorsCollide | metrics/prom/histogram.ts:12-16 | a label value containing `;` and `:` gives two different label sets the same storage key |
| LabelledValues.StorageKey | metrics/prom/histogram.ts:12-16 | the loop (also metrics/prom/summary.ts:12-16) builds the concatenation of `key:value;` over the default labels in order, and for labels free of separators it decodes back to them |
| LabelledValues.Relabel | metrics/prom/histogram.ts:18-25 | same number of samples, each keeping its value; the labels are the sample's labels overlaid by the defaults, so defaults win on shared keys, other labels are kept, and the sample's own keys come first |
| LabelledValues.Stored | metrics/prom/histogram.ts:18 | the list under the defaults' key is replaced by the relabelled samples; every other key keeps its list and the key order is extended only |
| LabelledValues.StoredReplaces | metrics/prom/summary.ts:18 | storing again under the same defaults replaces the earlier list outright |
| LabelledValues.StoredIdempotent | metrics/prom/summary.ts:11-26 | `setValues` twice with the same arguments equals once |
| LabelledValues.FlattenedLength | metrics/prom/histogram.ts:28-33 | the concatenation is as long as all stored lists together |
| LabelledValues.FlattenedMembers | metrics/prom/histogram.ts:28-33 | a sample is in the concatenation exactly when it is in one of the stored lists |
| LabelledValues.FlattenedAppend | metrics/prom/histogram.ts:31-33 | concatenating over two key lists concatenates their results |
| LabelledValues.FlattenedOther | metrics/prom/histogram.ts:31-33 | changing a list under a key not enumerated does not change the concatenation |
| LabelledValues.Flattened | metrics/prom/histogram.ts:31-33 | the lists under the given keys, concatenated in key order. It has no ensures of its own; it is stated by the `Flattened…` lemmas |
| LabelledValues.Contents | metrics/prom/histogram.ts:28-33 | the `values` array getForPromString collects: every stored list in key order. It has no ensures of its own; `Collect` is proved equal to it and `FlattenedLength` and `FlattenedMembers` state its length and members |
| LabelledValues.StoredNewAppends | metrics/prom/histogram.ts:18 | the first store for new defaults appends their samples after all earlier ones on read |
| LabelledValues.StoredKnownInPlace | metrics/prom/histogram.ts:18 | re-storing for known defaults puts the new samples where the old ones were on read; the lists before and after are untouched |
| LabelledValues.Collect | metrics/prom/histogram.ts:28-33 | the nested loops return the concatenation of all stored lists in key order; its length is the sum of their lengths and it holds exactly their samples |
| PromHistogram.Histogram.constructor | metrics/prom/histogram.ts:4-9 | a histogram with the given fields and no stored values |
| PromHistogram.Histogram.SetValues | metrics/prom/histogram.ts:11-26 | the store becomes `Stored` of the old store; the other fields are unchanged |
| PromHistogram.Histogram.GetForPromString | metrics/prom/histogram.ts:28-42 | returns the name, help, type and aggregator with all stored samples concatenated in key order; their count is the sum of the list lengths and they are exactly the stored samples |
| PromHistogram.BoundsInMembers | metrics/prom/histogram.ts:49-53 | a sample's labels yield `b` exactly when they hold an `le` label other than `+Inf` that reads as `b` |
| PromHistogram.BoundsMembers | metrics/prom/histogram.ts:48-54 | the samples yield `b` exactly when one of them has bound `b` |
| PromHistogram.HasBound | metrics/prom/histogram.ts:50-51 | the sample has an `le` label other than `'+Inf'` that reads as the given bound. It has no ensures of its own; it is the condition of `BoundsInMembers` and `BoundsMembers` |
| PromHistogram.BoundsIn | metrics/prom/histogram.ts:49-53 | the bounds read off one sample's labels, in key order. It has no ensures of its own; its members are stated by `BoundsInMembers` |
| PromHistogram.Bounds | metrics/prom/histogram.ts:48-54 | the bounds of all samples, in sample order. It has no ensures of its own; its members are stated by `BoundsMembers` |
| PromHistogram.AddLabelBounds | metrics/prom/histogram.ts:49-53 | the inner loop adds one sample's `le` bounds other than `+Inf` to the set, in key order, each once |
| PromHistogram.GetHistogramBuckets | metrics/prom/histogram.ts:45-57 | every `le` bound other than `+Inf` exactly once, in first-seen order, and nothing else |
| PromSummary.Summary.constructor | metrics/prom/summary.ts:4-9 | a summary with the given fields and no stored values |
| PromSummary.Summary.SetValues | metrics/prom/summary.ts:11-26 | the store becomes `Stored` of the old store: the list under the defaults' key is replaced, the others are unchanged |
| PromSummary.Summary.Get | metrics/prom/summary.ts:28-43 | returns the summary's fields with all stored lists concatenated in key order, holding exactly the stored samples |
| PushedMetricNames.MetricNames | utils/metrics.ts:187-188 | the names of the pushed entries, in order |
| PushedMetricNames.NamesOf | utils/metrics.ts:183-185 | the names recorded for an application, none when it has no entry yet. It has no ensures of its own; `RecordedMeaning` states its use |
| PushedMetricNames.Recorded | utils/metrics.ts:183-209 | the registry after one message of an application. It has no ensures of its own; its meaning is stated by `RecordedMeaning` and `RecordedIdempotent` |
| PushedMetricNames.RecordedMeaning | utils/metrics.ts:183-209 | after a message the application has an entry holding every pushed name; its earlier names come first, unchanged; nothing else is added, no name twice; other applications are untouched |
| PushedMetricNames.RecordedIdempotent | utils/metrics.ts:175-210 | a second identical message changes nothing |
| PushedMetricNames.PushedNames.constructor | utils/metrics.ts:35 | the registry starts empty |
| PushedMetricNames.PushedNames.ProcessAppMetrics | utils/metrics.ts:175-210 | a non-array `metrics` field changes nothing; otherwise the registry becomes `Recorded`, adding each unseen name once |

## Left out

- prom-client itself is not modelled. Registries, gauge clients, Counter/Histogram/Summary
  objects and exposition are foreign library code.
  - A gauge `set` call is modelled as a `GaugeWrite` value.
  - A created counter is modelled as its `CounterConfig`.
  - `new client.Counter(...)` in `createMetricByType` (metrics/app.ts:50-56) is taken never
    to throw. In the code, an invalid metric or label name or a missing help text throws
    there, and the throw leaves the `forEach` of `processAppMetrics` (metrics/app.ts:86-102),
    so later entries of that message are not processed. `AppMetrics.Registered` and
    `AppMetrics.Logged` process every later entry.
  - The gauges behind `?.` are taken to exist.
- pm2 I/O is not modelled: connect, `pm2.list`, the bus and `sendDataToProcessId`. The
  listing is a parameter of the pass.
- `getActivePids`, called by core/pm2.ts:182, is not modelled. `App` in core/app.ts does
  not define it. As written, the first online application whose gauges reach the dynamic
  gauges then throws a TypeError at that call. Like the throw of `getTotalUsedMemory`, the
  exception leaves the `apps.forEach` of the `pm2.list` callback, so no later record of that
  listing is processed. The model instead ends `processWorkingApp` after the dynamic gauges
  and carries on with the pass; only a `getTotalUsedMemory` throw ends it.
- Timers and concurrency are not modelled: `setInterval`, the `isProcessing` flag and
  interleaving with the bus.
- The wall clock is left out: `Apps.Uptime` takes the reading `now` as a parameter, read
  once per pass.
- Floating point is left out.
  - Memory, cpu and sample values are integers, and cpu is taken to be an integer reading.
  - `Number(...)` of a probe value is taken as already an integer.
  - The `Number(...)` of an `le` label is the parameter `toNumber`.
  - `Math.round` of a quotient is modelled for any integer numerator and a positive
    divisor.
- `toUndescore` is a parameter `toUnderscore`. Its definition is not part of this model.
- JavaScript object details are left out.
  - Keys inherited from the prototype (`constructor`, `__proto__`) are not modelled.
  - String keys that look like array indices reorder before the others in real objects;
    in the model every string-keyed object keeps insertion order.
- The number of tracked applications written by `processWorkingApp` is the size of `APPS`
  at that point. It is not checked against gauge readers.
- The `name`, `help`, `type` and `aggregator` fields of the pushed histogram and summary
  are set by prom-client's constructor, outside this model. The model takes them as
  constructor arguments. The no-op `collect` member returned by `ISummary.get` is omitted.
- The values logged by `processAppMetrics` are modelled as the sample list, not as its
  `JSON.stringify` text.
- `MetricType` is not part of this model. Its `Counter` member is taken to be the string
  `"counter"`.
- The labels of a sample are modelled as an object, which is how the code reads them. The
  declared type in types.ts is an array.
- The commented-out `aggregate` functions are not modelled.
- The per-worker writes are stated as separate lemmas, which together cover the whole
  per-instance labelling: `Pm2Sync.WritesPerInstance` about the report and
  `Pm2Sync.ReportPerWorker` about how the report is read from the table.
- After a throw inside `processWorkingApp`, the model stops the pass. The later effects of
  the uncaught exception in the pm2 callback are not modelled.
- `LabelledValues.ValueKeyDistinguishes` only covers default labels whose keys and printed
  values contain neither `:` nor `;`. For other labels two instances can share a storage
  key, as `LabelledValues.SeparatorsCollide` shows.
