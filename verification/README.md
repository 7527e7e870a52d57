# Mempool backend orchestration, modelled in Dafny

This project models the orchestration core of the mempool backend server. It covers three parts:

- **Main update loop** (`Server.runMainUpdateLoop`, module `MainLoop`). Each pass awaits three sync steps in order: mempool info, then blocks, then the mempool. A pass where all three succeed reschedules itself after the configured poll rate and resets `currentBackendRetryInterval` to 5 seconds. A failed pass logs at warn if the interval is already above 5 and at debug otherwise. It then reschedules itself after `1000 * interval` ms, and only after that doubles the interval and caps it at 60. The class `Server` holds the interval. The pure functions `NextPass` and `Passes` give the decision of one pass and of a run of passes, and the lemmas prove what those decisions are.
- **Cluster supervisor** (the `Server` constructor, module `Cluster`). When `SPAWN_CLUSTER_PROCS` is falsy (0), a single server starts. When it is set, the master forks `N` workers tagged `workerId` 0..N-1. On every worker exit it schedules one replacement fork after 10000 ms, with the same `workerId`. The class `ClusterMaster` keeps the alive workers as a map from an abstract process id to a `workerId`, plus a queue of pending restarts. Its invariant `ExactlyOnce` says that every id 0..N-1 is carried by exactly one alive worker or exactly one pending restart.
- **Indexer** (`Indexer`, module `IndexerJob`). The state is the two flags `runIndexer` and `indexerRunning`. A `$run` only does work when four conditions hold: indexing is enabled, a run is requested, no pass is running, and the mempool does not have priority. It then clears the request and sets the running flag. Next it runs five steps, and the first step that throws stops the rest. If a step threw, it re-arms the request. It clears the running flag at the end. The hashrate-timestamp reset catches its own errors. Both claims assume the catch blocks themselves complete; see "## Left out" for when they do not.

Module `StepTrace` holds what the loop and the indexer share: a series of awaited steps inside one `try`. `Attempted` is the prefix of steps that actually start.

The collaborators are inputs: one flag per call that says whether it succeeds. The collaborators are `memPool`, `blocks`, `mining`, `blocksRates`, `HashratesRepository`, `Common.indexingEnabled` and `mempool.hasPriority`. The poll rate `POLL_RATE_MS` is a parameter. Timers are modelled by the delay values the methods return. OS processes are modelled by abstract ids that a counter hands out.

## Model

| member | source | states |
|---|---|---|
| `StepTrace.Attempted` | backend/src/index.ts:110-113 | the steps started are a prefix of the declared order; every step before the last one started succeeded; the run stops early only right after a failing step; the first step always starts |
| `StepTrace.AttemptedAllOk` | backend/src/index.ts:110-116 | a pass succeeds iff every step was started and the last one also succeeded |
| `StepTrace.FailureSkipsLater` | backend/src/indexer.ts:30-36 | a step that throws is the last step started: no later step runs |
| `MainLoop.Escalate` | backend/src/index.ts:125-126 | doubling and then capping never exceeds 60, keeps an interval inside 5..60, never lowers it, and keeps 60 at 60 |
| `MainLoop.NextPass` | backend/src/index.ts:114-126 | the end of a pass keeps the interval inside 5..60; a failure line is logged iff the pass failed |
| `MainLoop.Passes` | backend/src/index.ts:109-128 | the loop makes one decision per pass, and from a valid start the retry interval stays within 5..60 after every pass, whatever the outcomes |
| `MainLoop.EscalatedClosedForm` | backend/src/index.ts:125-126 | after k consecutive failures from the reset state, the interval is min(5 * 2^k, 60) |
| `MainLoop.FailureRun` | backend/src/index.ts:117-126 | in a run of failures, each one waits 1000 times the interval before its update, logs warn iff that interval is above 5, and then leaves the escalated interval |
| `MainLoop.BackoffDelays` | backend/src/index.ts:117-126 | from the reset state, the k-th consecutive failure waits 1000 * min(5 * 2^k, 60) ms; it is logged at debug for k = 0 and at warn from k = 1 on |
| `MainLoop.BackoffScenario` | backend/src/index.ts:124-126 | the first six failures wait 5000, 10000, 20000, 40000, 60000 and 60000 ms |
| `MainLoop.SuccessResets` | backend/src/index.ts:114-115 | after any history, a successful pass waits the poll rate, logs no failure and resets the interval to 5; a failure right after it waits 5000 ms at debug |
| `MainLoop.Server.constructor` | backend/src/index.ts:29 | the retry interval starts at 5 |
| `MainLoop.Server.RunMainUpdateLoop` | backend/src/index.ts:109-128 | the sync steps start in the order mempool info, blocks, mempool, and stop at the first failure; the delay, the failure severity and the new interval are those of `NextPass` for the old interval, and the interval stays within 5..60 |
| `Cluster.RoleFor` | backend/src/index.ts:34-39 | a process count of 0 starts a single server; any other count makes the master supervise and a forked process serve |
| `Cluster.ProcessCount` | backend/src/index.ts:42-57 | under the invariant, the alive workers plus the pending restarts number exactly N, so N workers are alive once no restart is pending |
| `Cluster.ForkNext` | backend/src/index.ts:43-47 | forking id i under a fresh pid after ids 0..i-1 gives ids 0..i, each once, with one more process |
| `Cluster.ExitPreserves` | backend/src/index.ts:49-53 | dropping an exited worker and queueing its id keeps every id exactly once |
| `Cluster.ForkPreserves` | backend/src/index.ts:52-56 | a fresh pid that takes an id held nowhere else keeps ids unduplicated and adds exactly that id |
| `Cluster.ClusterMaster.constructor` | backend/src/index.ts:31-61 | the role follows `RoleFor`; a master ends with exactly the ids 0..N-1 alive, each once, N processes in all, and no pending restart; any other role forks nothing |
| `Cluster.ClusterMaster.ForkAll` | backend/src/index.ts:42-47 | the start-up loop forks ids 0..N-1, one process each (none for a negative N) |
| `Cluster.ClusterMaster.Fork` | backend/src/index.ts:44-46 | a fork adds one worker with the given id under a pid no alive worker had, and changes nothing else |
| `Cluster.ClusterMaster.OnWorkerExit` | backend/src/index.ts:49-52 | an exit removes exactly that worker, queues exactly one restart carrying its id after 10000 ms, leaves all other workers untouched and keeps the invariant; it has no retry limit |
| `Cluster.ClusterMaster.FireRestart` | backend/src/index.ts:52-56 | when a restart timer fires, a new process with the next fresh pid takes the oldest queued id, and the pid counter advances by one; other workers are untouched and the invariant holds |
| `IndexerJob.StepOutcomes` | backend/src/indexer.ts:30-35 | seen from the enclosing try, one outcome per pipeline step, and the hashrate-reset step always completes |
| `IndexerJob.PipelineOutcome` | backend/src/indexer.ts:30-39 | a pass fails iff the block database, network hashrate, pool hashrate or pending-rates step throws; for each throwing step, exactly the steps up to it run, and all five run otherwise |
| `IndexerJob.Indexer.constructor` | backend/src/indexer.ts:10-14 | initially a run is requested and none is running |
| `IndexerJob.Indexer.Reindex` | backend/src/indexer.ts:16-18 | requests a run, so calling it again changes nothing, and leaves `indexerRunning` alone |
| `IndexerJob.Indexer.Begin` | backend/src/indexer.ts:20-28 | the pass starts iff the four gate conditions hold; if it starts, the request is cleared and the running flag set before any step; otherwise nothing changes |
| `IndexerJob.Indexer.ResetHashratesIndexingState` | backend/src/indexer.ts:44-51 | writes the `last_hashrates_indexing` timestamp, then `last_weekly_hashrates_indexing` only if the first write succeeded; it never fails as long as its catch block completes, and it logs an error iff a write threw |
| `IndexerJob.Indexer.RunPipeline` | backend/src/indexer.ts:30-35 | the five steps start in order and stop at the first one that throws; the timestamp writes happen only once the block database step has succeeded; the pass fails iff a step threw |
| `IndexerJob.Indexer.Finish` | backend/src/indexer.ts:30-41 | once a pass is in flight: the steps are those of `RunPipeline`; `runIndexer` ends true iff it was re-requested during the pass or a step threw; `indexerRunning` ends false |
| `IndexerJob.Indexer.Run` | backend/src/indexer.ts:20-42 | with the gate closed, no state changes and no step runs; with the gate open, the steps are those of `RunPipeline`, `runIndexer` ends true iff a step threw, and `indexerRunning` ends false |
| `IndexerJob.OverlappingRuns` | backend/src/indexer.ts:20-28 | a `$run` that arrives while a pass awaits a step starts no step and changes no field, whatever its inputs; the pass in flight then completes as usual, so at most one pass runs at a time |

## Left out

- HTTP and Express setup, CORS, route tables, the websocket server, statistics, fiat conversion, the disk cache, Bisq services and the donation proxy (backend/src/index.ts:63-107, 142-230). These are I/O plumbing.
- Callback registration in `setUpWebsocketHandling` and the Bisq new-block callback (backend/src/index.ts:93, 130-140). The setters live in files that are not part of this model, so their replace-or-append behaviour is unknown.
- What the collaborators do. Each is a success/failure flag, and the indexing switch and mempool priority are boolean inputs.
- Real timers, asynchrony and interleaving. A delay is a returned value. The in-flight window of `$run` is the state between `Begin` and `Finish`, and `OverlappingRuns` shows a second `$run` in that window. Other interleavings, such as two overlapping windows in different orders, are not enumerated.
- `Cluster.ClusterMaster.FireRestart`: pending restarts fire in the order they were scheduled, because all restart timers share the same 10000 ms delay. The OS exit code and signal are not modelled.
- Log message text, the error message inside it, and the second `JSON.stringify` debug line of a failed pass. Only the warn/debug choice for the failure line of a failed pass is modelled, along with whether the hashrate reset logs its error (`errorLogged`). The `$run` failure line (backend/src/indexer.ts:38) and the worker-exit warning (backend/src/index.ts:51) are not modelled.
- `MainLoop.NextPass`: the model assumes the catch block of a failed pass never throws, so every failed pass reschedules. In the source, building the log line reads `e.message`, which throws when a collaborator rejects with `null` or `undefined`. `JSON.stringify(e)` also throws on a circular or BigInt-carrying error. Either throw happens before `setTimeout` is reached, so the pass is never rescheduled and the loop stops for good (backend/src/index.ts:117-124).
- `IndexerJob.Indexer.ResetHashratesIndexingState`: the model assumes its catch block always builds its log line, so the reset never fails. In the source, when a write rejects with something that is not an `Error`, the line is built as `'… Reason: ' + e` (backend/src/indexer.ts:49). That concatenation throws a TypeError for a Symbol, or for an object with no primitive conversion such as `Object.create(null)`. The TypeError then escapes the reset, so the reset step fails and the pipeline of `$run` stops after it.
- `IndexerJob.Indexer.Finish`: the model assumes the catch block of `$run` always builds its log line, so the running flag is always cleared. In the source, the same concatenation at backend/src/indexer.ts:38 throws for such a rejection value, after `reindex` has re-armed the request. `$run` then rejects before line 41 clears `indexerRunning`. The flag stays true for good, and every later `$run` is a no-op. `IndexerJob.Indexer.Run`, `IndexerJob.OverlappingRuns` and `IndexerJob.StepOutcomes` rest on the same assumption.
- `SPAWN_CLUSTER_PROCS` is an integer. 0 is the falsy value. A negative value is truthy, so the process is a master that forks no worker. Non-numeric configuration values are not modelled.
- What the single server and the forked workers do after `startServer`. Only the role each process takes is modelled.
- The Angular components, the route module and the end-to-end browser tests in the frontend. They are not part of this model.
