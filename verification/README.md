# Verified model of gharp: dispatch, reconciliation and the portal's shared tables

gharp runs one ephemeral GitHub Actions runner container per queued workflow job. Four
components work on two tables (jobs, runners) and one bounded queue: a scheduler with a
single worker, webhook handlers, admin handlers, and a reconciler that sweeps docker, GitHub
and stale jobs. They interleave freely, and what the system promises (a concurrency cap, no
double launch, a conclusion written once, no live container removed, convergence after lost
webhooks) rests on the order of writes across several functions. This project models those
components and proves those promises for every run. It also covers the portal's slot
allocator, its OAuth state table, the owner list, and the paged runner list.

## How it is built

Every store method of the original is one SQL statement, so one atomic step. `Store.Exec` is
the meaning of a statement on values; class `Store.SQLite` updates the tables in place and is
proved equal to it. The tables' keys come from `internal/store/schema.sql` and
`gharp-portal/internal/store/schema.sql`.

The dispatch, the docker sweep and the GitHub sweep are each given three times, and the three
are proved to agree:

1. an imperative class that follows the original statement by statement
   (`Dispatch.Scheduler`, `Reconcile.Reconciler`, `GitHubSweep.Sweeper`);
2. a machine of atomic sub-steps (`Step`), run to its end by `Drive`; the class methods'
   contracts equate the resulting state with `Drive`, for an arbitrary clock reading and an
   arbitrary reply of the environment at every sub-step;
3. the interleaved system (`System`), in which any step of any other component, of docker, of
   GitHub, or of the clock may come between two sub-steps. Module `Alone` proves that each
   `Drive`, each webhook delivery and the stale-job sweep is a run of that system (listings
   truthful, clock not going back), so a theorem about runs is a theorem about the classes.

On top of these stand the theorems: over runs (`CapSafety`, `LaunchSafety`, `RetrySafety`,
`OrphanSafety`, `GitHubSafety`, `Shutdown`, and through `System.RunIsHistory` all of `JobHistory`), and closed
forms that do not mention the machines (`Decision` for a dispatch and the loop around it, `Agreement` for the docker
sweep, `Deregistration` for the GitHub sweep, `StaleSweep` and `Convergence` for the round
without webhooks, `Handlers` for redelivery and reordering).

Times are integers in nanoseconds; the database stores them cut to whole seconds
(`Store.Stamp`). GitHub and docker answer anything, except where a theorem says otherwise.

| file | models |
|---|---|
| `Store.dfy`, `JobHistory.dfy` | `internal/store/sqlite.go` and its schema |
| `Dispatch.dfy`, `Decision.dfy` | `internal/scheduler/scheduler.go` |
| `Reconcile.dfy`, `Agreement.dfy` | docker side of `internal/reconciler/reconciler.go` |
| `GitHubSweep.dfy`, `Deregistration.dfy`, `Pagination.dfy` | GitHub side of it, and `internal/github/runners.go` |
| `StaleSweep.dfy`, `Convergence.dfy` | the stale in_progress sweep; one round without webhooks |
| `Handlers.dfy`, `Admission.dfy` | `internal/httpapi/handlers/webhook.go`, `jobs.go` |
| `System.dfy`, `Alone.dfy`, `CapSafety.dfy`, `LaunchSafety.dfy`, `RetrySafety.dfy`, `OrphanSafety.dfy`, `GitHubSafety.dfy`, `Shutdown.dfy` | all of them, interleaved |
| `Owners.dfy` | `internal/httpapi/handlers/access.go` and the owner gate |
| `Slots.dfy`, `SlotSafety.dfy` | the portal's slot tables and registry loader |
| `OAuthStates.dfy` | `gharp-portal/internal/auth/state.go` |

`dafny verify dfyconfig.toml` covers the whole project.

## Where the code and its own words part

Each of these is a lemma with a concrete or fully general input, next to the theorem that says
exactly what does hold.

- The cap can be exceeded: a late in_progress event turns a finished runner row busy again.
  The excess is at most the number of such events (`CapSafety.CapHolds`), and for every cap
  and every number of them it is reached (`CapSafety.CapBoundIsReached`).
- When the active-row read fails, the orphan sweep goes on with nothing claimed, and removes
  exactly the containers under our prefix that are undated or at least `grace` old, whatever
  their rows say (`Agreement.FailedReadSweepsAll`;
  `OrphanSafety.FailedSnapshotRemovesLive` is a run that loses a busy runner).
- The orphan sweep kills by name. It never removes the container of a row that was active at
  the snapshot or inserted since, provided no row was inserted under a name that some container
  carried at the snapshot (`OrphanSafety.OrphanSweepIsSafe`); on a name collision it does
  (`OrphanSafety.NameCollisionRemovesLaunched`). Names end in eight random hex digits.
- The ghost sweep has no grace period: it can finish the row of a container that is about to
  appear (`OrphanSafety.GhostSweepHasNoGrace`). It finishes a row exactly if docker answered
  that tick's inspection, had no container of the name at that moment, and the write succeeds
  (`OrphanSafety.GhostFinishedExactlyWhen`, `OrphanSafety.GhostWasInspected`).
- A runner that took a job after GitHub listed it idle can be deregistered while busy
  (`GitHubSafety.BusyRunnerCanBeDeleted`): when a candidate's turn comes it is deregistered
  exactly if its name had no active row at the recheck and the call succeeds
  (`GitHubSafety.DeletedExactlyWhen`). A runner outside our prefix, or busy at every listing
  that sees it, never is (`GitHubSafety.ForeignOrBusyKept`).
- An admin retry can be undone by a conclusion that the worker or the stale-job sweep read
  before it and writes after it, since the write's guard only asks that the row is not
  completed (`RetrySafety.RetryLost`); this is exactly when it is
  (`RetrySafety.RetryUndoneExactlyWhen`).
- After a 404 that the second read does not repeat, a job is launched even if that second read
  says it is completed (`Decision.CompletedJobIsLaunched`; exactly when a dispatch launches is
  `Decision.StartsExactlyWhen`).
- `internal/reconciler/reconciler.go:666-670` calls the stale sweep's write unguarded and its
  overwrite benign; the statement is guarded, and no later writer ever replaces a conclusion
  (`JobHistory.FirstTerminalWriterWins`).
- `gharp-portal/internal/slots/assign.go:27-28` says assigning an assigned slot fails; it
  succeeds for the user who holds it, and for a disabled slot
  (`SlotSafety.AssignSucceedsWhen`), whose mark is then lost
  (`SlotSafety.DisabledComesBackFree`).
- A repository removed from an installation is mapped again by a late queued event, since
  installation rows are never deleted (`Handlers.UnmappedUntilMapped`).
- A saved owner containing a comma is read back as several (`Owners.RoundTrip`,
  `Owners.AdmitsExactly`).
- An admin retry or cancel can answer 500 although it took effect (`Handlers.JobsHandler.Retry`).

## Model

| member | source | states |
|---|---|---|
| CapSafety.CapHolds | internal/scheduler/scheduler.go:226-401 | at every point of every interleaved run, active runner rows, plus the place a dispatch has reserved, number at most max(cap, initial count) plus the finished rows turned busy so far |
| CapSafety.CapBoundIsReached | internal/httpapi/handlers/webhook.go:347-357 | the revival term is needed: for every cap and every m, a run of m in_progress events from a pool at its cap to exactly cap + m active rows |
| LaunchSafety.NoDuplicateLaunch | internal/scheduler/scheduler.go:191-222 | for any number of queue copies, two successful launches of a job with no effective retry and no failed mark between them: the first was marked, and the second passed its age check at least DispatchedReplayAge after the stored stamp |
| OrphanSafety.OrphanSweepIsSafe | internal/reconciler/reconciler.go:297-401 | if the snapshot succeeded, the orphan clock is less than grace after it, the listed entry is dated and no row since was inserted under a name carried at the snapshot, then the name whose container is removed had no active row at the snapshot and got none since; if it has a row or was ever launched, that row was finished at the snapshot; however dispatches overlap |
| OrphanSafety.RemovedWasListedOld | internal/reconciler/reconciler.go:366-399 | without the fresh-name hypothesis: the listed entry itself existed at the snapshot, with its creation stamp, unclaimed |
| OrphanSafety.NameCollisionRemovesLaunched | internal/scheduler/scheduler.go:468-478 | the fresh-name hypothesis is needed: a run that removes the container of a row inserted and launched after the snapshot |
| OrphanSafety.FailedSnapshotRemovesLive | internal/reconciler/reconciler.go:299-303 | the snapshot hypothesis is needed: a run in which its failure removes the container of a busy row |
| OrphanSafety.GhostSweepHasNoGrace | internal/reconciler/reconciler.go:306-326 | a run in which a starting row is finished and its container appears afterwards |
| OrphanSafety.GhostFinishedExactlyWhen | internal/reconciler/reconciler.go:305-326 | in every run, the reconciler's next sub-step after inspecting row n finishes it as a ghost if and only if docker answered, had no container of that name then, and the write succeeds |
| OrphanSafety.GhostWasInspected | internal/reconciler/reconciler.go:305-326 | in every run, wherever the reconciler is about to finish a row as a ghost, its last sub-step inspected that row and docker had no container of the name |
| GitHubSafety.ActiveRunnerKept | internal/reconciler/reconciler.go:587-603 | a runner registered by a launch is not deregistered at any later step if its row was active at every recheck between, however old the list and however dispatches interleave |
| GitHubSafety.OnlyOursListedIdle | internal/reconciler/reconciler.go:556-611 | in every run, a registration deleted at step e stood on GitHub's roster under our prefix and idle at an earlier list step of the same repository's pass, and if still there its name is still ours |
| GitHubSafety.ForeignOrBusyKept | internal/reconciler/reconciler.go:567-586 | a registration outside our prefix, or busy at every list step that sees it, is never deleted |
| GitHubSafety.DeletedExactlyWhen | internal/reconciler/reconciler.go:594-610 | when a candidate's turn comes, it is deleted if and only if no active row of its name existed at its repository's recheck and the call succeeds, busy or not |
| GitHubSafety.DeletesHead | internal/reconciler/reconciler.go:599-610 | a step deletes g if and only if g heads the candidates, was unclaimed at the recheck, and the call succeeds |
| GitHubSafety.RosterKeeps | internal/reconciler/reconciler.go:556-604 | along every run a registration id keeps its name and repository and is never reused |
| GitHubSafety.BusyRunnerCanBeDeleted | internal/reconciler/reconciler.go:577-584 | a run, from a pool that maps the repository and with every query answered truthfully, that deregisters a runner busy at that moment |
| Shutdown.ShutdownBound | internal/scheduler/scheduler.go:117-152 | in every run, from any cancelled point on, at most one dispatch begins, none if the worker is inside one, and only callbacks past their check enqueue |
| Shutdown.ReturnedIsFinal | internal/scheduler/scheduler.go:109-135 | once returned, the worker stays returned with no timer pending |
| Shutdown.DoneReturns | internal/scheduler/scheduler.go:113-120 | a select that picks the cancelled context returns with the timers stopped and dispatches nothing of what is queued |
| Shutdown.LoopShutdown | internal/scheduler/scheduler.go:117-135 | the worker loop, whatever its selects pick, begins at most one dispatch after cancellation, then returns, with its timers stopped |
| Shutdown.CancelledMidDispatch | internal/scheduler/scheduler.go:121-125 | cancellation during a dispatch: no other dispatch begins |
| Shutdown.StoppedTimersAreSilent | internal/scheduler/scheduler.go:141-165 | no callback that starts after cancellation or after the timers were stopped enqueues |
| RetrySafety.RetryUndoneExactlyWhen | internal/store/sqlite.go:411-464 | after an effective retry, with no handler closing, no new verdict and no further retry, the row is completed if and only if a verdict held unchanged since the retry was written |
| RetrySafety.RetrySurvives | internal/httpapi/handlers/jobs.go:136-148 | a retry that finds neither the worker nor the stale-job sweep holding a verdict on its row survives until a handler or a later verdict closes it |
| RetrySafety.ClosingAfterRetry | internal/store/sqlite.go:411-480 | every closing after a retry is a handler's, or on a verdict taken since, or on one held since before |
| RetrySafety.WorkerUndoesRetry | internal/scheduler/scheduler.go:268-355 | wherever the worker holds a verdict, a completion or a cancellation, and the row was closed meanwhile, a retry takes effect and the worker's write undoes it |
| RetrySafety.SweepUndoesRetry | internal/reconciler/reconciler.go:753-801 | likewise the stale-job sweep |
| RetrySafety.RetryLost | internal/reconciler/reconciler.go:753-801 | a whole run from a mapped, overdue in_progress job, listed and asked about by the sweep, to a retried row closed with the conclusion read before the retry |
| Convergence.Converges | internal/scheduler/scheduler.go:167-417 | GitHub saying every job is over, the stale sweep on and no call of either failing, one replay drained and one stale sweep leave every job completed, start no container and touch no runner row |
| Convergence.DispatchSettles | internal/scheduler/scheduler.go:191-363 | one such dispatch closes its row, whichever of the paths it takes, and launches nothing |
| Convergence.RipeIsPending | internal/store/sqlite.go:486-492 | past the replay age, the replay query answers exactly the open rows |
| Convergence.CutoffImpliesAge | internal/store/sqlite.go:482-492 | every pending row is in the replay's answer, a dispatched one from 301 s on and never up to 300 s; what the replay lists no later dispatch stops as too young |
| Convergence.AllListed | internal/store/sqlite.go:510-547 | up to 500 in_progress rows, the limited listing is complete |
| Decision.StartsExactlyWhen | internal/scheduler/scheduler.go:186-417 | a dispatch starts a container if and only if the row is due, the cap has room, repository, token and row insert are in order and GitHub's two answers allow it; then one row and 1..max runs under its name, otherwise only its own job row moves, and only to completed |
| Decision.RequeuedExactlyWhen | internal/scheduler/scheduler.go:191-240 | a dispatch arms its re-enqueue timer if and only if the row is open, a dispatched one at least five minutes old, both store reads answered, and as many rows are active as the cap allows; it then changes nothing and starts nothing |
| Decision.ClosesAs | internal/scheduler/scheduler.go:242-363 | what a due dispatch that does not launch leaves of its row: untouched, cancelled (unmapped for a minute, or twice unknown to GitHub), or closed with GitHub's conclusion, cancelled for none; and its stamp |
| Decision.LaunchRecords | internal/scheduler/scheduler.go:366-451 | what a launch leaves: as many runs as attempts, the new row with the job's repository and labels, finished exactly if the last attempt failed and that write went through, the job dispatched and stamped exactly if it succeeded and that did |
| Decision.RetriedStartsAtOnce | internal/store/sqlite.go:451-464 | after an applied retry the row is owed to every later replay, and its dispatch starts a container whenever cap, mapping, token, insert and GitHub allow, whatever the clock |
| Decision.CapRetries | internal/scheduler/scheduler.go:231-240 | a job that arrives and meets the cap is dispatched again when its timer fires, on the tables of that moment, and nothing else is left of the first dispatch |
| Decision.DrainIsSession | internal/scheduler/scheduler.go:117-125 | draining the queue is what the select loop does in as many rounds that pick the queue |
| Decision.TickerReplays | internal/scheduler/scheduler.go:126-180 | a ticker round followed by such rounds dispatches exactly the rows owed work, each once, in the query's order |
| Decision.CompletedJobIsLaunched | internal/scheduler/scheduler.go:332-335 | a 404 followed by completed is launched |
| JobHistory.FirstTerminalWriterWins | internal/store/sqlite.go:411-480 | over every history a completed row's conclusion is that of the first terminal write whose guard held since the last effective retry |
| JobHistory.ClosingsBalance | internal/store/sqlite.go:411-480 | effective terminal writes plus initially completed equal effective retries plus finally completed |
| JobHistory.RankFallsOnlyByRetry | internal/store/sqlite.go:385-464 | rows are never lost and the status rank falls only across an effective retry |
| JobHistory.ShapeKept | internal/store/sqlite.go:338-480 | open rows have no runner binding, in_progress rows have a runner name, uncompleted rows no conclusion; kept by every history |
| System.RunIsHistory | internal/store/sqlite.go:338-480 | every interleaved run's database is what its statements make of the initial one, in order |
| System.ReachableVerdicts | internal/store/sqlite.go:385-480 | first writer, balance and rank in every reachable world |
| System.ReachableRowsShaped | internal/httpapi/handlers/webhook.go:309-371 | row shape in every reachable world |
| System.InvKept | internal/scheduler/scheduler.go:365-417 | every step of every component keeps: container name keys rows, a container is attempted only after its row is in, registration ids are fresh |
| System.RunGrows | internal/store/sqlite.go:338-667 | along every run rows are never deleted, keep their repository, and the clock does not go back |
| Alone.DispatchIsRun | internal/scheduler/scheduler.go:186-417 | a dispatch run alone is a run of the interleaved system, with the store, timer and containers of the imperative dispatch |
| Alone.ReconIsRun | internal/reconciler/reconciler.go:275-284 | likewise a docker-side tick |
| Alone.SweepIsRun | internal/reconciler/reconciler.go:493-614 | likewise a GitHub-side sweep |
| Alone.StaleSweepIsRun | internal/reconciler/reconciler.go:730-811 | likewise the stale-job sweep, its reads and writes apart |
| Alone.DeliveryIsRun | internal/httpapi/handlers/webhook.go:139-376 | likewise a webhook delivery: its statements and at most one push |
| Agreement.FailedReadSweepsAll | internal/reconciler/reconciler.go:299-303 | for every state, a tick whose row read fails finishes no row and removes exactly our containers that are undated or at least grace old, so an active row's container if and only if it is one of those |
| Agreement.StoreAnswersHonestly | internal/store/sqlite.go:644-667 | reading the rows from the store meets the honesty the tick theorems ask for |
| Agreement.TickIsReconciled | internal/reconciler/reconciler.go:275-401 | a fault-free uninterleaved tick computes the closed form, whatever order the two queries answer in |
| Agreement.TickAgrees | internal/reconciler/reconciler.go:275-401 | afterwards every active row has a container within its lifetime, every container of ours is claimed or dated and young, jobs and foreign containers are untouched, and a second tick changes nothing |
| Agreement.AgreementIsStable | internal/reconciler/reconciler.go:275-401 | a tick changes nothing if and only if rows and containers agree |
| Agreement.TickVerdicts | internal/reconciler/reconciler.go:297-401 | fault-free: an active row with a container stays, container and all, if maxLifetime is off or not exceeded, and is finished with its container gone if it is exceeded; one without a container is finished; a container no active row names goes if and only if it is ours and undated or past grace |
| Agreement.RowUnderFaults | internal/reconciler/reconciler.go:297-356 | one row under every combination of faults and clocks: a failed inspection, removal or write leaves what it would have changed |
| Agreement.OrphanUnderFaults | internal/reconciler/reconciler.go:366-401 | one listed container: removed if and only if ours, unclaimed, undated or past grace by the clock read after the listing, and the removal succeeds |
| Deregistration.SweepDeregistersExactly | internal/reconciler/reconciler.go:493-632 | a fault-free uninterleaved sweep, reading the installed repositories from the store, deregisters exactly the idle runners under our prefix, in mapped repositories, that no active row claims; a second one none |
| Deregistration.FaultsAreLocal | internal/reconciler/reconciler.go:493-614 | whatever calls fail, only idle unclaimed runners of ours in mapped repositories are deregistered; and once its opening reads answered, the sweep deregisters every one of them whose own repository's calls do not fail, whatever fails for other repositories |
| GitHubSweep.CandidatesExactly | internal/reconciler/reconciler.go:566-586 | a listed runner is a candidate if and only if it is ours by prefix, unclaimed at the snapshot, and listed idle |
| Pagination.ListRepoRunners | internal/github/runners.go:85-113 | for any server and any context that is cancelled sooner or later: stops at the first page that fails, is short or completes the total, with all pages up to it or an error |
| Pagination.StopsAtPage | internal/github/runners.go:85-113 | the loop ends at request n if and only if n is the first that fails, answers fewer than 100 runners, or completes the total |
| Pagination.FetchesExactly | internal/github/runners.go:80-114 | against pages of 100 and a true total: exactly the roster, in order, after exactly max(1, ceil(N/100)) requests, or an error if the context ends before that |
| Pagination.FetchIsHonest | internal/github/runners.go:80-114 | what it returns is an answer the sweep's theorems accept |
| StaleSweep.Sweeper.SweepStaleInProgressJobs | internal/reconciler/reconciler.go:671-823 | each installation has at most one mint attempt, exactly those some mapped stale row needs; each stale row at most one GitHub read, exactly those whose mint succeeded; a row that changes is a listed one, closed with GitHub's conclusion, neutral or cancelled as its answer says; nothing happens on an early error |
| StaleSweep.Sweeper.SweepRows | internal/reconciler/reconciler.go:722-811 | the loop with its token and failed-installation caches keeps that bound |
| StaleSweep.SweptRows | internal/reconciler/reconciler.go:686-811 | a row is written if and only if listed, stale, mapped, minted, settled by GitHub; every other row is unchanged |
| StaleSweep.SweepVerdict | internal/reconciler/reconciler.go:671-811 | a listed, overdue, mapped, minted and writable row is closed with GitHub's own conclusion, neutral if GitHub names none, cancelled if GitHub does not know the job or refuses; any other row is as it was; a running row is left out of the listing only for 500 newer ones |
| StaleSweep.FilterFirst | internal/reconciler/reconciler.go:686-692 | filtering the stale rows first changes nothing |
| Dispatch.Scheduler.Enqueue | internal/scheduler/scheduler.go:93-99 | appends, or drops on a full queue |
| Dispatch.Scheduler.Replay | internal/scheduler/scheduler.go:167-180 | sends exactly the rows the store owes work, oldest first, or nothing on error |
| Dispatch.SendAllPrefix | internal/scheduler/scheduler.go:93-99 | many sends keep what was queued and append as long a prefix as fits |
| Dispatch.ReplayKeepsOldest | internal/scheduler/scheduler.go:167-180 | rows a replay drops for lack of room are newer than all it kept |
| Dispatch.Scheduler.LaunchWithRetry | internal/scheduler/scheduler.go:419-451 | attempts until success, limit or abort; n attempts slept exactly b(2^(n-1)-1) |
| Dispatch.Pow2Doubles | internal/scheduler/scheduler.go:443-448 | the back-off factor is two to the number of waits |
| Dispatch.LaunchLoop | internal/scheduler/scheduler.go:419-451 | the interleavable launch sub-steps are that loop |
| Dispatch.Scheduler.DispatchWithContext | internal/scheduler/scheduler.go:186-417 | store, re-enqueue timers and docker runs are those of the machine, for every environment; a timer is armed exactly at the cap |
| Dispatch.Scheduler.PreLaunchCheck | internal/scheduler/scheduler.go:306-363 | the switch over GitHub's answer and the confirming read, with the row it closes |
| Dispatch.Scheduler.LaunchJob | internal/scheduler/scheduler.go:373-415 | insert, then launch, then mark or finish |
| Dispatch.Scheduler.TimerFired | internal/scheduler/scheduler.go:141-155 | a callback leaves the timer set, and enqueues only if it was armed and the context lives |
| Dispatch.Scheduler.RunWithDrain | internal/scheduler/scheduler.go:109-135 | the start-up replay, then the select loop over any script of picks, arrivals and cancellations; each ticker pick replays what the store owes then |
| Dispatch.Scheduler.DrainQueue | internal/scheduler/scheduler.go:117-125 | receives until the queue is empty |
| Reconcile.Reconciler.Reconcile | internal/reconciler/reconciler.go:275-284 | tables and containers are those of the machine, for every environment, the active rows read from the store |
| Reconcile.Reconciler.SweepRow | internal/reconciler/reconciler.go:305-353 | one row: left alone on doubt, finished when the container is gone, killed then finished when overdue |
| Reconcile.Reconciler.SweepOrphanContainers | internal/reconciler/reconciler.go:366-401 | the orphan loop, with prefix, claim and grace |
| GitHubSweep.Sweeper.ActiveRunnerNames | internal/reconciler/reconciler.go:620-632 | the names of the repository's active rows, from a fresh query |
| GitHubSweep.Sweeper.KnownRunners | internal/reconciler/reconciler.go:516-524 | the (repository, name) pairs of all active rows |
| GitHubSweep.Sweeper.SweepGitHubGhostRunners | internal/reconciler/reconciler.go:493-614 | the roster left is that of the machine, for every environment, the repositories and rows read from the store |
| GitHubSweep.Sweeper.SweepRepo | internal/reconciler/reconciler.go:556-611 | one repository: list, collect, recheck once, delete the unclaimed |
| Store.SQLite.InsertJobIfNew | internal/store/sqlite.go:338-354 | inserts a pending row once; reports whether it did |
| Store.SQLite.MarkJobDispatched | internal/store/sqlite.go:385-394 | open rows become dispatched with a fresh stamp, others are untouched |
| Store.SQLite.MarkJobInProgress | internal/store/sqlite.go:396-409 | open rows become in_progress with the binding; reports whether one did |
| Store.SQLite.MarkJobCompleted | internal/store/sqlite.go:411-429 | uncompleted rows are closed; reports whether one was |
| Store.SQLite.CancelJobIfPending | internal/store/sqlite.go:431-449 | open rows are closed as cancelled; reports whether one was |
| Store.SQLite.RetryJobIfCompleted | internal/store/sqlite.go:451-464 | completed rows are pending again, without conclusion and binding, freshly stamped; reports whether one was |
| Store.SQLite.CancelPendingJobsForRepo | internal/store/sqlite.go:466-480 | every open row of the repository is closed, and their number returned |
| Store.SQLite.PendingJobs | internal/store/sqlite.go:482-508 | pending rows and dispatched rows strictly past the replay age, each once, oldest first |
| Store.SQLite.InsertRunnerRow | internal/store/sqlite.go:612-618 | one starting row per container name |
| Store.SQLite.UpdateRunnerStatusByName | internal/store/sqlite.go:624-635 | unguarded: every row of that name, finished ones too |
| Store.SQLite.ActiveRunnerCount | internal/store/sqlite.go:637-642 | the number of unfinished rows |
| Store.SQLite.ListActiveRunners | internal/store/sqlite.go:644-667 | every unfinished row, once, by start time and then name |
| Store.SQLite.ListAllInstallationRepos | internal/store/sqlite.go:296-316 | every mapped repository, once, by name |
| Store.OrderedUnique | internal/store/sqlite.go:486-492 | an ORDER BY that ends in a key leaves a query one possible answer |
| Store.ActiveGrowth | internal/store/sqlite.go:612-635 | no statement deletes a runner row, and only an insert or a revival adds an active one, one at a time |
| Store.ForeignKeysKept | internal/store/sqlite.go:252-294 | a mapped repository always has its installation row |
| Handlers.RedeliveryIsIdempotent | internal/httpapi/handlers/webhook.go:139-376 | any webhook delivered twice in a row, at any two times, leaves store and queue as after one delivery |
| Handlers.OrderDoesNotMatter | internal/httpapi/handlers/webhook.go:333-371 | any ordering and duplication of a job's in_progress and completed events, one completed among them, ends with the same status, conclusion and runner-row statuses |
| Handlers.TransitionForm | internal/httpapi/handlers/webhook.go:347-370 | the runner row moves only if the job row moved |
| Handlers.QueuedWrites | internal/httpapi/handlers/webhook.go:301-331 | an admitted queued event: a new id becomes a pending row with the event's repository and joined labels, queued last if there are fewer than 256; the repository is mapped to the event's installation if that is on file |
| Handlers.StartedWrites | internal/httpapi/handlers/webhook.go:333-359 | an admitted in_progress event: an open row gets the event's runner id and name, and then exactly the rows of that runner name turn busy |
| Handlers.EndedWrites | internal/httpapi/handlers/webhook.go:361-371 | an admitted completed event: an uncompleted row gets the event's conclusion, and then exactly the rows of the event's runner name are finished |
| Handlers.RemovalIsComplete | internal/httpapi/handlers/webhook.go:161-196 | a removal not answered 503 leaves its repositories unmapped and without open jobs |
| Handlers.UnmappedUntilMapped | internal/httpapi/handlers/webhook.go:301-307 | an unmapped repository is mapped by exactly the deliveries that name it so; installations never disappear |
| Handlers.ScriptsAreOutside | internal/httpapi/handlers/webhook.go:139-376 | every statement a handler runs is one the interleaved system admits anywhere |
| Handlers.ScriptInOrder | internal/httpapi/handlers/webhook.go:139-376 | what others may see in between: a repository's jobs are cancelled right after it is unmapped, a job is inserted after its repository is mapped, a runner row moves right after its job row |
| Handlers.WebhookHandler.HandleInstallation | internal/httpapi/handlers/webhook.go:139-202 | store, queue and response code for created and deleted, under any store failures; 503 if and only if an unmap or cancel failed |
| Handlers.WebhookHandler.PurgeRepos | internal/httpapi/handlers/webhook.go:176-197 | unmap before cancel, repository by repository; reports failure exactly if one call failed |
| Handlers.WebhookHandler.HandleInstallationRepositories | internal/httpapi/handlers/webhook.go:219-261 | additions, then removals; 503 if and only if an unmap or cancel of a removal failed |
| Handlers.WebhookHandler.HandleWorkflowJob | internal/httpapi/handlers/webhook.go:265-376 | the label, public-repository and owner gates, then queued, in_progress and completed: each table, the queue and the response code, in the payload's own fields |
| Admission.LabelsMatch | internal/httpapi/handlers/webhook.go:477-505 | admits if and only if the pool is unconfigured or every label, trimmed and lower-cased, is self-hosted, configured, or under a dynamic prefix |
| Admission.PublicRepoAllowed | internal/httpapi/handlers/webhook.go:434-456 | a public repository needs the switch or the allow-list; an unknown visibility falls back to the private flag |
| Handlers.JobsHandler.Retry | internal/httpapi/handlers/jobs.go:112-156 | the exact response, whatever others write between the read and the guarded write, and that the row is pending again, unbound and without a conclusion, and queued, exactly if the guard held then |
| Handlers.JobsHandler.Cancel | internal/httpapi/handlers/jobs.go:159-200 | the exact response, whatever others write between the read and the guarded write, and that the row is cancelled exactly if the guard held then |
| Owners.NormalizeOwners | internal/httpapi/handlers/access.go:42-58 | the loop with its seen set keeps each owner's first spelling, trimmed, in order |
| Owners.SplitOwners | internal/httpapi/handlers/access.go:30-38 | trimmed non-empty pieces, in order |
| Owners.NormalIsClean | internal/httpapi/handlers/access.go:40-58 | no empty or untrimmed entry, no two equal ignoring case, each from an original |
| Owners.NormalCovers | internal/httpapi/handlers/access.go:40-58 | every non-empty entry survives up to case |
| Owners.NormalTwice | internal/httpapi/handlers/access.go:40-58 | normalising is idempotent |
| Owners.NormalFirst | internal/httpapi/handlers/access.go:40-58 | the cleaned list is exactly the first spellings, trimmed, in the order they were given |
| Owners.RoundTrip | internal/httpapi/handlers/access.go:96-105 | the stored list reads back as saved if and only if no saved entry contains a comma |
| Owners.AdmitsExactly | internal/httpapi/handlers/webhook.go:426-431 | for every list, the stored string admits an owner if and only if a comma piece of an original entry, trimmed, is it ignoring case |
| Owners.AdmitsOriginals | internal/httpapi/handlers/webhook.go:426-431 | for comma-free entries: if and only if an original entry, trimmed, is it ignoring case |
| Owners.OwnerAllowed | internal/httpapi/handlers/webhook.go:390-432 | admits the App owner, resolved and saved once if it is not on file, or a listed owner; nobody when the repository has no owner, or when the App owner does not match and the list cannot be read |
| Owners.OwnerEndsAtSlash | internal/httpapi/handlers/webhook.go:378-384 | the owner of a full name is what stands before its first slash, and empty without one |
| Owners.SplitCuts | internal/httpapi/handlers/access.go:30-38 | splitting cuts at every comma and nowhere else: the pieces joined are the string |
| Owners.TrimCuts | internal/httpapi/handlers/access.go:30-38 | trimming cuts exactly the white space at both ends |
| Owners.SameMeans | internal/httpapi/handlers/webhook.go:413-431 | equal ignoring case: the same letters up to the case of A to Z |
| Slots.DB.AssignFreeSlot | gharp-portal/internal/store/sqlite.go:365-382 | binds the least free id or, whichever statement fails, restores the old state exactly |
| Slots.DB.AssignSlot | gharp-portal/internal/store/sqlite.go:388-398 | releases and binds, or restores the old state exactly |
| Slots.Reassigned | gharp-portal/internal/store/sqlite.go:388-437 | a reassignment moves the binding: the new slot assigned, the user's old one free, every other slot and all settings as they were, the gharp stopped |
| Slots.DB.DoAssign | gharp-portal/internal/store/sqlite.go:420-437 | insert, mark, commit, or roll back |
| Slots.DB.FindFree | gharp-portal/internal/store/sqlite.go:372-379 | the least id with status free |
| Slots.DB.UpsertSlot | gharp-portal/internal/store/sqlite.go:332-357 | settings rewritten, status of an existing slot kept |
| Slots.ParseFile | gharp-portal/internal/slots/loader.go:34-76 | accepts exactly non-empty lists of valid entries with distinct ids; a zero max_runners becomes 4 |
| Slots.DB.LoadRegistry | gharp-portal/internal/slots/loader.go:107-118 | upserts up to the first failure, and nothing of an invalid file |
| SlotSafety.AlwaysConsistent | gharp-portal/internal/store/sqlite.go:332-437 | after any run a slot is assigned if and only if exactly one assignment names it, and assigned slots and assignments are equal in number |
| SlotSafety.AssignSucceedsWhen | gharp-portal/internal/slots/assign.go:27-35 | an explicit assignment succeeds if and only if user and slot exist and nobody else holds the slot |
| SlotSafety.FreeSucceedsWhen | gharp-portal/internal/slots/assign.go:17-25 | a free assignment succeeds if and only if a slot is free and the user has none |
| SlotSafety.FirstComeFirstServed | gharp-portal/internal/store/sqlite.go:361-382 | from m free slots k distinct users get exactly min(k, m), the first askers, on distinct slots in increasing order of id |
| SlotSafety.ReloadForm | gharp-portal/internal/store/sqlite.go:327-357 | a reload changes no assignment and no existing status, adds free slots, and installs the file's settings |
| SlotSafety.ReloadIsIdempotent | gharp-portal/internal/slots/loader.go:104-118 | loading the same file again changes nothing |
| SlotSafety.DisabledUntilTaken | gharp-portal/internal/store/sqlite.go:384-437 | a disabled slot stays disabled through an operation if and only if it is not an explicit assignment of it to an existing user |
| SlotSafety.DisabledComesBackFree | gharp-portal/internal/store/sqlite.go:400-437 | two explicit assignments turn a disabled slot free |
| OAuthStates.EvictionIsInvisible | gharp-portal/internal/auth/state.go:22-51 | with a clock that does not go back every claim is answered as by a never-evicting table: yes exactly if put, unclaimed since, and within its lifetime |
| OAuthStates.SingleUse | gharp-portal/internal/auth/state.go:36-51 | over any history grants of a token never exceed its puts |
| OAuthStates.BackwardClockShows | gharp-portal/internal/auth/state.go:27-32 | the clock hypothesis is needed |
| OAuthStates.OAuthStates.Put | gharp-portal/internal/auth/state.go:23-34 | the eviction loop and the insert |
| OAuthStates.OAuthStates.Claim | gharp-portal/internal/auth/state.go:39-51 | consumes the token, expired or not |

## Left out

- StaleSweep.Sweeper.SweepStaleInProgressJobs: takes ListJobs' answer as a parameter that is the first 500 in_progress rows in order, instead of modelling the query builder.
- Convergence.Converges: one fault-free round; liveness under a GitHub that fails for ever, or an unfair scheduler, is not modelled.
- OrphanSafety.OrphanSweepIsSafe: the freshness of minted names is a hypothesis, as the random suffix is not modelled.
- Owners.AdmitsExactly: folds case as in ASCII, where GitHub's logins live; beyond it strings.ToLower and strings.EqualFold disagree (U+0130 lower-cases to i but does not fold to it).
- Owners.AdmitsOriginals: the same.
- Owners.OwnerAllowed: the same.
- Owners.NormalizeOwners: the same.
- Owners.NormalIsClean: the same.
- Owners.NormalCovers: the same.
- Owners.NormalFirst: the same.
- Owners.SameMeans: the same.
- Admission.LabelsMatch: lower-cases as in ASCII.
- Admission.PublicRepoAllowed: lower-cases as in ASCII.
- Handlers.WebhookHandler.HandleWorkflowJob: lower-cases and folds as in ASCII.
- Dispatch.Scheduler.RunWithDrain: what happens between rounds is a script; a timer armed after the moment stopPendingTimers swaps the set (the original's AfterFunc race) is not modelled.
- Pagination.ListRepoRunners: cancellation is a number of requests; paging inside the GitHub sweep is one atomic answer there.
- Columns nobody in the modelled code reads: run ids, payload, job and workflow names, account data, action; CHECK constraints on text columns.
- App JWT, PEM, installation and registration tokens: one mint that succeeds or fails; app-config reads are part of it.
- Integer widths and time.Duration overflow: clocks and back-offs are unbounded integers.
- Docker, the launcher and workdir cleanup: docker is a map from name to creation time that others may grow and shrink.
- The maintenance command, notifications, metrics, dashboard, portal lifecycle polling, sessions, HTTP and JSON plumbing, environment configuration: thin or input and output.
- Slots: settings columns are copied, not interpreted; YAML decoding is not modelled; created_at and assigned_at are dropped.
