# Verified model of the AI edge control plane

This project models, in Dafny, the stateful parts of the control plane and of the edge agent, and proves what
every run of their interleaved steps keeps. `dafny verify dfyconfig.toml` checks all of it.

Each database transaction is one function from tables to tables (`...Tx`), and one atomic step: `WithTx` runs
at the serializable level and rolls back on any error (internal/store/db.go:78-92). Beside it stands the
program's own form: a class whose methods change the tables statement by statement, may be stopped by a fault at
any statement or at the commit, roll back, and are proved against that function. Protocols are state machines
over these functions: `Do` is one step, `Run` any sequence of steps, and the theorems speak of `Run` for all
sequences. Answers that a database may give in several ways (row order among ties, `SKIP LOCKED`, new keys)
and all failures are parameters.

| file | content |
|---|---|
| wrappers.dfy | Option, Result, Distinct |
| task_tables.dfy | `tasks`, `task_runs`, `task_events`, and the transactions on them |
| task_invariants.dfy | what each transaction keeps: connected logs, numbered runs, rows never pullable again |
| task_store.dfy | the task store and gateway methods as the program runs them; accounting of a regional push |
| task_runner.dfy | the agent: dedup set, goroutines, pending files, crash and restart |
| task_protocol.dfy | gateways, control plane and agents together, and the theorems about every run |
| task_outcomes.dfy | agents are told what the rows say, and say what their executions did |
| task_replay.dfy | when replaying a reported result changes nothing |
| onboarding.dfy | tokens, nodes, identities; bootstrap, the two halves of a renewal, revocation |
| onboarding_history.dfy | every interleaving of these: conservation, finality of revocation, renewal spacing |
| identity_cache.dfy | the gateway's identity cache with loads that race events |
| rollout.dfy | the rollout checker |
| deployment.dfy | the deployment controller's and service's transactions, and the object that runs them |
| deployment_history.dfy | many controllers acting on stale rows: one fan-out, sound phases |
| ranking.dfy | the n highest-scored keys of a table |
| lru_cache.dfy | the gateway's cache metadata against "the K most recently touched" |
| downloads.dfy | partial and finished files over any interleaving of attempts and prunings |
| downloader.dfy | the agent's downloader as the program runs it, refining downloads.dfy |
| paging.dfy | paged listing of tasks |

## Where the code and its documentation, or an expected property, part ways

The model follows the code. For each of the first six points the exact condition under which the property holds is
proved; the last three are facts of the code that contracts or theorems state.

- README-ARCH.md:1725 calls result reports idempotent. A report of Failed whose reply is lost, then a cancel, then the
  agent's replay of the same report turn the row from Cancelled back to Failed: `TaskReplay.ReplayUndoesCancel` and
  `TaskReplay.CancelIsUndone`. `TaskReplay.ReplayIsIdempotentIff` proves for every reachable state that a replay of the
  last report leaves the rows alone exactly when that report is still the task's newest event, that is, unless a report
  of Failed has been cancelled since. In either case the replay adds a run and an event.
- README-ARCH.md:1226 promises that a revocation works from the next request once its event has arrived, or a cache
  TTL later. A load that read the row before the revocation can put the entry back after either:
  `IdentityCache.EventIsFinalIffNoneInFlight` and `IdentityCache.RefusedWithinTtl` prove that the promise holds exactly
  when no such load is under way, and `IdentityCache.DeadAndUnderLoad` is a run from empty tables in which one is.
- Page sizes above 100 are honoured by the page token but not by the store: `Paging.PagingIsComplete` gives the exact
  condition for a walk over all pages to show the list.
- Two model names that differ only in "/" and "_" share a directory, so one download can be resumed as the other:
  `Downloads.CompletedIffCompatible` gives the exact condition. `artifacts` there is what the server answers to the
  request for a name and version. The gateway splits the path after its first "/" (internal/gateway/artifacts.go:181-193),
  so it answers a request for "a/b" at "1.0" with the registered artifact "a" at "b/1.0". With this gateway the
  collision is real when the registry holds "a_b" at "1.0" and "a" at "b/1.0", their bytes differ early enough, and one
  agent is asked for "a_b" and for "a/b", both at "1.0".
- A download that stopped between its last byte and its rename asks for a range past the end.
  `Downloads.CompletableIff` proves when a download can still be completed without pruning its directory: exactly when
  an artifact of the directory is longer than the partial file, or the partial file is empty, or the server ignores
  ranges. `Downloads.FullPartIsNeverCompleted` is the run that ends in a full partial file.
- The unique index on live serials has no exception for the empty serial, which the bootstrap's own check has
  (internal/onboarding/bootstrap_service.go:65-79): with everything else in order a bootstrap succeeds exactly when no
  live identity has its serial, even the empty one (`Onboarding.BootstrapIffSerialFree`), so a second node without a
  serial is refused while the first is live (`Onboarding.SecondNodeWithoutSerial`).
- PullTasks logs every delivery as leaving Pending (internal/gateway/agent_service.go:140) although it also selects
  Retrying. The log is right only because no reachable row is Retrying: `TaskProtocol.LogsAreFaithful`.
- A task that does not exist is an Internal error to a reporting agent, because the error of the lookup is not mapped:
  the error clause of `TaskStore.TaskDatabase.ReportTaskResult`.
- ReportTaskResult takes a result whatever the task's status, so terminal statuses are not absorbing;
  `TaskReplay.ReplayUndoesCancel` is such a case.

## Model

| member | source | states |
|---|---|---|
| TaskTables.PullLimit | internal/gateway/agent_service.go:82-88 | a pull asks for between 1 and 100 rows whatever the request says |
| TaskTables.PullExactly | internal/gateway/agent_service.go:113-150 | a pull delivers exactly the rows of its answer, each once, and logs exactly one event for each, in order; all other rows stay |
| TaskTables.AddChildrenExactly | internal/deployment/controller.go:218-235 | a fan-out adds one child per node under fresh distinct keys, and nothing else |
| TaskInvariants.LatestAttemptCounts | internal/task/store.go:396-406 | the highest attempt number of a task equals the number of its runs |
| TaskInvariants.CreateKeeps | internal/task/service.go:38-103 | creation keeps connected logs, numbered runs and the match of log and row |
| TaskInvariants.CancelKeeps | internal/task/service.go:177-215 | so does a cancel |
| TaskInvariants.ExpandKeeps | internal/gateway/dispatcher.go:116-159 | so does a gateway's expand, claim and deliver |
| TaskInvariants.DeliverKeeps | internal/gateway/agent_service.go:113-150 | so does a pull, though its event always says "from Pending" |
| TaskInvariants.ReportKeeps | internal/gateway/agent_service.go:185-219 | so does a report: its run gets the next number and its event starts at the row's status |
| TaskInvariants.FanOutKeeps | internal/deployment/controller.go:198-238 | so does the controller's fan-out |
| TaskInvariants.ReplayOfLastRun | internal/gateway/agent_service.go:185-219 | reporting a task's last run again writes that run's status and result into the row, and adds one run, numbered next, and one event |
| TaskInvariants.CancelSucceedsIff | internal/task/state_machine.go:55-107 | the two guards of a cancel agree: it succeeds exactly on rows that are Pending, Dispatching, Running, Failed or Retrying |
| TaskTables.TerminalIffNoWayOut | internal/task/state_machine.go:55-107 | the terminal statuses are exactly those no transition leaves, and every other can be cancelled |
| TaskTables.TransitionsExactly | internal/task/state_machine.go:63-102 | apart from cancels, which transitions are allowed |
| TaskInvariants.FanOutAdvances | internal/deployment/controller.go:198-238 | a fan-out leaves every earlier row's origin alone, makes none pullable again, and rewrites no log |
| TaskStore.ReportsNeverReopen | internal/gateway/agent_service.go:264-279 | no spelling of a reported status is Pending or Retrying |
| TaskStore.AgentWordsNormalize | internal/gateway/agent_service.go:264-279 | case and surrounding space do not matter, and the agent's own words are understood |
| TaskStore.CaseDoesNotMatter | internal/gateway/agent_service.go:264-279 | a spelling with some letters capital is read as the word |
| TaskStore.SpellingsExactly | internal/gateway/agent_service.go:264-279 | which spelling is accepted for which status, and that no other is |
| TaskStore.PushAccounting | internal/gateway/dispatcher.go:85-104 | after a push the new rows and events are one Delivered child with its lease and one expanded event for each committed share; failed shares leave nothing |
| TaskStore.CommittedAreShares | internal/gateway/dispatcher.go:86-92 | only shares of the push that did not fail are counted |
| TaskStore.TaskDatabase.UpdateStatus | internal/task/store.go:198-221 | compare-and-set: succeeds exactly when the row is still at the expected status, logs the change, and touches nothing when the compare fails |
| TaskStore.TaskDatabase.AtomicClaim | internal/task/store.go:225-248 | wins exactly on unclaimed rows and rows whose lease has expired, a NULL expiry never counting as expired; the winner's name and expiry are in the row and nothing else changes |
| TaskStore.TaskDatabase.MarkDelivered | internal/task/store.go:251-266 | succeeds exactly on claimed rows |
| TaskStore.TaskDatabase.UpdateResult | internal/task/store.go:269-287 | sets status, result and retry count of one row without looking at its status |
| TaskStore.TaskDatabase.CreateTask | internal/task/service.go:38-103 | a created row holds every field of the request with the defaults 3 and 600, and one created event; any failure leaves the tables as they were |
| TaskStore.TaskDatabase.CancelTask | internal/task/service.go:177-215 | cancels exactly the rows that have not ended for good and logs the change from the old status; each error told apart; any failure leaves the tables as they were |
| TaskStore.TaskDatabase.PullTasks | internal/gateway/agent_service.go:74-159 | takes the oldest open rows of the node up to the limit; answers each with its own key, kind, payload and timeout; sets exactly those rows Running, Delivered and owned, with one event each; a fault at any statement undoes the whole loop |
| TaskStore.TaskDatabase.ReportTaskResult | internal/gateway/agent_service.go:161-228 | writes status and result into the row, one finished run numbered above all earlier ones of the task, and one event from the old status, only for the node the task belongs to; each error is told apart and changes nothing |
| TaskStore.TaskDatabase.ExpandAndClaim | internal/gateway/dispatcher.go:109-162 | commits one share or leaves nothing; a committed share has won its claim |
| TaskStore.TaskDatabase.PushRegionalTask | internal/gateway/dispatcher.go:61-105 | the loop commits exactly the shares that do not fail, and both counters equal their number |
| TaskRunner.NoTaskTwiceInOneProcess | internal/agent/task_runner.go:98-131 | under any redelivery and any crashes, the goroutines of a process have pairwise different tasks |
| TaskRunner.SavedTaskNeverReexecuted | internal/agent/task_runner.go:214-248 | a task with a readable pending file at start is never executed by that process |
| TaskRunner.FreshExactly | internal/agent/task_runner.go:111-117 | the tasks a response starts are its unmarked ones, each once |
| TaskRunner.AcceptsStartFresh | internal/agent/task_runner.go:111-117 | working off a response step by step starts exactly those and marks all of it |
| TaskRunner.TaskRunner.Poll | internal/agent/task_runner.go:98-118 | starts each task of the response that was not marked, once, and marks every task of the response and no other |
| TaskRunner.TaskRunner.ExecuteAndReport | internal/agent/task_runner.go:133-164 | saves and sends Failed with the error's text exactly when the executor failed, else Success, with the executor's result either way; the file goes only after an acknowledgement, and no other file changes |
| TaskRunner.TaskRunner.DrainPendingResults | internal/agent/task_runner.go:214-248 | sends the content of every file it can read, marks exactly those tasks, and removes exactly the files that were acknowledged and could be removed |
| TaskProtocol.TablesAdvance | internal/gateway/agent_service.go:124-132 | no step of the system writes Pending or Retrying back, changes a row's origin or rewrites a log |
| TaskProtocol.InvAlways | internal/store/db.go:78-92 | every run from empty tables keeps the tables', the leases' and the agents' invariants together |
| TaskProtocol.HandedOutAtMostOnce | internal/gateway/agent_service.go:91-153 | in every run each task is given out by a pull at most once, to the node it targets |
| TaskProtocol.ExecutedAtMostOnce | internal/agent/task_runner.go:98-131 | in every run each task is started at most once over all agents and all their restarts |
| TaskProtocol.NoSavedResultLost | internal/agent/task_runner.go:133-248 | in every state each result that reached the disk is committed in a finished run with its status, or its file is still there |
| TaskOutcomes.SavedResultsAreOutcomes | internal/agent/task_runner.go:142-155 | in every state a saved result and every committed run with it is Failed exactly when the task's one execution returned an error, and carries that execution's result |
| TaskOutcomes.OutcomesAlwaysKept | internal/agent/task_runner.go:133-164 | in every run each result an agent holds or has saved tells of an execution, and no task is executed twice |
| TaskOutcomes.InboxesAlwaysShowRows | internal/gateway/agent_service.go:144-149 | in every state each task in an agent's inbox has the kind, payload and timeout of its row |
| TaskProtocol.LogsAreFaithful | internal/gateway/agent_service.go:140-214 | in every state each task's log is a connected path to the row's status, and its runs are numbered 1 to the number of its reports |
| TaskProtocol.LeasesAreExclusive | internal/task/store.go:225-248 | in every run the lease windows of a task's won claims are disjoint and the row names the last winner, also after pulls |
| TaskProtocol.DeliveredWithoutLeaseStaysSo | internal/gateway/agent_service.go:124-132 | a row that a pull delivered without a lease can never be claimed later |
| TaskReplay.ReplayIsIdempotentIff | internal/agent/task_runner.go:214-248 | in every reachable state a replay of the last accepted result is accepted, and leaves the rows alone if and only if that report is still the task's newest event, that is, unless a report of Failed was cancelled since |
| TaskReplay.SettledAlways | internal/gateway/agent_service.go:185-219 | in every run a reported task shows its newest run, or a cancel has followed a report of Failed |
| TaskReplay.ReplayUndoesCancel | internal/task/store.go:269-287 | in any tables: Failed reported, cancelled, and Failed reported again leave the task Failed |
| TaskReplay.CancelIsUndone | internal/gateway/agent_service.go:185-219 | the same as a run of the protocol |
| Onboarding.BootstrapIffSerialFree | internal/onboarding/bootstrap_service.go:65-119 | with a usable token and fresh keys a bootstrap succeeds if and only if no live identity has its serial, the empty serial included |
| Onboarding.SecondNodeWithoutSerial | migrations/000003_create_edge_identities.up.sql:15-22 | after a node without a serial has bootstrapped, the next one is refused while the first is live |
| Onboarding.OnboardingDatabase.CreateToken | internal/onboarding/token_grpc.go:33-65 | a new token holds the gateway, the hash of its plain text, the requested uses or 10, none used, and an expiry after the requested lifetime or a day |
| Onboarding.OnboardingDatabase.SetTokenStatus | internal/onboarding/token_service.go:129-147 | sets the status of an existing token |
| Onboarding.OnboardingDatabase.ValidateAndConsume | internal/onboarding/token_service.go:83-126 | counts one use exactly when the token with this hash is Active, unexpired, not used up and of this gateway; each of the five refusals has exactly its own condition |
| Onboarding.OnboardingDatabase.Bootstrap | internal/onboarding/bootstrap_service.go:52-133 | joins exactly when the token is usable, the request is signed, and key, node, fingerprint and live serial are free; adds one use, one Active node and one identity with the certificate; a failure at any statement changes nothing |
| Onboarding.OnboardingDatabase.RenewRead | internal/onboarding/bootstrap_service.go:150-173 | lets through an Active identity of the node within the threshold; refuses as revoked exactly when none is Active, and as too early only an Active one |
| Onboarding.OnboardingDatabase.RenewWrite | internal/onboarding/bootstrap_service.go:181-189 | a fresh certificate is always written, by key alone and also on a revoked row; a fingerprint in use elsewhere is refused |
| Onboarding.OnboardingDatabase.RevokeNode | internal/onboarding/bootstrap_service.go:199-231 | succeeds exactly when the node has an identity that is not revoked, and then revokes the node's identities and the node and nothing else |
| OnboardingHistory.UsesAreNodesAreIdentities | internal/onboarding/bootstrap_service.go:58-128 | in every run each gateway's used counts sum to its number of nodes and to its number of identities, and no count exceeds its limit |
| OnboardingHistory.InactiveTokenIsNeverUsed | internal/onboarding/token_service.go:98-105 | a frozen or revoked token keeps its count in every continuation |
| OnboardingHistory.ExpiredTokenIsNeverUsed | internal/onboarding/token_service.go:108-110 | an expired token keeps its count in every continuation |
| OnboardingHistory.OneIdentityPerNode | internal/onboarding/bootstrap_service.go:65-119 | in every run a serial has at most one live identity, and each node exactly one identity, at its gateway and revoked exactly when it is |
| OnboardingHistory.RevokedForever | internal/onboarding/bootstrap_service.go:199-231 | a revoked identity stays revoked in every continuation |
| OnboardingHistory.RevokedCertificatesAreDead | internal/gateway/identity_cache.go:65-78 | no fingerprint ever written to a revoked identity is answered by a load, now or after any further step (with DeadStays) |
| OnboardingHistory.DeadStays | internal/gateway/identity_cache.go:65-78 | a fingerprint no load can answer stays so under every step |
| OnboardingHistory.ReplacedCertificateIsDead | internal/onboarding/bootstrap_service.go:181-189 | a renewal kills the certificate it replaces |
| OnboardingHistory.RevocationBeatsRenewal | internal/onboarding/bootstrap_service.go:150-231 | also a fingerprint that a renewal wrote after the revocation it raced is never answered |
| OnboardingHistory.RenewalSpacing | internal/onboarding/bootstrap_service.go:155-187 | non-overlapping renewals strictly move the expiry forward, and n of them take at least n times validity less threshold |
| OnboardingHistory.TimesIsProduct | internal/onboarding/bootstrap_service.go:169-172 | the sum in which the spacing is stated is the product of the number of renewals and the gap |
| OnboardingHistory.StepsAddUp | internal/onboarding/bootstrap_service.go:155-187 | consecutive gaps of at least d add up to n times d |
| IdentityCache.AnswersWereTrue | internal/gateway/identity_cache.go:53-92 | every answer names a row that was Active with that fingerprint in some state of the run; a cached one within the TTL |
| IdentityCache.RefusedWithinTtl | internal/gateway/identity_cache.go:53-115 | in every run from an empty cache a dead fingerprint is refused from a TTL later on, and at once where its entry is gone, if and only if no load that read it as Active is under way |
| IdentityCache.DeadAndUnderLoad | internal/gateway/identity_cache.go:65-91 | a run from empty tables ends with a revoked fingerprint whose old row a load is still holding |
| IdentityCache.EventIsFinalIffNoneInFlight | internal/gateway/identity_cache.go:96-108 | an event takes effect for good if and only if no load that read the old row is under way |
| IdentityCache.EntriesStayBounded | internal/gateway/identity_cache.go:80-89 | in every run no entry outlives the clock by more than the TTL |
| IdentityCache.Cache.Lookup | internal/gateway/identity_cache.go:53-92 | answers from an unexpired entry, else from the table; an Active row is stored with its node, gateway and expiry, and a missing one deletes the entry |
| IdentityCache.Cache.HandleIdentityEvent | internal/gateway/identity_cache.go:96-108 | after a revocation, suspension or renewal the entry is gone and every other is as it was; any other event changes nothing |
| IdentityCache.Cache.RefreshIdentities | internal/gateway/autonomy.go:181-188 | leaves no entry |
| Rollout.CanProceedExactly | internal/deployment/rollout.go:18-52 | the batches allowed are exactly those that keep the unavailable nodes within the limit and the total within the desired |
| Rollout.CompleteRefuses | internal/deployment/rollout.go:18-62 | a complete deployment gets no further batch |
| Rollout.MalformedRefuses | internal/deployment/rollout.go:18-68 | a status that does not decode counts as Failed, is not complete and starts nothing |
| Deployment.ResolveRuntime | internal/deployment/controller.go:149-186 | "auto" becomes the runtime of the first profile that decodes and applies, else the default |
| Deployment.UpsertMovesOneNode | internal/deployment/store.go:353-381 | a runtime report changes each count by exactly its own node's move |
| Deployment.StoredPhaseIsSound | internal/deployment/controller.go:121-138 | what a reconcile stores past Pending is what the rollout checker suggests from the stored counts, and is complete exactly when not rolling out |
| Deployment.OtherPhasesAreFixed | internal/deployment/controller.go:104-138 | any phase but Pending and RollingOut is left as it is, with its counts |
| Deployment.DeploymentDatabase.CreateDeploymentTask | internal/deployment/controller.go:198-238 | inserts the parent and one child per node, each with the deployment, the model, its version, the resolved runtime and the action, or fails |
| Deployment.DeploymentDatabase.ReconcileOne | internal/deployment/controller.go:83-144 | ready and failed are the numbers of Running and Failed states of the listed model and version; a row that is or starts rolling out stores them and is Active exactly when at least the desired number are Running; a Pending row with nodes fans out; any other row stays; a fault anywhere changes nothing |
| Deployment.DeploymentDatabase.CreateDeployment | internal/deployment/service.go:48-95 | a new deployment holds the requested model, target, runtime or auto, and limit or 1, and is Pending with zero counts |
| Deployment.DeploymentDatabase.UpdateDeployment | internal/deployment/service.go:164-213 | an edit sets the requested runtime, limit and phase and keeps the counts, the model and the target; a fault changes nothing |
| Deployment.DeploymentDatabase.UpdateDeploymentStatus | internal/deployment/store.go:250-265 | replaces the status of an existing row |
| DeploymentHistory.OneParentPerFanOut | internal/deployment/controller.go:83-144 | in every run a deployment has exactly as many parent tasks as reconcile commits took it out of Pending |
| DeploymentHistory.FansOutOnce | internal/deployment/controller.go:104-119 | unless an operator sets Pending again: at most one parent, and as many children as desired nodes, one per distinct node, for the deployment's model, all under that parent |
| DeploymentHistory.PhasesAreSound | internal/deployment/rollout.go:55-78 | without phase edits every stored phase past Pending agrees with the rollout checker in every state |
| DeploymentHistory.PhasesMoveForward | internal/deployment/controller.go:104-138 | without phase edits phases only move forward over any stretch of any run |
| DeploymentHistory.ReconcileMovesForward | internal/deployment/controller.go:99-143 | whatever operators did, a reconcile moves only its own deployment, only forward, and not at all once Active, Failed or Paused |
| DeploymentHistory.ProtocolIsTraffic | internal/gateway/dispatcher.go:116-159 | every step of the task protocol other than a fan-out is traffic that leaves the controller's tasks alone |
| Ranking.TopOfListing | internal/gateway/cache.go:62-71 | without ties the top keys are the first of a sorted listing |
| LruCache.MostRecentAreCached | internal/gateway/cache.go:46-77 | at every point of every trace each gateway has its K most recently touched keys with their true touch times, and right after its evict exactly those |
| LruCache.EvictExactly | internal/gateway/cache.go:62-77 | an evict leaves exactly the K most recently touched keys of the whole trace and no other gateway's entry changes |
| LruCache.OthersUntouched | internal/gateway/cache.go:62-77 | an evict touches no other gateway's entries |
| LruCache.CacheStore.TouchEntry | internal/gateway/cache.go:46-58 | upserts the access time and keeps the rest of an existing row |
| LruCache.CacheStore.EvictLru | internal/gateway/cache.go:62-77 | keeps the gateway's first K rows of the listing and all rows of other gateways, and returns how many rows went |
| Downloads.CompletedIffCompatible | internal/agent/downloader.go:108-161 | every completed download of every run is the artifact asked for if and only if artifacts sharing a directory agree wherever one can be resumed as the other |
| Downloads.PartIsPrefix | internal/agent/downloader.go:108-161 | in every state the partial file of a copying attempt is exactly the artifact's bytes received so far |
| Downloads.InvAlways | internal/agent/downloader.go:67-207 | over any interleaving of attempts, interruptions and prunings every partial file is a prefix of an artifact of its directory and every finished file one whole artifact |
| Downloads.MixedFile | internal/agent/downloader.go:210-216 | a run that leaves the head of one artifact followed by the tail of another |
| Downloads.ModelDirsCollideIff | internal/agent/downloader.go:210-216 | two artifacts share a directory exactly when they have one version and names that differ only in "/" and "_" |
| Downloads.CompletableIff | internal/agent/downloader.go:108-161 | from any state between attempts some run without pruning completes a download into a directory if and only if one of its artifacts is longer than the partial file, the partial file is empty or missing, or the server ignores ranges |
| Downloads.OwnDirectoryCompletableIff | internal/agent/downloader.go:111-138 | for an artifact with its own directory: if and only if the server ignores ranges or the partial file lacks a byte |
| Downloads.FullPartIsNeverCompleted | internal/agent/downloader.go:111-161 | an attempt that stops between its last byte and its rename reaches a state from which no run without pruning completes |
| Downloads.StuckStaysStuck | internal/agent/downloader.go:130-138 | a full partial file stays as it is under every run without pruning |
| Downloads.OwnDirectoriesAreExact | internal/agent/downloader.go:210-216 | where no two artifacts share a directory every completed download is exact |
| Downloader.Downloader.DownloadWithResume | internal/agent/downloader.go:108-161 | every attempt, wherever it fails, is a run of the steps above; on success the file is the artifact, on failure the old file is kept |
| Downloader.Downloader.CopyBody | internal/agent/downloader.go:152-155 | the copying loop appends the body as it is read |
| Downloader.Downloader.PruneOldVersions | internal/agent/downloader.go:165-207 | exactly the most recently modified versions stay, and those that cannot be removed |
| Downloader.Downloader.Download | internal/agent/downloader.go:67-105 | a result carries the digest and size of the file, equal to the expected digest; the version survives its own pruning when its directory is the latest modified; a mismatch leaves no file; other models are untouched |
| Paging.ListTasks | internal/task/store.go:119-194 | the reading loop returns the window of the listing under the store's own limit, and the total |
| Paging.ListTasksPage | internal/task/service.go:122-174 | a page of the requested size or 20, cut to 20 rows above 100, with the total and the next offset; a negative offset is an error |
| Paging.PagingIsComplete | internal/task/service.go:126-171 | following the tokens shows exactly the listing if and only if the page size is at most 100 or there are at most 20 rows |
| Paging.EveryMatchOnce | internal/task/store.go:119-194 | for page sizes up to 100 every row that matches the filter is shown exactly once, newest first |

## Left out

- TaskDatabase: `updated_at`, the idempotency key and event details are not stored; the run table stands for its finish times by one flag.
- ReportTaskResult: a result is stored as it is reported; that an empty one is stored as `{}`, and one that is not JSON is wrapped, is not modelled.
- NoSavedResultLost: a pending file that was written whole is assumed to survive a crash of the agent.
- PushRegionalTask: the 32-bit counters are unbounded.
- UpsertMovesOneNode: counts are per model name and version, as in the code, and say nothing about a deployment's own targets.
- OneParentPerFanOut: a client that creates a task itself and signs it "controller" is outside the traffic the theorem allows, since the code gives such a task no other mark.
- RevokeNode: its audit insert names an identity where migrations/000007_create_task_events.up.sql requires a task. The code ignores that error; a database that enforces the constraint would refuse the commit of every revocation, which is a commit fault here, and the revocation theorems are about those that commit.
- RenewalSpacing: renewals of one node that overlap are excluded; the code does not prevent them.
- LeasesAreExclusive: one nondecreasing clock is shared by gateways and database.
- MostRecentAreCached: touches have distinct times and the threshold is fixed over the trace.
- CompletedIffCompatible: one attempt at a time per directory, removal of a directory in one step, and path cleaning of names and versions is not modelled; a crash loses no written bytes.
- EveryMatchOnce: the table is fixed while a client pages through it, and rows of equal age keep one order.
- Deployment listing and runtime-profile administration: the same paging again, and plain inserts and deletes.
- The rollout checker is called by no modelled step; it is compared with what reconciles store.
- Retry scheduling and idempotency-key lookup: no modelled step calls them.
- Liveness: a task delivered to an agent that crashes before starting it stays Running; only safety is proved.
- Cryptography: digests are an injective type, and the signer returns fresh fingerprints.
- Identity status Suspended is in the tables but no modelled step writes it.
- Text form of tokens, JSON and SQL, transports, heartbeats, metrics, connectivity probing, external runtimes and the updater.
