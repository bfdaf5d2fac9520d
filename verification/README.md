# Offline-resilient command pipeline: a verified model

A relay keeps commands for a device and hands them over when the device's agent is connected. The
agent stores each command in a durable local queue, claims, executes and retries it, and survives
crashes. Results travel back over a link that loses, repeats and reorders messages, with
acknowledgements and a resynchronisation on reconnection. This project models those parts in Dafny
and proves what every step, every interleaving and every run keeps.

`dafny verify dfyconfig.toml` checks the whole project.

## How it is organised

| file | what it models |
|---|---|
| `Ordering.dfy` | `ORDER BY CreatedAt, CommandId`: byte-wise text order, sorted listings, sub-sequences |
| `AgentDb.dfy`, `AgentStore.dfy` | the agent's tables as a value with the effect of each store call; the open database as a class |
| `AgentWorker.dfy` | `RunOnce`, the drain loop, startup recovery, and the reference program they refine |
| `AgentRuns.dfy` | every run of one agent: worker, handlers, wake channel, store errors, crashes, restarts |
| `NetClient.dfy` | handlers of relay messages, the reconnection sync, progress of repeated syncs |
| `RelayDb.dfy`, `RelayStore.dfy` | the relay's tables as a value; the open database and the SYNC_REQ handler as a class |
| `Outbox.dfy`, `Flush.dfy` | the 64-slot outbox that drops when full; flushing pending commands through it |
| `Registry.dfy`, `Hub.dfy` | the registry of live connections, as a value over its history and as a class |
| `HubRuns.dfy` | concurrent enqueue, authenticate-and-flush, sync and disconnect handlers |
| `Protocol.dfy` | agent and relay composed over the lossy link; what an acknowledgement means |
| `Delivery.dfy` | commands on their way: replies list the queue, and the agent gets what was enqueued |
| `Receipts.dfy`, `Progress.dfy` | what a sync acknowledges; from every reachable state a few undisturbed reconnections bring both sides up to date |
| `Authenticity.dfy` | whatever the relay shows goes back to a result the agent saved, or to its own decision |
| `Agreement.dfy`, `Disagreement.dfy` | when the two statuses of a command agree; runs after which they do not |
| `Liveness.dfy`, `FileCache.dfy`, `Utf16.dfy` | heartbeat tracker, offline file cache, UTF-16LE encoder |

State that the source changes in place is a class whose methods are proved against functions on the
table contents (`AgentDb`, `RelayDb`, `Registry`). Concurrency is a state machine over those same
functions: one action is one store call, one lock section or one channel operation, so handlers may
interleave between any two of them; a run is any sequence of actions, and an action that is not
possible leaves the state unchanged. The worker's endless `Run` loop is such a machine (phases
`Draining`, `Holding`, `Deciding`, `Parked`, `Down`); `StepsAreRunOnce` ties its steps to the `RunOnce` method.

## Assumptions

- Each store call is one atomic step (one open connection per database:
  agent/internal/store/store.go:83, internal/store/store.go:75); `ClaimNext` is a transaction.
- One agent process owns the queue. `Complete` and `Requeue` are unguarded, so two would interfere.
- `MaxAttempts` is a constant of at least 1 (agent/internal/config/config.go:46).
- The executor is an arbitrary function of command and attempt number. This loses nothing:
  `ClaimsAreNumbered` shows that no such pair is claimed twice.
- Generated ids are fresh. `SaveLeavesRow` says exactly what a collision would do.
- JSON text of a payload is a value that decodes or does not; messages are typed values.
- Device ids are compared exactly; the case-insensitive fallback lookup is an arbitrary choice.
- Messages between agent and relay may be lost, repeated, delayed and reordered at will.
- A connection may send AUTH any number of times while it lasts and ends once. The hub's calls panic on
  a closed outbox; `Hub` says exactly when, and the histories of `Registry` simply go on.

## What turned out not to hold

Each is proved with the input that breaks it and the exact condition under which it holds.

- **Registered implies open.** A connection that left stays registered, with a closed outbox, exactly
  when one of its AUTHs that nobody took over is not undone by unregistering: made under no device id,
  under an unknown role, or under another identity than its last one (`LeftBehindIff`; with a single
  AUTH, `OneAuthLeftBehindIff`; a shortest history: `LeftBehindHappens`). `BroadcastPanicsIff` says
  when the next broadcast meets one.
- **Dispatching is safe.** Enqueue and flush use the agent client after the lock is released. In every
  run from an idle hub such a send panics exactly when its connection has ended (`SendPanicsIff`):
  either since the lookup (`PanicHappens`) or before it, when the lookup meets a dead entry
  (`DeadEntryPanics`); `DirectSendPanicsIff` tells the two apart.
- **Replaying a sync is idempotent.** Exactly if each report that decides a row carries its execution
  time or is stamped with the same time again (`ReplayIdempotent`); one undated report is enough
  to break it (`UndatedReplayDiffers`).
- **The relay ends on the agent's status.** For a finished command the relay neither answers nor
  cancels itself, in every run of the protocol: if its saved attempts all succeeded or all failed, the
  two agree exactly when the relay has heard of any outcome and no recovery disowned a success
  (`UnmixedAgreesIff`); in general, exactly when the last report the relay stored has the same kind of
  exit code as the final attempt, a disowned success counting as a failure (`RunAgreesIff`). Two attempts of one second have no order in a batch
  (`SameSecondMayDisagree`). An acknowledgement of an early failed attempt also marks a later success
  as synced, so that no sync carries it; the relay then stays on FAILED unless the CMD_RESULT sent at
  once gets through (`EarlyAckHidesSuccess`).
- **A successful command ends COMPLETED.** A crash after saving the success of the last attempt turns
  it into FAILED (`CrashFailsASuccess`); a restart in that situation is the only step that does, and
  it always does (`DisownedIff`).
- **Acknowledged implies stored.** The relay acknowledges a CMD_RESULT even if storing it failed
  (`FailedSaveIsAcknowledged`); the first one of a command is stored exactly if its save succeeded
  (`AcknowledgedMeansStoredIff`), and `AckSoundness` accounts for exactly the commands whose save failed.
- **Synced means sent.** An acknowledgement marks every result of its command. `Round` says exactly
  which results a sync marks: also those of the batch's commands that were not in the batch;
  `EarlyAckHidesSuccess` reaches such a result. What fits into one batch is sent (`SyncCompletes`).
- **No lost wake-up.** A store error that ends a drain parks the worker on announced work without a
  token (`StoreErrorLosesWakeUp`), until the next poll (`WokenClaims`). No other step loses a wake-up, and this one
  does whenever work the worker ought to know of is claimable and no token waits (`WakeLostIff`).
- **The cache serves the latest answer.** The kind of a cached path is fixed by its first answer
  (`LookupIsLatestIff`, `FileHiddenByListing`).
- **Connected means ONLINE.** An AUTH between a tick's lookup and its write leaves the device stored as
  OFFLINE (`ReturnIsMissed`). `TickMisstatesIff` gives the condition; a tick during which the device
  stays connected puts it right (`ConnectedTickCorrects`).
- **Disconnected means OFFLINE.** The tick after an unregister puts a recently heard device back to
  ONLINE (`ThreeChangesHappen`); the device stays OFFLINE exactly if it was never heard from or its
  timeout has passed by the first tick (`StaysOfflineIff`).

Audit records of results are announced as immutable log entries (internal/hub/hub.go:450). They are
keyed by CommandId, so a later record of the same command is refused and its error ignored: the
table holds the first record under each id (`AuditKeepsFirst`).

## Model

| member | source | states |
|---|---|---|
| `Ordering.FindLeast` | agent/internal/store/store.go:175-182 | the scan finds the first row of the order |
| `Ordering.List` | internal/store/store.go:498-517 | the append loop yields the rows in increasing order |
| `Ordering.IncreasingUnique` | internal/store/store.go:498-503 | the order leaves no freedom: any increasing listing of the same rows is that one |
| `Ordering.SortedOldestFirst` | internal/store/store.go:498-503 | in a listing an earlier row is older, or as old with the lesser id |
| `Ordering.TextLtIff` | agent/internal/store/store.go:175-182 | ids are ordered by the first character in which they differ, a prefix first |
| `AgentStore.Store.EnqueueWithID` | agent/internal/store/store.go:146-162 | inserts a PENDING row with no attempts; an id already present changes nothing |
| `AgentStore.Store.ClaimNext` | agent/internal/store/store.go:164-206 | claims the least row in (CreatedAt, CommandId) order among the eligible ones, found by a scan, or nothing if there is none |
| `AgentDb.ClaimsOldest` | agent/internal/store/store.go:175-182 | no other claimable command is older than the claimed one, and none as old has a lesser id |
| `AgentStore.Store.Complete` | agent/internal/store/store.go:208-212 | sets the status of that row only, whatever it was |
| `AgentStore.Store.Requeue` | agent/internal/store/store.go:214-218 | sets that row back to PENDING and keeps its attempts and creation time |
| `AgentStore.Store.SaveResult` | agent/internal/store/store.go:220-236 | appends one unsynced row, refused when the command is unknown or the id is taken |
| `AgentDb.SavedIff` | agent/internal/store/store.go:220-236 | a result is taken if and only if its command is known and its id is new; it becomes the last row with missing id and time filled in |
| `AgentStore.Store.RecoverStale` | agent/internal/store/store.go:238-252 | every EXECUTING row becomes FAILED at the cap and PENDING below it; the count of rows changed is returned |
| `AgentStore.Store.MarkResultSynced` | agent/internal/store/store.go:354-358 | all results of the command, and no others, become synced |
| `AgentStore.Store.ListUnsyncedResults` | agent/internal/store/store.go:329-352 | distinct unsynced rows, as many as the limit allows, oldest first, none older left out |
| `AgentWorker.Worker.Wake` | agent/internal/worker/worker.go:44-50 | afterwards a token is in the slot |
| `AgentWorker.Worker.RunOnce` | agent/internal/worker/worker.go:56-123 | the whole new database, the two flags, the claim made and the result reported, on every path including each failing store call; saved and reported of a decodable command are the output, exit code and time of that very execution |
| `AgentWorker.AttemptKeys` | agent/internal/worker/worker.go:105-121 | one attempt leaves the claimable rows and their order as they were, or removes just the oldest |
| `AgentWorker.AttemptTrace` | agent/internal/worker/worker.go:105-121 | the claims still to come are this claim followed by those to come after it |
| `AgentWorker.OnceFaultless` | agent/internal/worker/worker.go:56-123 | without errors a RunOnce moves one row to its verdict and appends one result that holds, column by column, what the execution produced, or the complaint about the payload |
| `AgentWorker.Worker.Drain` | agent/cmd/terminal-agent/main.go:136-145 | refines the reference program: claims are the concatenation of each command's block in row order, final rows included; one saved result per claim, column by column what that attempt produced |
| `AgentWorker.Worker.RecoverAndDrain` | agent/cmd/terminal-agent/main.go:128-147 | at most the remaining attempts are executed; every command ends COMPLETED or FAILED if and only if none was PENDING at the cap |
| `AgentWorker.DrainedTerminal` | agent/cmd/terminal-agent/main.go:128-147 | per command: unfinished after recovery and drain exactly when it was PENDING with its attempts used up |
| `AgentWorker.TraceWithinBudget` | agent/internal/worker/worker.go:105-121 | the drain's length is bounded by the sum over non-terminal commands of the attempts left |
| `AgentRuns.AtMostMaxClaims` | agent/internal/store/store.go:148-252 | in every run a command is claimed at most MaxAttempts times |
| `AgentRuns.ClaimsAreNumbered` | agent/internal/store/store.go:190-205 | no attempt number of a command is ever claimed twice |
| `AgentRuns.TerminalForever` | agent/internal/worker/worker.go:56-123 | in every continuation a COMPLETED or FAILED row stays as it is and is not claimed again |
| `AgentRuns.ReachableRows` | agent/internal/worker/worker.go:57-121 | the reachable-state facts about attempts, results, COMPLETED, FAILED, and runs without crashes or errors |
| `AgentRuns.RunInv` | agent/internal/worker/worker.go:126-152 | every run keeps the invariant behind those facts |
| `AgentRuns.NoLostWakeUp` | agent/internal/worker/worker.go:125-152 | a worker parked after an uninterrupted drain has a token whenever a command is claimable that a handler stored before it called Wake, dispatched again meanwhile or not; likewise for any other command not enqueued locally or still in a handler's hands |
| `AgentRuns.StoreErrorLosesWakeUp` | agent/internal/worker/worker.go:135-139 | a run with failing claims parks on announced work without a token |
| `AgentRuns.WakeLostIff` | agent/internal/worker/worker.go:130-151 | a step loses a wake-up if and only if it is a store error ending the drain with such work claimable and no token; it stays lost until a poll, a crash, a Wake or a handler about to call it |
| `AgentRuns.WakeLostByError` | agent/internal/worker/worker.go:130-151 | in every run a wake-up lost at the end was lost by such an error and not revived since |
| `AgentRuns.WokenClaims` | agent/internal/worker/worker.go:131-150 | a parked worker that gets the poll or takes a token claims the oldest claimable command |
| `AgentRuns.RestartAndDrainFinishes` | agent/cmd/terminal-agent/main.go:128-147 | after any run, a restart with drain finishes every command within the attempts left |
| `AgentRuns.CrashFailsASuccess` | agent/internal/store/store.go:238-252 | a crash between saving a successful last attempt and completing it ends in FAILED |
| `AgentRuns.DisownedIff` | agent/internal/store/store.go:238-252 | in every reachable state, a step makes a command FAILED over a successful last result if and only if it is a recovery that meets it EXECUTING at the cap; no step undoes it |
| `AgentRuns.CrashForgets` | agent/internal/store/store.go:238-252 | a crash leaves nothing but the database |
| `AgentRuns.SyncedForever` | agent/internal/store/store.go:354-358 | in every run a saved result keeps its place and content, and Synced never goes back |
| `AgentRuns.ResultsAreOutcomes` | agent/internal/worker/worker.go:92-103 | in every run each saved result was written by one execution step and carries its output, exit code, time and id |
| `AgentRuns.StepsAreRunOnce` | agent/internal/worker/worker.go:56-123 | claim, save and finish in sequence have the effect of one RunOnce |
| `NetClient.Client.HandleDispatch` | agent/internal/netclient/client.go:213-225 | stores the command unless known, and leaves a wake token |
| `NetClient.Client.HandleSyncResp` | agent/internal/netclient/client.go:227-244 | acknowledges every listed command, stores every listed command at the time of its own call, wakes only when there was one |
| `NetClient.EnqueueAllRow` | agent/internal/store/store.go:146-162 | of a list, a known command keeps its row and a new one gets its first mention with that call's time |
| `NetClient.Client.HandleResultAck` | agent/internal/netclient/client.go:246-250 | marks the command's results only on success |
| `NetClient.Client.PerformSync` | agent/internal/netclient/client.go:389-414 | reports a batch of the oldest unsynced results, at most 50 |
| `NetClient.MarkAllAt` | agent/internal/store/store.go:354-358 | acknowledging changes only Synced, and only from 0 to 1 |
| `NetClient.BatchCleared` | agent/internal/netclient/client.go:227-234 | an acknowledged batch reduces the backlog by at least its size |
| `NetClient.SyncRound` | internal/hub/hub.go:486-505 | a lossless round through both stores clears min(50, n) results, unmarks none, and hands the relay's queue over with the text and time limit of its rows |
| `NetClient.SyncRounds` | agent/internal/netclient/client.go:389-414 | k lossless rounds leave at most max(0, n - 50k) results unsynced |
| `RelayStore.Store.EnqueueCommand` | internal/store/store.go:474-491 | a new id becomes PENDING as asked for; a duplicate is refused and changes no command |
| `RelayDb.EnqueuedFirst` | internal/store/store.go:474-491 | over every sequence of calls, a command has the device, text, time limit and creation time of the first enqueue under its id |
| `RelayStore.Store.GetPendingCommands` | internal/store/store.go:493-518 | exactly the PENDING commands of the device, in (CreatedAt, CommandId) order |
| `RelayStore.Store.CancelPendingCommands` | internal/store/store.go:520-532 | the loop over rows performs the single UPDATE |
| `RelayDb.CancelClears` | internal/store/store.go:520-532 | cancelling fails exactly the device's PENDING commands |
| `RelayStore.Store.MarkCommandDispatched` | internal/store/store.go:534-546 | only a PENDING command becomes DISPATCHED |
| `RelayStore.Store.MarkCommandCompleted` | internal/store/store.go:548-560 | sets the final status whatever the previous one was |
| `RelayStore.Store.SaveResult` | internal/store/store.go:617-649 | upserts the row under ResultId or CommandId and completes the command by its exit code |
| `RelayStore.Store.SaveSandboxResult` | internal/store/store.go:651-674 | the same upsert without touching the command |
| `RelayDb.SavedWhere` | internal/store/store.go:617-674 | a report goes under its own id, or under the command's if it has none, column by column; no other row changes; the command is COMPLETED on exit 0 in time and FAILED otherwise |
| `RelayDb.DistinctReportsKept` | internal/store/store.go:626-638 | reports with distinct new ids all get rows of their own and no row is lost |
| `RelayStore.Store.RecordAuditLog` | internal/store/store.go:734-747 | adds a record under a new id, otherwise changes nothing |
| `RelayStore.Store.HandleSyncReq` | internal/hub/hub.go:480-508 | saves the results in order, each with its own clock reading, acknowledges exactly those whose save succeeded, hands out the pending commands in order and leaves none PENDING |
| `RelayDb.KeptIff` | internal/hub/hub.go:486-494 | exactly the results whose save did not fail are kept |
| `RelayDb.MarkAllCommand` | internal/hub/hub.go:496-499 | marking a list moves exactly its PENDING commands, each at the time of its first mention |
| `RelayDb.SaveLeavesRow` | internal/store/store.go:629-638 | a saved report leaves a row for its command exactly when there was one or its key was free |
| `RelayDb.RunGrows` | internal/store/store.go:475-560 | over every sequence of store calls: status rank never goes down, rows keep their identity, audit records are never altered |
| `RelayDb.QuietOps` | internal/store/store.go:651-674 | sandbox results, audit records and duplicate enqueues change no command |
| `RelayDb.AuditKeepsFirst` | internal/store/store.go:735-747 | the audit table is the first record ever written under each id |
| `RelayDb.SaveAllCommand` | internal/hub/hub.go:486-494 | the last report about a command in a list decides its status |
| `RelayDb.SaveAllResult` | internal/store/store.go:618-638 | after a list, a result row has its first writer's owner and its last writer's data |
| `RelayDb.ReplayIdempotent` | internal/hub/hub.go:486-494 | with any clock readings, applying a list twice equals applying it once, up to receipt and completion times, if and only if every report that decides a row is dated or stamped alike both times |
| `RelayDb.UndatedReplayDiffers` | internal/store/store.go:618-638 | one undated report saved twice at different times changes the content |
| `RelayDb.HandOutClears` | internal/hub/hub.go:496-499 | marking the listed commands leaves the device no PENDING command |
| `Outbox.Box.Send` | internal/hub/hub.go:178-184 | keeps the message if there is room and drops it otherwise; never over 64, order kept |
| `Outbox.Box.Take` | internal/hub/hub.go:153-168 | takes the oldest message |
| `Outbox.FlushLeavesInOrder` | internal/hub/hub.go:560-577 | what gets through of a flush, among any other traffic and any drops, is in row order |
| `Flush.FlushPendingCommands` | internal/hub/hub.go:560-577 | without an agent nothing changes; otherwise offers all pending commands in row order, marks them all, leaves none PENDING, and among any concurrent senders and write-pump activity what gets through is in row order; nothing is lost when it fits and nobody else sends |
| `Hub.Hub.HandleWS` | internal/hub/hub.go:95-111 | a new connection has an open, empty outbox and is registered as nothing |
| `Hub.Hub.Send` | internal/hub/hub.go:178-184 | non-blocking send; panics on a closed channel |
| `Hub.Hub.BroadcastToControllers` | internal/hub/hub.go:614-620 | every controller is offered the message once; panics exactly if one of them has a closed channel |
| `Hub.Hub.HandleAuth` | internal/hub/hub.go:253-299 | on any open connection, authenticated or not: registers it and announces the device, or panics exactly when the announcement meets a closed channel; a clean AUTH keeps a safe registry safe and never panics |
| `Hub.Hub.Unregister` | internal/hub/hub.go:186-201 | whatever its AUTH was: leaves the registry, announces OFFLINE only for the registered connection, closes the open channel; panics exactly when the announcement meets a closed channel, never from a safe registry |
| `Registry.LeaveAnnounces` | internal/hub/hub.go:186-201 | the end of the connection registered for a device stores it OFFLINE and tells every controller with room, and nobody else; any other end is silent |
| `Registry.AuthAnnounces` | internal/hub/hub.go:262-299 | an agent's AUTH stores its device ONLINE and tells every controller with room, and nobody else |
| `Registry.StatusIsPresence` | internal/hub/hub.go:186-299 | in every history a device has a status just when an agent ever authenticated for it, ONLINE exactly while a connection is registered for it and OFFLINE otherwise |
| `Registry.AlwaysSafe` | internal/hub/hub.go:186-201 | in every history of clean AUTHs in which no connection changes its identity, everything registered has an open outbox of at most 64 messages |
| `Registry.LeftBehindIff` | internal/hub/hub.go:186-201 | in every history, a connection is registered with a closed outbox if and only if it left and an AUTH of it that nobody took over is not undone by its unregister |
| `Registry.OneAuthLeftBehindIff` | internal/hub/hub.go:190-200 | with one AUTH: if and only if it left and its role was unknown, or it was an agent under "" and no later AUTH took "" over |
| `Registry.LeftBehindHappens` | internal/hub/hub.go:190-200 | connect, AUTH as an agent under "" or under an unknown role, leave: still registered, outbox closed |
| `Registry.BroadcastPanicsIff` | internal/hub/hub.go:614-620 | in every history a broadcast meets a closed outbox if and only if someone left who had come as a non-agent and was not a "controller" in the end |
| `Registry.ClosedIff` | internal/hub/hub.go:200-200 | in every history an outbox is closed if and only if its connection has ended, and each connection ends once |
| `Registry.ControllersAre` | internal/hub/hub.go:197-199 | in every history the controllers are those who came as anything but an agent and did not leave as a "controller" |
| `Registry.ReauthenticationLeavesEntry` | internal/hub/hub.go:253-268 | a second AUTH under another device id leaves a dead entry |
| `Registry.LastAuthWins` | internal/hub/hub.go:262-299 | in every history a connection is registered for a device if and only if it made the device's last AUTH and has not left with that AUTH as its own last |
| `Registry.SteadyAuthWins` | internal/hub/hub.go:262-299 | when identities are clean and kept: if and only if it made the device's last AUTH and has not left |
| `Registry.LateUnregisterHarmless` | internal/hub/hub.go:190-196 | a replaced connection's unregister changes nothing but closing its own outbox |
| `HubRuns.NoStrandedCommand` | internal/hub/hub.go:386-439 | in every interleaving, once the flush of a registered agent has finished, no command is PENDING unless an enqueue is still at it |
| `HubRuns.StepCovered` | internal/hub/hub.go:560-577 | every step keeps each PENDING command in the hands of an enqueue or of the flush |
| `HubRuns.SendPanicsIff` | internal/hub/hub.go:392-396 | in every run from an idle hub, for every enqueue and flush about to send: the send panics if and only if its connection has ended |
| `HubRuns.DirectSendPanicsIff` | internal/hub/hub.go:566-573 | seen from the lookup: if and only if the connection had ended by then or has ended since |
| `HubRuns.PanicHappens` | internal/hub/hub.go:392-396 | a run from an idle hub in which the agent leaves between lookup and send ends in the panic |
| `HubRuns.DeadEntryPanics` | internal/hub/hub.go:190-200 | a run in which the lookup finds an entry left behind by a second AUTH, and the send panics with nothing in between |
| `HubRuns.SendsToOwner` | internal/hub/hub.go:544-577 | in every run each enqueue and flush sends a command to the agent that was looked up for that command's device |
| `HubRuns.SyncHandsOut` | internal/hub/hub.go:496-499 | in every interleaving, what waits for the device when a SYNC_REQ handler is about to read stays on its list until it is no longer PENDING |
| `HubRuns.OfflineSandboxed` | internal/hub/hub.go:424-439 | for an absent agent a custom command keeps its sandbox result and goes on waiting |
| `HubRuns.OfflineAnswered` | internal/hub/hub.go:400-421 | a predefined one is COMPLETED with its answer and exit 0; a clear-queue also fails the device's other waiting commands, and nothing else does |
| `Protocol.AtMostMaxExecutions` | agent/internal/netclient/client.go:211-250 | over the lossy link, at most MaxAttempts executions of any command |
| `Protocol.AckSoundness` | internal/hub/hub.go:441-472 | in every run, live reports of unsaved undecodable payloads included, a synced result's command has a result at the relay, or one whose save failed |
| `Protocol.AckSoundnessWithoutFaults` | internal/hub/hub.go:486-494 | with no failed save, the relay holds a result of every synced command |
| `Protocol.AcknowledgedMeansStoredIff` | internal/hub/hub.go:441-465 | the first CMD_RESULT of a command is acknowledged in any case, and the relay holds a result if and only if the save succeeded |
| `Authenticity.StatusIsAuthentic` | internal/store/store.go:617-649 | in every run COMPLETED means a saved exit 0 at the agent or a predefined answer; FAILED means a saved failure, an undecodable payload or a cancellation |
| `Authenticity.ResultsAreAuthentic` | internal/store/store.go:618-638 | in every run each result row at the relay is the device's and has exactly the content of a result the agent saved for that command, of the complaint about an undecodable payload, or of a result the cloud gave; under a saved result's id it is that result, with its time |
| `Progress.SyncCompletes` | agent/internal/netclient/client.go:389-414 | from every reachable state, one undisturbed reconnection per 50 unsynced results, and at least one: none is unsynced, what fits into one batch has a row of its own each, the relay holds a result of every command that has one unless it acknowledged one it failed to store, and no command waits at the relay: each has an outcome or is at the agent |
| `Progress.Round` | internal/hub/hub.go:480-508 | whatever else is under way, one undisturbed round clears min(50, n) results, each with a row of its own, marks exactly the results of the batch's commands, hands over the whole queue as its rows say and wakes the worker |
| `Receipts.SyncAckMeansOwnRow` | internal/hub/hub.go:486-494 | in every run each command a SYNC_RESP acknowledges has a saved result with a row of its own at the relay, under its id and with its content |
| `Delivery.RepliesAreQueues` | internal/hub/hub.go:496-505 | in every run a SYNC_RESP lists every command that was PENDING for the device when its handler read the queue, oldest first, each with its text and time limit |
| `Delivery.SentAsEnqueued` | internal/hub/hub.go:386-396 | in every run whatever message carries a command, it has the text and time limit of the enqueue that brought it in, and is no longer PENDING |
| `Delivery.DeliveredAsEnqueued` | agent/internal/netclient/client.go:213-244 | in every run a command the agent got from the relay has the text and time limit of that enqueue |
| `Delivery.RowsAreEnqueued` | internal/store/store.go:474-491 | in every run each command at the relay is what the enqueue that brought it in asked for |
| `Delivery.StepIsStoreCall` | internal/hub/hub.go:441-505 | every step of the protocol makes at most one store call at the relay |
| `Agreement.ShowsLastSaved` | internal/hub/hub.go:441-494 | in every run the relay shows of a command what the last report it stored about it says |
| `Agreement.RunAgreesIff` | internal/hub/hub.go:441-494 | in every run, crashes and store errors included, the two statuses of a finished command left to the agent agree if and only if that report matches the final attempt, a disowned success counting as a failure |
| `Agreement.UnmixedAgreesIff` | internal/hub/hub.go:441-494 | in every run, when its saved attempts all succeeded or all failed: if and only if the relay shows any outcome and no success was disowned |
| `Protocol.SaveStep` | internal/store/store.go:618-649 | storing a report from the wire leaves a row for its command and keeps the invariant |
| `Agreement.StatusAgreesIff` | internal/hub/hub.go:486-494 | after a batch the two statuses agree if and only if its last result matches the final attempt, a disowned success counting as a failure |
| `Agreement.StatusAgreement` | agent/internal/netclient/client.go:389-414 | they agree when the batch holds the final attempt after the earlier ones |
| `Disagreement.SameSecondMayDisagree` | agent/internal/store/store.go:334-336 | a run of the protocol with two attempts of one second ends COMPLETED at the agent, all synced, and FAILED at the relay |
| `Disagreement.EarlyAckHidesSuccess` | agent/internal/store/store.go:354-358 | a run in which an early failure is acknowledged after the success ends the same way while the success's CMD_RESULT is not taken; no sync carries the success, and taking that message makes the relay COMPLETED |
| `Disagreement.FailedSaveIsAcknowledged` | internal/hub/hub.go:447-472 | a run in which the save of a success fails, it is acknowledged, counts as synced, and the relay holds nothing of it |
| `Liveness.Tracker.Tick` | internal/hub/hub.go:640-674 | every device gets its classification; exactly the changed ones are announced |
| `Liveness.TicksGoDownhill` | internal/hub/hub.go:650-665 | a silent device only moves ONLINE, DEGRADED, OFFLINE, for any limits |
| `Liveness.Bands` | internal/hub/hub.go:650-665 | ONLINE below the first limit, DEGRADED from there, OFFLINE from the second limit on or if never heard from; ONLINE while connected |
| `Liveness.SilentDevice` | internal/hub/hub.go:650-674 | at most three changes from any stored status; OFFLINE for good after the timeout |
| `Liveness.ThreeChangesHappen` | internal/config/config.go:38-40 | with the default limits an OFFLINE device goes through three changes |
| `Liveness.StaysOfflineIff` | internal/hub/hub.go:650-674 | a device stored OFFLINE stays so over any run of ticks if and only if it was never heard from or its timeout has passed by the first tick |
| `Liveness.TickMisstatesIff` | internal/hub/hub.go:640-674 | whatever AUTHs, heartbeats and disconnects fall into a tick, it leaves a connected device not ONLINE if and only if its verdict is new and not ONLINE and the device is connected at the write |
| `Liveness.UndisturbedTick` | internal/hub/hub.go:640-674 | listing, lookup and write with nothing in between store the classification, as `Tick` does |
| `Liveness.HeardIsOnline` | internal/hub/hub.go:325-325 | a heartbeat makes the device ONLINE, connected or not, and a tick within the first limit leaves it so |
| `Liveness.ReturnIsMissed` | internal/hub/hub.go:646-668 | an AUTH between lookup and write ends with the device connected and stored OFFLINE |
| `Liveness.ConnectedTickCorrects` | internal/hub/hub.go:640-674 | a device connected since a listing is stored ONLINE once that tick is through |
| `FileCache.Cache.RouteToControllers` | internal/hub/hub.go:790-802 | caches non-empty answers with the table's upsert, column by column; empty ones and other places leave no trace |
| `FileCache.Cache.AnswerOffline` | internal/hub/hub.go:753-785 | serves a cached listing or file of the requested kind, else reports the agent offline |
| `FileCache.RowIsHistory` | internal/store/store.go:845-893 | a row's kind is that of the first answer, its columns those of the latest |
| `FileCache.LookupIsLatestIff` | internal/store/store.go:861-911 | a lookup gives the latest answer of its kind if and only if the first answer was of that kind or there is none |
| `FileCache.FileHiddenByListing` | internal/store/store.go:861-911 | a path first listed and then read as a file never serves the file |
| `FileCache.OneKindIsLatest` | internal/hub/hub.go:753-785 | a path answered only as one kind is always served its latest answer |
| `Utf16.Utf16Encode` | internal/web/web.go:521-529 | the bytes are the little-endian units, two per unit, and decode to the text |
| `Utf16.RoundTrip` | internal/web/web.go:521-529 | decoding the bytes returns every sequence of scalar values |
| `Utf16.EncodeDecoded` | internal/web/web.go:521-529 | every well-formed unit sequence is the encoding of what it decodes to |
| `Utf16.KnownBytes` | internal/web/web.go:521-529 | the bytes of a letter, of a character beyond the first plane and of a lone surrogate |

## Left out

- The Supabase backend (internal/store/supabase.go): a client of a service not shown, with other queue rules.
- WebSocket dialing, deadlines, ping and pong, JSON text: library I/O; the link is arbitrary loss, repetition and reordering.
- PowerShell and cloud sandbox execution: an attempt is any exit code, output, time and id.
- The text of predefined offline answers: only whether a command is handled, and the clear-queue effect.
- Users, tokens and per-user filtering of broadcasts: a broadcast here goes to every controller.
- Telemetry, device rows other than status and heartbeat, REST handlers, dashboard, installer, file, process and screen modules: easy members only.
- End-to-end order and guaranteed delivery of commands: the agent stamps its own creation time and a dropped dispatch stays DISPATCHED, so only per-hop order and hand-over are proved.
- I/O errors of the relay's store, except when it saves results (`Protocol`, `HandleSyncReq`), where each save may fail.
- Several devices in one protocol run: `Protocol` has one agent; the relay's other traffic is in `HubRuns` and `RelayDb`.
- Overflow of 64-bit times and durations: clock values are unbounded integers.
