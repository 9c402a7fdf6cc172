# Verification model of the panel, its host agent and its supporting algorithms

This project models the parts of the panel and its Go host agent in which an ordering, a crash or a lost
message decides whether the system is right, and proves what those parts promise. `dafny verify dfyconfig.toml`
(Dafny 4.11) verifies the whole project.

## What is modelled

**Commands from panel to host agent.** The panel stores commands in a table, sends the oldest queued one,
puts it back in the queue when a socket closes or the panel restarts, and so sends commands more than once. The
agent persists that it accepted a command before it runs it, keeps at most 4096 results, and after a restart turns
every accepted command without a result into a failure of unknown outcome.

- `CommandCache.dfy` is the agent's result cache as a value with its file format; `CommandResultCache.dfy` is the
  same cache as the class that updates its fields in place, each method proved against the value.
- `StateFiles.dfy` is the atomic replacement of a state file: after a failure or a crash at any call the old
  file or the new one is there.
- `HostAgent.dfy` is the agent as a step machine: read loop, 64-slot queue, serial worker, waiters for duplicate
  commands, state file, and a crash between any two steps or inside a write. `HostAgentSafety.dfy` holds what
  every step keeps.
- `PanelCommands.dfy` is the panel's side for one binding, `ServerAgentService.dfy` the service object with its
  `sockets` and `bindings` maps and its table, updated in place.
- `CommandProtocol.dfy` puts both together with sockets that lose frames, old sockets that linger, agent crashes and
  panel deaths between and inside calls, and holds the end-to-end theorems. `WriteErrors.dfy` is a run of the whole in
  which a lost write breaks the agreement of replies, with the exact condition for that agreement, and
  `ExpiredCommands.dfy` is about what an expired row tells. What is promised to happen, and not only never to
  happen otherwise, is in `AgentAnswers.dfy` (every acknowledged command is answered or owed) and `PanelProgress.dfy`
  (no command waits for nothing).

**Journal.** `RuntimeEvents.dfy` is the event table with its deduplication by cursor and its retention of 2000 rows;
`Journal.dfy` is the delivery of journal lines over any number of overlapping streams, and `JournalRetention.dfy` says
how soon a line can be stored twice.

**Jobs.** `Jobs.dfy` is the job runner with every interleaving of cancelling, running, queueing and restarting; its
process can die between any two statements, the update of a row and the insertion of its event included, and so can
the recovery of the next one. `JobsEffects.dfy` holds what cancels and progress
reports do for sure. `JobsRunner.dfy` is the object updated in place, `JobLog.dfy` the browser's copy of a
job's log.

**Supporting algorithms.** `Modrinth.dfy` (dependency resolution), `ModOwnership.dfy` (which files belong to which
mod), `Rcon.dfy` (packet codec, partial writes, capped output), `ServiceName.dfy` (unit names across the two
programs), `Assets.dfy` and `AssetWorkers.dfy` (the asset download workers).

Runs are sequences of states and steps, and the main theorems quantify over all of them. Fields marked as history
(logs of executions, of insertions, of taken objects) are written along and never decide what the modelled code does.

## Assumptions

- SQLite statements succeed, each on its own; `created_at` gives insertion order, that is, the panel's clock does not
  go back.
- A death is the death of a process, between any two of its statements. Power loss is not modelled: a state file whose
  directory could not be synced (the last error of agent/idempotency.go:386-391) stays the new one.
- Whether a command is older than five minutes, a timer fires or a send fails is chosen freely at every step.
- In the protocol of panel and agent, the agent opens a new socket for every connection and says hello on it once,
  for one binding. The service object itself is modelled without that.
- Journal lines that are delivered carry a cursor of their own, at most 2000 characters long, and the run starts
  from a cursor that journald accepts.
- Registry answers do not change during one dependency resolution; nothing else writes the asset directory
  during one download.
- Where `agent/README.md` says a cursor is persisted once its message is *sent*, the code waits for the
  panel's `log.ack`; the model follows the code.

## Model

| member | source | states |
|---|---|---|
| `CommandProtocol.AtMostOnce` | agent/agent.go:133-186 | in every run with lost frames, redelivery, agent crashes at any step and panel restarts, each command's side effect starts at most once, although results are evicted |
| `CommandProtocol.TruthfulSuccess` | apps/api/src/modules/servers/server-agent.service.ts:271-290 | whenever a row is `succeeded`, that command was started exactly once, its execution returned no error, and the row holds its output |
| `CommandProtocol.SentIsFinishedOrOldest` | apps/api/src/modules/servers/server-agent.service.ts:317-341 | every command ever sent is finished or is the oldest unfinished one, so at most one row is delivered or running, through requeueing, replaced sockets, late answers and expiry |
| `CommandProtocol.FinishedRowsNeverChange` | apps/api/src/modules/servers/server-agent.store.ts:210-224 | between any two points of a run rows keep number and id, and a succeeded or failed row keeps status, output and error |
| `CommandProtocol.GrantedOnce` | agent/idempotency.go:125-141 | `begin` returns ownership of an id at most once in a run, over all restarts and evictions |
| `CommandProtocol.OwnershipIsDurable` | agent/idempotency.go:124-141 | an id that was ever granted is in the state file and in memory, accepted or with a result, until it is trimmed |
| `CommandProtocol.ResendableIsKept` | agent/idempotency.go:300-306 | the eviction bound: in every run, a granted command whose row is not finished, and which the panel may therefore still send again, is in flight, or its result has, together with what is in flight, at most 66 entries from it on: it is never trimmed |
| `ExpiredCommands.ExpiryMeansUnstartedExactlyWhen` | apps/api/src/modules/servers/server-agent.service.ts:317-341 | "expired before delivery" tells that a command was not and will not be started exactly for rows that nobody had ever tried to send: for these in every run, and for the others there is a run that shows the contrary |
| `ExpiredCommands.ExpiredUnsentNeverStarts` | apps/api/src/modules/servers/server-agent.service.ts:322-325 | a command whose row expires before any attempt to send it is never started, at no point of the run |
| `ExpiredCommands.ExpiredAfterSuccess` | apps/api/src/modules/servers/server-agent.service.ts:171-191 | for every id a run in which the agent executes the command with success, the connection breaks, the row is requeued and then says that it expired before delivery |
| `ExpiredCommands.ExpiredRowSaysSo` | apps/api/src/modules/servers/server-agent.service.ts:322-325 | a row that is finished by anything but a result was overdue, failed, and carries that text |
| `CommandProtocol.RepliesAgree` | agent/agent.go:282-294 | all terminal replies ever sent about a command are the same, over crashes, restarts, replays, eviction and failed writes about other commands, unless writing this command's acceptance failed or its result never reached the state file |
| `CommandProtocol.FaultedExactly` | agent/idempotency.go:134-140 | in every run, the ids the agreement gives up are exactly those one of whose own writes failed: the acceptance, or the result before its rename |
| `WriteErrors.LostWriteBreaksAgreement` | agent/agent.go:288-294 | for every id there is a run of panel, sockets and agent with one lost write, the one of its result, in which "completed" is put on one socket and "outcome unknown" about the same command on the next |
| `WriteErrors.AgreementExactlyWhen` | agent/agent.go:282-294 | if writes about a set of commands may fail and no others, replies about a command agree in every run exactly when the command is not in the set |
| `AgentAnswers.AnsweredOrOwed` | agent/agent.go:154-186 | from the moment a command is acknowledged on a connection, in every run: its result has been put on that connection, or the read loop, the queue, the worker or a waiting goroutine still owes it there, or the process died, the goroutine gave up or the frame was lost; also for a command that is being executed or was answered before |
| `AgentAnswers.DebtStep` | agent/agent.go:165-186 | one step pays the answer, fails, or leaves somebody who owes it |
| `AgentAnswers.RecordReleases` | agent/idempotency.go:143-173 | recording a result releases the goroutines that wait for it and no other |
| `AgentAnswers.IdleOwesReplaysOnly` | agent/agent.go:217-225 | an agent with nothing to read, run or queue owes only waits whose result is there |
| `AgentAnswers.GrantedIsStarted` | agent/agent.go:177-186 | a command whose ownership was granted is started or still waits for the worker in every run, unless the process died or 64 commands were waiting when it came |
| `AgentAnswers.Verdicts` | agent/agent.go:161-181 | what results say, field by field: the output or the error of the execution, a full queue, an acceptance that could not be written |
| `AgentAnswers.RestartFailsAccepted` | agent/idempotency.go:229-243 | a command that was accepted and not finished when the process died is a failure of unknown outcome in the next one, and nothing is queued or run again |
| `AgentAnswers.FailedSendDisconnects` | agent/agent.go:156-171 | a failed send of the read loop ends the connection, a successful one keeps it, and after an answer the next message is read |
| `AgentAnswers.ConnectSaysHello` | agent/agent.go:101-109 | every connection is a new one, and the first thing on it is a hello |
| `AgentAnswers.OthersKeepConnection` | agent/agent.go:133-186 | no other step of the read loop or the worker changes the connection; a failed send of the worker ends it in a later step |
| `AgentAnswers.WorkerGoesOn` | agent/agent.go:206-215 | the worker takes the first waiting command, records and reports it, and is free again whatever becomes of the write and the send |
| `AgentAnswers.CacheIsBounded` | agent/idempotency.go:300-306 | in every run at most 4096 results are kept and at most 66 commands are in flight |
| `PanelProgress.NeverIdle` | apps/api/src/modules/servers/server-agent.service.ts:317-341 | in every run whose sends succeed, no command waits while the agent is connected and no command is under way |
| `PanelProgress.DispatchExactly` | apps/api/src/modules/servers/server-agent.service.ts:317-341 | which row a dispatch sends and what becomes of the others: with a socket and nothing active, the first queued row that is not overdue is sent and delivered, overdue ones before it expire, and on a failed send it waits and the socket is gone |
| `PanelProgress.CreateSends` | apps/api/src/modules/servers/server-agent.service.ts:88-91 | a new command is queued behind all others and the queue is dispatched |
| `PanelProgress.HelloSends` | apps/api/src/modules/servers/server-agent.service.ts:203-226 | a greeted socket replaces the one before and gets what waits |
| `PanelProgress.ResultSends` | apps/api/src/modules/servers/server-agent.service.ts:271-290 | a result finishes its row, field by field, unless it is finished, and the next row is sent |
| `PanelProgress.AcknowledgementRuns` | apps/api/src/modules/servers/server-agent.service.ts:263-269 | an acknowledged row that is not finished is running, and nothing is sent |
| `PanelProgress.OthersChangeNothing` | apps/api/src/modules/servers/server-agent.service.ts:140-149 | nothing comes of a message from a socket that has not said hello, or about an unknown command |
| `PanelProgress.CloseRequeues` | apps/api/src/modules/servers/server-agent.service.ts:171-191 | closing the active socket puts exactly the delivered and running rows back in the queue; closing another one changes no row |
| `PanelProgress.RebootRequeues` | apps/api/src/modules/servers/server-agent.store.ts:181-190 | so does a new panel process |
| `CommandProtocol.EventKeepsInv` | apps/api/src/modules/servers/server-agent.service.ts:140-169 | every event of panel, agent and connection, deaths inside a call of the panel included, keeps the joint invariant: what can still be read is in order and not older than what was read, and every success is backed by an execution |
| `CommandProtocol.PanelKeepsPromise` | apps/api/src/modules/servers/server-agent.service.ts:317-341 | what the agent reads next is the command it read last or one it has never seen |
| `CommandProtocol.AgentKeepsSeen` | agent/agent.go:133-158 | the agent reads commands in the order of their rows |
| `CommandProtocol.HandleKeepsSuccess` | apps/api/src/modules/servers/server-agent.service.ts:271-290 | a row becomes successful only on the reply of an execution that succeeded |
| `HostAgentSafety.StepKeepsInv` | agent/agent.go:133-300 | every step of the agent, a crash inside a write included, keeps storage, flight, memory, once-only, honesty, durability and, id by id, agreement |
| `HostAgentSafety.GrantIsFresh` | agent/idempotency.go:125-141 | when `begin` would grant ownership, the id has never been granted before |
| `HostAgentSafety.CompleteKeepsRecent` | agent/idempotency.go:143-164 | recording a result, eviction included, keeps a recently granted id among the newest results that fit beside what is in flight |
| `HostAgentSafety.ReloadKeepsRecent` | agent/idempotency.go:202-246 | so does a restart, which moves everything in flight behind the terminal results |
| `HostAgentSafety.RecordFlight` | agent/agent.go:173-185 | the pending set stays exactly what worker, queue and read loop hold, each id once |
| `HostAgentSafety.BeginFlight` | agent/agent.go:159-177 | the same when `begin` adds an id, or fails to |
| `HostAgentSafety.CrashShape` | agent/idempotency.go:356-392 | a crash inside a write that landed leaves what the completed step leaves, without the process |
| `HostAgentSafety.RestartShape` | agent/idempotency.go:69-92 | a restart loads exactly the reloaded cache, and the file holds its snapshot unless the rename did not happen |
| `HostAgentSafety.ReloadAgrees` | agent/idempotency.go:229-243 | after a restart a reloaded result is the first verdict on its id, if it was one in the file |
| `HostAgentSafety.FinishHonest` | agent/agent.go:282-287 | a result says completed only if the execution just recorded returned no error |
| `CommandCache.TrimKeepsNewest` | agent/idempotency.go:300-306 | trimming keeps exactly the newest `limit` results with their replies |
| `CommandCache.CompleteValid` | agent/idempotency.go:143-164 | completing keeps `order` duplicate-free, equal to the keys of `completed`, within the limit and disjoint from `pending`, and changes no other reply |
| `CommandCache.LoadAccepts` | agent/idempotency.go:202-246 | loading succeeds exactly on a file of this version and binding whose entries are well-formed with distinct non-empty ids, and what it yields |
| `CommandCache.LoadReplies` | agent/idempotency.go:221-243 | every loaded id has the reply of its entry: a failure of unknown outcome for an accepted command, else the stored result |
| `CommandCache.LoadErrors` | agent/idempotency.go:213-236 | why a file is refused: its version, then its binding, then the first entry that is empty, repeated, or without a valid status or result |
| `CommandCache.SnapshotRoundTrip` | agent/idempotency.go:202-246 | loading what was persisted gives the old terminal results in order, then each pending id, sorted, as the unknown-outcome failure, trimmed to the newest `limit` |
| `CommandCache.SortedUnique` | agent/idempotency.go:323-334 | the sorted list of accepted ids is the only one, so the file does not depend on map order |
| `CommandCache.ExtendHolds` | agent/idempotency.go:221-243 | what reading entries adds: their ids in file order, each with its entry's reply |
| `CommandResultCaches.SortIsSortedIds` | agent/idempotency.go:323-328 | sorting the keys of the pending map, in whatever order they come, gives the sorted ids |
| `CommandResultCaches.CommandResultCache.Make` | agent/idempotency.go:94-105 | a new cache is empty, with a limit of at least one |
| `CommandResultCaches.CommandResultCache.TrimLocked` | agent/idempotency.go:300-306 | the loop refines `Trim` |
| `CommandResultCaches.CommandResultCache.Entries` | agent/idempotency.go:312-334 | the list that is persisted is the snapshot, whatever order the pending map is iterated in |
| `CommandResultCaches.CommandResultCache.PersistLocked` | agent/idempotency.go:308-341 | writes the snapshot; on an error the file is the old or the new one |
| `CommandResultCaches.CommandResultCache.Begin` | agent/idempotency.go:125-141 | answers cached, in flight or owner as the cache says, and grants ownership only when the file holds the id; a failed write takes the id back |
| `CommandResultCaches.CommandResultCache.Complete` | agent/idempotency.go:143-164 | the result is in memory and with the waiters whatever the write does |
| `CommandResultCaches.PendingResult.Wait` | agent/idempotency.go:166-173 | a waiter gets the recorded result, or nothing if its context ended |
| `CommandResultCaches.CommandResultCache.Load` | agent/idempotency.go:202-246 | the loop accepts and yields exactly what `CommandCache.Load` says |
| `CommandResultCaches.CommandResultCache.SaveJournalCursor` | agent/idempotency.go:181-200 | memory keeps the previous cursor when the write fails; empty, too long and unchanged cursors write nothing |
| `CommandResultCaches.CommandResultCache.LoadCursor` | agent/idempotency.go:248-271 | a cursor file of another version or binding, or too long, is refused |
| `CommandResultCaches.Open` | agent/idempotency.go:69-92 | on any directory, the first start without files included: it succeeds exactly when both files can be loaded and both writes succeed, and then memory and files hold exactly the stored cache and journal cursor; otherwise each file is as it was or holds what was stored |
| `CommandResultCaches.StoredIsReloaded` | agent/idempotency.go:202-246 | what an earlier process persisted is stored as its reloaded cache |
| `StateFiles.StateDirectory.AtomicWrite` | agent/idempotency.go:356-392 | whichever call fails, an error is reported and the temporary file is gone; and at every point in between, where a process may die, the target is first the complete old and then the complete new file and no other file but the temporary one has changed |
| `PanelCommands.DispatchKeeps` | apps/api/src/modules/servers/server-agent.service.ts:317-341 | the recursive dispatch sends only the row sent last or one before which everything sent is finished, and finishes a row only as expired |
| `PanelCommands.FinishingLowersCount` | apps/api/src/modules/servers/server-agent.service.ts:322-327 | expiring a row lowers the number of queued rows: the recursion ends |
| `PanelCommands.HandleKeeps` | apps/api/src/modules/servers/server-agent.service.ts:140-169 | every message of an agent that answers only what it was sent keeps the queue in order |
| `PanelCommands.SuccessComesFromReply` | apps/api/src/modules/servers/server-agent.service.ts:271-290 | the rows that become successful: only the row a completed reply names, with its output, whether the call ends or the process dies in it; a failed reply makes none successful, its error text empty or not |
| `PanelCommands.CreateKeeps` | apps/api/src/modules/servers/server-agent.service.ts:88-91 | adding a command and dispatching keeps the queue in order |
| `PanelCommands.CloseKeeps` | apps/api/src/modules/servers/server-agent.service.ts:171-191 | closing the active socket requeues, closing a replaced one changes nothing, and both keep the queue in order |
| `PanelCommands.RebootKeeps` | apps/api/src/modules/servers/server-agent.store.ts:181-190 | so does the requeueing of a new panel process |
| `PanelCommands.HandleCutKeeps` | apps/api/src/modules/servers/server-agent.service.ts:271-290 | so does a death inside the handling of a message: between finishing a row and dispatching, or after any number of expired rows |
| `PanelCommands.SentOrMarked` | apps/api/src/modules/servers/server-agent.service.ts:328-338 | and a death between sending a command and marking it delivered leaves the rows a completed dispatch and a new process leave |
| `ServerAgentServices.ServerAgentService.RequeueActive` | apps/api/src/modules/servers/server-agent.store.ts:181-190 | the table update refines requeueing the rows of one binding, others untouched |
| `ServerAgentServices.ServerAgentService.DispatchNext` | apps/api/src/modules/servers/server-agent.service.ts:317-341 | the recursive method refines the dispatch of its binding and leaves every other binding alone |
| `ServerAgentServices.ServerAgentService.CloseSocket` | apps/api/src/modules/servers/server-agent.service.ts:171-191 | closing refines the panel's close; a replaced socket only loses its entry, other bindings only what the socket stood for |
| `ServerAgentServices.ServerAgentService.CreateCommand` | apps/api/src/modules/servers/server-agent.service.ts:88-91 | a new row behind all others, then a dispatch |
| `ServerAgentServices.ServerAgentService.Hello` | apps/api/src/modules/servers/server-agent.service.ts:203-226 | the new socket replaces the previous one and gets the next command; a socket that said hello for another binding before is taken from what that binding accepts messages from, and nothing else of it changes |
| `ServerAgentServices.ServerAgentService.Ack` | apps/api/src/modules/servers/server-agent.service.ts:263-269 | a queued or delivered row of this binding becomes running, any other stays |
| `ServerAgentServices.ServerAgentService.Conclude` | apps/api/src/modules/servers/server-agent.service.ts:271-290 | the named row of this binding is finished unless it is finished, then the next is dispatched |
| `ServerAgentServices.ServerAgentService.HandleMessage` | apps/api/src/modules/servers/server-agent.service.ts:140-169 | a message refines the panel's handling; one from an unknown socket changes nothing |
| `RuntimeEvents.AppendRefines` | apps/api/src/modules/servers/server-agent.store.ts:226-264 | an append adds to one binding's append-only log unless its cursor is stored already, and the stored rows of that binding become the newest 2000 of its log, with rising sequence and unique cursors; other bindings keep theirs |
| `RuntimeEvents.AppendRecords` | apps/api/src/modules/servers/server-agent.store.ts:226-254 | which event is stored, field by field: type and message are the beginnings of what was given, up to 64 and 16384 characters, the cursor is missing exactly for an absent or empty one; nothing is stored exactly when a row of the binding has the cursor |
| `RuntimeEvents.InterruptedAppendRefines` | apps/api/src/modules/servers/server-agent.store.ts:246-262 | if the process dies between the INSERT and the DELETE, the log has grown all the same and one row more than before is kept |
| `RuntimeEvents.AppendRows` | apps/api/src/modules/servers/server-agent.store.ts:256-262 | what the DELETE leaves of each binding: its newest 2000 rows, and all rows of the others |
| `RuntimeEvents.ListIsNewestAccepted` | apps/api/src/modules/servers/server-agent.store.ts:266-278 | listing k events gives the newest k ever accepted, oldest first, for k up to 2000 whether or not an append was interrupted, and otherwise as many of them as are kept |
| `RuntimeEvents.RuntimeEventStore.AppendEvent` | apps/api/src/modules/servers/server-agent.store.ts:226-264 | the method refines the append |
| `Journal.JournalAgreement` | agent/system.go:219-227 | in every run, with lost acknowledgements, old streams still persisting and restarts, lines inserted for the first time are the next ones of the journal without a gap, and every line up to the persisted cursor has been inserted |
| `Journal.StepKeepsInv` | agent/agent.go:317-354 | every step of streams, frames, panel and cursor file keeps the agreement |
| `Journal.InsertLine` | apps/api/src/modules/servers/server-agent.service.ts:246-261 | a line at or below the frontier is a repetition or exactly the next line |
| `Journal.ReadyOnlyAfter` | agent/system.go:171-227 | a stream goes on to a line only from the cursor in memory or after it has persisted the line before; a failed write stops it |
| `Journal.DiskExactly` | agent/idempotency.go:181-200 | what becomes of the cursor file: a persisted line counts unless its write failed before the rename, also when the process dies right after it, and nothing else writes it |
| `JournalRetention.RepeatsAreFarApart` | apps/api/src/modules/servers/server-agent.store.ts:226-264 | between two insertions of one journal line, in every run, at least 2000 other events of the binding are accepted |
| `JournalRetention.StepNear` | apps/api/src/modules/servers/server-agent.store.ts:256-262 | one action pushes a stored cursor at most one event towards the end of its window, and only if it stores an event of the binding |
| `Journal.CursorCanGoBack` | agent/idempotency.go:181-200 | with two streams it is not monotone: a run in which an earlier connection's stream sets it back |
| `Journal.SingleStreamNeverGoesBack` | agent/agent.go:317-354 | in every run in which at most one stream is alive at a time, the persisted cursor never goes back, whatever is lost, fails or restarts |
| `Journal.MonotoneExactlyWhen` | agent/agent.go:317-354 | a limit of n live streams makes the persisted cursor monotone in all runs exactly when n is at most one |
| `Jobs.TerminalForEver` | apps/api/src/modules/jobs/jobs.runner.ts:72-163 | a terminal status never changes and a running job never returns to the queue |
| `Jobs.StepMovesStatus` | apps/api/src/modules/jobs/jobs.runner.ts:72-186 | a status only moves queued to running, running to terminal, queued to cancelled, or queued to failed by recovery, also when the process dies between a row's update and its event |
| `Jobs.OneTerminalEvent` | apps/api/src/modules/jobs/jobs.runner.ts:86-157 | in every run, deaths of the process between any two statements included: at most one terminal event for a job, none before it is finished, and one exactly when it is finished and no process died between that job's terminal update and its event |
| `Jobs.DeathLosesTheEvent` | apps/api/src/modules/jobs/jobs.runner.ts:131-138 | such a run exists for every id: the job succeeded, the process died before the event, and recovery, which looks at unfinished jobs only, never adds it |
| `Jobs.TornExactly` | apps/api/src/modules/jobs/jobs.runner.ts:86-157 | the jobs without their event are exactly those whose terminal update was the last statement of a process |
| `JobsEffects.CancelTakesEffect` | apps/api/src/modules/jobs/jobs.runner.ts:72-94 | in every run, a job that is cancelled while queued or running never succeeds; a queued one is cancelled for good and never starts |
| `JobsEffects.CancelCounts` | apps/api/src/modules/jobs/jobs.runner.ts:72-94 | such a cancel counts at once: the row and its event of a queued job, the aborted signal of a running one |
| `JobsEffects.LateCancelDoesNothing` | apps/api/src/modules/jobs/jobs.runner.ts:72-76 | a finished or unknown job is not touched |
| `JobsEffects.TaskCallsExactly` | apps/api/src/modules/jobs/jobs.runner.ts:113-124 | progress of a task is stored and told, its log lines are told, and after an abort neither happens |
| `JobsEffects.StoredProgressIsTold` | apps/api/src/modules/jobs/jobs.runner.ts:118-138 | in every run without a death, the stored progress of a job is the one in its last event that carries one |
| `Jobs.CancelledNeverSucceeds` | apps/api/src/modules/jobs/jobs.runner.ts:72-94 | after an accepted cancel a job never succeeds: it ends cancelled, or failed by a restart that came first |
| `Jobs.OneTaskPerQueue` | apps/api/src/modules/jobs/jobs.runner.ts:165-174 | at most one task of a queue key runs at a time |
| `Jobs.QueueOrder` | apps/api/src/modules/jobs/jobs.runner.ts:48-62 | jobs of a key start in the order they were pushed, none twice and none lost, and a non-empty queue has exactly one drain |
| `Jobs.StepKeepsInv` | apps/api/src/modules/jobs/jobs.runner.ts:36-186 | every step keeps lifecycle, queue and drain invariants |
| `Jobs.DieKeepsInv` | apps/api/src/modules/jobs/jobs.runner.ts:36-186 | so does the death of the process, also between the update of a row and its event in a creation, a cancel, a start, a progress report or an end |
| `Jobs.EndShape` | apps/api/src/modules/jobs/jobs.runner.ts:126-163 | however a task ends, an aborted job is settled as cancelled and any other by its outcome, with one event |
| `Jobs.RecoverKeeps` | apps/api/src/modules/jobs/jobs.runner.ts:176-186 | a recovery that comes through fails exactly the interrupted jobs, with one event each |
| `Jobs.RecoveryIsSteps` | apps/api/src/modules/jobs/jobs.runner.ts:176-186 | it is one recovery step for every listed job, so that a death can interrupt it after any of them, or inside one |
| `JobsRunners.JobsRunner.CancelById` | apps/api/src/modules/jobs/jobs.runner.ts:72-94 | the method is the cancel step |
| `JobsRunners.JobsRunner.StartRun` | apps/api/src/modules/jobs/jobs.runner.ts:96-113 | up to the call of the job's task the method is the start of a run |
| `JobsRunners.JobsRunner.EndRun` | apps/api/src/modules/jobs/jobs.runner.ts:126-163 | after the end of the job's task the method is the resolve or reject step |
| `JobsRunners.JobsRunner.CreateQueuedJob` | apps/api/src/modules/jobs/jobs.runner.ts:48-62 | pushing an entry, and scheduling a drain for the first one |
| `JobsRunners.JobsRunner.DrainTurn` | apps/api/src/modules/jobs/jobs.runner.ts:165-174 | the drain loop up to its next await is one turn of the drain |
| `JobsRunners.JobsRunner.RecoverInterrupted` | apps/api/src/modules/jobs/jobs.runner.ts:176-186 | the loop refines recovery |
| `JobsRunners.JobsRunner.constructor` | apps/api/src/modules/jobs/jobs.runner.ts:17-22 | a new process starts with nothing in memory and the stored rows and events after recovery of exactly the unfinished rows; afterwards every row is finished and no finished one has changed |
| `JobLog.BrowserShowsNewest` | apps/web/src/composables/useJobLogStream.ts:98-104 | at every point of every run, through any number of disconnects and gaps of any size, the browser shows exactly the newest 1000 events up to the last one delivered, in order and without repetition |
| `JobLog.BrowserCatchesUp` | apps/api/src/modules/jobs/jobs-browser-events.service.ts:30-58 | as long as a socket that was opened for an unfinished job is not broken, no send on it fails and nothing follows a terminal event, delivering its frames shows the newest 1000 events of the whole log, the terminal event included |
| `JobLog.UndisturbedReachesEnd` | apps/api/src/modules/jobs/jobs-browser-events.service.ts:30-58 | what is under way on such a socket reaches the end of the log at every point |
| `JobLog.NothingAfterLastSend` | apps/api/src/modules/jobs/jobs-browser-events.service.ts:31-43 | after a terminal event, a failed send, or on a socket for a finished job, nothing more is put on the socket |
| `JobLog.DeliveredGrows` | apps/web/src/composables/useJobLogStream.ts:98-104 | what the browser was told about never shrinks |
| `JobLog.MergeHistory` | apps/web/src/composables/useJobLogStream.ts:98-104 | merging a history into an older view gives exactly the history's view, overlapping or not |
| `JobLog.MergeLive` | apps/web/src/composables/useJobLogStream.ts:98-104 | merging the next event gives the view one event further |
| `JobLog.OpenKeepsInv` | apps/api/src/modules/jobs/jobs-browser-events.service.ts:22-58 | subscribing and then sending the history leaves no gap between the two |
| `JobLog.AppendKeepsInv` | apps/api/src/modules/jobs/jobs-browser-events.service.ts:31-41 | an event stored while a socket is open continues what that socket was sent, until sending fails or the job ends |
| `JobLog.MergeSortsUnion` | apps/web/src/composables/useJobLogStream.ts:99-104 | filtering, appending and sorting two parts of one log sorts their union |
| `JobLog.BrowserLog.OnEvents` | apps/web/src/composables/useJobLogStream.ts:98-104 | the handler refines the merge, and a history brings the view to the history's point |
| `Modrinth.ResolvedAreReachable` | apps/api/src/modules/mods/modrinth.service.ts:335-411 | the resolved references are exactly those reachable over required edges of references with a compatible version, each once; each item is what the registry says: the project's id and slug, its first listed version, and of its files the first primary one or else the first |
| `Modrinth.LookupExactly` | apps/api/src/modules/mods/modrinth.service.ts:355-379 | a reference against the registry alone: when it stands for the first listed version, when it is skipped, and which check fails it; being unsupported counts for the root only |
| `Modrinth.DependenciesFirst` | apps/api/src/modules/mods/modrinth.service.ts:380-408 | a dependency comes before its dependent unless the two lie on a cycle |
| `Modrinth.RootIsLast` | apps/api/src/modules/mods/modrinth.service.ts:401-410 | the root is resolved, is the last item, and is the only one marked as root |
| `Modrinth.SucceedsExactlyWhen` | apps/api/src/modules/mods/modrinth.service.ts:351-400 | it succeeds exactly when at most 64 references are reachable and none of them has a failing request, a missing file or, for the root, no support |
| `Modrinth.FailureIsGenuine` | apps/api/src/modules/mods/modrinth.service.ts:351-400 | every reported failure is true of a reachable reference, as the registry answers, or more than 64 are reachable |
| `Modrinth.RepeatedExactlyWhen` | apps/api/src/modules/mods/modrinth.service.ts:349-354 | when dependencies name projects by their own id, a project is resolved twice exactly when the root was asked for by something else than its id and that id is reached from it |
| `Modrinth.OnceWhenAskedById` | apps/api/src/modules/mods/modrinth.service.ts:349-354 | so a resolution asked for by project id resolves every project once |
| `Modrinth.RootResolvedTwice` | apps/api/src/modules/mods/modrinth.service.ts:349-354 | it can appear twice: a root asked for by slug that is required back by id |
| `Modrinth.Target` | apps/api/src/modules/mods/modrinth.service.ts:380-396 | where a dependency leads, and when looking it up fails |
| `Modrinth.ChosenExactly` | apps/api/src/modules/mods/modrinth.service.ts:398-399 | the file chosen is the first primary one, or the first of all when none is primary |
| `Modrinth.Resolution.Enter` | apps/api/src/modules/mods/modrinth.service.ts:350-409 | the recursive closure over the two shared variables refines the walk, and ends |
| `Modrinth.ResolveInstall` | apps/api/src/modules/mods/modrinth.service.ts:335-411 | the method returns the resolution, and what it returns is as the registry says |
| `ModOwnership.RetainedFilesSurvive` | apps/api/src/modules/servers/server-pack.service.ts:417-440 | no file that a surviving root lists is deleted, whatever fails |
| `ModOwnership.DeletionsExactly` | apps/api/src/modules/servers/server-pack.service.ts:411-446 | exactly which files a removal deletes, the fallback path of a mod that nothing accounts for included |
| `ModOwnership.RemovalExactly` | apps/api/src/modules/servers/server-pack.service.ts:403-459 | what a removal deletes, when it fails and what becomes of the ownership: it stops at the first file that cannot be deleted, and only a removal that does not fail changes the ownership |
| `ModOwnership.FailedCallsKeepOwnership` | apps/api/src/modules/servers/server-pack.service.ts:393-459 | an installation or removal that fails leaves the ownership as it was |
| `ModOwnership.TrackedIsKeptOrDeleted` | apps/api/src/modules/servers/server-pack.service.ts:411-440 | when a root matches, the paths tracked before are those tracked afterwards and those deleted |
| `ModOwnership.DeletedButTrackedExactlyWhen` | apps/api/src/modules/servers/server-pack.service.ts:420-440 | a deleted path stays tracked exactly when nothing is cleaned up and the matching roots list it both as their own file and as a dependency |
| `ModOwnership.DeletedFileStaysAnOrphan` | apps/api/src/modules/servers/server-pack.service.ts:420-440 | a concrete removal where that happens |
| `ModOwnership.OrphansStayUnowned` | apps/api/src/modules/servers/server-pack.service.ts:393-459 | from an ownership file in order, projects stay unique and orphans disjoint from owned paths under every sequence of installs and removals, failed ones included |
| `ModOwnership.LeftoversAreTracked` | apps/api/src/modules/servers/server-pack.service.ts:403-459 | through any removals, failed ones included, a tracked file that still exists is still tracked |
| `ModOwnership.RemovingAllDeletesAll` | apps/api/src/modules/servers/server-pack.service.ts:403-459 | removing every root, cleaning up with the last, deletes every file tracked at the start |
| `ModOwnership.RetryCompletes` | apps/api/src/modules/servers/server-pack.service.ts:448-457 | repeating a removal that failed ends where an undisturbed first attempt would have |
| `ModOwnership.InstallForgetsExactly` | apps/api/src/modules/servers/server-pack.service.ts:393-399 | exactly which paths an installation stops tracking: those only a replaced root listed |
| `ModOwnership.LastResolvedCounts` | apps/api/src/modules/servers/server-pack.service.ts:360-367 | of several resolved roots for one project the last counts |
| `ModOwnership.SetRootKeepsPlaces` | apps/api/src/modules/servers/server-pack.service.ts:393-399 | a replaced root keeps its place, a new one comes last |
| `ModOwnership.ServerMods.RemoveMod` | apps/api/src/modules/servers/server-pack.service.ts:403-459 | the method refines the removal: files, order of deletions, stored ownership and failure |
| `ModOwnership.ServerMods.InstallMods` | apps/api/src/modules/servers/server-pack.service.ts:393-399 | the loops refine the ownership part of the installation |
| `Rcon.DecodesExactlyFrames` | agent/rcon.go:45-65 | decoding accepts exactly the frames of packets of at most 4 MiB and leaves exactly the bytes behind them |
| `Rcon.DecodeInvertsEncode` | agent/rcon.go:29-65 | an encoded packet followed by any bytes decodes to the packet and leaves those bytes |
| `Rcon.EncodeInvertsDecodeExactlyWhen` | agent/rcon.go:29-65 | encoding gives back the decoded frame exactly when its payload holds no NUL |
| `Rcon.ConcatenatedPacketsDecode` | agent/rcon.go:45-65 | concatenated packets decode to the same packets and then to whatever follows |
| `Rcon.WholePacketsEndInEof` | agent/rcon.go:46-56 | a connection closed after a whole packet ends in a plain EOF |
| `Rcon.DecodeErrors` | agent/rcon.go:45-65 | which error everything else gives: a stream that ends, a length out of range, a missing terminator, in this order |
| `Rcon.EncodeErrors` | agent/rcon.go:29-36 | what cannot be sent: a NUL in the payload first, then a payload that is too long |
| `Rcon.Int32Bijection` | agent/rcon.go:38-40 | every int32 is read back from its four bytes, negative ones included, and every four bytes are those of one int32 |
| `Rcon.EncodePacket` | agent/rcon.go:29-43 | the buffer filled in place is the frame, or the error is the right one |
| `Rcon.Connection.WritePacket` | agent/rcon.go:154-170 | under any partial writes a prefix of the frame is sent, all of it exactly when no error is reported |
| `Rcon.AnySplitSendsAll` | agent/rcon.go:159-168 | however the writer splits the packet, all of it is sent as long as every write takes something |
| `Rcon.ReadResponse` | agent/rcon.go:109-146 | the reading loop answers with the capped payloads of the response packets, followed by the notice if they are marked truncated, once the connection falls quiet or closes, and fails when nothing was received or on any other error |
| `Rcon.ResponsesExactly` | agent/rcon.go:120-122 | the answers are the payloads of the packets with id 2 and type 0, in order, and nothing else |
| `Rcon.ReportedIsOutputExactlyWhen` | agent/rcon.go:143-146 | the reported text is the whole output exactly when nothing was lost and no empty chunk came to a full buffer, or when the lost part is itself the text of the notice |
| `Rcon.SentAnswersAreRead` | agent/rcon.go:109-146 | NUL-free answers sent among other packets come back as their concatenation cut at the limit |
| `Rcon.KeptText` | agent/rcon.go:124-134 | the kept text is the first `limit` bytes of all output, however it was chunked |
| `Rcon.TruncatedExactlyWhen` | agent/system.go:111-124 | the output is marked truncated exactly when output was lost or an empty chunk came to a full buffer |
| `Rcon.CompleteButMarked` | agent/rcon.go:124-128 | complete output can be marked truncated |
| `Rcon.LimitedBuffer.Write` | agent/system.go:111-124 | the buffer holds the first `limit` bytes of everything written, and every write is reported as complete |
| `ServiceName.UnitNameAccepted` | apps/api/src/modules/servers/server-bootstrap.service.ts:89-101 | for every server name and UUID the agent accepts the unit the panel names |
| `ServiceName.AcceptedExactlyWhen` | agent/config.go:231-233 | the agent accepts it exactly when the folded name has a letter or digit or the head of the id is a slug itself |
| `ServiceName.SlugIsJoinedWords` | apps/api/src/modules/servers/server-bootstrap.service.ts:93-100 | the slug is the words of the folded name joined by hyphens, cut at 64 characters without a hyphen at the end, and the fallback exactly for a name without words |
| `ServiceName.RussianNamesAreSpelled` | apps/api/src/modules/servers/server-bootstrap.service.ts:89-95 | a Russian or plain name is spelled letter by letter before anything is decomposed |
| `ServiceName.TransliterateSums` | apps/api/src/modules/servers/server-bootstrap.service.ts:90-92 | spelling goes letter by letter |
| `ServiceName.GlavniyIsSpelled` | apps/api/src/modules/servers/server-bootstrap.service.ts:68-74 | the Russian name that the panel's tests use is spelled "glavniy" |
| `ServiceName.FoldedHasNoMarks` | apps/api/src/modules/servers/server-bootstrap.service.ts:93-95 | no combining mark is left of a name, whatever its letters decompose into |
| `ServiceName.StripMarksExactly` | apps/api/src/modules/servers/server-bootstrap.service.ts:94-95 | marks are dropped and nothing else |
| `ServiceName.SlugExactlyHyphenated` | agent/config.go:19-21 | the agent's pattern, word by word, is the same as: letters, digits and single hyphens, none at the ends |
| `ServiceName.ValidUnitExactly` | agent/config.go:231-233 | which slugs make a valid unit name |
| `ServiceName.TrimmedCollapseIsJoin` | apps/api/src/modules/servers/server-bootstrap.service.ts:96-97 | collapsing runs and trimming both ends is joining the words |
| `ServiceName.SlugIsFixed` | apps/api/src/modules/servers/server-bootstrap.service.ts:89-101 | a server named after its own slug keeps it |
| `Assets.IndexIsCommitRecord` | apps/api/src/modules/clients/minecraft-assets.service.ts:205-263 | under any interleaving, once this call has written the index every object is on disk with its size and hash, every worker has returned, and every object was counted once |
| `Assets.TakenOnce` | apps/api/src/modules/clients/minecraft-assets.service.ts:229-233 | no object is taken twice, by one worker or two, and none that was taken is still in the list |
| `Assets.FailureBlocksIndex` | apps/api/src/modules/clients/minecraft-assets.service.ts:262-263 | once a worker has failed the index is never written by this call, although the others go on |
| `Assets.ProgressInWindow` | apps/api/src/modules/clients/minecraft-assets.service.ts:252-258 | reported progress starts at 55, never falls, stays within 55 and 85, and reaches 85 when everything was counted without an abort |
| `Assets.ReportsExactly` | apps/api/src/modules/clients/minecraft-assets.service.ts:252-258 | without an abort the reports are 55, then one for every 25th object and for the last, in order |
| `Assets.PercentageIsShare` | apps/api/src/modules/clients/minecraft-assets.service.ts:252-258 | the percentage is 55 plus the whole part of 30 times the share |
| `Assets.AbortSilences` | apps/api/src/modules/clients/minecraft-assets.service.ts:229-233 | after an abort nothing more is taken or reported |
| `Assets.SettlesOnce` | apps/api/src/modules/clients/minecraft-assets.service.ts:262-263 | the wait for the workers ends once |
| `Assets.ReturnedCommits` | apps/api/src/modules/clients/minecraft-assets.service.ts:262-263 | once every worker has returned the index can be written, and is then the commit record |
| `Assets.WorkersCount` | apps/api/src/modules/clients/minecraft-assets.service.ts:227-229 | there are six workers, or one for each object if there are fewer, but at least one |
| `Assets.StepKeepsInv` | apps/api/src/modules/clients/minecraft-assets.service.ts:227-263 | every step of every worker keeps the account of taken, held and counted objects |
| `Assets.LastEntryCounts` | apps/api/src/modules/clients/minecraft-assets.service.ts:205-221 | every hash of the index is among the objects once, with the size of its last entry |
| `Assets.Collect` | apps/api/src/modules/clients/minecraft-assets.service.ts:205-221 | an invalid entry fails the call, and the objects have distinct hashes |
| `AssetWorkers.CollectObjects` | apps/api/src/modules/clients/minecraft-assets.service.ts:205-221 | the loop refines collecting the objects |
| `AssetWorkers.Download.TakeNext` | apps/api/src/modules/clients/minecraft-assets.service.ts:230-233 | popping the shared list is the take step |
| `AssetWorkers.Download.AfterCheck` | apps/api/src/modules/clients/minecraft-assets.service.ts:235-258 | the check step, with counting and reporting when the file is reused |
| `AssetWorkers.Download.AfterWrite` | apps/api/src/modules/clients/minecraft-assets.service.ts:247-258 | the write step, with counting and reporting |

## Left out

- RepliesAgree: a single run with a failed write may still agree, so for one run it is one direction; over all runs `AgreementExactlyWhen` gives both.
- ProgressInWindow: computes the percentage over exact reals, not JavaScript numbers; a floor may differ by one there, the bounds do not.
- ReadResponse: starts after authentication; dialing, the authentication exchange and deadlines are not modelled, and a timeout is one way the byte stream can end.
- UnitNameAccepted: takes Unicode lower-casing and NFKD as parameters; of the lower-casing of ids it only uses what happens to hexadecimal digits.
- InstallMods: covers the ownership part; downloading, the check for conflicting file names and which files a partial failure has put in place are not modelled.
- EncodePacket: models bytes and int32 values with explicit ranges; there is no decoder object with a read buffer, decoding is a function of the byte stream.
- HandleMessage: covers hello, acknowledgement and results; heartbeats, status reports, log lines (see `Journal.dfy`) and file-system messages are not commands, and the events published about commands are not part of this table.
- Liveness: redelivery after a replaced socket's close, which does not requeue, is not claimed; everything proved is safety.
- The read loop, the worker and the journal streams run concurrently in the agent; they are step machines on values here, and only the result cache, the panel service, the runner and the workers also exist as classes.
- Checks of a command's type, payload and binding before it is executed count as part of its execution and its outcome.
- `UpdatedAt` timestamps, JSON text, base64, hashing, file permissions and the hashed file names of the agent's state.
- Journal lines without a cursor, lines over 1 MiB, the fallback after an invalid cursor, and the first start without a cursor.
- The methods of `JobsRunner` run to their end; deaths inside them are steps of `Jobs.dfy` only.
- Messages and payloads of job events, the synthetic last event of the browser, and switching to another job.
- Moving and deleting entries of a server pack by hand, which also edits the ownership file.
- The HTTP routes, the web interface, the launcher build, the bootstrap script and everything behind authentication.
