# Cadentra: verified model of the Hub-Agent protocols

Cadentra is a control plane: a Hub keeps the desired state of many nodes, and an Agent on each node
synchronises it, runs tasks, deploys applications and relays files, through disconnections and
restarts. This project models the parts of both programs on which that reliability rests, and proves
what they keep.

The model has one module per component. The code that changes things in place is written as classes
and methods with loops, each proved against a function on values; what the system promises is then
proved about those functions, over every run. A run is a sequence of events; messages are sets, so
that any of them may be lost, repeated or reordered; a crash may follow every single effect. What each
operation is for is stated a second time without its function: by the run, by the tables or by the fields
of the message (`HubContents`, `Selection`, `SyncContents`, `DeploymentPhases`, `AgentOutcomes`,
`ExecutionResults`).

| files | component |
|---|---|
| `Models`, `HubStore`, `HubRuns`, `HubContents` | records, Hub tables and mutation transactions; revisions, history keys, tombstones; what the tables hold after a run |
| `DesiredState`, `SyncResponse`, `TargetResolution`, `Selection` | what a node should hold, read table by table while others write; whom a target selects |
| `AgentSync`, `SyncProtocol`, `SyncContents` | the Agent's one-transaction apply; the sync protocol over whole runs; what a response carries and leaves |
| `DeploymentPaths`, `Deployment`, `DeploymentMachine` | the files of a deployment; deploy, rollback and recovery as traces, and as methods |
| `DeploymentRecovery`, `DeploymentRuns`, `DeploymentPhases` | what crash recovery restores, over any number of passes; crashes during deploy; what a phase tells |
| `AgentJournal`, `AgentOutcomes`, `HubExecutions`, `ExecutionProtocol`, `ExecutionResults` | executions on both sides, the result upload between them, and what the rows say |
| `Timing`, `AgentScheduler`, `AgentRuns`, `HubScheduler` | interval, cron and one-time schedules on both sides |
| `FileUpload`, `FileTransfers` | resumable upload, verified delivery, the state of a transfer |
| `LogBuffers` | the two output buffers with their shared counter |

`dafny verify dfyconfig.toml` checks everything, with automatic induction on lemmas turned off: every
induction is written out.

## What the proofs found

Where an intended property is false of the code, the model keeps the code, states the exact
condition under which the property holds, and gives the run that breaks it.

- *Deployment.* docs/PRODUCT.md:1183 asks that a half-finished deployment be recovered after a
  restart. deploy marks its row ROLLING_BACK before it undoes anything, and recovery skips such rows:
  `GapExactly` says which runs contain a world with changed files that is skipped, and
  `AbandonedForGood` that no number of recovery passes repairs it. Where the binary did not exist
  before, an existing config or unit file is overwritten without a backup; every crash is repaired
  exactly when that cannot happen (`RepairedExactlyWhenCovered`). Recovery takes its paths from the
  definition stored by then: `RecoveryAimsRight` compares it with the request field by field, and
  `OtherBinaryOverwritten` is the run in which a missing or newer definition leaves the deployed
  binary in place and writes the old one over a file nobody deployed. A recovery whose restoring write
  is refused marks the row all the same (`RefusalIsFinal`). The backup of the binary is recorded before
  it is written: after a crash in between, recovery writes half a file over a binary that deploy had not
  touched (`RepairedExactlyUnlessTorn`, `CrashRepairedExactly`).
- *Result upload.* A result that counts as delivered is kept exactly as long as none of three events
  occurs (`StepLoses`, `RunLosesNothingExactly`): the late acknowledgement of a RUNNING upload, which
  marks a lost result as synced (`LateAckLosesResult`) or even overwrites it (`StaleAckErasesResult`),
  a scheduled run given up for missing parameters while its RUNNING row counts as delivered, and a start
  handled after the result (`LateStartReopens`).
- *Tombstones.* An id that is deleted before it was ever created, and created afterwards, is live and
  tombstoned at once, and an Agent that then stores the Hub's revision lacks it
  (`UnknownDeleteResurrects`, `ResurrectedObjectIsLost`).
- *Updates.* An update that races with a delete still commits (`UpdateAfterDeleteCommits`); schedules
  have no history key, so concurrent updates are lost (`ScheduleUpdateLost`).
- *applySync.* A failed commit releases the store mutex twice, and scheduler entries removed inside
  the transaction are not put back (`AgentSync.Agent.ApplySync`).
- *Hub schedules.* Interval and one-time schedules with the SKIP policy never run on the Hub at all:
  every run equals the run without them (`SkippersNeverRun`), while docs/PRODUCT.md:740-744 offers
  SKIP as a misfire policy. A failed dispatch uses up its slot.
- *File relay.* Once all bytes of a non-empty file are staged without the upload having been
  completed, no later upload can complete it: the range it would need is invalid, by section 14.4 of
  RFC 9110 as in the code (`FullPartIsStuck`). A retry of a finished transfer leaves it in DELIVERING
  (`RetryOfFinishedHangs`).
- *Logs.* docs/PRODUCT.md:919 asks for a limit on the total log; only stdout looks at the counter, so
  the limit is kept exactly when stderr may hold nothing or the two other limits already imply it
  (`TotalKeptExactly`, `CapBindsOnlyStdout`).

## Model

| member | source | states |
|---|---|---|
| HubStore.Hub.CreateObject | internal/hub/definitions.go:32-58 | a create commits the row at revision 1, its history row, one new global revision and one change entry, or nothing, and it fails exactly on the two key constraints |
| HubStore.Hub.UpdateObject | internal/hub/definitions.go:60-88 | an update from an earlier read commits row, history, revision and change entry together, and fails exactly when its history key is taken; LastWriterWins says which definition is then stored |
| HubStore.Hub.DeleteObject | internal/hub/definitions.go:90-114 | a delete always commits, with a tombstone at the new revision, and takes an application's assignments with it |
| HubStore.Hub.AssignNodes | internal/hub/application.go:132-160 | the loop over nodes adds or removes exactly those assignments, under one revision |
| HubStore.Hub.InsertMembers | internal/hub/node.go:142-160 | the member inserts succeed exactly without a duplicate, and then add exactly those pairs |
| HubStore.Hub.AddGroup | internal/hub/node.go:142-160 | group and members are stored together, or nothing on a duplicate key |
| HubStore.Hub.ReplaceGroup | internal/hub/node.go:162-180 | members are replaced as a whole, or nothing changes |
| HubRuns.RevisionNamesState | internal/store/sqlite_executions.go:180-215 | over any run the revision never falls, and two moments with the same revision have the same whole database |
| HubRuns.LogAlwaysComplete | internal/store/sqlite_executions.go:223-228 | the change log has exactly one entry for each revision ever taken |
| HubRuns.OptimisticLocking | internal/store/sqlite_definitions.go:54-84 | over any interleaving with reads outside the transactions, recorded revisions are exactly 1..k and an update commits exactly when the revision it read is still current |
| HubRuns.UpdateAfterDeleteCommits | internal/store/sqlite_definitions.go:54-84 | an update that raced with a delete commits a revision and a history row and changes no object |
| HubRuns.ScheduleUpdateLost | internal/store/sqlite_definitions.go:312-317 | two schedule updates from the same read both commit and the first is lost |
| HubRuns.ResurrectionStep | internal/store/migrate.go:144-168 | a transaction makes a tombstoned object live exactly when it commits a create of a tombstoned id; with history that takes an id without any |
| HubRuns.DeletedStaysDeleted | internal/store/migrate.go:144-168 | if versioned ids are deleted only after their creation and schedule ids are fresh, no live object is ever tombstoned |
| HubRuns.UnknownDeleteResurrects | internal/hub/definitions.go:90-114 | deleting an unknown script id and creating it afterwards makes it live and tombstoned |
| HubContents.LastWriterWins | internal/store/sqlite_definitions.go:54-84 | over any run an object is stored with a definition exactly if some committed create, or update of the live object, stored that definition and no later committed transaction was about it |
| HubContents.DeletedIsGone | internal/hub/definitions.go:90-114 | after its deletion an object is not stored until a create of it commits |
| HubContents.RefusedTransactions | internal/store/migrate.go:111-168 | exactly which transactions are refused: taken rows, history rows, group ids and group names, and members listed twice |
| HubContents.AssignedExactly | internal/hub/application.go:132-160 | an application is assigned to a node exactly if it was assigned once and neither taken away nor deleted since |
| HubContents.LabelsSetLast | internal/hub/node.go:122-140 | a node carries the labels set last |
| HubContents.LastGroupWins | internal/hub/node.go:142-199 | a group is stored exactly as its last committed create or update left it |
| HubContents.MembersExactly | internal/hub/node.go:142-199 | a node is a member exactly if it was named once and the group was neither deleted nor updated without it since |
| HubContents.GroupNamesUnique | internal/store/migrate.go:111-113 | two groups never share a name |
| HubContents.TombstoneOfLastDelete | internal/hub/definitions.go:90-114 | an object has a tombstone exactly if it was deleted, with the revision its last deletion took |
| HubContents.LogTells | internal/store/sqlite_executions.go:223-228 | the change entry under the revision a transaction took names its subject, its kind and the revision of its row, for good |
| DesiredState.MyGroupIds | internal/hub/sync.go:70-87 | with unchanged tables the loop finds exactly the label groups the node matches and the groups it is a member of |
| DesiredState.MatchingTasks | internal/hub/sync.go:88-132 | the loop returns exactly the enabled tasks that hit the node and, if nothing changed meanwhile, exactly the enabled scripts they name |
| DesiredState.SchedulesOf | internal/hub/sync.go:134-151 | exactly the schedules of the tasks in the snapshot, each once |
| DesiredState.AssignedApps | internal/hub/sync.go:153-171 | with unchanged tables exactly the applications assigned to the node, each once |
| SyncResponse.ComputeDesiredState | internal/hub/sync.go:60-185 | every snapshot is closed and made of rows that were read; with unchanged tables it is exactly the node's desired state, which DesiredWrittenOut spells out |
| SyncResponse.AssembleDesired | internal/hub/sync.go:60-185 | the four lists, read from one database, are the desired state as defined object by object |
| SyncResponse.CollectTombstones | internal/hub/sync.go:272-287 | exactly the tombstones recorded after the requested revision, and none for a first sync |
| SyncResponse.BuildSyncResponse | internal/hub/sync.go:228-299 | the revision is the one read before everything else; the answer is exact if nothing changed between the first and the last read; an expired window gives a full resync without tombstones |
| TargetResolution.ResolveTarget | internal/hub/node.go:224-277 | without duplicates, exactly the nodes the target names; fails exactly on an unknown group |
| TargetResolution.ResolversAgree | internal/hub/node.go:224-277 | for the documented target types, and label groups without member rows, both resolvers reach the same existing nodes |
| TargetResolution.ResolversDiffer | internal/hub/sync.go:70-110 | exactly when they differ: an undocumented type with listed nodes, or a node that only a label group's member rows name |
| Selection.LabelTargetReaches | internal/hub/sync.go:70-110 | a node with labels[k] == v is reached by (k, v) and by (k, ""), one without k by neither, and whom (k, v) reaches carries v, under both resolvers |
| Selection.ValuesSeparate | internal/hub/node.go:251-269 | two different values of a key never share a node |
| Selection.LabelGroupReaches | internal/hub/sync.go:70-87 | a label group without member rows reaches exactly the nodes that carry its pair |
| Selection.ListsAreLiteral | internal/hub/node.go:224-277 | listed nodes and static member rows select exactly themselves |
| Selection.LabelsDecide | internal/hub/sync.go:88-110 | after the labels of a node are set, an enabled task for one of its pairs is desired there and one for another value is not |
| Selection.DesiredWrittenOut | internal/hub/sync.go:60-185 | the desired state row by row: enabled tasks aimed at the node, the enabled scripts they name, all their schedules, the assigned applications |
| AgentSync.Agent.ApplySync | internal/agent/agent.go:563-693 | tables and revision change together or not at all; the mutex ends free on every path but a failed commit; on success the scheduler holds exactly the enabled stored schedules |
| AgentSync.Agent.BeginSync | internal/agent/store.go:232-242 | the mutex is held exactly when the transaction is open |
| AgentSync.Agent.ApplyList | internal/agent/agent.go:577-638 | fails exactly when an entry does not parse, else stores and removes entry by entry; the scheduler loses exactly the deleted schedules reached so far |
| AgentSync.Agent.ApplyUpserts | internal/agent/agent.go:577-638 | the four lists in order, up to the first entry that does not parse; the scheduler loses exactly the deleted schedules reached |
| AgentSync.Agent.BuryAll | internal/agent/agent.go:665-678 | every tombstoned row goes, and tombstoned schedules leave the scheduler |
| AgentSync.Agent.ReloadScheduler | internal/agent/agent.go:429-442 | the scheduler holds exactly the stored schedules that parse and are enabled |
| AgentSync.Agent.CommitSync | internal/agent/store.go:244-254 | commits all or nothing and releases the mutex even when the commit fails |
| AgentSync.Agent.RollbackSync | internal/agent/store.go:256-266 | releases the mutex again when no transaction is open |
| AgentSync.Agent.PruneObjects | internal/agent/store.go:490-535 | keeps exactly the rows that the response lists as not deleted |
| AgentSync.SnapshotReplaces | internal/agent/agent.go:563-660 | applying a snapshot leaves exactly its objects, whatever was stored before |
| SyncProtocol.AnswerApplied | internal/agent/agent.go:563-693 | applying an exact answer leaves the node's desired state without the tombstoned objects, at the Hub's revision |
| SyncProtocol.FullEqualsIncremental | internal/hub/sync.go:240-299 | a full resync and an incremental response leave any two Agents in the same state, when no live object is tombstoned |
| SyncProtocol.FullDiffersFromIncremental | internal/hub/sync.go:272-287 | they differ exactly when a desired object was tombstoned after the requested revision |
| SyncProtocol.BehaviorInv | internal/hub/sync.go:228-269 | the inductive invariant of all runs: torn reads, mutations in between, late, repeated and lost responses |
| SyncProtocol.RevisionMeansInSync | internal/hub/sync.go:228-269 | in every reachable state an Agent with the Hub's revision stores exactly the desired state now |
| SyncProtocol.QuietExchangeSyncs | internal/agent/agent.go:541-693 | one exchange without a mutation in between synchronises from any state |
| SyncProtocol.CarefulKeepsGraves | internal/hub/definitions.go:90-114 | careful callers meet the side condition of the main theorem |
| SyncProtocol.ResurrectedObjectIsLost | internal/hub/sync.go:272-287 | without it an Agent at the Hub's revision can lack a desired application |
| SyncContents.AnswerSince | internal/hub/sync.go:240-299 | for an Agent in sync after i of n transactions: a full resync exactly if more than the window committed since, else tombstones exactly for the objects deleted since |
| SyncContents.LastEntryDecides | internal/agent/agent.go:577-638 | the last entry about an object decides; what no entry mentions stays |
| SyncContents.RefusedExactly | internal/agent/agent.go:577-638 | a response is refused as a whole exactly if a script, task or schedule in it does not parse |
| SyncContents.PlanExactly | internal/agent/agent.go:563-693 | what an applied response leaves of one object: nothing under a tombstone, else its last entry, else nothing after a snapshot or full resync and the old row otherwise |
| SyncContents.SchedulerRunsDesired | internal/agent/agent.go:429-442 | after an applied exact answer the scheduler runs exactly the enabled desired schedules that carry no tombstone |
| SyncContents.FailedSyncRemoves | internal/agent/agent.go:577-678 | exactly which scheduler entries a failed sync has removed |
| DeploymentPaths.RecoveryAimsRight | internal/agent/application.go:578-605 | recovery resolves the files that deploy wrote exactly when the definition it finds agrees with the request on binary, service name and config, defaults and suffix counted in |
| DeploymentRecovery.RecoveryRestores | internal/agent/application.go:536-609 | whatever files recovery aims at and whichever writes are refused, the deployed files are back exactly when each original lands on its own file, or is in place with nothing landing on it; for a skipped row, exactly if nothing needed restoring |
| DeploymentRecovery.RecoveryRestoresOwn | internal/agent/application.go:536-609 | for the deployed files: exactly when each original is in its recorded backup, torn ones included, or in place where there is none to read |
| DeploymentRecovery.RecoveryConverges | internal/agent/application.go:578-609 | any number of start-up passes over many rows, each cut after any effect, torn unit files included, then a complete one: the files of an unfinished deployment are back; skipped rows may have any files |
| DeploymentRecovery.PassEnds | internal/agent/application.go:578-609 | after a complete pass every listed row reads DONE or ROLLING_BACK, each that read anything else reads ROLLING_BACK, and nothing else of any row changed |
| DeploymentRecovery.SkippedIsFinal | internal/agent/application.go:583-585 | no pass, cut short or not, and no number of them, changes a file or the row of a skipped deployment |
| DeploymentRecovery.RefusalIsFinal | internal/agent/application.go:606-607 | after one pass with refused writes and any later ones the files are the old ones exactly if no refused write was needed |
| DeploymentRuns.DeployIsSafe | internal/agent/application.go:304-447 | with an existing binary, or nothing to overwrite, the journal is ahead of the files in every world of every run, except while the recorded backup of the binary is half written |
| DeploymentRuns.DeployCrashRecovers | internal/agent/application.go:228-447 | a crash in any world of a deployment that reads unfinished with no half-written binary backup, then any number of crashing recoveries and a complete one: all is as before |
| DeploymentRuns.RepairedExactlyWhenCovered | internal/agent/application.go:304-338 | without a half-written binary backup, every crash of every run is repaired exactly if the binary existed, or no existing file gets new content, or the request can never be accepted |
| DeploymentRuns.RepairedExactlyUnlessTorn | internal/agent/application.go:306-311 | a covered run contains a crash that recovery makes worse exactly if it comes as far as the backup and its write can be seen half done |
| DeploymentRuns.CrashRepairedExactly | internal/agent/application.go:306-311 | world by world: recovery repairs a crash of a covered run exactly if the recorded binary backup is not half written |
| DeploymentRuns.GapExactly | internal/agent/application.go:424-425 | a run contains a world that recovery skips with changed files exactly if it is refused something after an existing file changed, or its undo tears a unit file |
| DeploymentRuns.AbandonedForGood | internal/agent/application.go:578-609 | no recovery pass repairs such a world |
| DeploymentRuns.DeployEnds | internal/agent/application.go:228-447 | success leaves the new files and DONE; a refusal ROLLING_BACK, with the old files if nothing was written or the undo is complete |
| DeploymentRuns.DeployKeepsOthers | internal/agent/application.go:228-447 | a deployment of other files leaves every other one as recoverable, or as restored, in every world |
| DeploymentRuns.OtherBinaryOverwritten | internal/agent/application.go:588-607 | with a definition that is missing or names another binary, recovery keeps the new binary and overwrites the other file |
| DeploymentPhases.PhaseTells | internal/agent/application.go:228-447 | in every world of every run: nothing but the binary is new before REPLACED, the new binary is in place at REPLACED, all new files from STARTED on, the service started at VERIFYING and DONE, and the old one stopped while files are replaced |
| DeploymentPhases.DoneExactly | internal/agent/application.go:228-447 | a run ends DONE exactly if everything it needs is granted, the health check included |
| DeploymentPhases.NewFilesInPlace | internal/agent/application.go:340-385 | a success leaves artifact and config if asked for, the new unit, and every other file as it was |
| DeploymentPhases.RunsIfRestored | internal/agent/application.go:536-575 | after recovery, and after a failed run, the service runs exactly if the old binary was written back |
| DeploymentPhases.BinaryBeforePhase | internal/agent/application.go:350-360 | a crash may find the new binary under PREPARING or STOPPED |
| DeploymentPhases.UnitHalfWritten | internal/agent/host/container.go:245-252 | a crash may find the unit file half written by deploy |
| DeploymentPhases.RecoveryHalfWritten | internal/agent/application.go:558-565 | a crash may find it half written by recovery |
| DeploymentPhases.DefaultsAreOwn | internal/agent/application.go:592-605 | without names of its own an application gets files named after its id, which no other application has |
| DeploymentPhases.RequestNamesFiles | internal/agent/application.go:271-304 | the request names binary, config and unit, with or without the suffix; the stored definition fills in the binary |
| DeploymentMachine.Machine.BackUp | internal/agent/application.go:304-338 | phase and backup path are recorded, then binary, config and unit are copied, each in two steps, then their paths recorded; every world on the way is one a crash may hit |
| DeploymentMachine.Machine.InstallUnit | internal/agent/host/container.go:245-252 | the unit file may be left half written, or written without a reload |
| DeploymentMachine.Machine.WriteFiles | internal/agent/application.go:341-385 | binary, config and unit go in up to the first refusal, the phase after the binary |
| DeploymentMachine.Machine.BringUp | internal/agent/application.go:386-423 | reload, enable, start and health check in order; files and backups stay |
| DeploymentMachine.Machine.Rollback | internal/agent/application.go:536-575 | exactly the recorded and readable backups are written back where the host accepts it; without a binary backup nothing is |
| DeploymentMachine.Machine.Open | internal/agent/application.go:228-350 | what precedes the first write: a refusal leaves the row ROLLING_BACK |
| DeploymentMachine.Machine.Deploy | internal/agent/application.go:228-447 | the whole of deploy adds exactly the worlds of the trace that the theorems of DeploymentRuns are about, and answers exactly whether it succeeds |
| DeploymentMachine.Machine.RecoverDeployments | internal/agent/application.go:578-609 | the loop equals recovery row by row; PassEnds says which rows it rolls back |
| AgentJournal.AtMostOnce | internal/agent/agent.go:712-764 | over redelivery, races and restarts each execution id and each non-empty slot of a task on a node starts at most once |
| AgentJournal.RowBeforeStart | internal/agent/agent.go:717-764 | a start happens only in a state that has its journal row, and only once |
| AgentJournal.InterruptedNeverReruns | internal/agent/agent.go:1398-1410 | after a restart no known id and no known slot ever starts again; what ran is FAILED and unsynced |
| AgentOutcomes.SuccessWasStarted | internal/agent/agent.go:746-752 | over every run from an empty journal a SUCCESS row was started, and a final row that never was says BLOCKED with -1 or FAILED, and why |
| AgentOutcomes.GateExactly | internal/agent/agent.go:746-764 | what the Hub sent starts exactly when READY, a scheduled run exactly when complete; a refused request ends BLOCKED with -1, a refused deployment FAILED |
| AgentOutcomes.NothingSentStartsUntilReady | internal/agent/agent.go:746-764 | after a restart, until READY, only the Agent's own schedules start anything |
| AgentOutcomes.FinishRecords | internal/agent/agent.go:888-910 | a finished run leaves exactly its outcome, unsynced; nothing but a restart or an acknowledgement changes a running row otherwise |
| AgentOutcomes.ArriveExactly | internal/agent/store.go:578-587 | a request gets a RUNNING row exactly if its id is new and no row has its task, node and non-empty slot |
| AgentJournal.Agent.CreateExecution | internal/agent/store.go:578-587 | the insert fails exactly on a known id or an occupied slot |
| AgentJournal.Agent.OnRunExecution | internal/agent/agent.go:712-764 | insert, then the READY gate, then the start; a known id or slot changes nothing |
| AgentJournal.Agent.OnDeployRequest | internal/agent/agent.go:1185-1215 | the same for deployments, which end FAILED when not ready |
| AgentJournal.Agent.TriggerSchedule | internal/agent/agent.go:1253-1352 | the lookup by slot may be overtaken; the index still stops a second row |
| AgentJournal.Agent.RecoverInterruptedExecutions | internal/agent/agent.go:1398-1410 | exactly the RUNNING rows become FAILED and unsynced |
| AgentJournal.Agent.ReconcileExecutions | internal/agent/agent.go:483-492 | each unsynced row is sent once, and no other |
| HubExecutions.TruncateLog | internal/hub/execution.go:607-613 | at most one MiB, always a prefix, and all of it when it fits |
| HubExecutions.AckMeansStored | internal/hub/gateway.go:405-422 | a positive acknowledgement means that the row exists, and is final if the result was |
| HubExecutions.TerminalAbsorbs | internal/hub/execution.go:286-377 | a final row never changes under any further messages exactly if none of them is a start of that execution |
| HubExecutions.FirstTerminalDecides | internal/hub/execution.go:402-495 | the first accepted final result fixes the whole row |
| HubExecutions.HandleKeepsSlots | internal/store/migrate.go:293-301 | no message breaks the slot index |
| HubExecutions.ExecutionManager.MarkStarted | internal/hub/execution.go:268-284 | a start makes any existing row RUNNING |
| HubExecutions.ExecutionManager.MarkFinished | internal/hub/execution.go:286-377 | an unknown result is created, a final row kept, any other updated; acknowledged unless a key stops it |
| HubExecutions.ExecutionManager.HandleDeployResult | internal/hub/execution.go:402-485 | the same for deployments |
| HubExecutions.ExecutionManager.CreateAndDispatch | internal/hub/execution.go:142-196 | an occupied slot is passed over; a refused dispatch leaves a FAILED row; any other error leaves nothing |
| HubExecutions.ExecutionManager.RunScheduledHub | internal/hub/execution.go:123-137 | the loop goes on over occupied slots and stops at the first other error |
| HubExecutions.ServesThePrefix | internal/hub/execution.go:123-196 | without refused messages, exactly the nodes before the first that cannot run are served |
| HubExecutions.SlotServedOnce | internal/store/migrate.go:293-301 | a slot that has an execution, even a failed dispatch, never gets another |
| ExecutionProtocol.RunKeepsInv | internal/agent/agent.go:483-539 | the invariant of all orderly runs: loss, repetition, reordering, restarts, half-handled acknowledgements |
| ExecutionProtocol.SyncedMeansStored | internal/agent/agent.go:526-539 | if only finished rows are uploaded and no start overtakes its result, a final synced row is on the Hub with the same status |
| ExecutionProtocol.ReconnectDelivers | internal/agent/agent.go:494-539 | from every such state one accepted upload and its acknowledgement make the row synced, on both sides equal |
| ExecutionProtocol.StepLoses | internal/agent/agent.go:526-539 | a step keeps everything that counts as delivered exactly if it is none of three: the acknowledgement of a row the Hub does not hold like that, a scheduled run given up while its RUNNING row counts as delivered, a start of a delivered one |
| ExecutionProtocol.RunLosesNothingExactly | internal/agent/agent.go:494-539 | over any possible run from the start, orderly or not, results that count as delivered are never lost exactly if no event is one of the three that lose one |
| ExecutionProtocol.LateAckLosesResult | internal/agent/store.go:637-652 | a RUNNING upload, acknowledged late, marks a lost result as delivered |
| ExecutionProtocol.StaleAckErasesResult | internal/agent/agent.go:526-539 | if the handler read the row before the run finished, the result itself is overwritten |
| ExecutionProtocol.LateStartReopens | internal/hub/execution.go:268-284 | a start after the result reopens a delivered execution |
| ExecutionResults.ResultStored | internal/hub/execution.go:286-495 | an accepted result that finds no final row is stored field by field, output cut off at one MiB; what the message leaves empty stays |
| ExecutionResults.StartsAndRefusals | internal/hub/execution.go:268-377 | a start sets status and start time only; a result is refused exactly if its row would take an occupied slot |
| ExecutionResults.ServedRowsAre | internal/hub/execution.go:123-196 | a row that serving a slot adds is PENDING if the message was sent, FAILED and the last one if it was refused |
| ExecutionResults.ReportsCarry | internal/agent/agent.go:494-524 | an upload carries everything the row says, a deployment report whether it succeeded and why not |
| ExecutionResults.OutputsArrive | internal/agent/agent.go:483-539 | in every orderly run a final synced row is on the Hub with the same key, status, exit code and output |
| Timing.CronIncreases | internal/hub/cron.go:11-29 | the instants of successive cron runs strictly increase |
| Timing.CronCoversOnce | internal/hub/cron.go:11-29 | every matching instant up to a tick that could fire is stood for by exactly one run, at the earliest instant of its batch |
| AgentScheduler.SchedulesIndependent | internal/agent/scheduler/scheduler.go:100-135 | one pass over all schedules treats each as if it were alone |
| AgentScheduler.OnlyOwnedRun | internal/agent/scheduler/scheduler.go:100-135 | a pass over any list is the pass over the schedules the Agent owns; any other one triggers nothing |
| AgentScheduler.Scheduler.UpdateSchedules | internal/agent/scheduler/scheduler.go:46-62 | the table holds exactly the enabled schedules, and the memory of fires is kept |
| AgentScheduler.Scheduler.RemoveSchedule | internal/agent/scheduler/scheduler.go:75-81 | schedule and last fire go; no slot is forgotten, as slots are filed under another key |
| AgentScheduler.Scheduler.CheckDue | internal/agent/scheduler/scheduler.go:100-135 | triggers exactly the schedules that are due in a new slot |
| AgentRuns.ScheduledAtIsLatest | internal/agent/scheduler/scheduler.go:176-204 | every interval run carries an instant at most now and less than one period old |
| AgentRuns.TriggersSpaced | internal/agent/scheduler/scheduler.go:176-204 | with tick gaps g of at most a period P, triggers are at least P and less than P+g apart, under both policies, and never stop |
| AgentRuns.TriggerTimes | internal/agent/scheduler/scheduler.go:176-204 | the j-th later trigger lies in [t + jP, t + j(P+g)) |
| AgentRuns.SkipResumesOnGrid | internal/agent/scheduler/scheduler.go:195-202 | after an outage of any length SKIP gives up one evaluation and fires at the next boundary of the old grid, and the slot table does not suppress it |
| AgentRuns.RunOnceStartsNewGrid | internal/agent/scheduler/scheduler.go:203-204 | RUN_ONCE makes up with one run and then waits a full period |
| AgentRuns.NoAnchorNeverRuns | internal/agent/scheduler/scheduler.go:138-147 | without fire and creation time an interval schedule never runs |
| AgentRuns.CronFollowsRule | internal/agent/scheduler/scheduler.go:157-175 | the Agent's cron runs, slot table included, are those of the common rule |
| AgentRuns.OneTimeTriggersOnce | internal/agent/scheduler/scheduler.go:205-217 | a one-time schedule with RUN_ONCE triggers exactly at the first tick after its instant; with SKIP never |
| AgentRuns.CronLooksBackOneSecond | internal/agent/scheduler/scheduler.go:157-175 | without fire and creation time a cron schedule is due exactly for an instant of the last second |
| HubScheduler.ScheduleManager.RunDueHub | internal/hub/schedule.go:170-200 | the loop serves every due schedule of the Hub's own that has a plan and remembers only those fires |
| HubScheduler.DueInPeriod | internal/hub/schedule.go:241-264 | in the k-th period a schedule is due at the k-th boundary on every tick, exactly if k is at least 1 and the policy is RUN_ONCE |
| HubScheduler.BoundariesHaveOwnSlots | internal/hub/execution.go:170-180 | truncation to seconds keeps the boundaries of a schedule apart |
| HubScheduler.OneExecutionPerBoundary | internal/store/migrate.go:293-301 | over any ticks and restarts a boundary has at most one execution per task and node, which never changes again |
| HubScheduler.PeriodServesPrefix | internal/hub/execution.go:123-196 | over any ticks of a period, restarts between them and other schedules beside it, the nodes with the slot of the boundary are those that had it and, once ticked, the able prefix of the target list |
| HubScheduler.SkippersNeverRun | internal/hub/schedule.go:254-264 | over any ticks and restarts and any mixed lists, the run equals the one without the interval and one-time schedules that skip misfires |
| HubScheduler.NotOursNeverRun | internal/hub/schedule.go:170-200 | over any ticks, restarts and mixed lists, the run equals the one without the disabled and the Agent-owned schedules |
| HubScheduler.OneSideOnly | internal/hub/schedule.go:170-200 | what the Hub serves, no Agent triggers |
| HubScheduler.UntimedNeverRun | internal/hub/schedule.go:241-280 | what cannot be timed runs on neither side |
| HubScheduler.OneTimeServed | internal/hub/schedule.go:267-279 | a one-time schedule with RUN_ONCE is served under its instant on the ticks after it, and on no other |
| HubScheduler.SlotIsSecond | internal/hub/execution.go:170-180 | two instants share a slot exactly within the same second |
| HubScheduler.HubCronFollowsRule | internal/hub/schedule.go:170-200 | between restarts the Hub's cron runs are those of the common rule |
| FileUpload.Staging.HandleUpload | internal/hub/file_transfer.go:252-363 | the checks in their order, the bytes appended, and the three ways a request ends |
| FileUpload.StagedIsPrefix | internal/hub/file_transfer.go:252-363 | after any partial, repeated, mis-offset or canceled uploads of an unchanged source the staged part is a prefix of it and a completed blob equals it |
| FileUpload.RequestAppends | internal/hub/file_transfer.go:252-363 | any request: it changes nothing unless size, range, offset and length fit, then appends what arrived; it completes exactly if all announced bytes arrived and were persisted |
| FileUpload.PartOnlyGrows | internal/hub/file_transfer.go:252-363 | over any requests the part only grows at its end, within the limit, until it becomes the blob |
| FileUpload.InSyncExchange | internal/hub/file_transfer.go:288-337 | one uncut exchange at the right offset completes exactly if the part is shorter than the source or the source is empty |
| FileUpload.FullPartIsStuck | internal/hub/file_transfer.go:544-556 | a complete part of a non-empty source that was not completed never will be |
| FileUpload.StuckIsReachable | internal/hub/file_transfer.go:316-326 | one upload that fails after its last byte leads there |
| FileUpload.Staging.UploadFile | internal/agent/agent.go:967-1034 | five attempts; success means that the Hub holds the source; the first exchange that takes place at the right offset suffices; with a lossless network the exact condition of success |
| FileUpload.DownloadFile | internal/agent/agent.go:1051-1115 | succeeds exactly if the body arrived whole, has the expected size and digest and the host wrote it; else the destination is unchanged |
| FileUpload.VerifyingFileReader.Verify | internal/agent/agent.go:1103-1115 | the first check compares size and digest of all that passed through, later ones accept |
| FileUpload.DeliveredIsSource | internal/agent/agent.go:1089-1115 | with a digest that tells files apart the delivered file is the source |
| FileTransfers.SuccessIsTrue | internal/hub/file_transfer.go:411-456 | in every reachable state SUCCESS means that every target has the file |
| FileTransfers.CanceledForGood | internal/hub/file_transfer.go:493-515 | after a cancellation no writer changes row or targets |
| FileTransfers.WrittenOnce | internal/hub/file_transfer.go:341-363 | digest and size never change once set |
| FileTransfers.TargetMoves | internal/hub/file_transfer.go:184-515 | the transition table of a target under every event |
| FileTransfers.DeliveredExactly | internal/hub/file_transfer.go:411-456 | over any run a target counts as delivered exactly if its node was heard to report so and no failure since |
| FileTransfers.ResultDecides | internal/hub/file_transfer.go:411-456 | after a delivery result SUCCESS, FAILED and DELIVERING mean exactly: all have it, all are through and one has not, one is to come |
| FileTransfers.StatusMoves | internal/hub/file_transfer.go:139-515 | the transition table of the transfer under every other event; digest and size are set by the complete upload only |
| FileTransfers.ConverseBreaks | internal/hub/file_transfer.go:395-515 | exactly which events make a row deny that all its targets have the file |
| FileTransfers.RetryOfFinishedHangs | internal/hub/file_transfer.go:458-490 | a retried finished transfer stays in DELIVERING except for three events |
| FileTransfers.FileTransferManager.HandleDeliveryResult | internal/hub/file_transfer.go:411-456 | the loop leaves the status equal to the fold over the targets |
| FileTransfers.FileTransferManager.DispatchSource | internal/hub/file_transfer.go:139-161 | UPLOADING when the message is accepted, PENDING when it is refused, nothing otherwise |
| FileTransfers.FileTransferManager.DispatchTarget | internal/hub/file_transfer.go:184-212 | the same for a target |
| FileTransfers.FileTransferManager.ResumeNode | internal/hub/file_transfer.go:164-182 | a reconnect dispatches the source and exactly the open targets of that node |
| FileTransfers.FileTransferManager.CompleteUpload | internal/hub/file_transfer.go:341-363 | digest, size and DELIVERING, then every open target is dispatched |
| FileTransfers.FileTransferManager.Retry | internal/hub/file_transfer.go:458-490 | exactly the selected failed targets are dispatched again |
| FileTransfers.FileTransferManager.Cancel | internal/hub/file_transfer.go:493-515 | every target without the file is given up |
| LogBuffers.LimitedBuffer.Write | internal/agent/execution/runner.go:241-275 | one Write is the sequence of atomic steps of the interleaving model, for any values of the shared counter |
| LogBuffers.BuffersArePrefixes | internal/agent/execution/runner.go:231-275 | in every interleaving each buffer is a prefix of its stream within its limits, and truncated exactly if a byte was dropped; stderr keeps all its own limit allows |
| LogBuffers.WideCapNeverBinds | internal/agent/execution/runner.go:92-106 | with the Agent's setting the shared counter never cuts anything |
| LogBuffers.TotalKeptExactly | internal/agent/execution/runner.go:92-106 | all runs keep both buffers together within a positive total limit exactly if stderr may hold nothing or the two limits add up to no more |
| LogBuffers.CapBindsOnlyStdout | internal/agent/execution/runner.go:100-106 | a tighter total limit is exceeded by stderr alone and starves stdout |
| LogBuffers.Forward | internal/agent/execution/runner.go:293-311 | the chunks are non-empty, at most 64 KiB, full except the last, and together are the input |

## Left out

- Web UI, REST handlers, authentication, OIDC, metrics, entry points: no protocol state.
- Wire encoding, WebSocket, HTTP and TLS: messages are values; JSON is either readable or not.
- SQL: tables are maps and sets under the stated keys, a transaction is a copy that is committed;
  read errors do not occur, and of write errors only key violations and a failed commit.
- Row order of queries, audit rows, and the pruning of the change log.
- The artifact table and the URL and digest that a response adds to an application: they change
  payloads without taking a revision.
- Node registration and the labels an inventory writes back: labels change only by SetLabels.
- Validation of tasks and the merging of fields in partial updates: a mutation carries the merged object.
- TaskManager, ScheduleManager and AppManager share the shape of the transactions cited for scripts.
- Deployment: reading the old files and writing the backups and the journal succeed; a refused write
  leaves its file as it was, except for the unit of a deployment; health checks are a boolean;
  registering the unit, downloading artifacts and building the unit text are parameters; unit names are
  only checked as a boolean.
- DeploymentRuns.DeployCrashRecovers: the three files differ, the definition names them in every recovery
  pass, and the host accepts the restoring writes of the row; RecoveryRestores and RefusalIsFinal say what
  happens otherwise. Two deployments at once on one application are not modelled.
- Execution details: conditions, retries of a run, redaction, realtime log chunks, the Hub's count of
  active executions and the application states it stores besides; an update whose task collides with another slot is refused.
- UpsertFromAgent: the gateway does not reach it.
- Schedules: time zones are integers, the cron parser is a function; its zero answer for an expression that never matches is left out.
- AgentRuns.CronFollowsRule: between two restarts only; after a restart the creation time is the reference again and the slot indices decide.
- File transfers: handlers are atomic, so the race between an upload in progress and a cancellation is not modelled; error texts, file modes
  and path checks are left out; several transfers are independent.
- FileUpload.StagedIsPrefix: the source does not change during the transfer, as for a changing file the code promises nothing.
- Killing process groups, timeouts and exit codes of a run.
