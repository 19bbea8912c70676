# Verification of the multi-process router

A Dafny 4.11 model of `sglang_omni_router/`: one control plane, several data planes and a supervisor that keep
a pool of model-serving workers routable. `dafny verify dfyconfig.toml` checks everything.

The system is a small distributed one, and the model is built around its failure modes: processes that die between
any two stores or any two steps, a network that delays, repeats, reorders and loses messages, and a disk that
forgets whatever was not made durable. Protocols are step relations over all interleavings, with one inductive
invariant each; objects that the router updates in place are classes, and their methods are proved against the
functions the protocols are made of.

Most files are about the multi-process router. `VoiceRouting` is about the single-process one: the multi-process
control plane and data planes have no voice routing (`control_plane.py:408`, `data_plane.py:253`), so of
`ControlPlane` the refusals for a voice owner concern the single-process router, and the publications only the
multi-process one; registry handlers and journal are common to both. `Worker`, `JsonText`, `JsonScanner` and
`LargeRequest` are the request path of either.

| File | What it is about |
|---|---|
| `RouterTypes`, `Worker`, `Sums` | registry, snapshots, journal documents, worker counters, finite sums |
| `InternalChannel` | registration, heartbeats, generation fencing, the acknowledgement barrier |
| `UpdateJournal` | the weight-update journal on a disk that may lose power between any two operations |
| `SnapshotFile` | the snapshot file, its writer and its polling reader |
| `WeightUpdate`, `WeightUpdateSafety` | the weight-update transaction as a step relation over the whole router, and its invariant |
| `ControlPlane` | the registry handlers: recovery, the locked broadcast, worker edits |
| `Seqlock` | one shared-memory slot, store by store |
| `AdmissionBound`, `AdmissionFold`, `SharedAdmission` | the soft in-flight bound, the fold of dead slots, and the admission object |
| `Supervisor` | spawning, reaping, reclaiming and giving up |
| `CounterLedger`, `CounterRefinement`, `CounterExcess`, `CounterLedgerStore` | the ledger of cumulative counters, the flat history it refines, by how much it can exceed that history, and the nested dictionaries |
| `DataPlaneView` | the snapshot-fed worker view and its retiring objects |
| `CounterPipeline` | counters end to end, from Worker objects to displayed totals |
| `VoiceRouting` | the cached voice registry and its agreement with the owner's |
| `FailureDedup` | at-most-once application of failure events |
| `JsonText`, `JsonScanner` | the scanner for request bodies too large to parse |
| `LargeRequest` | routing of such requests, and worker selection |

Where the code does not do what one would expect, the model follows the code:

- A PUT that re-enables a worker discards its journal entry before the voice-owner rule can reject the request.
  The contract of `ControlPlane.ControlPlaneApp.Update` says exactly when such a rejection leaves the journal alone.
- A counter segment that vanishes from a report and later returns is counted twice, and one named twice in a report
  can be. `CounterExcess.DisplayIsHistoryExactlyWhen` says over every report stream exactly when the displayed totals
  are those of the history; `CounterExcess.ExcessOnlyGrows` that they are never below it. `CounterPipeline` proves that
  data planes send no such report.
- The scanner keeps an earlier value when a repeated key later carries `null` or `""`.
  `JsonScanner.ScanAgreesExactlyWhen` says exactly for which texts it agrees with parsing.
- The scanner refuses a well-formed text in which some number is longer than 128 characters, which parsing does not mind;
  `JsonScanner.ScanNotesEveryMember` says that it refuses no other.
- The admission bound is soft: `AdmissionBound.SoftBound` is its limit, and `OvershootHappens` shows that some run reaches it.

## Model

| member | source | states |
|---|---|---|
| `WeightUpdateSafety.RunInv` | sglang_omni_router/app.py:969-1053 | in every reachable state of every run, with crashes of any process and of the host, one invariant ties journal, registry, snapshot file, views and acknowledgements together |
| `WeightUpdateSafety.BroadcastExclusion` | sglang_omni_router/control_plane.py:199-230 | from the moment the barrier passes until the outcome is published, no data plane can select an update target |
| `WeightUpdateSafety.AckedMeansDisabled` | sglang_omni_router/app.py:1001-1007 | a passed barrier means that no view, no snapshot being read and not the file itself enables a target |
| `WeightUpdateSafety.FailClosedAcrossCrashes` | sglang_omni_router/app.py:61-106 | once a broadcast may have reached a worker, it is unroutable in the registry, the file and every view, and guarded by the journal at any crash, until an operator vouches for it or all targets are known to have succeeded |
| `WeightUpdateSafety.UncertainRefusesUpdates` | sglang_omni_router/app.py:888-967 | while any worker is uncertain no new update can begin |
| `WeightUpdateSafety.OutcomeRestoresOrShuts` | sglang_omni_router/app.py:969-1083 | in every run: when an update ends by timeout or by success everywhere, every worker has the disabled flag it had when that update began, with probes, publishes and messages interleaved; when it ends by cancellation or a failing worker, all targets are disabled and journaled and nobody else changed |
| `WeightUpdateSafety.FailedPublishShuts` | sglang_omni_router/app.py:1000-1004 | the one other way an update ends, a failing publish before the barrier: likewise all targets disabled and journaled and nobody else changed |
| `WeightUpdateSafety.OutcomeStands` | sglang_omni_router/app.py:1022-1053 | and so it stays until the transaction ends, while the outcome is recorded and published |
| `WeightUpdateSafety.AcksAreSound` | sglang_omni_router/internal_channel.py:116-142 | a record of the running epoch never claims more than that process has applied, nor can its successor be behind it |
| `WeightUpdateSafety.DeliveredAcksPass` | sglang_omni_router/control_plane.py:199-230 | in every run: when every data plane has applied the disabled snapshot and beat, and its beat was delivered, the barrier passes at the next poll that finds them live |
| `WeightUpdateSafety.NewerFileIsApplied` | sglang_omni_router/data_plane.py:287-367 | in every run: a data plane that reads a newer file and applies what it read has that file as its view, whatever happens in between |
| `WeightUpdateSafety.NewerFileCanBeApplied` | sglang_omni_router/data_plane.py:287-367 | a live data plane can always read and apply a file newer than its view |
| `WeightUpdateSafety.RecordedGenerationsGrow` | sglang_omni_router/internal_channel.py:80-114 | no step lowers the generation recorded for a data plane while one control plane lives |
| `WeightUpdateSafety.SnapshotsNeverGoBack` | sglang_omni_router/snapshot.py:106-138 | neither the published file nor what one process applied ever moves back in publication order |
| `WeightUpdateSafety.BroadcastIsReachable` | sglang_omni_router/app.py:983-1022 | a concrete run, in which a data plane acknowledges one snapshot and then the next of the same epoch, reaches the broadcast window, so the guarantees are about states that exist |
| `WeightUpdateSafety.CpStepInv` | sglang_omni_router/control_plane.py:233-280 | crash, restart from the file or configuration, start-up publish, keepalive, probes and message handling keep the invariant |
| `WeightUpdateSafety.TxnStepInv` | sglang_omni_router/app.py:969-1053 | every phase of the transaction keeps it, with every write of file or journal allowed to fail |
| `WeightUpdateSafety.OperatorStepInv` | sglang_omni_router/app.py:485-575 | operator edits between updates keep it |
| `WeightUpdateSafety.DpStepInv` | sglang_omni_router/data_plane.py:287-367 | reading, applying, greeting, beating, dying and respawning keep it |
| `InternalChannel.MessageFenced` | sglang_omni_router/internal_channel.py:80-142 | one message touches only its own index, never lowers a generation, and an older generation changes nothing |
| `InternalChannel.RecordsFenced` | sglang_omni_router/internal_channel.py:80-142 | the same over any replayed or reordered stream; a process is replaced only with a new generation |
| `InternalChannel.AckNeverRegresses` | sglang_omni_router/internal_channel.py:128-142 | inside one epoch and generation the acknowledged number never goes back |
| `InternalChannel.BeatIsTaken` | sglang_omni_router/internal_channel.py:116-142 | a heartbeat is accepted if and only if the registered process of that generation sent it, and then stands in the table with its epoch and readiness and at least its number; 409 exactly for an older generation or another pid, 428 exactly for an unknown index or a newer generation, with nothing changed |
| `InternalChannel.HelloIsTaken` | sglang_omni_router/internal_channel.py:80-114 | a registration is refused exactly when fenced; registering again changes nothing, and a new process starts without acknowledgement |
| `InternalChannel.InternalChannelState.Register` | sglang_omni_router/internal_channel.py:80-114 | the table and reply after a registration are those of the channel's function |
| `InternalChannel.InternalChannelState.Heartbeat` | sglang_omni_router/internal_channel.py:116-142 | the table and reply after a heartbeat are those of the channel's function, which `InternalChannel.BeatIsTaken` pins down |
| `InternalChannel.AckBarrier` | sglang_omni_router/control_plane.py:199-230 | the polling loop succeeds exactly when the first decisive poll has every expected and every other live data plane acknowledged; a failure names exactly those pending |
| `UpdateJournal.UpdateJournal.Write` | sglang_omni_router/update_journal.py:207-229 | after a success only the new document can be found after a crash; after a failure the old or the new, never a torn one; it fails only if the disk failed an operation |
| `UpdateJournal.UpdateJournal.Begin` | sglang_omni_router/update_journal.py:153-154 | the whole journal state after recording the targets, for success and failure; it fails only if the disk failed an operation |
| `UpdateJournal.UpdateJournal.Keep` | sglang_omni_router/update_journal.py:156-171 | the targets stay guarded at every crash point whether or not the rewrite succeeds; it fails only if the disk failed an operation |
| `UpdateJournal.UpdateJournal.Discard` | sglang_omni_router/update_journal.py:173-190 | a true answer means exactly that id is gone and every other one still pending, durably; a crash at any point finds the old document or the one without the id; an unreadable journal is left alone; a readable one is discarded unless the disk failed an operation |
| `UpdateJournal.UpdateJournal.Clear` | sglang_omni_router/update_journal.py:192-205 | a success means that no crash can bring the entry back; it fails only if the disk failed an operation |
| `UpdateJournal.UpdateJournal.ReadDocument` | sglang_omni_router/update_journal.py:113-127 | what reading finds: nothing, a document, or bytes nobody can read |
| `UpdateJournal.UpdateJournal.Pending` | sglang_omni_router/update_journal.py:129-143 | the pending ids, or no answer for an unreadable journal |
| `UpdateJournal.UpdateJournal.HasPending` | sglang_omni_router/update_journal.py:145-151 | true exactly when a new update must be refused |
| `UpdateJournal.Disk.Replace` | sglang_omni_router/update_journal.py:221-226 | renaming a synced file into place leaves the old or the new document after a crash |
| `UpdateJournal.Disk.SyncDirectory` | sglang_omni_router/update_journal.py:235-250 | after syncing the directory only the visible document can survive |
| `UpdateJournal.Disk.Crash` | sglang_omni_router/update_journal.py:207-232 | what a crash leaves is one of the documents the earlier operations allowed |
| `SnapshotFile.SnapshotWriter.Publish` | sglang_omni_router/snapshot.py:55-74 | through temporary file, write and rename, any of which may fail: the number advances, the temporary file is gone, and the published name moved once to a file written whole, or not at all; numbers stay in order inside an epoch |
| `SnapshotFile.SnapshotDirectory.Replace` | sglang_omni_router/snapshot.py:66-68 | the rename is the only operation that changes what the published name refers to |
| `SnapshotFile.SnapshotReader.MaybeReload` | sglang_omni_router/snapshot.py:106-138 | with files replaced, vanishing or unreadable between the stat and the open: a file skipped for its identity had nothing to take, and an opened one is taken exactly as by a reader that remembers no identity; with files published in order the reader then holds exactly what the file it dealt with holds |
| `SnapshotFile.PublishThenReload` | sglang_omni_router/snapshot.py:55-138 | a published snapshot is taken by the next poll that finds it, whatever earlier publication the reader held |
| `SnapshotFile.SnapshotReader.MorePublished` | sglang_omni_router/snapshot.py:111-118 | files published later do not disturb what the reader remembers |
| `RouterTypes.RestoreAfterProbes` | sglang_omni_router/app.py:980-1027 | probes between disabling and restoring are kept and the flags come back as they were |
| `RouterTypes.ProbesInOrder` | sglang_omni_router/health.py:79-110 | the results of probes take effect one after the other and none is skipped |
| `ControlPlane.ControlPlaneApp.RecoverFromJournal` | sglang_omni_router/app.py:61-96 | start-up disables exactly the workers the journal blocks, or all if it cannot be read |
| `ControlPlane.ControlPlaneApp.BroadcastLocked` | sglang_omni_router/app.py:969-1053 | refused, only if the disk failed an operation, with registry and publications unchanged and the journal as a failed write may leave it, or stopped by a failing publish with all targets shut and journaled, or safe with every flag restored and only probes kept, or every target disabled and guarded; whatever is published before the outcome has all targets disabled and durably journaled, and the outcome is published after it was recorded; on a disk that does not fail it is never refused and its outcome is recorded durably |
| `ControlPlane.ControlPlaneApp.BroadcastUpdate` | sglang_omni_router/app.py:924-956 | under the lock an update is refused with nothing changed exactly when an earlier one is unresolved, nobody is alive, or a group update meets several workers; otherwise it goes to exactly the workers that are not dead |
| `ControlPlane.ControlPlaneApp.LiveWorkers` | sglang_omni_router/app.py:938-938 | the targets are the workers that are not dead, healthy or not |
| `ControlPlane.ControlPlaneApp.Start` | sglang_omni_router/app.py:985-1002 | journal, then disable, then publish; a failed journal write leaves registry and publications unchanged and the journal as a failed write may leave it, a failed publish leaves all targets disabled and journaled |
| `ControlPlane.ControlPlaneApp.Await` | sglang_omni_router/control_plane.py:251-262 | while a handler awaits, probes change health only, one after the other, and the keepalive publishes the registry as it is |
| `ControlPlane.ControlPlaneApp.Settle` | sglang_omni_router/app.py:1022-1053 | restore or fail closed, then the journal, then the publish, which may fail |
| `ControlPlane.ControlPlaneApp.ResolveJournal` | sglang_omni_router/app.py:1034-1052 | clears after a safe outcome and keeps the guard otherwise |
| `ControlPlane.ControlPlaneApp.Create` | sglang_omni_router/app.py:355-385 | a duplicate is refused; an id the journal blocks is registered disabled whatever its probe said |
| `ControlPlane.ControlPlaneApp.Delete` | sglang_omni_router/app.py:593-608 | removes exactly that worker; an unknown one and the voice owner are refused with nothing changed |
| `ControlPlane.ControlPlaneApp.Update` | sglang_omni_router/app.py:485-575 | each reply to a PUT of configuration, disabled and is_dead, with the exact registry, configuration, journal and publications it leaves; a re-enable rejected by the owner rule leaves the journal as it was if and only if the id was already durably unblocked; afterwards every field asked for holds and every other one is as it was; 503 for the journal if and only if a re-enable met an unreadable journal or a failing disk |
| `ControlPlane.RejectedPutKeepsJournal` | sglang_omni_router/app.py:526-539 | what a durable discard leaves equals what was there if and only if the id was already durably unblocked; the contract of Update states it of the rejected request |
| `ControlPlane.RejectedPutLosesEntry` | sglang_omni_router/app.py:526-553 | a request rejected by the owner rule that loses the only journal entry |
| `ControlPlane.WorkerPool.DisableIds` | sglang_omni_router/app.py:84-90 | the registry afterwards; unregistered ids are skipped |
| `ControlPlane.WorkerPool.DisableWorkers` | sglang_omni_router/app.py:1000-1002 | the loop over the target objects disables exactly their ids |
| `ControlPlane.WorkerPool.Rewrite` | sglang_omni_router/app.py:555-567 | configuration, disabled flag and death or revival of one worker, and nobody else |
| `ControlPlane.WorkerPool.RestoreDisabledState` | sglang_omni_router/app.py:1071-1083 | the remembered flags or all disabled, nothing else touched |
| `ControlPlane.WorkerPool.RememberDisabled` | sglang_omni_router/app.py:980-980 | the remembered flags are those of the registry, for exactly the targets |
| `ControlPlane.WorkerPool.Find` | sglang_omni_router/app.py:1226-1231 | finds the worker with an id if and only if it is registered |
| `Seqlock.ReadsAreAtomic` | sglang_omni_router/admission_shm.py:126-142 | every view a read returns is the field set of one completed write, or the zeros, and is what the slot holds at that instant, with writers dying between any two stores |
| `Seqlock.PublishedOnce` | sglang_omni_router/admission_shm.py:174-221 | of two completed writes in one run, with writers dying and being succeeded in between, the later publishes a larger even number |
| `Seqlock.PublicationsStand` | sglang_omni_router/admission_shm.py:174-221 | what was published under a number is never altered, and the sequence word never goes back |
| `Seqlock.ReadsAreOrdered` | sglang_omni_router/admission_shm.py:126-142 | later reads return no older number, and the same fields for the same number |
| `Seqlock.WriteProgramCompletes` | sglang_omni_router/admission_shm.py:144-172 | an uninterrupted write leaves its fields under the next even number, also over an odd leftover |
| `Seqlock.SlotCodec.BeginWrite` | sglang_omni_router/admission_shm.py:174-184 | the marker is odd and is the first store of the program |
| `Seqlock.SlotCodec.WriteFields` | sglang_omni_router/admission_shm.py:186-207 | exactly the given words are written in place |
| `Seqlock.SlotCodec.EndWrite` | sglang_omni_router/admission_shm.py:209-210 | publishes the next even number and nothing else |
| `Seqlock.SlotCodec.Write` | sglang_omni_router/admission_shm.py:144-172 | does exactly the stores of the write program |
| `Seqlock.SlotCodec.Reclaim` | sglang_omni_router/admission_shm.py:212-221 | zeros under a later even number, whatever was there |
| `Seqlock.SlotCodec.Read` | sglang_omni_router/admission_shm.py:126-142 | the first attempt that found the number even and unchanged, or none |
| `AdmissionBound.SoftBound` | sglang_omni_router/admission_shm.py:303-337 | with n data planes scanning slot by slot while others acquire, release, die and are reclaimed, neither the slots nor the admitted requests sum to more than the bound plus n - 1 |
| `AdmissionBound.OvershootHappens` | sglang_omni_router/admission_shm.py:26-28 | for every number of data planes and every bound some run brings the slots to exactly the bound plus n - 1 |
| `AdmissionBound.RunInv` | sglang_omni_router/admission_shm.py:279-337 | what every admitted check knows about every slot, in every run |
| `AdmissionBound.AdmitInv` | sglang_omni_router/admission_shm.py:320-336 | an admission after a complete scan keeps that knowledge |
| `AdmissionFold.ReadIsBetween` | sglang_omni_router/admission_shm.py:364-385 | a returned aggregate is at least the true count at the read's start without what torn reclaims have removed, and at most the true count at its end without what they had removed when it began |
| `AdmissionFold.ReadsNeverDecrease` | sglang_omni_router/supervisor.py:567-595 | a later read falls below an earlier one by no more than torn reclaims removed since any moment before the earlier one began; without such a reclaim since then it never falls, whatever died before |
| `AdmissionFold.SupervisorInv` | sglang_omni_router/supervisor.py:567-595 | no step of the fold counts a transferred rejection twice |
| `SharedAdmission.SharedAdmission.constructor` | sglang_omni_router/admission_shm.py:231-259 | claiming a slot writes only that slot, readable, with this identity and no requests |
| `SharedAdmission.SharedAdmission.TryAcquire` | sglang_omni_router/admission_shm.py:303-337 | admits exactly when the process owns its slot, no unreadable slot stands in the way and the sum is below the bound; every other answer of an owner is counted |
| `SharedAdmission.SharedAdmission.Release` | sglang_omni_router/admission_shm.py:339-353 | gives back one request; a stray or fenced release changes nothing |
| `SharedAdmission.SharedAdmission.TotalInflight` | sglang_omni_router/admission_shm.py:279-280 | the sum over all slots, or nothing as soon as one is unreadable |
| `SharedAdmission.AcquireThenRelease` | sglang_omni_router/admission_shm.py:303-353 | acquiring and releasing leaves the shared sum where it was |
| `SharedAdmission.AggregateToDict` | sglang_omni_router/admission_shm.py:364-385 | adds up the first pass that read every slot while the retired slot kept its number; an unreadable slot fails the whole call, and so do four unsettled passes |
| `Supervisor.OneLivePerSlot` | sglang_omni_router/supervisor.py:433-442 | two live processes of one slot are the same one, generations identify processes, and the live one has the highest |
| `Supervisor.SpawnKeeps` | sglang_omni_router/supervisor.py:433-442 | a spawn into an empty slot, or over a dead process with the next generation, keeps slot ownership |
| `Supervisor.TrailingMeans` | sglang_omni_router/supervisor.py:461-471 | the rapid-death count is the number of latest deaths in a row that were rapid |
| `Supervisor.RouterSupervisor.Start` | sglang_omni_router/supervisor.py:427-431 | the control plane and one live process of generation one per slot |
| `Supervisor.RouterSupervisor.SpawnDpSlot` | sglang_omni_router/supervisor.py:433-442 | the slot's new process, generation and carried death count, demanded to be over a dead predecessor |
| `Supervisor.RouterSupervisor.FoldAndReclaimSlot` | sglang_omni_router/supervisor.py:567-595 | with the owner dead: rejections are moved, not lost or doubled, the peak is kept, the slot is cleared under a later number; a torn slot moves nothing |
| `Supervisor.RouterSupervisor.Replace` | sglang_omni_router/supervisor.py:447-476 | reap, fold, count, and either stop or spawn exactly the next generation; its admission slot was folded and cleared before, also when this stops the supervisor |
| `Supervisor.RouterSupervisor.PollOnce` | sglang_omni_router/supervisor.py:444-498 | running children are left alone, each dead data plane is replaced by the next generation and a dead control plane by the next epoch, and it stops exactly when some child died rapidly as often in a row as allowed; every dead data plane it came to has its slot cleared under a later even number and its rejections and peak in the retired slot, and no slot of a running process is touched |
| `Supervisor.RouterSupervisor.Dies` | sglang_omni_router/supervisor.py:444-447 | any process may die between polls, none comes back, and the book stays in order |
| `Supervisor.RouterSupervisor.PollSlots` | sglang_omni_router/supervisor.py:446-476 | the loop over the slots, which stops exactly when one of their children died rapidly too often in a row, with every dead child's slot folded up to and including that one's |
| `Supervisor.FoldingConserves` | sglang_omni_router/supervisor.py:453-458 | a poll, however many it replaces, keeps the sum of all rejections if no owner died in the middle of a write, and never raises it |
| `Supervisor.FoldOneMore` | sglang_omni_router/supervisor.py:567-595 | folding one more dead slot on top of those folded before it is the fold of all of them |
| `Supervisor.RouterSupervisor.PollControlPlane` | sglang_omni_router/supervisor.py:478-498 | the control plane is respawned in a new epoch, unless it kept dying rapidly |
| `Workers.RecordingKeepsBalance` | sglang_omni_router/worker.py:135-149 | routed equals successful plus failed, in total and per class, classes never exceed totals, and counters only grow |
| `Workers.NothingRouted` | sglang_omni_router/data_plane.py:99-101 | an object that routed nothing has no counter to report, so forgetting it loses nothing |
| `Workers.Worker.RecordRoutedRequest` | sglang_omni_router/worker.py:135-149 | exactly the routed counter and that of the outcome, in total and in the class, go up by one: success for a status of 200 to 399, failure otherwise |
| `Workers.Worker.IncrementActive` | sglang_omni_router/worker.py:128-129 | one more request in flight |
| `Workers.Worker.DecrementActive` | sglang_omni_router/worker.py:131-133 | one less, demanded to be positive |
| `DataPlaneView.DataPlaneWorkerView.Apply` | sglang_omni_router/data_plane.py:103-141 | afterwards the view is the snapshot's, an object survives exactly when its url and incarnation do, the retiring list grew by exactly the used objects that left, and every worker's counts over live and retiring objects are unchanged |
| `DataPlaneView.DataPlaneWorkerView.ApplyRow` | sglang_omni_router/data_plane.py:105-137 | one row: in-place refresh, or a fresh object with the used old one retiring |
| `DataPlaneView.DataPlaneWorkerView.DropUnseen` | sglang_omni_router/data_plane.py:138-140 | takes off exactly the urls the snapshot no longer has |
| `DataPlaneView.DataPlaneWorkerView.Retire` | sglang_omni_router/data_plane.py:99-101 | keeps an object that ever carried a request; either way its counts stay accounted for |
| `DataPlaneView.DataPlaneWorkerView.ReportableWorkers` | sglang_omni_router/data_plane.py:85-89 | every live and every retiring object, each once |
| `DataPlaneView.DataPlaneWorkerView.DrainedRetired` | sglang_omni_router/data_plane.py:91-92 | exactly the retiring objects with no request in flight |
| `DataPlaneView.DataPlaneWorkerView.ReleaseRetired` | sglang_omni_router/data_plane.py:94-97 | drops exactly the reported objects |
| `CounterLedger.TotalsNeverDecrease` | sglang_omni_router/observability.py:121-206 | no report whatever lowers a displayed total: duplicate keys, regressed counts, vanished segments, new generations |
| `CounterLedger.AppliedExactlyWhenNewest` | sglang_omni_router/observability.py:121-145 | over every stream a report is applied if and only if every report handled before it of its data plane is older, by generation or by number |
| `CounterLedger.DisplayNeverMovesBack` | sglang_omni_router/observability.py:224-244 | totals and per-class totals never decrease over any report stream |
| `CounterLedger.AcceptedMoves` | sglang_omni_router/observability.py:146-206 | an accepted report changes each total by exactly what its items added |
| `CounterLedger.ItemGains` | sglang_omni_router/observability.py:153-190 | one reported item adds exactly its rise above the mark, or its count if new |
| `CounterRefinement.LedgerRefinesHistory` | sglang_omni_router/observability.py:121-244 | over report streams in which no accepted report names an object twice or brings one back, the displayed totals are those of a flat history: per data plane, generation and object, the largest value reported minus the first-contact baseline |
| `CounterRefinement.AcceptedRefines` | sglang_omni_router/observability.py:121-206 | one accepted report keeps nested ledger and flat history equal |
| `CounterRefinement.RecordKeepsBaseline` | sglang_omni_router/observability.py:153-182 | a mark is the larger of the two values; outside first contact a baseline never changes, and what a first report repeats stays in the baseline |
| `CounterRefinement.NewcomerCountsInFull` | sglang_omni_router/observability.py:155-172 | after first contact an object not seen before counts in full |
| `CounterRefinement.ReturningObjectCountsTwice` | sglang_omni_router/observability.py:192-196 | an object that vanishes and returns is counted twice, so the rule against it is needed |
| `CounterExcess.DisplayIsHistoryExactlyWhen` | sglang_omni_router/observability.py:121-244 | over every report stream, with objects that return or are named twice: a displayed total is the flat history's if and only if every reported item of the worker came with a first contact, or said no more than the entry held for its object, or found the entry holding all the history knew |
| `CounterExcess.ExcessOnlyGrows` | sglang_omni_router/observability.py:121-244 | over every report stream the display is never below the flat history and the excess never shrinks |
| `CounterExcess.ReportAgreesExactlyWhen` | sglang_omni_router/observability.py:153-196 | from agreement, a report that names each object once parts display and history exactly when an object of the worker is known, was dropped and comes back, with something counted both then and now |
| `CounterExcess.HandledExcess` | sglang_omni_router/observability.py:121-206 | any report whatever moves display and history apart by exactly the surplus of its items, never the other way |
| `CounterLedgerStore.DataPlaneCounterLedger.Apply` | sglang_omni_router/observability.py:121-206 | the nested dictionaries after a report flatten to the ledger it should give; stale and duplicate reports change nothing |
| `CounterLedgerStore.DataPlaneCounterLedger.RetireAll` | sglang_omni_router/observability.py:208-222 | folding segments into the retired totals loses and doubles nothing |
| `CounterLedgerStore.DataPlaneCounterLedger.Totals` | sglang_omni_router/observability.py:224-244 | all displayed counters of a worker are retired plus live contributions over every data plane |
| `CounterPipeline.CountersAreConserved` | sglang_omni_router/data_plane.py:376-431 | once a report was accepted, a displayed total is what all others contribute plus what every object ever held had counted when the report was built, minus the same at first contact, under lost, late and repeated reports, lost acknowledgements, deletions, replacements and restarts of the control plane |
| `CounterPipeline.CreditOfOne` | sglang_omni_router/observability.py:86-87 | the same object by object |
| `CounterPipeline.AcceptedTallyWasTaken` | sglang_omni_router/data_plane.py:381-410 | the tally a report is measured by is that of all objects at the moment it was built |
| `CounterPipeline.GoneObjectsAreCounted` | sglang_omni_router/data_plane.py:94-101 | an object no longer held counts with everything it ever counted |
| `CounterPipeline.AckedInv` | sglang_omni_router/data_plane.py:421-427 | releasing what had drained before an accepted report was built keeps the invariant |
| `CounterPipeline.NoneOfOursReturns` | sglang_omni_router/data_plane.py:85-101 | no acceptable report of a data plane revives an object the control plane dropped |
| `CounterPipeline.DeliverInv` | sglang_omni_router/control_plane.py:475-486 | accepting, or dropping, any report still in flight keeps the invariant |
| `CounterPipeline.ObjectStepInv` | sglang_omni_router/worker.py:128-149 | appearing, leaving, starting and finishing requests keep it |
| `VoiceAgreement.NoUploadedVoiceEscapes` | sglang_omni_router/voice_routing.py:173-201 | if the owner is not required although assigned, none of the names but the default is in its registry, over every interleaving of mutations, lost outcomes and fetches |
| `VoiceAgreement.TrustedAnswersExactly` | sglang_omni_router/voice_routing.py:189-201 | a trusted cache requires the owner exactly for names in its registry |
| `VoiceAgreement.StaleFetchIsDropped` | sglang_omni_router/voice_routing.py:225-245 | a registry read before a mutation began is never taken, however late it arrives |
| `VoiceAgreement.UndisturbedFetchIsTaken` | sglang_omni_router/voice_routing.py:227-258 | a fetch during which no mutation begins is taken: the cache is then trusted and is the owner's registry |
| `VoiceAgreement.MutationStepInv` | sglang_omni_router/proxy.py:413-433 | every way a mutation request can go keeps cache and registry in agreement |
| `VoiceAgreement.FetchStepInv` | sglang_omni_router/voice_routing.py:218-261 | so does every step of a reconciliation |
| `VoiceRouting.VoiceRoutingState.RequiresOwner` | sglang_omni_router/voice_routing.py:173-201 | the answer and the whole state after it, with or without an owner; an untrusted cache that is asked has a refresh under way or requested |
| `VoiceRouting.VoiceRoutingState.EnsureOwner` | sglang_omni_router/voice_routing.py:82-97 | the first worker that may own voices is assigned, once |
| `VoiceRouting.VoiceRoutingState.Owner` | sglang_omni_router/voice_routing.py:73-80 | found exactly when the assigned url is still listed |
| `VoiceRouting.VoiceRoutingState.ReconcileStart` | sglang_omni_router/voice_routing.py:218-226 | a fetch starts exactly when no mutation is under way and the owner is listed and routable |
| `VoiceRouting.VoiceRoutingState.ReconcileFinish` | sglang_omni_router/voice_routing.py:227-261 | an answer is taken exactly if no mutation began since, and the cache is then trusted; otherwise it is retried and the cache is as it was |
| `VoiceRouting.VoiceRoutingState.BeginMutation` | sglang_omni_router/voice_routing.py:129-132 | counts the mutation and advances the registry generation |
| `VoiceRouting.VoiceRoutingState.MarkMutationDispatched` | sglang_omni_router/voice_routing.py:134-136 | distrusts the cache until the next reconciliation |
| `VoiceRouting.VoiceRoutingState.EndMutation` | sglang_omni_router/voice_routing.py:138-142 | the last one to end asks for a refresh |
| `VoiceRouting.VoiceRoutingState.MarkUncertain` | sglang_omni_router/voice_routing.py:123-127 | distrusts the cache and asks for a refresh |
| `VoiceRouting.VoiceRoutingState.Apply` | sglang_omni_router/voice_routing.py:282-287 | adds or removes exactly the committed name |
| `FailureDedup.AppliedAtMostOnce` | sglang_omni_router/control_plane.py:416-430 | no event is acted on twice under any order and repetition |
| `FailureDedup.DroppedOnlyFarBehind` | sglang_omni_router/control_plane.py:426-429 | an event never delivered before is dropped only if some delivered number is at least 1024 ahead |
| `FailureDedup.NothingDroppedEarly` | sglang_omni_router/control_plane.py:426-429 | and never before more than 4096 different numbers were delivered |
| `FailureDedup.NeverForgets` | sglang_omni_router/control_plane.py:422-430 | the floor never moves back and what is known stays known |
| `FailureDedup.KeptIsBounded` | sglang_omni_router/control_plane.py:427-429 | never more than 4096 numbers are kept |
| `FailureDedup.FailureEvents.AlreadyApplied` | sglang_omni_router/control_plane.py:416-430 | the answer and the record after it; other data planes' records are untouched |
| `JsonText.WsIsSkipped` | sglang_omni_router/route_metadata.py:386-389 | exactly the four whitespace characters are passed over |
| `JsonText.ValueLands` | sglang_omni_router/route_metadata.py:415-432 | skipping a value printed with any whitespace lands exactly past it if its numbers fit the window, and otherwise is refused or left where no value can end |
| `JsonText.MembersLand` | sglang_omni_router/route_metadata.py:434-453 | and so does skipping the members of an object, which is otherwise refused |
| `JsonText.ItemsLand` | sglang_omni_router/route_metadata.py:455-470 | and the items of an array, likewise |
| `JsonText.StringLands` | sglang_omni_router/route_metadata.py:399-413 | and a string with escapes |
| `JsonText.NumberLands` | sglang_omni_router/route_metadata.py:472-478 | a number is consumed whole, whatever follows it, if and only if it fits the window of 128 characters; of a longer one a part is left over |
| `JsonText.NumberGrammar` | sglang_omni_router/route_metadata.py:472-478 | the number texts taken are exactly those of the grammar |
| `JsonScanner.ScanAgreesExactlyWhen` | sglang_omni_router/route_metadata.py:321-384 | the scan accepts a well-formed object text if and only if every number in it fits the window, and then gives the parsed model, request id and stream flag exactly when no earlier value of a repeated name outlives the last one |
| `JsonScanner.ScanGivesWhatParsingGives` | sglang_omni_router/route_metadata.py:130-182 | with distinct names the scan of a text whose numbers fit the window, and of no other, gives what parsing the whole text gives |
| `JsonScanner.ScanNotesEveryMember` | sglang_omni_router/route_metadata.py:321-359 | the scan reaches the end of the text and notes every member in order, or, exactly if some number anywhere in it is too long, refuses the text |
| `JsonScanner.RepeatedNameDiffers` | sglang_omni_router/route_metadata.py:376-383 | a two-member text on which scan and parse differ |
| `JsonScanner.JsonTopLevelScanner.ScanMetadata` | sglang_omni_router/route_metadata.py:321-359 | the loop computes the scan of the body, and ends, on every text |
| `JsonScanner.JsonTopLevelScanner.ReadMetadataValue` | sglang_omni_router/route_metadata.py:361-384 | what one metadata member contributes and where it ends |
| `JsonScanner.JsonTopLevelScanner.SkipValue` | sglang_omni_router/route_metadata.py:415-432 | the end of a value, or a refusal, on every text |
| `JsonScanner.JsonTopLevelScanner.SkipObject` | sglang_omni_router/route_metadata.py:434-453 | the loop over members against the recursive definition |
| `JsonScanner.JsonTopLevelScanner.SkipArray` | sglang_omni_router/route_metadata.py:455-470 | the loop over items against the recursive definition |
| `JsonScanner.JsonTopLevelScanner.SkipString` | sglang_omni_router/route_metadata.py:399-413 | the loop over characters against the recursive definition |
| `JsonScanner.JsonTopLevelScanner.SkipWs` | sglang_omni_router/route_metadata.py:386-389 | the first character that is not whitespace |
| `LargeRequest.SelectedCanDoWhatAnyCan` | sglang_omni_router/proxy.py:977-1001 | a large request that is not rejected finds an eligible worker, and whichever is selected has every capability any candidate has |
| `LargeRequest.RejectsOnlyWithoutAGreatest` | sglang_omni_router/proxy.py:988-1001 | it is rejected for capabilities if and only if no candidate has all the others' capabilities |
| `LargeRequest.OnlyTheUnreadableDemandMore` | sglang_omni_router/proxy.py:977-987 | a readable request, or one that states its capabilities, is asked for nothing more than it needs |
| `LargeRequest.UniqueMaximalIsGreatest` | sglang_omni_router/proxy.py:990-996 | in a finite family a maximal set that is the only one is the greatest |
| `LargeRequest.DemandKeeps` | sglang_omni_router/selector.py:16-33 | demanding capabilities a candidate has keeps it eligible |
| `LargeRequest.WorkerSelector.Select` | sglang_omni_router/selector.py:67-97 | a worker that is routable, has every required capability and serves the model asked for where models are known, whenever there is one; the least loaded or the next in turn by policy |
| `LargeRequest.EligibleExactly` | sglang_omni_router/selector.py:16-33 | the eligible workers are exactly those that are routable, have every capability asked for and, where some such worker names a model, serve the model asked for |
| `LargeRequest.LargeCandidatesExactly` | sglang_omni_router/proxy.py:1004-1040 | a large request is rejected for mixed models exactly when two workers it could go to differ in their model and it does not say which; otherwise its candidates are exactly the workers that may serve it |
| `LargeRequest.CapableInOrder` | sglang_omni_router/selector.py:22-28 | filtering keeps the order of the list, which is what turns are taken in |
| `LargeRequest.OfModelInOrder` | sglang_omni_router/selector.py:29-32 | and so does the filter by model |
| `LargeRequest.WorkerSelector.SelectRoundRobin` | sglang_omni_router/selector.py:99-105 | the candidate under the cursor, which advances by one |

## Left out

- Time: liveness windows, staleness, barrier timeouts, probe intervals and backoff are nondeterministic choices.
- HTTP, WebSocket and ASGI plumbing, authentication, header filtering, logging and status rendering; only outcomes (sent, lost, refused, accepted) appear.
- The request path of the proxy as a state machine (admission release and active-gauge balance over every exit); only its effects on worker objects appear, as the start and finish steps of `CounterPipeline`.
- The weight-update step relation takes `expected_data_planes` as set to the number of data planes, and puts the restart of a control plane in one step with its recovery.
- Rows of the step relation hold health and the disabled flag; configuration and incarnation do not matter to it and are part of `DataPlaneView` only.
- Broadcasts that do not disable targets, which hold neither lock nor journal entry.
- Journal writes happen inside an already durable directory; creating the directory, and transient read errors, are not modelled, nor is the stand-in journal used when no state directory can be had.
- The supervisor's death other than with the host, its shutdown, pids reused by strangers, signals and the death pipe.
- The packing of slot fields into bytes, and heartbeat times in slots; `AdmissionBound` and `AdmissionFold` take one slot read as one step on a stable slot, which `Seqlock.ReadsAreAtomic` justifies.
- Stores reach readers in program order, the memory model the source documents as its assumption.
- Best-effort gauges (`active_gauge`, `overlay`) of the ledger.
- `CounterPipeline` assumes what the rest of the system provides: object keys are never reused, a predecessor process is dead before its successor starts, reports in flight to a control plane die with it, and the accepted reports of every other data plane name each object once and revive none (which `CounterPipeline.NoneOfOursReturns` proves of the one it follows).
- Voice names are taken as already normalised, and the registry is assumed to change only through the router while a mutation is under way.
- The scanner calls itself once per nesting level and does not catch the interpreter's recursion error (`route_metadata.py:308-312`): a text nested deeper than that limit raises instead of being scanned. The model has no such limit.
- Every published snapshot file is taken to have an identity of its own; a file that gets the inode of a freed one, with the same size and within one clock tick, is not modelled.
- The decoding of string escapes is a parameter of the scanner; bodies are ASCII, so its 128-byte window is one of 128 characters.
- A failure report that names an unknown or replaced worker is answered before the record of events is consulted; that order is not modelled.
- Health probing, simple health thresholds, and the model-list and model-info merging.
- ControlPlane.ControlPlaneApp.Update: a revived worker is probed and published again after the reply's lock is released, which is a probe and a refresh of `WeightUpdate`; the admin-key check before a discard is authentication.
- Supervisor.RouterSupervisor.PollOnce: a child that dies while the poll is under way is seen by the next poll.
