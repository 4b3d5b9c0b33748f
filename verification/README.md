# Aerospike Backup Service: a verified model

The service takes scheduled full and incremental backups of a routine's namespaces and restores a
routine to a point in time. This project models its core and proves what the core is for:

- **The backup protocol** (`Routine`, `RoutineInvariant`, `Restore`, `CleanRuns`, `SerialRuns`,
  `FullBackups`, `RoutineProperties`, `SampleRun`, `Findings`, `FullFindings`, over `History`). One routine is a state machine whose steps are the
  atomic actions of the handler and of its environment: the clock, writes to the cluster, scheduled, ad
  hoc and retried full backups, incremental backups, their failures, and crashes. A scan is not
  atomic: it reads each record at some instant between its start and its end. The main theorem says
  that replaying the latest full backup and then its incrementals in order rebuilds every record that
  was not written while the scans were running, for sealed and unsealed policies.
- **The handler as code** (`Handler`, `RoutineSteps`, `BackupState`, `Backend`, `TimeBounds`). The methods
  that run a full and an incremental backup, with their loops and early exits, take steps of that state
  machine only, so that everything proved about the machine holds of them.
- **Retries** (`Retry`) and the **client cache** (`ClientManager`), over whole traces.
- **Restore jobs** (`JobsHolder`, `RestoreWorkers`, `RestoreRuns`, `RestoreProperties`,
  `RestoreTermination`, `RestoreContinuations`, `DataRestorer`, `RestoredJobs`). All jobs of the service,
  with interleaved namespace workers that report to one jobs holder; what a job that is done has restored.
- **The configuration** (`ConfigModel`, `ConfigGraph`, `Configuration`, `ConfigurationRuns`, `ConfigDto`,
  `StorageModel`, `StorageDto`). The object graph of the running service refines a database keyed by
  names, and the file format converts to and from it.
- **Paths** (`FilePath`, `Paths`). Where backups are written, found and deleted.

`dafny verify dfyconfig.toml` checks everything.

## What the code does not guarantee

Each of these is a theorem: a run or an input that fails, and the exact condition under which the code
does meet the property.

- An incremental run that fails still advances `LastIncrRun`, and the records of its window are not
  backed up again until the next full backup (`FailedIncrementalLosesRecord`). A crash between the
  metadata files of one incremental run makes the restart take that run for completed
  (`CrashMidIncrementalLosesRecord`, `RestartKeepsLastRunIff`). An incremental run reads the clock before
  it reads `LastRun`; if a full backup completes in between, its window starts after its own stamp
  (`FullBetweenClockReadingsLosesRecord`). In every reachable state, a window leaves a gap exactly when it
  starts after its own stamp, or at an incremental run that advanced `LastIncrRun` without completing for
  the namespace, as none has since (`NoGapIff`).
- The metadata of a full backup is written one namespace at a time. One that fails in between is still
  the latest full backup, and a restore to its stamp silently leaves out the namespaces that it lacks
  (`PartialFullHidesNamespace`). A restore takes up every namespace exactly when the latest stored full
  backup up to its instant holds all of them (`EveryNamespaceIff`), and the full backups stay whole
  exactly as long as none that has begun is broken off (`WholeStepIff`).
- A retried full backup keeps its stamp, and clears incrementals that are newer
  (`RetriedFullLosesRecord`). In every reachable state, the clearing after a full backup leaves every
  restore to its stamp or later unchanged exactly when the incrementals stamped since add nothing to the
  full backups before them (`ClearingKeepsRestoresIff`), and leaves every selection unchanged exactly
  when there are none (`ClearingIsSafeIff`). A full backup also clears while an older incremental is
  draining (`ClearingWhileDrainingLosesRecord`). In every reachable state, restoring that incremental, or
  anything up to the next backup, is unaffected exactly when what it found overrides every record that
  the cleared incrementals since its full backup had changed (`ClearingWhileDrainingIff`). The comment on `Contains` calls the upper bound
  exclusive; the code includes it, and the model follows the code, so an incremental with the very stamp
  of the full backup counts among them.
- Under RemoveAll a namespace has one folder for its full backup, so a late retry replaces a newer full
  backup by an older one. With a sealed policy, restoring to an incremental that follows the newer one
  misses what was written in between (`StaleRetryLosesRecord`); without sealing, and when the incrementals
  could not be cleared, it brings an old version back (`StaleRetryGoesBack`). The stored full backup stays
  the newest one ever stored exactly as long as no full run takes the flag that is older than one of
  them (`ReplacedStepIff`).
- A call with n retries runs at most n + 1 times exactly when n is not negative (`BoundedIffNotNegative`);
  a negative n is decremented until it has wrapped around, n + 2^32 + 1 runs in all (`BudgetIsReached`).
  Validation rules it out.
- A routine with the empty name defeats the in-use check of Delete (`EmptyNameDefeatsUseCheck`);
  validation of the file rules it out.
- Updating a cluster is not checked against the routines that scan it, so the stored configuration may
  no longer load (`StillLoadsIff`).
- Writing the configuration loses compression and panics on a cluster without credentials
  (`FromModel`, `RoundTripIffNoCompression`).
- A restore draws its job id at random. Final statuses are kept, by it and ever after, exactly when the
  drawn id is not in use (`DrawnIdKeepsFinalIff`); otherwise two runs report to one job
  (`SharedIdChangesError`).
- The status of a running backup panics exactly when a handler is nil, as after a scan that did not
  start (`CurrentBackupStatus`).

## Model

| member | source | states |
|---|---|---|
| `Restore.PointInTimeRestore` | pkg/service/restore_data.go:152-195 | for every namespace of the full backup found: replaying that backup and then the selected incrementals in order gives each record that was quiet between the last replayed stamp K and the end of the scans exactly its version at K, if the windows leave no gap and what was scanned is stored |
| `Restore.RestoredUpTo` | pkg/service/restore_data.go:183-192 | the same for replaying instant by instant, by induction over the instants, also when the last scans were empty and discarded |
| `Restore.StoredWasWritten` | pkg/service/backup_routine_handler.go:130-333 | in every reachable state every record in a backup was written to the cluster, in the window of its scan and, if sealed, before its stamp |
| `Restore.ReplayOfSelection` | pkg/service/restore_data.go:172-192 | replaying the sorted selection is replaying every stored incremental instant by instant |
| `Restore.PlanSelects` | pkg/service/backup_backend.go:161-181 | the list read from the metadata in storage selects exactly the incrementals of the namespace between the full backup and T |
| `Restore.PlanBase` | pkg/service/backup_backend.go:125-136 | the full backup found is the latest in storage up to T, and the restore takes up exactly the namespaces that it holds |
| `Restore.NoGapIff` | pkg/model/backup_state.go:41-62 | in every reachable state a window leaves a gap exactly when a full backup completed between the clock readings of its run, or when it starts at a run that advanced LastIncrRun without completing for the namespace, as none has since |
| `Restore.NoGapIffForward` | pkg/service/backup_routine_handler.go:269-274 | when every run that advanced LastIncrRun completed, a window leaves no gap exactly when it starts no later than its own stamp |
| `CleanRuns.RestoreAfterCleanRun` | pkg/service/backup_routine_handler.go:84-333 | restore of every namespace that it takes up is correct after every run, of any interleaving, that avoids the hazards of incrementals, of clearing and, under RemoveAll, of a full backup that enters late |
| `CleanRuns.NoGapUnderKeepAll` | pkg/model/backup_state.go:41-62 | under KeepAll the windows leave no gap, and restoring to any instant is correct even when empty incrementals were discarded |
| `CleanRuns.CleanRunsAreSound` | pkg/service/backup_routine_handler.go:232-333 | after a clean run the full backup found is the latest known, what was scanned since is stored unless empty, and the windows leave no gap |
| `CleanRuns.ReachableCleanly` | pkg/service/backup_routine_handler.go:84-333 | what every clean run keeps, crashes and overlapping full backups included |
| `CleanRuns.HazardIff` | pkg/service/backup_routine_handler.go:84-333 | the complete list of the steps that a clean run does not take |
| `CleanRuns.ReplacedStepIff` | pkg/service/paths.go:17-24 | under RemoveAll a step keeps the stored full backup, and the one being taken, the newest one ever stored exactly when it is not the entry of a full run that is older than one of them |
| `CleanRuns.StaleWrite` | pkg/service/backup_routine_handler.go:130-177 | such a run leaves nothing newer of a namespace in storage as soon as it stores it |
| `FullBackups.RestoreEveryNamespace` | pkg/service/restore_data.go:92-195 | restore takes up every namespace of the routine and is correct after every clean run that broke off no full backup, while no full run is rewriting the full backup that it found |
| `FullBackups.RestoreEveryRecord` | pkg/service/restore_data.go:92-195 | the same record by record: a record that no write during the scans touches gets the value of its last write before the last replayed stamp, and is left out if there is none |
| `SampleRun.RecordIsRestored` | pkg/service/backup_routine_handler.go:84-333 | under every policy some run meets all the conditions of these theorems, stores a record in an incremental and gets it back |
| `FullBackups.EveryNamespaceIff` | pkg/service/backup_backend.go:125-136 | a restore takes up every namespace of the routine exactly when the latest stored full backup up to its instant holds all of them |
| `FullBackups.PlanIff` | pkg/service/restore_data.go:128-140 | a restore takes up a namespace exactly when the latest stored full backup up to its instant holds it |
| `FullBackups.WholeStepIff` | pkg/service/backup_routine_handler.go:160-177 | a step keeps the stored full backups whole exactly when it does not break off, by a failure or a crash, one that has begun |
| `FullBackups.ReachableThoroughly` | pkg/service/backup_routine_handler.go:84-177 | every run that breaks off no full backup has only whole ones in storage, apart from the one being written |
| `FullBackups.ReachableWritten` | pkg/service/backup_routine_handler.go:160-177 | in every reachable state a full run that has set the last run has stored every namespace |
| `SerialRuns.RestoreAfterSerialRun` | pkg/service/restore_data.go:152-195 | when runs do not overlap, only writes up to the end of the last replayed scan matter, whenever its metadata was written |
| `SerialRuns.OverlapIff` | pkg/service/backup_routine_handler.go:84-333 | the complete list of the steps that a serial run does not take |
| `RoutineInvariant.ReachableInv` | pkg/service/backup_routine_handler.go:84-333 | every reachable state satisfies the invariant of the protocol, whatever was interleaved, failed or crashed |
| `RoutineInvariant.InvStep` | pkg/service/backup_routine_handler.go:84-333 | every step keeps that invariant |
| `RoutineProperties.FullBackupExclusion` | pkg/service/backup_routine_handler.go:84-114 | the flag is set exactly while one full run holds it, the handler map is empty while it is clear, and no incremental passes its guards before a full backup is known |
| `RoutineProperties.ExitReleases` | pkg/service/backup_routine_handler.go:93-105 | every way out of a full run releases the flag and leaves no handler |
| `RoutineProperties.RestartKeepsLastRunIff` | pkg/service/backup_backend.go:49-66 | a restart does not move LastRun forward exactly when storage holds no backup stamped after it |
| `RoutineProperties.ClearingIsSafeIff` | pkg/model/time_bounds.go:70-78 | the clearing changes no selection of incrementals at or after the full backup exactly when none of them is stamped at or after it, its own stamp included |
| `RoutineProperties.ClearingKeepsRestoresIff` | pkg/service/backup_routine_handler.go:119-124 | in every reachable state the clearing changes no restore to the full backup's stamp or later exactly when every incremental stamped since is redundant; it is enough that there is none |
| `RoutineProperties.ClearingWhileDrainingIff` | pkg/service/backup_routine_handler.go:84-124 | in every reachable state in which the clearing meets a draining incremental, restoring that incremental is unaffected exactly when what it found overrides every record that the cleared incrementals since its full backup had changed; it is enough that there are none |
| `RoutineProperties.WindowAfterClearing` | pkg/service/backup_routine_handler.go:116-121 | after a clean clearing the next window starts at the full backup, unless a later incremental run found nothing or was already cleared |
| `Findings.FailedIncrementalLosesRecord` | pkg/service/backup_routine_handler.go:299-333 | a reachable run in which a failed incremental loses a record |
| `Findings.FullBetweenClockReadingsLosesRecord` | pkg/service/backup_routine_handler.go:269-274 | a reachable run in which the window of an incremental starts after its own stamp and a record is lost |
| `Findings.CrashMidIncrementalLosesRecord` | pkg/service/backup_backend.go:49-66 | a reachable run in which a crash between two namespaces loses a record |
| `FullFindings.PartialFullHidesNamespace` | pkg/service/backup_routine_handler.go:162-174 | a run without any other hazard in which a full backup that failed between two namespaces hides one of them from restore |
| `FullFindings.RetriedFullLosesRecord` | pkg/service/backup_routine_handler.go:76-82 | a reachable run in which a retried full backup clears a newer incremental and a record is lost |
| `FullFindings.ClearingWhileDrainingLosesRecord` | pkg/service/backup_routine_handler.go:84-124 | a reachable run in which a full backup clears while an older incremental is draining and a record is lost |
| `FullFindings.StaleRetryLosesRecord` | pkg/service/backup_routine_handler.go:76-82 | a reachable run under RemoveAll, sealed, in which a late retry replaces a newer full backup and a record is lost |
| `FullFindings.StaleRetryGoesBack` | pkg/service/backup_routine_handler.go:119-124 | a reachable run under RemoveAll, not sealed, in which clearing fails and a late retry makes a restore go back to an old version |
| `Handler.InvariantIsClosed` | pkg/service/backup_routine_handler.go:84-333 | the invariant and reachability are closed under the steps, so every method of the handler keeps them |
| `Handler.BackupRoutineHandler.constructor` | pkg/service/backup_routine_handler.go:39-66 | creating the handler is a restart of the protocol |
| `Handler.BackupRoutineHandler.RunFullBackupInternal` | pkg/service/backup_routine_handler.go:84-128 | protocol steps only; takes the flag or does nothing, and always gives it back; when all namespaces were stored it sets the last run and, under RemoveAll and RemoveIncremental, leaves no incremental behind if the deletion succeeds; under KeepAll, and when it fails, the incrementals stay as they are; the full backups afterwards are what was there, without the folders cleared under RemoveAll, with the scans that were written |
| `Handler.BackupRoutineHandler.StartFullBackupForAllNamespaces` | pkg/service/backup_routine_handler.go:130-158 | succeeds exactly when every scan starts, and then has a handler for every namespace |
| `Handler.BackupRoutineHandler.WaitForFullBackups` | pkg/service/backup_routine_handler.go:160-177 | stores the namespaces in any order, succeeds exactly when all scans and metadata files succeed, and leaves the metadata written so far behind otherwise |
| `Handler.BackupRoutineHandler.RunIncrementalBackup` | pkg/service/backup_routine_handler.go:232-267 | exactly when the run is skipped, panics or advances the last run; in every namespace of a run that went through, the folder of the run holds what the scan found, or what is left of a scan that failed, and is missing if that is empty or its metadata was not written; every other folder is unchanged; protocol steps only |
| `Handler.BackupRoutineHandler.StartIncrementalBackupForAllNamespaces` | pkg/service/backup_routine_handler.go:269-297 | every scan covers the window from the value read by LastRun, up to this run if sealed; a scan that does not start leaves a nil handler |
| `Handler.BackupRoutineHandler.WaitForIncrementalBackups` | pkg/service/backup_routine_handler.go:299-333 | in some order of the namespaces, each folder holds what was found, is missing if nothing was or its metadata was not written, and all others are unchanged; panics exactly when there is a nil handler |
| `Handler.StoredAsFound` | pkg/service/backup_routine_handler.go:313-326 | in whatever order the namespaces are stored: a scan that succeeded and is written is stored unless it is empty, a failed one by what is left of it, one that is not written is missing, other folders are unchanged |
| `BackupState.BackupState.LastRun` | pkg/model/backup_state.go:54-62 | the later of the two run times |
| `BackupState.BackupState.SetLastFullRun` | pkg/model/backup_state.go:41-46 | sets the full run and counts it, and leaves the incremental run |
| `BackupState.BackupState.SetLastIncrRun` | pkg/model/backup_state.go:48-52 | sets the incremental run only |
| `TimeBounds.NewTimeBounds` | pkg/model/time_bounds.go:17-22 | refuses exactly the bounds that are the wrong way round; otherwise contains exactly the instants between them, both included |
| `Backend.LatestBackupBeforeTime` | pkg/service/backup_backend.go:140-158 | the one-pass scan returns, in input order, exactly the elements stamped with the latest time up to the bound, and nothing exactly when none qualifies |
| `Backend.ReadMetadataList` | pkg/service/backup_backend.go:90-122 | the stored metadata within the bounds in order, an empty list for a missing or empty directory, an error exactly when a file cannot be decoded or the listing fails |
| `Backend.FindLastFullBackup` | pkg/service/backup_backend.go:125-136 | exactly the namespaces of the latest full backup up to T, or an error exactly when there is none or the listing cannot be read |
| `Backend.FindIncrementalBackupsForNamespace` | pkg/service/backup_backend.go:161-181 | exactly the incrementals of the namespace within the bounds, each as often as it is listed, oldest first |
| `Backend.IncrementalSelectionIsExact` | pkg/service/backup_backend.go:161-181 | its elements are precisely the stored incrementals of the namespace in [full, T] |
| `Backend.RestoreBoundsNeverFail` | pkg/service/restore_data.go:163-168 | the bounds error of a restore cannot occur for a full backup that was found |
| `Backend.LastBackupTime` | pkg/service/backup_backend.go:60-66 | the index is out of range exactly when all backups lie in the future of the clock |
| `Backend.ReadState` | pkg/service/backup_backend.go:49-58 | with a clock that does not go back the index is in range and the latest stamps in storage are read |
| `RoutineProperties.StateIsReadBack` | pkg/service/backup_backend.go:49-66 | what is read from the listing of the stored folders is what a restart of the protocol reads back: the latest stamp, or zero exactly when there is none or they cannot be read |
| `Retry.RetryBound` | pkg/service/retry_service.go:25-59 | over any interleaving executions never overlap, at most one timer is armed, and a call executes at most once more than its budget, which is n for n >= 0 |
| `Retry.RunInv` | pkg/service/retry_service.go:25-59 | executions and remaining retries add up in every reachable state |
| `Retry.StopsAtFirstSuccess` | pkg/service/retry_service.go:33-37 | after its first success a call is never executed again |
| `Retry.NoRetryAfterSuccess` | pkg/service/retry_service.go:33-37 | however a run goes on after an execution has succeeded, its call is executed no more often |
| `Retry.FailureOutcome` | pkg/service/retry_service.go:39-58 | a failed execution arms a timer with one retry less exactly while the budget of its call is not used up, and gives up exactly when it is |
| `Retry.BoundedIffNotNegative` | pkg/service/retry_service.go:39-50 | a call with n retries executes at most n + 1 times in every run exactly when n is not negative |
| `Retry.FailsOnAndOn` | pkg/service/retry_service.go:39-50 | for every number of executions up to the budget some run fails that often and is retried again |
| `Retry.BudgetIsReached` | pkg/service/retry_service.go:25-50 | the bound is reached by every 32-bit n: for negative n after n + 2^32 + 1 executions |
| `Retry.ValidPolicyBoundsAttempts` | pkg/dto/backup_policy.go:92-94 | a policy is valid exactly when its retry limit is absent or not negative; then every full backup is attempted at most once more than the limit, by default four times |
| `ClientManager.ClientManagerImpl.GetClient` | pkg/service/client_manager.go:58-78 | a cached cluster gives its client, counted once more; otherwise the result is the client just created, entered with one holder, or an error that leaves the cache alone |
| `ClientManager.HeldClientIsShared` | pkg/service/client_manager.go:58-78 | over every trace, a Get of a cluster with an outstanding client succeeds with that same client |
| `ClientManager.ClientManagerImpl.Close` | pkg/service/client_manager.go:101-118 | releases an entry that holds the client, in any order of the search, or closes a client that no entry holds |
| `ClientManager.TracesKeepInv` | pkg/service/client_manager.go:58-118 | over every trace of matched calls each count is the number of outstanding Gets and at least one, entries hold distinct clients, no outstanding client is closed, and each created client is closed exactly once, by its last holder |
| `ClientManager.CloseKeepsInvIff` | pkg/service/client_manager.go:101-118 | closing keeps that exactly when the closer holds the client or the cache never created it |
| `ClientManager.NothingLeaks` | pkg/service/client_manager.go:101-118 | when every holder has closed, the cache is empty and every created client is closed |
| `JobsHolder.RestoreJobStatus` | pkg/service/estimates.go:41-69 | every statistic is the sum over the handlers; progress is reported exactly while the job is running with a known total, with its start time, the records read, the total, the whole percentage and the proportional estimate |
| `JobsHolder.RestoreJobsHolder.NewJob` | pkg/service/jobs_holder.go:34-46 | a running job under the drawn id, started now with nothing counted, others unchanged; used by the code of both restores |
| `JobsHolder.RestoreJobsHolder.AddHandler` | pkg/service/jobs_holder.go:49-56 | appends to the handlers of a known job and changes nothing else |
| `JobsHolder.RestoreJobsHolder.AddTotalRecords` | pkg/service/jobs_holder.go:59-65 | adds to the total of a known job and changes nothing else |
| `JobsHolder.RestoreJobsHolder.SetDone` | pkg/service/jobs_holder.go:67-73 | sets the status of a known job and nothing else; used by the code of both restores |
| `JobsHolder.RestoreJobsHolder.SetFailed` | pkg/service/jobs_holder.go:75-82 | sets the status and the error of a known job and nothing else; used by the code of both restores |
| `JobsHolder.RestoreJobsHolder.GetStatus` | pkg/service/jobs_holder.go:84-91 | an error exactly for unknown ids, and otherwise status, error, sums and progress of the job |
| `JobsHolder.ProgressIsBounded` | pkg/service/estimates.go:72-96 | the percentage stays in 0..100, is 100 only at the end, and the estimated end never lies in the past |
| `JobsHolder.PercentageIsQuotient` | pkg/service/estimates.go:77-83 | the percentage is the whole part of 100 times done divided by total |
| `JobsHolder.EstimateIsProportional` | pkg/service/estimates.go:87-96 | there is an estimate exactly from one percent on, and it extends the time taken so far in proportion to what is done |
| `JobsHolder.CurrentBackupStatus` | pkg/service/estimates.go:9-36 | nothing without handlers, a panic exactly when one is nil; otherwise the records read and the totals summed over the namespaces whatever the order of the map, the start time of one of them, the whole percentage and the proportional estimate |
| `JobsHolder.BackupProgressIsBounded` | pkg/service/estimates.go:9-26 | the percentage of a running backup stays in 0..100 |
| `DataRestorer.RestoreNamespace` | pkg/service/restore_data.go:152-195 | the code of a worker takes protocol steps only and succeeds exactly when the selection is found and every restore starts and ends well |
| `DataRestorer.CountAll` | pkg/service/restore_data.go:179-181 | adds the records of the whole plan to the total before anything is restored |
| `DataRestorer.RestoreByPath` | pkg/service/restore_data.go:52-90 | the code of a restore by path takes protocol steps only; the job is done exactly when the one backup starts and ends well, and otherwise fails with an error |
| `DataRestorer.RestoreByTime` | pkg/service/restore_data.go:92-107 | an unknown routine or a missing full backup is refused before there is a job; otherwise the job ends done exactly when every namespace succeeds |
| `DataRestorer.RestoreByTimeSync` | pkg/service/restore_data.go:109-150 | the code takes protocol steps only; the job fails without a client, is done exactly when every worker succeeds, and otherwise fails with exactly the workers that do not |
| `RestoreRuns.OnWorkerInv` | pkg/service/restore_data.go:152-195 | every step of a worker keeps the invariant of its run: handlers, totals, log and errors agree with the workers |
| `RestoreProperties.TraceInv` | pkg/service/restore_data.go:92-150 | the invariant holds for all jobs in every state of every interleaving with fresh ids |
| `RestoreProperties.LongerTrace` | pkg/service/restore_data.go:52-107 | what the runs of the service are: they begin without jobs and go on with every step that can be taken and draws an unused id |
| `RestoreProperties.RestoreBegins` | pkg/service/restore_data.go:92-107 | a restore by time begins with a running job and one worker for every full backup that was found |
| `RestoreProperties.Outcome` | pkg/service/restore_data.go:109-150 | a job is running until its run ends; it is done exactly when every backup of every namespace was restored, and otherwise its error names exactly the namespaces that failed |
| `RestoreProperties.JobsOfTrace` | pkg/service/restore_data.go:52-195 | in every state of every interleaving, for every job: its outcome, the bound on its reads and its total |
| `RestoreProperties.StatusIsFinal` | pkg/service/jobs_holder.go:67-82 | a final status and its error never change |
| `RestoreContinuations.DrawnIdKeepsFinalIff` | pkg/service/jobs_holder.go:34-46 | final statuses are kept by a new restore and by every continuation exactly when the drawn id is not in use |
| `RestoreContinuations.SharedIdChangesError` | pkg/service/jobs_holder.go:34-46 | a concrete run in which the id of a running job is drawn again and the error of the failed job changes |
| `RestoreProperties.BegunInOrder` | pkg/service/restore_data.go:160-192 | the backups begun for a namespace are a prefix of its full backup followed by exactly the stored incrementals in range, oldest first |
| `RestoreProperties.ProgressWithinTotal` | pkg/service/restore_data.go:176-192 | under every interleaving the reads never exceed the total, so the percentage stays in 0..100 |
| `RestoreProperties.ProgressIsReported` | pkg/service/estimates.go:41-69 | what is read from a backup that was handed to the holder is added to what its job reports as read, once |
| `RestoreProperties.TotalOfDone` | pkg/service/restore_data.go:176-181 | the total of a job that is done is the sum over all selected backups |
| `RestoreTermination.StepsRunOut` | pkg/service/restore_data.go:109-195 | every step other than reading records brings a run closer to its end |
| `RestoreTermination.NeverStuck` | pkg/service/restore_data.go:109-195 | a run that has not ended can take such a step |
| `RestoreContinuations.EveryJobCanEnd` | pkg/service/restore_data.go:109-150 | from every state of every run of the service, every job can be brought to its end in finitely many steps |
| `RestoredJobs.DoneWorkerHasPlan` | pkg/service/restore_data.go:152-195 | every worker of a done job has restored exactly the plan that the last full backup and the listed incrementals determine |
| `RestoredJobs.DoneJobRebuilds` | pkg/service/restore_data.go:109-195 | a run whose job is done, of the full backups found after a clean run that broke off none and while none is rewriting them, has a worker for every namespace, and what it restored rebuilds every quiet record |
| `RestoredJobs.DoneJobOfTraceRebuilds` | pkg/service/restore_data.go:92-195 | the same for every job of every interleaving of the service that a restore by time began and that is done |
| `Configuration.Config.AddCluster` | pkg/model/config.go:177-186 | refuses exactly an existing name |
| `Configuration.Config.UpdateCluster` | pkg/model/config.go:203-221 | refuses exactly a missing name; otherwise every routine that used the old object uses the new one, in any order |
| `Configuration.Config.RoutineUsesCluster` | pkg/model/config.go:223-230 | the name of some user, or the empty string when there is none |
| `Configuration.Config.DeleteCluster` | pkg/model/config.go:188-201 | refuses exactly a missing name or an object in use, unless the routine with the empty name uses it |
| `Configuration.Config.AddStorage` | pkg/model/config.go:35-44 | refuses exactly an existing storage name and changes nothing else |
| `Configuration.Config.UpdateStorage` | pkg/model/config.go:61-79 | refuses exactly a missing storage name; otherwise every routine that used the old storage uses the new one, in any order |
| `Configuration.Config.DeleteStorage` | pkg/model/config.go:46-59 | refuses exactly a missing name or a storage in use, unless the routine with the empty name uses it |
| `Configuration.Config.AddPolicy` | pkg/model/config.go:90-99 | refuses exactly an existing policy name and changes nothing else |
| `Configuration.Config.UpdatePolicy` | pkg/model/config.go:116-133 | refuses exactly a missing policy name; otherwise every routine that used the old policy uses the new one, in any order |
| `Configuration.Config.DeletePolicy` | pkg/model/config.go:101-114 | refuses exactly a missing name or a policy in use, unless the routine with the empty name uses it |
| `Configuration.Config.AddRoutine` | pkg/model/config.go:144-153 | refuses exactly an existing name |
| `Configuration.Config.UpdateRoutine` | pkg/model/config.go:166-175 | refuses exactly a missing name |
| `Configuration.Config.DeleteRoutine` | pkg/model/config.go:155-164 | refuses exactly a missing name |
| `Configuration.Config.AddSecretAgent` | pkg/model/config.go:232-241 | refuses exactly an existing name |
| `ConfigGraph.RepresentsOne` | pkg/dto/backup_routine.go:147-179 | an object graph stands for one name-keyed configuration only |
| `ConfigGraph.UpdateClusterRefines` | pkg/model/config.go:203-221 | replacing an object and repointing its users is replacing the value under its name: every routine keeps its names |
| `ConfigGraph.ClusterUseRefines` | pkg/model/config.go:223-230 | a routine points to the object exactly when its configuration names it |
| `ConfigurationRuns.Execute` | pkg/model/config.go:35-241 | each change by pointer does what it does by name, with the same outcome |
| `ConfigurationRuns.Run` | pkg/model/config.go:35-241 | every sequence of changes refines the same sequence on the name-keyed configuration, error for error |
| `ConfigurationRuns.OneMoreChange` | pkg/model/config.go:35-241 | what such a sequence means: one more change acts on the configuration that the changes before it led to |
| `ConfigurationRuns.Resolve` | pkg/dto/backup_routine.go:78-121 | a routine is looked up exactly when policy, cluster and storage are configured, an agent too if it names one, and its sets fit the cluster; it then points to the objects of these names, and otherwise the error says which of a missing name and too many sets comes first |
| `ConfigurationRuns.EmptyNameDefeatsUseCheck` | pkg/model/config.go:101-114 | a routine with the empty name is left pointing to a deleted policy |
| `ConfigDto.ToModel` | pkg/dto/config.go:137-185 | a file loads, in every order of its entries, exactly when the names of every routine are configured and its sets fit; the result holds the values of the file and every routine points to the objects that it names; a failure is that of some routine |
| `ConfigDto.FindKeyByValue` | pkg/dto/backup_routine.go:163-179 | the name of the object, or the empty string exactly when it has none |
| `ConfigDto.RoutineFromModel` | pkg/dto/backup_routine.go:147-161 | recovers exactly the names the routine was configured with |
| `ConfigDto.FromModel` | pkg/dto/config.go:23-50 | exactly when all clusters have credentials a file is written, in any order, with the values of the configuration but for compression and the names of the objects that each routine points to; otherwise it panics |
| `ConfigDto.RoundTripIffNoCompression` | pkg/dto/backup_policy.go:150-172 | the written file describes the same configuration exactly when no policy compresses |
| `ConfigDto.Reload` | pkg/dto/config.go:23-185 | loading, writing and loading again gives a graph that stands for the same configuration when credentials are given and no policy compresses |
| `ConfigDto.StillLoadsIff` | pkg/dto/backup_routine.go:89-93 | a change keeps the configuration loadable exactly when it does not lower the scan limit of a cluster below what a routine needs |
| `ConfigDto.RunStillLoads` | pkg/model/config.go:35-241 | the same over every sequence of changes |
| `StorageDto.Validate` | pkg/dto/storage.go:31-63 | accepts exactly the descriptions with one section whose required fields are given and whose authentication fields are consistent |
| `StorageDto.ConversionIsStable` | pkg/dto/storage.go:180-287 | converting, back and again gives the same storage of the same kind, through a description that is valid again |
| `StorageDto.ConversionKeepsFields` | pkg/dto/storage.go:159-287 | every field of the section arrives in the storage, and comes back from it |
| `StorageDto.RebuiltIffNoStrayFields` | pkg/dto/storage.go:159-287 | a valid description is rebuilt unchanged exactly when it has no partial authentication fields |
| `Paths.KeyIsFolderIff` | pkg/service/paths.go:17-59 | the key of a stored backup is the folder it was written to exactly when the removal policy is the same |
| `Paths.ConfigurationIsFound` | pkg/service/restore_config.go:40-49 | the configuration is looked for in the very folder it was written to |
| `Paths.FullBelowFull` | pkg/service/paths.go:17-24 | different full backups have folders of which neither contains the other; with full removal a namespace has one folder |
| `Paths.IncrementalBelowIncremental` | pkg/service/paths.go:26-32 | different (time, namespace) pairs have folders of which neither contains the other |
| `Paths.DeletingIncrementals` | pkg/service/backup_routine_handler.go:313-330 | deleting the folder of a run or the incremental root removes exactly the incrementals of that run or routine, and no full backup |
| `Paths.DecimalInjective` | pkg/service/paths.go:34-36 | different times are printed differently |
| `Paths.DecimalStandsForNumber` | pkg/service/paths.go:34-36 | a printed time is its decimal notation, most significant digit first |
| `Paths.FullLayout` | pkg/service/paths.go:17-24 | the folder of a full backup, spelled out under both removal policies |
| `Paths.IncrementalLayout` | pkg/service/paths.go:26-32 | the folders of an incremental run and of its namespaces, spelled out |
| `Paths.ConfigurationLayout` | pkg/service/paths.go:38-51 | the file of a node in the configuration folder, spelled out |
| `Paths.ConfigFilesDiffer` | pkg/service/paths.go:38-51 | different nodes have different files |
| `FilePath.DirPlain` | pkg/service/restore_config.go:40-49 | on plain components the parent of a path drops the last one and joining adds one |

## Left out

- The storage accessors and cloud SDKs; storage is a map from folders to metadata and records.
- The backup and restore engine: a scan observes, at some instant while it runs, the current version of each record whose update time lies in its window.
- Deletion and expiry of records, and the write policies of a restore other than replacing older records.
- Times finer than a millisecond: two incremental runs of a routine never share a stamp here, since they would share a folder.
- Applying a new configuration while handlers of the old one are still running.
- The narrowing of the listing by the lower time bound, which only saves reading files that the bounds exclude anyway.
- Floating-point rounding in estimates (reals are used) and wrap-around of the record counters.
- The lock and the timer channel of the retry service are modelled by the order of its steps; `backupJob.isRunning` for incrementals is the idle phase of the protocol, and for full backups it only delays triggers.
- The number and order of the attempts of one full backup: in the protocol a triggered full backup may be retried any number of times and in any order, which allows more than the retry service does.
- A data race on appending errors of namespace workers: appending is one step.
- Interpretation of keys as URLs beyond names of unreserved characters (section 2.3 of RFC 3986).
- YAML and JSON encoding, HTTP handlers, scheduling, metrics, logging, rate limiting and default values.
- The fields of clusters, policies, agents and routines that every conversion copies unchanged.
- Handler.BackupRoutineHandler.RunFullBackupInternal: the call is taken without interference; interleavings are the subject of the state machine. Writing the cluster configuration is not modelled here.
- Handler.BackupRoutineHandler.RunIncrementalBackup: the call is taken without interference, like the full run.
- DataRestorer.RestoreNamespace: the call is taken without interference; interleavings of workers are the subject of `RestoreRuns`.
- DataRestorer.RestoreByTime: the job is taken to its end before the call returns, where the program starts it and returns.
- DataRestorer.RestoreByPath: taken to its end before the call returns, too; one error stands for a restore that does not start and one that does not end well.
- DataRestorer.RestoreByTimeSync: the workers are taken one after the other; their interleavings are the subject of `RestoreRuns`.
