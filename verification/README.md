# Crash safety and the other hard parts of the Home Assistant manager, in Dafny

The manager runs Home Assistant in a container. What it must get right is what survives a power loss: a restore of
the configuration, an import of one integration, a change of the Home Assistant version, a clean start, the copy of the
manager itself. Around these stand a log that is read while it is written, masking of secrets, a password lockout and
some transformations of data. This project models those parts and proves what they promise. `dafny verify
dfyconfig.toml` checks all of it.

## How it is modelled

A volume is a class whose fields are what the files on it hold. Each durable operation (an atomic JSON write, a rename,
a removal, one file of a tree copy) is one step, and the process may be killed between any two. What holds there is an
invariant (`Sound`, `Alive`, `Valid`), and a `Lifetime` or `Life` method runs any sequence of boots, kills, failures and
requests and proves the property over the whole run. How the steps go is an argument: the `Fate` of a boot or a clean start,
the `Course` of an attempt at a restore, an import or a swap, the step a request is cut after; what other threads write meanwhile is an
arbitrary choice (`x := *`). So each operation also says what comes of it when nothing fails (`Smooth`, `Passes`, `Fair`, `Quiet`), and what
when one step does. Ghost fields, and `writer`, which only the clean
start's copy reads, remember what no file says: the configuration from before, the fallbacks that were decided, the version
that wrote `.storage` last. Where the source computes a value by a loop, the loop is a method proved equal to a function, and
the lemmas are about that function.

- **ConfigFiles, RestoreTransaction** (`backupkit.py`, `entrypoint.py`): a scheduled restore from the schedule to its
  recorded outcome, with the copy made first, rollback, retries over boots, the hold and pruning.
- **ImportTransaction** (`ha_import.py`, `entrypoint.py`): the journal of an import, the config entry that Home Assistant
  may write to disk at any moment, and the two resolvers that settle an interrupted import.
- **VersionWorld, VersionHistory, VersionBoot, VersionProof, VersionLife, VersionProgress, VersionMachine, VersionLimits** (`entrypoint.py`,
  `run.py`, `ha_updater.py`, `views.py`): ha.json, the crash counter, fallbacks that bring back a configuration, version
  changes and the guard that refuses an older version. `VersionBoot` says step by step what a boot and a request do, with
  the step they are cut after; `VersionMachine.Volume` does it on the fields of a volume, each method proved equal to its
  function; `VersionProof` and `VersionLife` prove what every cut keeps and that every start is rightful
  (`Start.Rightful`), `VersionProgress` that what should come does: a version left with its configuration, one asked for as it was
  asked for; `VersionLimits` shows runs from an empty volume.
- **CleanStart** (`entrypoint.py`, `ha_import.py`): the plan, the extraction and the copy of `.storage` of a clean start.
- **LogFiles, LogFollower, LogFirstPage, LogHandler** (`logbuffer.py`, `logs_page.py`): rotated files read while others write
  and rotate, any number of times between two steps; two sets merged by id, forward from a cursor or back from the newest
  record; and a follower of the handler, first page and polls, against "filter the id-ordered log"
  (`LogHandler.Handler.Follow`), which also gets on: each poll that meets no line being written gives a full page, or all there was.
- **StoreMerge** (`backupkit.py`): the backup for an older version, made of two.
- **MaskScanner, KeyMaterial** (`diagnostics.py`): masking values by name, and key bodies in lines.
- **Unmask** (`ha_import.py`): a masked form, edited and taken back.
- **Lockout** (`auth.py`), **ZipDirectory** (`backupkit.py`), **ManagerSwap** (`run.py`), **ChangeReport** (`change_report.py`),
  **CompatTable** (`tools/gen_ha_compat.py`, `discovery.py`).

## Assumptions

- A backup is of the version it says it is of, and a recorded virtual environment stays installed. No file is edited by
  hand, but for a schedule deleted during the hold.
- ha.json is saved or the process is killed in the version machine; failing saves are part of RestoreTransaction.
- Versions are their sort keys, times of a version's records are a counter, and file contents are values.
- An import's `async_add` or `async_remove` that raises leaves the entry as it was in memory.
- A log line is written whole; the end of a line may still be missing when it is read.
- Regular expressions are functions or predicates given as parameters, with what the callers need as `requires`.

## What does not hold

Each of these is a lemma with an input, or a clause of the contract named, and the main result it limits says when it
does hold.

- *A rollback that never read the archive's names.* It wipes by the copy's own names, so a credentials file that only the
  archive had stays (`ConfigFiles.BlindRollbackLeavesASecret`); `ConfigFiles.BlindRollback` says when it is exact. If it is cut half way
  and a later retry succeeds, a tree the archive does not cover is lost
  (`ConfigFiles.RetryAfterCutBlindRollbackLosesATree`); `ConfigFiles.RetryIsExact` says when a retry is exact.
- *A copy that cannot be read at a retry.* A restore is killed half way; the next attempt can read neither the copy that was made
  first nor the archive, takes a copy of the half restored configuration and gives up: Home Assistant is started on that, with
  nothing scheduled (`RestoreTransaction.WayBackIsLost`, `RestoreTransaction.NeitherOfTheTwo`). An attempt loses track if and only if the
  configuration was changed and the recorded copy cannot be read (`LosesCopy`, in `RestoreTransaction.Volume.ApplyLive`); from then on
  the schedule names a copy that is not the configuration from before (`RestoreTransaction.Volume.TryReplace`).
- *A schedule that outlives its outcome.* If the outcome of a restore can be written nowhere and the schedule not be renamed, Home
  Assistant runs with the restore still scheduled, and a next attempt that fails puts back the copy from before the restore, over what
  was written since (`RestoreTransaction.GoesBackTooFar`). `RestoreTransaction.Volume.Finish` says exactly when a schedule outlives its
  outcome. In runs without these two, and in which no schedule is deleted by hand or dropped once an attempt has begun it, every start
  is on a configuration Home Assistant ran on or on the restore that was asked for (`RestoreTransaction.Volume.Lifetime`).
- *A clean start that was not finished.* If a clean start for an older version is cut after it emptied `.storage`, and the next
  change was cut before it dropped the plan, the guard's exception for an emptied `.storage` lets the older version start on
  what a newer one wrote meanwhile (`VersionLimits.UnfinishedCleanStart`). `World.Unfinished` is the condition: the plan is the
  older version's, `.storage` is not empty, and `.HA_VERSION` is newer. Wherever it does not hold, and no stray restore either,
  every start is on a configuration the version can read, or was asked for with "keep" (`World.Safe`, in `Start.Rightful`). The files
  cannot say more: two runs end in the same ha.json and the same files, and start 3 on a `.storage` of 6 and on one of 3
  (`VersionLimits.FilesDoNotTell`).
- *A restore by hand over a switch back to a newer version.* If its boot is cut once its outcome is recorded, the next boot does not
  take it for the fallback's own: the older version, which was left, stays, on the newer configuration
  (`VersionLimits.StrayConfiguration`). `World.Stray` is the condition; once the older version has written, the files are the same
  (`VersionLimits.StrayFilesDoNotTell`).
- *Any restore stands in for a fallback's.* A restore by hand replaces the one a switch back waits for, and the boot takes it for
  the fallback's own (`VersionLimits.HandRestoreStandsIn`). `VersionLife.WhoseRestoreCompletes` says when: a fallback's version starts with
  the fallback's own configuration if and only if that was applied before or is what is scheduled when the boot begins.
- *The crash counter is not reset by a request.* Crashes of the version before are charged to the one asked for next, which is
  left without having been installed (`VersionLimits.ChargedToTheNext`).
- *A fallback cut between its record and Home Assistant's first write.* `.HA_VERSION` still names the version that was left,
  so no later boot starts the right version (`VersionLimits.CameBackButRefused`); `VersionLimits.CameBackStarts` says when one does.
- *A DEBUG set that appears while a poll runs.* Its first record is passed for good (`LogFollower.NewDebugSetIsPassed`); a follower that asks
  for DEBUG records is exact from when there are any. A fresh file seen empty would hide the older files' records
  (`LogFiles.EmptyFreshFileHidesRecords`), which is why a rotation and its first write are one step.
- *Searching the raw text of the log* would tell what masking hides (`LogFollower.RawSearchTells`); the search on masked records does
  not (`LogFollower.SearchIndependence`, `LogFirstPage.FirstSearchIndependence`).
- *Brackets and triple quotes in the mask scanner.* A line end inside a string closes only the string, so a bracket of an earlier line can
  still be open at a name (`MaskScanner.BracketOfAnEarlierLine`). The comment in `diagnostics.py` says that three quotes close what
  three quotes opened; the code compares with a run one shorter, so such a value is masked to the end of its line, which
  hides more and never less (`MaskScanner.QuoteClosesItself`). The model follows the code.
- *A store whose older copy has no data.* The newer live file stays in a backup made for the older version
  (`StoreMerge.UnreadableStays`); `StoreMerge.MergedIsReadable` says exactly when a merged store can be read.
- *A clean start's copy can lose its name* if and only if the rename succeeded, it could not be undone, and the plan could still be
  rewritten (`CleanStart.Volume.Undo`). The next boot then empties what is not there and drops every copy but its own, and the boot
  backup alone holds the configuration (`CleanStart.OnlyTheBackupIsLeft`). Without such a boot it is always where the plan says
  (`CleanStart.Volume.Life`).
- *An entity whose key changed shape, and an old key in its way.* An entity that only gained its unique id is reported as removed and
  added when another one's old key was renamed to the key that goes with it (`ChangeReport.TakenShape`); `ChangeReport.Align` says exactly
  when it is found.

## Model

| member | source | states |
|---|---|---|
| ConfigFiles.SelectedIsWiped | backupkit.py:1087-1116 | every member a restore brings back is among the files its wipe removes |
| ConfigFiles.WipedIsSelectedPart | backupkit.py:1087-1116 | a wipe removes nothing outside the parts that were asked for |
| ConfigFiles.RestoredMeaning | backupkit.py:816-824 | what a restore leaves, part by part: a covered part is the archive's but for live secrets it lacks, the rest is as it was |
| ConfigFiles.RetryIsExact | backupkit.py:1087-1116 | restoring over any cut attempt equals restoring over the untouched configuration, if and only if no file the wipe keeps was lost |
| ConfigFiles.RestoredIsBackup | backupkit.py:773-792 | a restore over any cut attempt leaves a configuration whose copy is a backup again |
| ConfigFiles.RollbackIsExact | backupkit.py:1205-1222 | wiping by the archive's names and putting the copy back gives exactly the configuration from before, from any cut attempt |
| ConfigFiles.BlindRollback | backupkit.py:1205-1222 | a rollback that never read the archive's names brings every original file back, and is exact if and only if no file of the archive alone escapes its wipe |
| ConfigFiles.BlindRollbackLeavesASecret | backupkit.py:1209-1219 | a credentials file only the archive had stays behind after such a rollback |
| ConfigFiles.RetryAfterCutBlindRollbackLosesATree | backupkit.py:1209-1219 | such a rollback cut half way, followed by a retry that succeeds, loses a tree the archive does not cover |
| RestoreTransaction.Volume.WayBack | backupkit.py:694-709 | while the configuration is not the one from before, the schedule exists and names an archive that holds it, and that archive is among those a prune keeps |
| RestoreTransaction.Volume.Wipe | backupkit.py:1087-1116 | cut anywhere, nothing but files the wipe names is gone; done, exactly those are |
| RestoreTransaction.Volume.MoveInto | backupkit.py:1069-1084 | cut anywhere, some files have arrived and no other has changed; done, all have |
| RestoreTransaction.Volume.FindCopy | backupkit.py:1162-1171 | a retry takes the copy an earlier attempt recorded, exactly if it can be read and is a backup; going without it is harmless while nothing was changed |
| RestoreTransaction.Volume.TakeCopy | backupkit.py:1172-1180 | the configuration is copied and the copy recorded in the schedule before anything is changed |
| RestoreTransaction.Volume.TryReplace | backupkit.py:1159-1199 | once the archive's names are read, the schedule's copy is the configuration from before if and only if nothing was changed yet or the copy of an earlier attempt could be read |
| RestoreTransaction.Volume.Replace | backupkit.py:1181-1199 | what is in place after stage, wipe and move is exactly the restore; nothing is wiped before the archive's names are known |
| RestoreTransaction.Volume.RollBack | backupkit.py:1205-1228 | after a rollback every original file is back; exactly the old configuration when the names were read, and otherwise exactly when nothing of the archive alone escaped; it fails only where one of its own steps does |
| RestoreTransaction.Volume.HoldFor | backupkit.py:1223-1241 | a rollback that failed leaves the schedule and, if ha.json can be written, a record that says not ok and names the copy |
| RestoreTransaction.Volume.Finish | backupkit.py:1246-1274 | the schedule goes only once the outcome is in ha.json or in the renamed schedule; exactly when a schedule outlives its outcome |
| RestoreTransaction.Volume.ApplyLive | backupkit.py:1136-1274 | one attempt: applied means the target configuration, put back means the one from before, anything else keeps the schedule and the way back; a restore that nothing stops is applied, a failure that can be undone is put back, and either is recorded for what it is; a rollback that fails is recorded as not ok, with the copy to go back to; track is lost if and only if a changed configuration meets a copy that cannot be read; a dropped schedule is never forgotten |
| RestoreTransaction.Volume.ApplyPending | backupkit.py:1136-1274 | the same for any schedule, an orphaned one included |
| RestoreTransaction.Volume.DropOrphan | backupkit.py:979-1011 | a schedule without its archive copy is recorded as failed and dropped, neither waiting for the other; the configuration is untouched |
| RestoreTransaction.Volume.MergeMarker | entrypoint.py:1311-1332 | an outcome left in a marker is recorded, and the marker goes only then |
| RestoreTransaction.Volume.CancelRestore | backupkit.py:954-976 | the schedule goes exactly if it can be removed; cancelling strands something if and only if an attempt had changed the configuration |
| RestoreTransaction.Volume.HoldAfterFailedRollback | entrypoint.py:1129-1155 | retries end only with the configuration from before, the target, or the schedule removed; a first retry that can go back ends the hold; with copies that can be read and nothing deleted by hand, track is kept and nothing stays scheduled |
| RestoreTransaction.Volume.Boot | entrypoint.py:1180-1226 | a boot that starts Home Assistant does so on exactly the configuration from before or exactly the target, as long as track is kept; when it is, as a condition on the boot, and for a boot with one attempt as an if and only if; a restore that nothing stops comes through, and a boot that is not cut and can go back starts Home Assistant |
| RestoreTransaction.Volume.ScheduleRestore | backupkit.py:827-876 | the schedule names this archive with these parts, or nothing changed |
| RestoreTransaction.Volume.Prune | backupkit.py:712-740 | exactly the backups beyond the newest so many that nothing needs go, the newest of them first, the rest in their order; a restore's archive and its pre-restore copy never do |
| RestoreTransaction.Volume.Lifetime | backupkit.py:1136-1274 | over every run of kills, failures, retries, uploads, schedules and prunes in which copies can be read, outcomes recorded and no begun schedule is deleted or dropped, each start is on a configuration Home Assistant ran on before or on exactly what a restore asked for, if archives can be read too; otherwise with every file of one of these. In any other run this holds of the starts before track is lost |
| RestoreTransaction.WayBackIsLost | backupkit.py:1162-1171 | for every configuration and archive, a run that starts Home Assistant on the wiped configuration with nothing scheduled |
| RestoreTransaction.NeitherOfTheTwo | backupkit.py:1162-1171 | an input for which that is neither the configuration from before nor the one asked for |
| RestoreTransaction.GoesBackTooFar | backupkit.py:1251-1274 | for every configuration, archive and later configuration, a run that puts the first one back over the last |
| ImportTransaction.Volume.SaveConfigEntries | custom_components/integration_manager/ha_import.py:763-784 | confirmed means the entry list on disk says what memory says; until then either may be on disk |
| ImportTransaction.Volume.Begin | custom_components/integration_manager/ha_import.py:947-961 | an intent is written only while the entry is not on disk, and lists each store with whether it had an original, all of them undoable |
| ImportTransaction.Volume.CopyOne | custom_components/integration_manager/ha_import.py:967-981 | one store set aside and copied, named on its list before either step |
| ImportTransaction.Volume.Copy | custom_components/integration_manager/ha_import.py:967-981 | all stores imported, or what was touched is on the lists and can be undone |
| ImportTransaction.Volume.Undo | custom_components/integration_manager/ha_import.py:983-995 | a complete undo by the lists leaves every store as it was before the import |
| ImportTransaction.Volume.CommitStores | custom_components/integration_manager/ha_import.py:997-1012 | originals go only once the entry is on disk and in memory |
| ImportTransaction.Volume.Finish | custom_components/integration_manager/ha_import.py:963-965 | an intent is removed only of an import that is settled, all or nothing |
| ImportTransaction.Volume.Withdraw | custom_components/integration_manager/ha_import.py:1038-1067 | the entry is out of memory and off the disk before any original goes back; undone if nothing else fails |
| ImportTransaction.Volume.Import | custom_components/integration_manager/ha_import.py:1014-1090 | each outcome of an import: done means entry and all stores, undone means neither, retained and interrupted keep the intent, and without an intent the stores are the originals and no entry is new, or all is imported; a pending intent refuses another import. One that may begin and that nothing stops is done, with its source gone exactly if that was asked for; it is taken back only after a failure, and after one failed step: undone before the save is confirmed, retained after it |
| ImportTransaction.Volume.Carry | custom_components/integration_manager/ha_import.py:1014-1079 | from a written intent on: all imported if nothing stops it, withdrawn only after stores, load or save failed |
| ImportTransaction.Volume.Keep | custom_components/integration_manager/ha_import.py:1069-1074 | a confirmed save is never withdrawn: committed if nothing stops it, otherwise retained with the entry on disk |
| ImportTransaction.Volume.Session | custom_components/integration_manager/ha_import.py:1124-1188 | any number of resolutions and saves before the importing Home Assistant stops |
| ImportTransaction.Volume.Clear | custom_components/integration_manager/ha_import.py:331-344 | the source is not dropped under an intent that needs it |
| ImportTransaction.Volume.SettleOne | custom_components/integration_manager/ha_import.py:1165-1179 | one store kept or put back, no other store touched |
| ImportTransaction.Volume.SettleAll | custom_components/integration_manager/ha_import.py:1165-1182 | under Home Assistant every store is kept or every one put back, and the intent goes only then |
| ImportTransaction.Volume.Recover | entrypoint.py:815-919 | the boot settles a pending import by the entry on disk, all or nothing, and does settle it if nothing stops it; a stale or unreadable intent costs no store and no original, and its report names no store wrongly |
| ImportTransaction.Volume.RecoverStores | entrypoint.py:815-919 | settled means every listed store is the imported one, or every one is the original |
| ImportTransaction.Volume.KeepAsOrphans | entrypoint.py:815-919 | with an unreadable intent every original set aside is kept under another name, none over another |
| ImportTransaction.Volume.Resolve | custom_components/integration_manager/ha_import.py:1124-1188 | the resolver that runs under Home Assistant decides as the boot would: by the entry, once disk and memory agree; one that nothing stops settles the import |
| ImportTransaction.Volume.CleanLeftovers | entrypoint.py:922-957 | the boot's cleaning settles a pending import first and drops the source only when no intent is left |
| ImportTransaction.Volume.ImportLife | custom_components/integration_manager/ha_import.py:872-1090 | an import cut at any step, with recovery itself cut any number of times: once no intent is left, the entry is on disk with every imported store, or every store is the original; and one boot that nothing stops leaves no intent |
| VersionWorld.World.LeavingIsTracked | entrypoint.py:1605-1668 | a version the crash counter leaves is on a configuration .HA_VERSION vouches for, or one that comes back with the fallback; nothing half way belongs to a switch |
| VersionWorld.World.FallbackWithConfiguration | entrypoint.py:1098-1123 | a fallback from a switch that reached the storage, with its restore scheduled, is consistent |
| VersionWorld.World.FallbackNotScheduled | entrypoint.py:1098-1123 | without it the version stays, with the recovery kept for the retry |
| VersionWorld.World.ScheduledEarly | entrypoint.py:1098-1123 | so is the volume when the process is killed between scheduling that restore and saving ha.json |
| VersionWorld.World.GuardIsSafe | entrypoint.py:1722-1740 | what the guard lets through is not older than what wrote .storage, or keep was asked for, or the files show an unfinished clean start or a stray restore |
| VersionWorld.World.Seeded | entrypoint.py:1611-1613 | seeding the proven version of an older volume changes no verdict |
| VersionWorld.World.NotInstalled | entrypoint.py:1679-1720 | the current version goes on when the one asked for cannot be installed, whatever the crash counter says, and each cut after that is consistent |
| VersionHistory.History.StartIsRightful | entrypoint.py:1722-1781 | what is about to start fits what happened: no fallback's version before its configuration, no other version after it, no second change, and never away from a version that booted |
| VersionHistory.History.StartAgrees | entrypoint.py:1741-1783 | recorded, counted and started, ha.json agrees with what happened: boot_failures with the boots that failed, a fallback paid with its version started |
| VersionHistory.History.FallbackAgrees | entrypoint.py:1630-1649 | a fallback decision ends the count and owes the configuration if and only if the switch had reached the storage and its restore is scheduled |
| VersionHistory.History.ConcludedAgrees | entrypoint.py:1210-1227 | a restore that comes through pays what a fallback owes, if it is its own; one that is put back makes it owed again |
| VersionHistory.History.RecoveryAgrees | entrypoint.py:1228-1263 | a recovery that is done was paid, or a restore by hand stood in for it |
| VersionHistory.History.SettledAgrees | run.py:522-540 | marking the boot ok ends the count and what was recorded for this version only |
| VersionProof.FallBackHolds | entrypoint.py:1605-1668 | leaving a version keeps the volume consistent wherever it is cut, and the version then wanted is not left again |
| VersionProof.InstallHolds | entrypoint.py:1679-1720 | the version asked for is installed, or the current one goes on, and a boot after a cut comes to the same |
| VersionProof.ForeignHolds | entrypoint.py:1190-1208 | a restore for another version, or of a newer .storage, is dropped; one that an earlier boot began only once its outcome is in ha.json |
| VersionProof.ApplyHolds | entrypoint.py:1209-1227 | applying, putting back, recording and dropping a restore, cut after any of them, also after a failed installation |
| VersionProof.RecoveryHolds | entrypoint.py:1228-1263 | a fallback goes on only if a restore came through, at this boot or a cut one; otherwise the version that was left is as ready to start |
| VersionProof.ResetHolds | entrypoint.py:960-1058 | emptying .storage or dropping the plan, cut after any step, with the copy accounted for |
| VersionProof.ChangeHolds | entrypoint.py:1264-1296 | whether the change is applied or the current version stays, what boots can read what is there |
| VersionProof.LaunchHolds | entrypoint.py:1722-1783 | Home Assistant starts only past the guard, and then rightfully; recorded, and then counted |
| VersionProof.BootHolds | entrypoint.py:1551-1783 | one whole boot, cut after any step: consistent, and what it starts, if anything, is rightful |
| VersionLife.ChangeVersionHolds | custom_components/integration_manager/views.py:309-449 | a change of version, cut after any step, leaves a volume the boot can read |
| VersionLife.ChangeIsWhole | custom_components/integration_manager/views.py:309-449 | ha.json says the whole change or nothing of it; once said, its own preparation is there, and with a backup of the running version; done, nothing of an older change is |
| VersionLife.RestoreByHandHolds | custom_components/integration_manager/backup_views.py:283-319 | a restore by hand, also while a switch back waits, refused while a change waits for its own |
| VersionLife.SwitchBackHolds | custom_components/integration_manager/ha_updater.py:723-805 | the smoke test's switch back, to the version a change that kept the configuration was asked for on: the restore for it first, then one write of ha.json |
| VersionLife.StepHolds | entrypoint.py:1551-1783 | whatever happens next, in whatever consistent state |
| VersionLife.RunHolds | entrypoint.py:1551-1783 | over every run of boots cut anywhere, crashes, stops, changes, restores and fallbacks: consistent, and boot_failures is the number of boots since the last good one or decision that ended neither well nor by a stop |
| VersionLife.StartsAreRightful | entrypoint.py:1722-1783 | and every start of every run is rightful |
| VersionLife.StepTells | entrypoint.py:1597-1668 | what each event adds to that count: a decision of the counter, a boot that came to its count, which starts Home Assistant but for a cut right after it, a good boot, a stop, and nothing else |
| VersionLife.FallbackIsWhole | entrypoint.py:1098-1123 | a fallback and its restore together or not at all, wherever the boot is cut |
| VersionLife.OutcomeBeforeSchedule | entrypoint.py:1190-1227 | a scheduled restore is gone only once ha.json says what became of it, or because the version that boots is not the one it fits |
| VersionLife.WhoseRestoreCompletes | entrypoint.py:1228-1247 | a fallback's version starts with the fallback's own configuration if and only if that was applied before or is what is scheduled when the boot begins |
| VersionProgress.LeftIfItCanBe | entrypoint.py:1605-1668 | a version the counter leaves is left, with the backup of what it replaced scheduled for the one before, if and only if that backup is there, the older version reads it and it can be scheduled; where it replaced nothing, at once; otherwise it stays |
| VersionProgress.FallbackComes | entrypoint.py:1605-1783 | and a boot that nothing stops then starts the version before, on that configuration |
| VersionProgress.ChangeComes | custom_components/integration_manager/views.py:309-449 | a version that can be asked for, which is said without the test that refuses, is what the next boot starts: with the backup's configuration, an empty one, or the one that is there, as it was asked for |
| VersionProgress.SameStarts | entrypoint.py:1722-1783 | with nothing waiting a boot starts the same version on what is there, if and only if that is not a newer version's |
| VersionProgress.SwitchBackComes | custom_components/integration_manager/ha_updater.py:723-805 | the version a smoke test goes back to is started on the configuration prepared for it |
| VersionProgress.HandRestoreComes | custom_components/integration_manager/backup_views.py:283-319 | a restore by hand is applied by the next boot, and recorded |
| VersionProgress.KeptChangeIsJudged | custom_components/integration_manager/ha_updater.py:454-479 | a version asked for with the configuration kept is judged at its boot, against the one it was asked for on |
| VersionProgress.OrphanGoes | backupkit.py:979-1011 | a restore whose archive is gone is recorded as failed, dropped and not tried |
| VersionProgress.ForeignGoes | entrypoint.py:1190-1208 | one for another version, or of a newer .storage, is dropped without being tried |
| VersionMachine.Volume.Boot | entrypoint.py:1551-1783 | the boot on the volume's files is the boot of the lemmas |
| VersionMachine.Volume.Stop | run.py:447-469 | a stop before the boot is ok takes back exactly this boot's count |
| VersionMachine.Volume.MarkOk | run.py:522-540 | what a good boot writes; no request made meanwhile is lost |
| VersionMachine.Volume.ChangeVersion | custom_components/integration_manager/views.py:309-449 | the request on the volume's files is that of the lemmas, cut after any step: asked for as a whole and with a backup of what runs, or not at all |
| VersionMachine.Volume.CancelChange | custom_components/integration_manager/views.py:538-549 | asking for the running version drops the change and what it prepared, not a restore by hand; the running version then boots next |
| VersionMachine.Volume.RestoreByHand | custom_components/integration_manager/backup_views.py:283-319 | a restore by hand, which replaces a clean start and leaves ha.json alone |
| VersionMachine.Volume.CancelRestore | backupkit.py:916-976 | a restore that is still scheduled after it belongs to the change or the switch back ha.json records |
| VersionMachine.Volume.StartSmoke | custom_components/integration_manager/ha_updater.py:454-479 | a boot has something to judge only as the first of a change that kept the configuration, or as a later one of the same version |
| VersionMachine.Volume.SwitchBack | custom_components/integration_manager/ha_updater.py:723-805 | the switch back with its restore or neither, only to the version that was judged against, once the boot was marked ok and nothing is scheduled |
| VersionMachine.Volume.Lifetime | entrypoint.py:1551-1783 | any run on the volume's files is the run of the lemmas, with every start rightful |
| VersionLimits.UnfinishedCleanStart | entrypoint.py:1264-1267 | a run in which an unfinished clean start lets an older version start on a newer configuration, unasked |
| VersionLimits.FilesDoNotTell | entrypoint.py:1722-1740 | no condition on the files tells such a start from a proper one: two runs end in the same files |
| VersionLimits.StrayConfiguration | entrypoint.py:1236-1263 | a run in which a restore by hand, cut once it was recorded, leaves an older version on a newer configuration |
| VersionLimits.StrayFilesDoNotTell | entrypoint.py:1236-1263 | nor does one tell that: two runs end in the same files |
| VersionLimits.HandRestoreStandsIn | entrypoint.py:1236-1247 | a run in which a restore by hand is taken for the fallback's own |
| VersionLimits.CameBackButRefused | entrypoint.py:1722-1740 | a run in which a fallback whose configuration came back is refused |
| VersionLimits.CameBackStarts | entrypoint.py:1722-1740 | after that, its version starts if and only if .HA_VERSION is not newer or a clean start for it waits |
| VersionLimits.LeftAsItShouldBe | entrypoint.py:1605-1668 | a run from an empty volume to a version that crashes three times and is left for the one before, with its configuration |
| VersionLimits.ChargedToTheNext | entrypoint.py:1605-1668 | a run in which a version is left for the crashes of the one before, without having been installed |
| LogFollower.QueryAfter | logbuffer.py:421-458 | the merged forward read is the fold over the two sets merged by id, with its page size, its bound and its cursor |
| LogFollower.MergeIsSorted | logbuffer.py:421-448 | merging two sets in id order by id is in id order and loses nothing |
| LogFollower.PollIsSound | logbuffer.py:421-458 | a page holds only matching records of the log between its cursors, in id order, each once, at most the page size |
| LogFollower.PollIsComplete | logbuffer.py:392-458 | it leaves out no matching record between them that is on the disk, as long as the DEBUG set was read or not asked for |
| LogFollower.PollGoesOn | logbuffer.py:421-458 | a matching record that was on the disk when the poll began is given, unless the page is full of older ones or a line before it was still being written |
| LogFollower.FollowIsExact | logbuffer.py:334-458 | any number of polls, each from the cursor of the last, deliver exactly the matching records, in order, each once, but for those off the disk at the poll that passed them |
| LogFollower.NewDebugSetIsPassed | logbuffer.py:392-400 | a DEBUG set that appears while a poll runs has its first record passed for good |
| LogFollower.SearchIndependence | custom_components/integration_manager/logs_page.py:79-116 | two logs that agree on what masking shows give the same cut, cursor and shown page for every search, page size and level floor |
| LogFollower.SearchShows | custom_components/integration_manager/logs_page.py:94-107 | of the records due a search shows exactly those of the levels and loggers asked for whose masked message or logger holds the text; an empty one shows all of them |
| LogFollower.RawSearchTells | custom_components/integration_manager/logs_page.py:79-116 | searching the raw text would not: a page's length answers a guess |
| LogFiles.Stream.Write | logbuffer.py:173-191 | a record goes to the end of the newest file, or into a fresh one after a rotation, in one step |
| LogFiles.RisesFurther | logbuffer.py:425-440 | with any number of rotations between two opens, the files opened rise by one at most from each to the next older name |
| LogFiles.Step | logbuffer.py:425-448 | one step of a set's read, an open or a file: what was opened reaches the cursor or the oldest file, what was read is one window of the log |
| LogFiles.Result | logbuffer.py:488-514 | the records above the cursor written before the read, in id order, but for what is off the disk; a mark only where a line is being written |
| LogFiles.GoodGrows | logbuffer.py:425-448 | whatever is written and rotated between two steps |
| LogFiles.OlderIsGone | logbuffer.py:425-440 | a line in a file older than the first opened was read before or is off the disk |
| LogFiles.ReadIsView | logbuffer.py:392-458 | what a set's read gives is a view that the follower's results hold for |
| LogFiles.ScanNext | logbuffer.py:461-485 | one file of a read back from the newest, none of whose records is given twice |
| LogFiles.ScannedGrows | logbuffer.py:461-485 | whatever is written and rotated between two files |
| LogFiles.ReadLines | logbuffer.py:488-506 | the new whole records of a file, none twice, torn lines left out |
| LogFiles.ReadBackLines | logbuffer.py:461-485 | the records of a file from its end, below what was read |
| LogFiles.EmptyFreshFileHidesRecords | logbuffer.py:428-436 | were a rotation's fresh file ever seen empty, the test for the cursor would hide the older files' records |
| LogFirstPage.QueryFirst | logbuffer.py:402-417 | the first page is the fold over the two sets merged from the newest, with its ceiling and its cursor |
| LogFirstPage.FirstPageIsNewest | logbuffer.py:402-417 | it is the newest matching records, as many as the page holds, and nothing newer that is not on it is below its cursor |
| LogFirstPage.FirstPageGoesOn | logbuffer.py:402-420 | its cursor is past every matching record that was there, but for those behind a line being written |
| LogFirstPage.FirstSearchIndependence | custom_components/integration_manager/logs_page.py:79-116 | two logs that agree on what masking shows give the same first page, cut and cursor for every search |
| LogHandler.Handler.Emit | logbuffer.py:286-325 | the next id, and the record in the set of its level, or nowhere; the DEBUG set exists from its first record on |
| LogHandler.Handler.ReadSets | logbuffer.py:418-448 | both sets read forward, in any order, with anything written and rotated between two steps |
| LogHandler.Handler.ScanSets | logbuffer.py:402-417 | both sets read back, likewise |
| LogHandler.RunIsExact | logbuffer.py:392-458 | what a run of a follower gives: the matching records in id order, each once, and none missing up to the cursor but those older than a full first page and those off the disk at the poll that passed them |
| LogHandler.Handler.Follow | logbuffer.py:286-458 | and that for any number of polls on the handler's files while others write and rotate at any moment; after n of them that meet no line being written the follower was given n full pages or is past everything there was to begin with |
| CleanStart.Volume.PublishStage | custom_components/integration_manager/ha_import.py:1291-1332 | a staging published with its plan, or everything as it was; no moment pairs one change's plan with another's extraction |
| CleanStart.Volume.BackOut | custom_components/integration_manager/ha_import.py:1317-1327 | a failed publication puts the old extraction back, and the old plan only then |
| CleanStart.Volume.DropRebuild | custom_components/integration_manager/ha_import.py:1383-1398 | a finished or replaced clean start leaves what is in place as the configuration, and is forgotten: plan, extraction and copies each go exactly if they can be removed, and all of them if nothing fails |
| CleanStart.Volume.ResetStorage | entrypoint.py:960-1058 | a boot cut anywhere keeps the configuration in place or in the copy the plan names, unless exactly one combination of failures took that name; emptied only for its own version, with only that copy left, and a boot backup of what was first to be emptied; emptied whenever the plan is to go ahead, or on, and nothing fails; a plan of another version or made moot by a restore goes; with nothing to do nothing is done, and a failed one is undone for another try |
| CleanStart.Volume.DropPlan | entrypoint.py:1004-1013 | the plan goes exactly if it can be removed, the copy of an emptied .storage comes back, and none is lost but one a restore replaced |
| CleanStart.Volume.SetAside | entrypoint.py:1025-1047 | the copy's name is on the volume before the rename; when the configuration loses it, as an if and only if; a failure that can be undone leaves .storage and the copies as they were |
| CleanStart.Volume.BackUp | entrypoint.py:1014-1024 | the boot's backup is made once and never of an emptied .storage |
| CleanStart.Volume.Undo | entrypoint.py:1039-1047 | a copy loses its name if and only if the rename cannot be undone while the plan can be written; otherwise .storage, copies and plan are back |
| CleanStart.Volume.Finish | entrypoint.py:1051-1058 | copies of earlier clean starts go only once this one is recorded; of one that cannot be removed a part may stay |
| CleanStart.Volume.StageRebuild | custom_components/integration_manager/ha_import.py:1335-1380 | a failed staging leaves an older clean start as it was |
| CleanStart.Volume.Life | entrypoint.py:960-1058 | over every run without that combination the configuration is where the plan says; in every run no recorded backup is of an emptied .storage, none is lost, and no plan meets another change's extraction |
| CleanStart.Strand | entrypoint.py:1030-1047 | a run in which the copy loses its name |
| CleanStart.OnlyTheBackupIsLeft | entrypoint.py:1051-1058 | and the boot after it, which leaves the configuration in the boot backup alone |
| StoreMerge.EntitiesAreEachTheirs | backupkit.py:445-460 | other integrations' entities are exactly the live ones in order; the integration's are the backup's but for entity ids another one holds now |
| StoreMerge.EntityIdsStayDistinct | backupkit.py:451-460 | entity ids stay pairwise distinct if they were in both files |
| StoreMerge.EntriesAreEachTheirs | backupkit.py:439-443 | config entries: the live ones of every other integration, the backup's of this one, each in order |
| StoreMerge.KeepDevices | backupkit.py:467-484 | the live devices that are not only the integration's, shared ones rewritten |
| StoreMerge.KeptAreTheOthers | backupkit.py:467-484 | those devices stay in order, each as it is or shared |
| StoreMerge.SharedStaysShared | backupkit.py:478-481 | a device keeps every entry of another integration; one that has none of this one's is untouched |
| StoreMerge.MergeDomainStore | backupkit.py:413-485 | which of the three files a merged store is, said of the files: the older one whole only for a newer or unreadable live one, the live one only if the older has no data, otherwise other integrations' parts of the live one and the integration's of the older |
| StoreMerge.MergedIsReadable | backupkit.py:413-485 | the older Home Assistant reads the merged store if and only if the backup's copy has data or the live one is not newer |
| StoreMerge.UnreadableStays | backupkit.py:432-433 | a backup copy without data leaves the newer live file in place |
| StoreMerge.Taken | backupkit.py:504-525 | which members are not the current ones, and for a shared registry exactly the merge of both |
| StoreMerge.StorageForVersion | backupkit.py:488-560 | the backup holds every current member and every older .storage member exactly once, each from where it should come, a shared registry as the merge of both |
| StoreMerge.RegistryInTheBackup | backupkit.py:413-525 | in the backup that is built, where both copies of a registry hold data and the live one is not newer, other integrations' entries, entities and devices are the current ones in order, and the integration's own the older backup's |
| StoreMerge.StoreInTheBackup | backupkit.py:504-525 | any other store is the current one unless it is newer than the older copy, is the integration's own, or is only in the older backup |
| StoreMerge.BackupIsReadable | backupkit.py:488-527 | no store both backups hold with a major version carries a higher one than the older copy, but for that one case |
| MaskScanner.QuoteClosesItself | custom_components/integration_manager/diagnostics.py:220-245 | a quote closes what it opened exactly if it is plain or escaped; three quotes are not closed by three, so such a value is masked to the end of its line |
| MaskScanner.LineEndCloses | custom_components/integration_manager/diagnostics.py:179-195 | what a line end closes: everything, but inside a string only the string |
| MaskScanner.BracketOfAnEarlierLine | custom_components/integration_manager/diagnostics.py:179-195 | so a bracket of an earlier line can still be open at a name |
| MaskScanner.LineEndsKept | custom_components/integration_manager/diagnostics.py:142-331 | however the values are cut, the line ends are those of the text, in order |
| MaskScanner.Track | custom_components/integration_manager/diagnostics.py:179-195 | the openers open at a name, as a fold over the text before it |
| MaskScanner.ClosedByItsCloser | custom_components/integration_manager/diagnostics.py:220-245 | what closes a quoted value is written like its opening quote, whatever backslashes stand before it |
| MaskScanner.ClosingQuote | custom_components/integration_manager/diagnostics.py:220-245 | a quoted value ends at the first quote that closes it, counting the backslashes before each, or at the end of its line |
| MaskScanner.Pair | custom_components/integration_manager/diagnostics.py:247-266 | where the separator of a name=value pair ends, on one line |
| MaskScanner.Url | custom_components/integration_manager/diagnostics.py:268-275 | whether a URL begins |
| MaskScanner.Extent | custom_components/integration_manager/diagnostics.py:277-309 | an unquoted value ends at the first place outside its own brackets and strings where what is around it closes or the next pair begins, or at the end of its line |
| MaskScanner.PairMeans | custom_components/integration_manager/diagnostics.py:247-266 | the scan finds a pair exactly where the text has a name, quoted or not, with "=", ":" or the code of one after it |
| MaskScanner.GoesOnToTheLinesEnd | custom_components/integration_manager/diagnostics.py:277-309 | an unquoted value ends before its line does only where what is around it closes, or at a separator with another pair, or in a header a URL, behind it: a blank or a comma alone does not end it |
| MaskScanner.EndsWhereAPairBegins | custom_components/integration_manager/diagnostics.py:277-309 | a plain word ends at the separator behind which another pair stands |
| MaskScanner.GoesOnInItsBrackets | custom_components/integration_manager/diagnostics.py:277-309 | nothing ends a value inside brackets of its own |
| MaskScanner.Value | custom_components/integration_manager/diagnostics.py:318-328 | a value is masked to exactly that end, its quotes kept |
| MaskScanner.MaskValue | custom_components/integration_manager/diagnostics.py:142-331 | the text is verbatim and masked segments: each name is found where the one before it ended, each masked value starts right after the match and ends exactly as above on its own line, nothing known is left, and line ends are preserved |
| KeyMaterial.MaskKeyMaterialLines | custom_components/integration_manager/diagnostics.py:360-403 | the backward loop over the lines is the fold from the last line up, with the state it carries out |
| KeyMaterial.BlockByBlock | custom_components/integration_manager/diagnostics.py:360-403 | masking a file backwards block by block, carrying the state, equals masking it whole |
| KeyMaterial.BodyAboveItsEndIsMasked | custom_components/integration_manager/diagnostics.py:360-403 | every key body line above an END marker is masked, whether its BEGIN line is there or not |
| KeyMaterial.BodyIsMasked | custom_components/integration_manager/diagnostics.py:360-403 | so is a body whose END marker was in a newer block |
| KeyMaterial.OnlyShortens | custom_components/integration_manager/diagnostics.py:360-403 | a line is left as it is or becomes a prefix of itself and the mask |
| KeyMaterial.OpenMeansInBlock | custom_components/integration_manager/diagnostics.py:360-403 | the state carried up says that a block is open: an END marker below, or a newer block, with nothing but blanks and key bodies between |
| KeyMaterial.MaskedExactly | custom_components/integration_manager/diagnostics.py:360-403 | a line is masked if and only if it is key material by itself or a key body in an open block, and then shows only what comes before the body |
| KeyMaterial.SearchGainsNothing | custom_components/integration_manager/diagnostics.py:360-403 | so a search after masking finds nothing the line did not hold |
| KeyMaterial.ScrubLines | custom_components/integration_manager/diagnostics.py:406-427 | one text back for each text given, each with its own newlines and made of exactly its own lines |
| KeyMaterial.Regroup | custom_components/integration_manager/diagnostics.py:422-427 | the lines are handed out in order, each text taking as many as it had |
| KeyMaterial.TakesEachLine | custom_components/integration_manager/diagnostics.py:422-427 | line by line what a text is made of |
| Unmask.RoundTrip | custom_components/integration_manager/ha_import.py:787-825 | for every value and every masking rule, the masked form comes back as the value, without a miss |
| Unmask.UntouchedComesBack | custom_components/integration_manager/ha_import.py:787-825 | so does a form that was never masked |
| Unmask.MaskedTextsAreTheBackups | custom_components/integration_manager/ha_import.py:787-825 | with no miss, a text in the result that looks masked is one the backup itself holds |
| Unmask.MissesShowTheMask | custom_components/integration_manager/ha_import.py:787-825 | a miss names a place of the form whose text looks masked |
| Unmask.EditsStay | custom_components/integration_manager/ha_import.py:787-825 | a form with no masked text in it comes back exactly as it was typed |
| Unmask.ShownPlaceComesBack | custom_components/integration_manager/ha_import.py:787-825 | whatever else was edited, a field that is as it was shown comes back as the backup has it |
| Unmask.TypedPlaceStays | custom_components/integration_manager/ha_import.py:787-825 | and a field without a mask stays as it was typed |
| Unmask.MovedItemComesBack | custom_components/integration_manager/ha_import.py:787-825 | a list item that was moved comes back, if it is the only one with its masked form |
| Unmask.PlainFormIsTheValue | custom_components/integration_manager/diagnostics.py:128-139 | a masked form that shows no mask is the value itself |
| Unmask.SecretsAreHidden | custom_components/integration_manager/diagnostics.py:128-135 | whatever stands under a secret key, a number, a list, a text that is not empty or an object without secret keys of its own, the mask stands there or above it |
| Unmask.TheRestIsShown | custom_components/integration_manager/diagnostics.py:128-139 | at a place no secret key leads to the value is shown as it is, but for the secrets inside its texts |
| Lockout.LeftMeans | custom_components/integration_manager/auth.py:231-233 | an address is refused exactly until the oldest of its last five failures leaves the window, and the seconds given are those until then, rounded up |
| Lockout.NewestKeeps | custom_components/integration_manager/auth.py:235-240 | trimming the global list loses nothing the budget depends on |
| Lockout.Auth.GlobalLeft | custom_components/integration_manager/auth.py:235-240 | every attempt is refused exactly while thirty failures lie in the global window |
| Lockout.Auth.Unlocked | custom_components/integration_manager/auth.py:242-246 | the addresses not locked, the one whose last failure is oldest first |
| Lockout.Auth.Prune | custom_components/integration_manager/auth.py:242-247 | no locked address is forgotten, the oldest unlocked ones go first, down to half the table and no further, and a table still full holds only locked ones |
| Lockout.Auth.TableFull | custom_components/integration_manager/auth.py:249-253 | there is no room for a new address exactly when every address in a full table is locked |
| Lockout.Auth.LockedFor | custom_components/integration_manager/auth.py:255-266 | positive exactly when the address is locked, the budget is used up, or the table is full of locked addresses; once that time is over neither the address nor the budget refuses |
| Lockout.Auth.Failed | custom_components/integration_manager/auth.py:268-282 | a failure is counted for all addresses, and entered for its own if and only if there is room, a new address included; nobody is freed |
| Lockout.Auth.Try | custom_components/integration_manager/auth.py:436-452 | a try is refused exactly when the address is locked, the budget used up or no place left; a wrong one that is not counts once more, a right one clears the address; it keeps the global window within its budget, and frees no locked address |
| Lockout.Guesses | custom_components/integration_manager/auth.py:230-285 | of wrong passwords from one address within one window five at most are looked at, and after the fifth the address is locked |
| Lockout.Attempts | custom_components/integration_manager/auth.py:230-285 | over every sequence of tries from any addresses: the window property, the table's bound, and a locked address refused for its whole window |
| ZipDirectory.FindEnd | backupkit.py:134-152 | the end record: the one at the very end without a comment, or the last a comment may follow; none otherwise |
| ZipDirectory.FindEnd64 | backupkit.py:154-171 | the zip64 record the locator names, where it says or right before it, if its sizes agree |
| ZipDirectory.CentralDirectory | backupkit.py:134-172 | the directory the end records declare, if and only if they declare one, inside the file |
| ZipDirectory.HasMoreMembers | backupkit.py:175-199 | true if and only if the declared count or the number of consecutive headers exceeds the limit, after at most limit + 1 headers |
| ZipDirectory.HeadersOfAnArchive | backupkit.py:190-198 | on a directory that is a run of well-formed headers the walk counts them all |
| ZipDirectory.OnlyOneDirectory | backupkit.py:134-172 | an archive declares one directory at most |
| ManagerSwap.Components.SweepDeployLeftovers | run.py:161-184 | a complete manager is put back or left in place, and after a clean sweep it is in place and no leftover directory is |
| ManagerSwap.Components.SwapIn | run.py:146-158 | two renames with a whole manager on one side of each: the new one in place if both succeed, the old one back if the second fails |
| ManagerSwap.Components.SyncManagerComponent | run.py:118-158 | at every kill point a complete manager is in place or set aside with its place empty; once it gets through it is in place: the image's, or the one that was there if the copy failed |
| ManagerSwap.Components.Boots | run.py:118-184 | over any number of boots and failed copies, on a used or a fresh volume: once one got through there always is a complete manager, and after one in which nothing fails it is the image's |
| ManagerSwap.FreshVolume | run.py:118-158 | from the first boot on, however often the first copy is cut |
| ChangeReport.Rekey | custom_components/integration_manager/change_report.py:100-112 | re-keying keeps every record; an entry gets the key it wants if and only if that is its own, or no entry has it and no earlier one wants it |
| ChangeReport.NextKey | custom_components/integration_manager/change_report.py:100-112 | the running set of taken keys decides just that |
| ChangeReport.ShapeIsGranted | custom_components/integration_manager/change_report.py:115-127 | with unique entity ids every entity gets the key of the other shape that it wants |
| ChangeReport.ChangedShapeIsFound | custom_components/integration_manager/change_report.py:115-127 | an entity that only gained or lost its unique id is paired with itself |
| ChangeReport.Align | custom_components/integration_manager/change_report.py:130-134 | both re-keyings together: no record lost, a snapshot compared with itself unchanged, an entity found under its key of today, and with unique ids one that only changed the shape of its key is found if and only if its two keys are free |
| ChangeReport.TakenShape | custom_components/integration_manager/change_report.py:130-158 | an input where another one's old key took the key, and the report calls the switch breaking |
| ChangeReport.Build | custom_components/integration_manager/change_report.py:130-158 | before is kept and removed, after is kept and added; of an entity found under its key the report says whether its id and what is compared differ; an entity that only changed the shape of its key is kept and not renamed if and only if its two keys are free; which services came and went, and which fields of those that stayed; a snapshot against itself is never breaking |
| ChangeReport.Compare | custom_components/integration_manager/change_report.py:136-150 | exactly the kept entities whose id, or whose compared fields, differ |
| CompatTable.ReadScan | tools/gen_ha_compat.py:172-180 | one release read: first seen, back, or gone from it on |
| CompatTable.Build | tools/gen_ha_compat.py:155-207 | the table holds, for every platform, the first release that has it and the one after the last |
| CompatTable.KnownMeans | custom_components/integration_manager/discovery.py:161-169 | known means between the first and the last scan that has it |
| CompatTable.TableRefinesTheScan | custom_components/integration_manager/discovery.py:161-169 | a platform present in a scanned release is known there; one known and absent comes back in a later one |
| CompatTable.KnowsMeans | custom_components/integration_manager/discovery.py:188-208 | below the oldest release scanned it answers, from the newest on nothing is filtered, in between the last release not newer answers |

## Left out

Contracts stated weaker than the source or its documentation might suggest:

- RestoreTransaction.Volume.Lifetime: says nothing of the starts after track was lost, which need not be on any whole configuration. A
  begun schedule that a boot drops counts as lost track, though `VersionProof.ForeignHolds` shows that it is over by then.
- RestoreTransaction.Volume.MergeMarker: one marker stands for the two, of an applied and of a failed restore, that are read in turn.
- RestoreTransaction.Volume.ScheduleRestore: the version checks and `force` are the version machine's.
- RestoreTransaction.Volume.Wipe: a removal fails loudly or succeeds; file modes and links are not modelled.
- RestoreTransaction.Volume.Replace: an archive holds files, no directory members, and staging space is one step.
- ImportTransaction.Volume.Recover: an integration that deletes or rewrites its own stores while its import is unresolved is not modelled;
  a store is the imported one, kept up to date, or a cut copy.
- ImportTransaction.Volume.Resolve: the thread that settles the stores is not outlived by its request; an intent whose source is gone is
  excluded, as `SourceKept` is proved of every run.
- VersionProof.ApplyHolds: the copy, the wipe, the moves and the rollback of a restore are RestoreTransaction's; here a begun
  restore leaves any older or newer `.storage` until it comes through or is put back. A restore that was not forced and whose backup
  records no version, and a begun one whose archive is lost, are not part of it.
- VersionProof.FallBackHolds: what comes back is `.storage`; the further parts a restore with the switch put in place are not told apart.
- VersionProof.RecoveryHolds: the version that was left is still installed.
- VersionProof.ResetHolds: removing a plan does not fail here; in CleanStart it may.
- VersionProof.BootHolds: ha.json is saved or the boot is cut; a volume that was used but has nothing recorded, continued from its virtual
  environments, is not part of it.
- VersionMachine.Volume.MarkOk: a boot is marked ok only after Home Assistant wrote its configuration, which it does in one step.
- VersionMachine.Volume.SwitchBack: the smoke test judges only after the boot was marked ok; its waiting, its verdict and a write of
  ha.json that fails are not modelled.
- CleanStart.Volume.PublishStage: what a clean start must not lose is what is in place once the older plan is gone.
- LogHandler.Handler.Follow: the level floor is INFO or above, or there are DEBUG records already; `LogFollower.NewDebugSetIsPassed` shows why.
- CompatTable.Build: platforms only. Device classes are kept per domain and are not marked gone when their whole domain vanishes.
- CompatTable.KnowsMeans: a table that cannot be read, which filters nothing, is not part of the model.
- Unmask.RoundTrip: values are compared as the data model's own equality; Python's `1 == True` and floats are not modelled.
- KeyMaterial.MaskKeyMaterialLines: the marker and body expressions are predicates on a line; stripping removes ASCII white space.
- MaskScanner.MaskValue: finding a name, a known value and a letter are given functions; which names are sensitive is not claimed.
- Lockout.Auth.Try: time is a real that never goes back; the log, the events and the session generation are not modelled.
- Lockout.Guesses: one address alone; what others do in between is `Lockout.Attempts`'s, and a full table may forget an address that is
  not locked yet.
- LogFollower.SearchShows: which loggers show below the level asked for is a given predicate. That the page is masked once more as one
  text is KeyMaterial's part.
- ChangeReport.Build: the lists are sets of keys, without their order for the page.
- StoreMerge.MergeDomainStore: device ids are not claimed to be distinct, as the older devices are appended without a look at the kept ones.
- StoreMerge.StorageForVersion: the notes for the page, the archive's own metadata and compression are not modelled.
- ZipDirectory.CentralDirectory: bytes are given; names, encryption and multi-disk archives are not looked at, as in the source.

Not modelled at all:

- A substituted Python version, the oldest version the manager accepts, pruning of virtual environments, and the repair of a missing or
  unreadable ha.json.
- HTTP views, pages, ingress and host checks, the status server, notifications, the catalog, the memory probe.
- pip, apt, PyPI, GitHub and Supervisor calls, and Home Assistant's registries and event loop: they succeed or fail.
- Compression, tar, encryption, hashing, signatures, symbolic links, pipes, file modes and excluded paths.
- `build_component` and `command_to_service` of `discovery.py`: long tables settled branch by branch.
- Log lines cut by a full disk, and ids cut in the middle of their digits.
