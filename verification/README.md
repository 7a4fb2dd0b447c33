# app_man: stores, batches and protocols

A Dafny model of the application manager's hard parts: the license folders and document rows that have to
agree with the file store, the notification batch, and the smaller protocols around the same tables. SQL
tables are maps from ids to rows, a statement is one step, a transaction happens whole or not at all, and the
file store is a map from paths to contents with a set of directories. Handlers and batches that change things
step by step are classes and methods with loops; each is tied to a function or predicate of the state before
it, and the lemmas say what those keep over whole runs.

| file | models |
|---|---|
| Wrappers, Finite, Decimal | options, counting of finite sets, decimal numbers and settings |
| Slug, Paths, FileTree | slugs, path texts and their components, the directory tree |
| LicenseWorld, LicenseHandlers | license and document rows with the file store: what every run keeps; the handlers |
| LicenseEdits, Uploads | what becomes of stored product keys; which uploads are accepted |
| Integrity | the integrity scan |
| Notifications, NotifyPlan, NotifyBatch | the notifications table and its histories, a daily run's plan, the daily and the retry run |
| NotifyQueries, NotifyDays | what the notify queries decide, on the records' own fields; one run of summaries a day |
| NotifyOnce | when one event is sent more than once, and that it otherwise is not |
| Locks, LockFiles | batch locks with atomic steps for any number of callers; the same lock file one system call at a time |
| Admins | accounts, roles, sessions, and handlers that decide on stale reads |
| Approval, Migration | approval verdicts; moving a retired department's licenses and approvals |
| ImportRows, ImportCatalog, ImportDepartments, ImportLicenses, ImportAssignments, ImportRules, Bootstrap | the CSV importers, when a row passes, and the all-or-nothing run |
| Prune, AuditPages, BackupRotation | retention, audit log paging, backup rotation |

Where the code does less than one might expect, the model follows the code, a lemma shows the case, and
another says exactly when the code is right:

- A failed restore after an update leaves the two stores apart exactly if the folder held files
  (`LicenseHandlers.StrandedOnlyWithFiles`).
- An update that changes no name keeps a folder with a collision suffix exactly if that is missing on disk
  while every earlier name is taken (`LicenseHandlers.FolderStaysIff`). With a document in it the folder moves
  on from `s_2` to `s_3` (`LicenseHandlers.SuffixedFolderMovesOn`); empty and found again, the rename onto itself
  removes it and fails (`LicenseWorld.RenameOntoItself`).
- No license event is sent again while its sent record is kept (`NotifyOnce.SentIsNotSentAgain`, over histories
  `NotifyOnce.HistoryKeepsOneSent`). It is sent more than once in three ways:
  - two managers who share an address get two notices from one run (`NotifyOnce.TwoAddressesOneRun`); a daily run
    sends each event at most once exactly if no list of addresses it uses repeats one (`NotifyOnce.DailyOnceIff`);
  - two failed daily runs leave twins and the next retry run sends both (`NotifyOnce.TwinsByTwoRuns`); a retry run
    sends each event at most once exactly if no two of its targets are for one event (`NotifyOnce.RetryOnceIff`);
  - an accepted send that could not be marked is sent again (`NotifyOnce.LostOutcomeSentAgain`); an event is
    planned or retried again exactly as `NotifyOnce.PlannedAgainIff` and `NotifyOnce.StuckAgainIff` say.
- With unlock and remove as separate calls two processes can hold one lock (`LockFiles.SplitRelease`), exactly
  if a file is removed while somebody has it open (`LockFiles.CleanRunExcludes`,
  `LockFiles.RemovalUnderOpenBreaks`).
- Two concurrent disables can leave no system admin (`Admins.MutualDisable`), and a login can bind a session of
  a user disabled meanwhile (`Admins.LoginRace`); the exact conditions are `Admins.DisableKeepsAdminIff` and
  `Admins.LoginKeepsSessionsIff`. The comment at internal/handler/web/roles.go:296-302 promises the guard for
  revoking only, which `Admins.InterleavedKeepsAdmin` confirms. Such a session passes the check of the admin
  pages, which does not look at accounts (`Admins.DisabledAdminActs`, `Admins.OnlyEnabledActIff`).
- A migrated approval for specific users or devices loses its list (`Migration.ListingLost`), and the
  verdict changes exactly for those an approved and unexpired one listed (`Migration.VerdictKeptIff`). The schema and the
  evaluation know such approvals; the approval screen writes department-wide ones only
  (internal/handler/web/approvals.go:333), so the others come from outside it.
- A backup whose clock went back may fall to its own rotation (`BackupRotation.ClockWentBack`), exactly if as
  many backups as are kept tell a later time (`BackupRotation.DestSurvivesIff`).

## Model

| member | source | states |
|---|---|---|
| Slug.SlugifyShape | internal/slug/slug.go:25-46 | every slug is a safe path component: not empty, not `.` or `..`, no separator, space, control or reserved character, whatever the name |
| Slug.SlugifyFixed | internal/slug/slug.go:25-46 | a name is its own slug exactly if it is such a component; slugging twice changes nothing |
| Slug.SlugifyIgnoresPadding | internal/slug/slug.go:25-46 | white space around a name has no effect on its slug |
| Slug.SlugifyIs | internal/slug/slug.go:25-46 | the slug, without how it is computed: the name without the white space around it, forbidden characters replaced one by one, an underscore where nothing usable is left |
| Slug.CharactersAre | internal/slug/slug.go:25-46 | white space and forbidden characters, by code points |
| Paths.DirAbsContains | internal/licensefs/licensefs.go:25-38 | a stored directory text is accepted exactly if it is not empty, not absolute and never climbs above the base, and then resolves below the base |
| Paths.CleanEscapes | internal/licensefs/licensefs.go:25-38 | the cleaned path starts with `..` exactly if some prefix of the components climbs above the start |
| Paths.LicenseFsDirText | internal/handler/web/licenses.go:587-592 | path.Join of the slugs is the four-component path `licenses/<v>/<p>/<l>` itself |
| Paths.CandidateShape | internal/handler/web/documents.go:280-312 | every suffixed candidate is again a four-component license path |
| Paths.CandidateInjective | internal/handler/web/documents.go:280-312 | the candidates of the folder search are pairwise distinct |
| Paths.CandidateText | internal/handler/web/documents.go:280-312 | the i-th candidate is the desired text followed by `_i` |
| Paths.LicensePathsPrefixFree | internal/handler/web/documents.go:436-461 | no license folder lies inside another, so a prefix test tells licenses apart |
| Paths.ReprefixText | internal/handler/web/documents.go:436-461 | cutting the old prefix off the stored text and putting the new one in front is the move on components |
| Paths.StoredPathText | internal/filestore/store.go:68-113 | the stored path text is the folder's components and one more |
| FileTree.MoveFilesAt | internal/handler/web/documents.go:316-341 | after a rename to a vacant place every file is found at its rebased path with its content, and nothing else is there |
| FileTree.MoveFilesBack | internal/handler/web/documents.go:316-341 | moving back restores the map from paths to contents |
| LicenseWorld.RenameMoves | internal/handler/web/documents.go:316-364 | a rename that is possible moves exactly the files of the folder and keeps the tree well formed |
| LicenseWorld.RestoreWorks | internal/handler/web/licenses.go:477-490 | after a rename onto a free place the rename back is always possible and gives back every file |
| LicenseWorld.RenameOntoItself | internal/handler/web/documents.go:316-364 | renaming a folder onto itself succeeds exactly if it is missing: an existing empty one is removed as the target first |
| LicenseHandlers.FirstFreeUnique | internal/handler/web/documents.go:280-312 | the outcome of the suffix search is determined by the tables and the tree |
| LicenseHandlers.TakenBound | internal/handler/web/documents.go:280-312 | taken folders are at most the licenses plus the non-empty directories |
| LicenseHandlers.OwnFolderFoundIff | internal/handler/web/documents.go:280-312 | the search for a suffixed license comes back to its own folder exactly if that holds nothing on disk and every earlier name is taken |
| LicenseHandlers.FolderStaysIff | internal/handler/web/licenses.go:450-475 | an update that changes no name keeps the folder exactly if that carries no suffix, or is missing on disk while every earlier name is taken; if it exists empty there the update fails |
| LicenseHandlers.SuffixedFolderMovesOn | internal/handler/web/licenses.go:450-475 | two licenses on one name, a document in the second's folder `s_2`: an update that changes no name moves that folder to `s_3` |
| LicenseHandlers.RowFitsExactly | internal/repository/licenses.sql.go:33-60 | with an unused folder a row can be stored exactly if nobody else has its natural key |
| LicenseHandlers.UndoWorks | internal/handler/web/licenses.go:477-490 | whatever the rename step did can be undone to the same files |
| LicenseHandlers.StrandedOnlyWithFiles | internal/handler/web/licenses.go:477-490 | a restore that fails leaves the stores apart exactly if the folder held files |
| LicenseHandlers.FileNameInjective | internal/filestore/store.go:118-142 | the names tried for a new file are pairwise distinct |
| LicenseHandlers.SavedNameSafe | internal/filestore/store.go:68-142 | a saved name is one plain component and never meta.yml |
| LicenseHandlers.Handlers.InspectCandidate | internal/handler/web/documents.go:285-308 | one candidate is free, busy or unreadable exactly by the tables and the directory |
| LicenseHandlers.Handlers.ResolveLicenseFsDir | internal/handler/web/documents.go:280-312 | the search ends within licenses + non-empty directories + 1 candidates with the first one nobody uses and that is missing or empty on disk; it fails only on an unreadable candidate or a database error |
| LicenseHandlers.Handlers.PrepareRenameTarget | internal/handler/web/documents.go:349-364 | succeeds exactly for a missing or empty target and removes only that empty directory |
| LicenseHandlers.Handlers.RenameLicenseDir | internal/handler/web/documents.go:316-341 | succeeds exactly if source and target allow it; on failure no file has moved |
| LicenseHandlers.Handlers.ReprefixDocumentPaths | internal/handler/web/documents.go:436-461 | rewrites exactly the paths of this license's documents below the old folder |
| LicenseHandlers.Handlers.RegenerateLicenseFS | internal/licensefs/licensefs.go:71-123 | touches at most the folder's meta.yml, and writes it if it succeeds |
| LicenseHandlers.Handlers.RestoreRename | internal/handler/web/licenses.go:477-490 | takes the rename back if there was one and the file system lets it |
| LicenseHandlers.Handlers.WriteUnique | internal/filestore/store.go:118-142 | creates the first name that does not exist, within entries + 1 attempts, and overwrites nothing |
| LicenseHandlers.Handlers.Save | internal/filestore/store.go:68-113 | stores exactly the uploaded bytes under a new safe name, exactly if the upload is acceptable and the folder can be made; otherwise no file changes |
| Uploads.AcceptableIff | internal/filestore/store.go:68-113 | accepted are exactly small enough PDF, PNG and JPEG files of an allowed type whose name and first bytes say the same, the name in either case |
| Uploads.BaseIs | internal/filestore/store.go:68-113 | the part of a name that counts is its last component, slashes at the end aside |
| LicenseHandlers.Handlers.UploadDocument | internal/handler/web/documents.go:40-125 | adds one file and its row, or nothing but possibly a file without a row; keeps the invariant |
| LicenseHandlers.Handlers.Create | internal/handler/web/licenses.go:250-332 | creates one row in the first free folder exactly if the natural key is free, with every field as the form has it, else changes nothing; keeps the invariant |
| LicenseHandlers.Handlers.FollowFolder | internal/handler/web/licenses.go:450-475 | moves the folder to the first free place for the new name, or leaves every file where it was |
| LicenseHandlers.Handlers.CommitRows | internal/handler/web/licenses.go:492-545 | row and document paths change together or not at all, and on every failure the files are back where they were |
| LicenseHandlers.Handlers.UpdateLicense | internal/repository/licenses.sql.go:338-380 | which of stored, conflict, gone and failed the UPDATE gives, and the table in each case |
| LicenseHandlers.Handlers.FinishUpdate | internal/handler/web/licenses.go:477-582 | after the folder step: all stores moved, or tables and files as before the request |
| LicenseHandlers.PlanFailsIff | internal/handler/web/licenses.go:450-475 | a healthy update finds no folder to move to exactly if its name changed the folder and the first free candidate is unreadable or refused as the target |
| LicenseHandlers.FollowsOrNot | internal/handler/web/licenses.go:450-475 | an update whose first free candidate it can move to meets none of the conditions of failing |
| LicenseHandlers.Handlers.Update | internal/handler/web/licenses.go:383-582 | all or nothing over two stores: row, document paths and files have moved together, or both tables and every file are as before; every field of the row is the form's, and a blank key field keeps the stored keys; exactly when it succeeds, conflicts, is forbidden or cannot move; only a failing restore leaves the stores apart |
| LicenseEdits.ServedKeepsLicense | internal/handler/web/licenses.go:444-448 | one request changes a license's keys only if it is that license's form with the key field filled, and then to what the field says |
| LicenseEdits.KeysAreTheLastSent | internal/handler/web/licenses.go:444-448 | after any run a license's keys are those of the last form that filled the field, or the ones it had; stored keys are never lost |
| LicenseWorld.CreateKeepsInv | internal/handler/web/licenses.go:289-332 | creating a license keeps rows, documents and files in agreement |
| LicenseWorld.UploadKeepsInv | internal/handler/web/documents.go:81-106 | so does an upload, with or without its row |
| LicenseWorld.UpdateKeepsDocument | internal/handler/web/documents.go:436-461 | through an update each document row follows its file |
| LicenseWorld.UpdateKeepsInv | internal/handler/web/licenses.go:450-572 | an update keeps rows, documents and files in agreement |
| LicenseWorld.StepKeepsInv | internal/handler/web/licenses.go:250-582 | every request of any kind keeps the agreement |
| LicenseWorld.RunKeepsDocuments | internal/handler/web/documents.go:40-125 | over every run an uploaded document stays, with its license, hash and bytes |
| LicenseWorld.DocumentsSurviveEveryRun | internal/handler/web/licenses.go:450-572 | over every run of creates, uploads, updates and imports: every row's path names a file with exactly the uploaded bytes, inside its own license's folder; paths are distinct; no folder contains another |
| LicenseWorld.StoredTexts | internal/repository/license_documents.sql.go:12-40 | the same on the texts the tables hold |
| Integrity.Scanner.ScanMeta | internal/integrity/integrity.go:138-163 | only a missing meta.yml is written, nothing else and never in a dry run; counters tell which |
| Integrity.Scanner.ScanDocuments | internal/integrity/integrity.go:167-209 | reports exactly the missing, differing and invalid documents, differing meaning another length or another letter somewhere, case aside; collects the registered paths |
| Integrity.Scanner.ScanUnregistered | internal/integrity/integrity.go:227-249 | the recursive walk reports exactly the files anywhere below the folder that are neither its meta.yml nor registered |
| Integrity.Scanner.WalkEntry | internal/integrity/integrity.go:227-249 | what one entry of the walk adds: for a file itself, for a directory all that its entries add, at every depth |
| Integrity.Scanner.ScanOrphanDirs | internal/integrity/integrity.go:254-290 | three nested directory reads from `licenses` down, skipping what is no directory, report exactly the third-level directories no license has; a `licenses` that is no directory stops the scan |
| Integrity.Scanner.ScanVendorDir | internal/integrity/integrity.go:260-288 | one vendor's entries: the third-level directories below it without a license |
| Integrity.Scanner.ScanProductDir | internal/integrity/integrity.go:268-287 | one product's entries: the directories in it without a license, files passed over |
| Integrity.Scanner.Scan | internal/integrity/integrity.go:82-133 | the report is exactly what is wrong with the state before the scan, finding by finding, although the scan itself writes meta files on the way; a document is reported as altered exactly if its digest differs by more than case |
| Integrity.MetaKeepsRowFindings | internal/integrity/integrity.go:82-133 | writing meta files changes no row's findings |
| Integrity.ScanExact | internal/integrity/integrity.go:82-133 | no missing, mismatch, unregistered, missing-directory or invalid finding holds exactly if every folder exists and documents and non-meta files are the same things with digests that agree letter by letter, case aside |
| Integrity.MismatchExact | internal/integrity/integrity.go:199-204 | a document's mismatch is reported if and only if its file is there with a digest of another length or another letter somewhere, case aside |
| Integrity.ReportExact | internal/integrity/integrity.go:82-290 | a finding is reported if and only if it is wrong: each kind said on the rows and the tree |
| Integrity.EqualFoldIs | internal/integrity/integrity.go:199-204 | digests count as equal exactly if they have one length and the same letters, case aside |
| Integrity.OrphansExact | internal/integrity/integrity.go:254-290 | orphan findings are exactly the third-level directories outside the fs_dir_path set |
| Integrity.ProgramShape | internal/integrity/integrity.go:82-133 | states the program itself produces meet what the exactness result asks for |
| Integrity.RunsScanClean | internal/integrity/integrity.go:167-209 | in such a state no document is ever reported missing, differing or invalid |
| Notifications.DeliveriesOk | internal/repository/notifications.sql.go:100-140 | new records have the counters and times their status demands |
| Notifications.RetriedOk | internal/repository/notifications.sql.go:164-171 | so have records after a retry run, with the limit fixed |
| Notifications.TerminalStates | cmd/notify/runner.go:273-366 | sent and gave-up records never change again; a retry run changes only failed targets |
| Notifications.NoResendAfterSuccess | internal/repository/notifications.sql.go:191-208 | a retry run only sends for events nobody had sent before it |
| Notifications.RetryRunsProgress | cmd/notify/runner.go:273-366 | after n retry runs whatever is still retryable on a configured channel has been tried n times |
| NotifyQueries.RetryExact | internal/repository/notifications.sql.go:191-205 | a complete retry run gives exactly the failed records below the limit, of every kind, without a sent twin and on configured channels one more attempt, and changes no other record |
| NotifyQueries.RetryCountsAre | internal/repository/notifications.sql.go:73-93 | which records a run counts as targets and which as superseded, on their fields |
| NotifyQueries.RetriesSettle | cmd/notify/runner.go:279-300 | after as many retry runs as the limit every record that had failed below it on a configured channel is sent or given up, or a record alike in kind, channel, recipient and license was sent |
| NotifyQueries.RecipientsAre | cmd/notify/runner.go:464-474 | a list of people gives exactly the addresses they are reached at: the notification address, or the linked user's where that is missing or empty |
| NotifyQueries.NoticesAre | cmd/notify/runner.go:94-168 | a run plans exactly the notices that are due: license, day count, channel without a sent record of the event, and an address of somebody in charge |
| NotifyQueries.SummaryTestsAre | internal/repository/notifications.sql.go:13-17 | a day has a summary exactly if one was created from its first second to its last; a record waits exactly if it was given up and no summary created since was sent |
| NotifyQueries.SummariesAre | cmd/notify/runner.go:191-264 | a run on a day that has a summary creates none; any other complete run with something waiting creates exactly one per channel and address, listing all that waits |
| NotifyDays.OneSummaryRunPerDay | cmd/notify/runner.go:203-213 | over every history of runs within their day all summaries created on one day come from one run |
| Notifications.NoGaveUpLost | internal/repository/notifications.sql.go:433-446 | in every state that hides nothing a gave-up record is still unsummarized or stood in a summary that was sent |
| Notifications.DeliveriesHideNothing | cmd/notify/runner.go:191-264 | a daily run hides no gave-up record, however its sends end |
| Notifications.RetryHidesNothing | cmd/notify/runner.go:273-366 | nor does a retry run, even when it re-sends an old summary |
| Notifications.PruneHidesNothing | internal/repository/prune.sql.go:117-120 | nor does pruning sent records, which moves the checkpoint back |
| Notifications.StepKeepsBooks | cmd/notify/runner.go:89-366 | every run of every batch, complete or broken off, keeps shapes, times, attempt counts and the no-loss invariant |
| Notifications.HistoryKeepsBooks | cmd/notify/runner.go:89-366 | so do whole histories with a clock that advances between runs |
| Notifications.EveryHistory | internal/repository/notifications.sql.go:433-446 | after every history: no gave-up record is lost, pending was never retried, failed is below the limit, gave-up at it, and nothing was sent more than limit + 1 times beyond sends whose outcome was lost |
| NotifyOnce.SentIsNotSentAgain | internal/repository/notifications.sql.go:41-48 | while a record of a license's event stands as sent, neither batch picks that event again |
| NotifyOnce.RetryOnceIff | cmd/notify/runner.go:279-300 | a retry run sends every event at most once, however its sends end, exactly if no two targets on a configured channel are for one event |
| NotifyOnce.PlanTwinFreeIff | cmd/notify/runner.go:138-168 | a daily run's plan holds no event twice exactly if every list of addresses it uses is free of repetitions |
| NotifyOnce.DailyOnceIff | cmd/notify/runner.go:138-168 | a daily run sends every event at most once, however its sends end, under exactly that condition |
| NotifyOnce.EmailsDistinctIff | cmd/notify/runner.go:450-474 | a list of candidates gives no address twice exactly if no two of them can be reached at the same one |
| NotifyOnce.PlannedAgainIff | cmd/notify/runner.go:372-406 | after a run an event is planned again exactly if it was planned before and no delivery of it was both accepted and taken down |
| NotifyOnce.StuckAgainIff | cmd/notify/runner.go:308-339 | a retried record whose outcome was lost is a target again exactly unless a twin of it was sent by the same run |
| NotifyOnce.RetryKeepsOneSentIff | cmd/notify/runner.go:273-366 | retry runs, complete or broken off, leave at most one sent record per license event exactly if they find no twins |
| NotifyOnce.DailyKeepsOneSentIff | cmd/notify/runner.go:89-184 | daily runs, complete or broken off, do so exactly if no list of addresses their notices use repeats one |
| NotifyOnce.HistoryKeepsOneSent | cmd/notify/runner.go:89-366 | over whole histories of such runs and of pruning no license event ever stands as sent in two records |
| NotifyOnce.TwoAddressesOneRun | cmd/notify/runner.go:450-474 | one daily run from the empty table sends two managers who share an address two notices |
| NotifyOnce.TwinsByTwoRuns | cmd/notify/runner.go:279-300 | two failing daily runs leave two failed records of one event, and the next retry run sends both |
| NotifyOnce.LostOutcomeSentAgain | cmd/notify/runner.go:402-404 | a daily run's accepted send that could not be marked is sent again by the next daily run |
| NotifyPlan.Emails | cmd/notify/runner.go:450-474 | addresses are never empty and at most one per candidate |
| NotifyPlan.ExpiryKindInjective | cmd/notify/runner.go:102-102 | different day counts never share a notice kind, and none is the summary's |
| NotifyPlan.OtherEventsDontDedup | internal/repository/notifications.sql.go:41-48 | records for other events leave an event's duplicate test alone |
| NotifyPlan.NoticesDontSummarize | internal/repository/notifications.sql.go:433-446 | expiry notices leave both summary decisions alone |
| NotifyPlan.PlanStable | cmd/notify/runner.go:89-184 | in the middle of a run a license has exactly the pending channels it had before the run |
| NotifyPlan.PlanIsDaily | cmd/notify/runner.go:89-264 | every delivery of a plan is one the histories allow |
| NotifyBatch.MaxRetryPositive | cmd/notify/runner.go:517-536 | a resolved limit is 5 without a setting, or the positive number the setting spells; nothing else is accepted |
| NotifyBatch.Batch.Deliver | cmd/notify/runner.go:372-406 | creates the record first, then sends, then takes down the outcome; what remains when either statement fails |
| NotifyBatch.Batch.MarkNotificationSent | internal/repository/notifications.sql.go:523-530 | one record becomes sent with its times |
| NotifyBatch.Batch.MarkNotificationFailed | internal/repository/notifications.sql.go:498-504 | one record becomes failed with its retry count unchanged |
| NotifyBatch.Batch.IncrementNotificationRetry | internal/repository/notifications.sql.go:164-171 | one record gets the decided status and one more retry |
| NotifyBatch.Batch.UnreachedChannels | cmd/notify/runner.go:108-126 | exactly the channels on which nothing was sent for the event, in order |
| NotifyBatch.Batch.ResolveDeptRecipients | cmd/notify/runner.go:414-462 | exactly the addresses the managers are reached at, or the admins' if there is no manager, and how many people have none |
| NotifyBatch.Batch.Broadcast | cmd/notify/runner.go:138-168 | delivers channel by channel and address by address what is planned, or a prefix when a statement fails; a dry run only counts |
| NotifyBatch.Batch.NotifyLicense | cmd/notify/runner.go:103-168 | one license's part of the plan |
| NotifyBatch.Batch.SendGaveUpSummary | cmd/notify/runner.go:191-264 | no summary on a day that has one; otherwise, if something waits, exactly one to every admin address on every channel, listing all that waits |
| NotifyBatch.Batch.NotifyAll | cmd/notify/runner.go:89-264 | a completed run delivers exactly the plan of the table it started on, whatever the sends do, and its counters are the numbers of records left as sent and as failed; no second summary on a day that has one; a dry run announces the same plan |
| NotifyBatch.Batch.NotifyDay | cmd/notify/runner.go:94-168 | one day count's licenses, after the notices planned for the day counts before |
| NotifyBatch.RunIsDailyStep | cmd/notify/runner.go:89-264 | however far a run gets, it is a step of the histories |
| NotifyBatch.Batch.Resend | cmd/notify/runner.go:308-339 | one more attempt: sent, still failed, given up at the limit, or its outcome lost |
| NotifyBatch.Batch.RetryOne | cmd/notify/runner.go:297-348 | a target on an unconfigured channel is left as it is |
| NotifyBatch.Batch.WorkThrough | cmd/notify/runner.go:296-348 | every target gets one attempt, or the run breaks off at the first outcome it cannot take down |
| NotifyBatch.Batch.RetryAll | cmd/notify/runner.go:273-366 | every due record on a configured channel gets one more attempt and no other record changes; each counter is the number of records that ended that way; is a step of the histories; a bad setting or a dry run changes nothing |
| Locks.BatchDistinct | internal/lockfile/lockfile.go:41-51 | the nine batch names are distinct and the server's is not among them |
| Locks.Targets | internal/lockfile/lockfile_unix.go:19-46 | an acquire takes its own lock first; a global one all batch locks besides, any other none |
| Locks.TargetsDistinct | internal/lockfile/lockfile_unix.go:30-43 | no acquire ever tries a lock twice |
| Locks.Locker.AcquireOne | internal/lockfile/lockfile_unix.go:51-70 | open, flock and metadata in turn: whichever call fails, the descriptor and the lock of the earlier ones are given back |
| Locks.Locker.Acquire | internal/lockfile/lockfile_unix.go:19-46 | succeeds exactly if the directory and every single attempt do, then holds all targets in order; otherwise the first miss is the answer and nothing is held or open |
| Locks.Locker.AcquireOthers | internal/lockfile/lockfile_unix.go:31-43 | the batch locks in list order without the caller's own; the first miss ends it |
| Locks.Locker.TakeExtra | internal/lockfile/lockfile_unix.go:35-42 | a missed lock makes the caller drop all the others |
| Locks.Locker.Release | internal/lockfile/lockfile_unix.go:75-90 | drops the lock taken last first, down to nothing |
| Locks.StepKeepsInv | internal/lockfile/lockfile_unix.go:19-116 | every step of every caller, including exits and file descriptors that cannot be closed, keeps kernel and callers in agreement |
| Locks.NoTwoHolders | internal/lockfile/lockfile_unix.go:51-70 | at every moment of every interleaving no lock has two holders |
| Locks.GlobalExcludes | internal/lockfile/lockfile_unix.go:30-43 | while one caller holds the global lock no other has any batch lock, not even on its way |
| Locks.IdleHoldsNothing | internal/lockfile/lockfile_unix.go:36-40 | after a failed acquire or a release the kernel holds nothing for the caller, except a descriptor that failed to close |
| Locks.CallsReturn | internal/lockfile/lockfile_unix.go:56-62 | nobody waits: a call in progress always has a next step, each brings its return closer, and others never delay it |
| Locks.ServerLockUntouched | internal/lockfile/lockfile.go:27-34 | no batch takes or drops the server's lock |
| Locks.ServerStandsAside | internal/lockfile/lockfile.go:27-34 | the server's lock never makes a batch miss one, nor the batches' the server |
| LockFiles.SecondHolderIsStale | internal/lockfile/lockfile_unix.go:92-112 | two holders of one name hold different inodes, at most one of them behind the path |
| LockFiles.CleanRunExcludes | internal/lockfile/lockfile_unix.go:97-116 | with unlock and unlink split, exclusion holds in every run in which no file is removed while somebody has it open |
| LockFiles.RemovalUnderOpenBreaks | internal/lockfile/lockfile_unix.go:102-112 | and whenever one is, two holders follow within three calls |
| LockFiles.SplitRelease | internal/lockfile/lockfile_unix.go:102-112 | a concrete run with two holders |
| LockFiles.AtomicStepsAreClean | internal/lockfile/lockfile_unix.go:51-116 | with taking and dropping as single steps every removal is clean and a caller wins exactly if nobody holds the lock |
| Admins.AdminPages.RotateAndBind | internal/handler/web/auth.go:146-181 | the session gets the new id and the user together, or stays as it was |
| Admins.AdminPages.LoginPost | internal/handler/web/auth.go:72-121 | refuses exactly unknown, disabled and unverified users; afterwards the old session id is dead |
| Admins.AdminPages.LogoutPost | internal/handler/web/auth.go:125-134 | exactly the one session ends |
| Admins.AdminPages.GrantPost | internal/handler/web/roles.go:134-253 | grants exactly if the session was a system admin's, the user exists, the scope fits the role and no active row says the same, before and in the transaction; refuses everybody else |
| Admins.AdminPages.RevokeUserDepartmentRole | internal/repository/user_department_roles.sql.go:203-220 | the guarded UPDATE changes one row or none, exactly by its WHERE |
| Admins.AdminPages.RevokePost | internal/handler/web/roles.go:256-368 | revokes exactly if the session was a system admin's, the row is active and the user's, is not his own admin row, and leaves another enabled admin; refuses everybody else |
| Admins.AdminPages.DisablePost | internal/handler/web/app_users.go:94-164 | disables exactly an enabled user other than the admin who asks, and ends every session of the user; refuses everybody else |
| Admins.AdminPages.EnablePost | internal/handler/web/app_users.go:169-224 | enables exactly a disabled user on an admin's request, or changes nothing |
| Admins.PickHighestRole | internal/handler/middleware/session_auth.go:168-182 | the widest role held, texts of no known role aside; none exactly if no row names a known role; system_admin exactly if held |
| Admins.StaleReadsAreSafe | internal/repository/user_department_roles.sql.go:203-220 | nothing but disabling takes the last enabled system admin away, however stale its reads were |
| Admins.DisableKeepsAdminIff | internal/handler/web/app_users.go:94-164 | disabling leaves an enabled admin exactly if there was one besides the disabled user |
| Admins.ActorRemains | internal/handler/web/app_users.go:94-106 | in an atomic request the actor himself remains |
| Admins.LoginKeepsSessionsIff | internal/handler/web/auth.go:146-181 | a login on stale reads keeps sessions in order exactly if the user is still enabled when it binds |
| Admins.StepKeepsInv | internal/handler/web/app_users.go:94-164 | every atomic request keeps an admin, unique active roles and no session of a disabled user |
| Admins.RunKeepsInv | internal/handler/web/roles.go:256-368 | so does every run of them |
| Admins.InterleavedKeepsAdmin | internal/handler/web/roles.go:295-354 | any interleaving of concurrent grants, revokes, enables and logins keeps an enabled admin |
| Admins.NoUnrecordedChange | internal/handler/web/roles.go:238-246 | a role or account changes only with exactly one audit entry that names it |
| Admins.MutualDisable | internal/handler/web/app_users.go:94-164 | two admins who disable each other at the same time leave none |
| Admins.LoginRace | internal/handler/web/auth.go:72-121 | a login checked before a disable still binds its session after it |
| Admins.OnlyAdminsChange | internal/handler/web/web.go:215-234 | roles and accounts only change on a request whose session was bound to a holder of an active system admin row when it was checked |
| Admins.SessionChanges | internal/handler/web/auth.go:72-121 | a session is bound only by a login of an enabled user with the right password, and ends only by that, by its own logout or when its user is disabled |
| Admins.InterleavedByAdmins | internal/handler/middleware/auth.go:142-153 | so in every interleaving, at every change |
| Admins.OnlyEnabledActIff | internal/handler/middleware/session_auth.go:40-103 | that only enabled users pass the check holds exactly while no session is bound to a disabled system admin |
| Admins.DisabledAdminActs | internal/handler/middleware/session_auth.go:40-103 | after the login race a disabled admin enables himself again |
| Approval.ExpiresAfterItsDay | internal/approval/approval.go:91-135 | a record expires exactly from midnight UTC after its last day, for good, and verdicts never change within a day |
| Approval.AllowedOnlyIfApproved | internal/approval/approval.go:91-135 | nothing unreviewed, unrecorded, expired or out of scope is allowed |
| Approval.ScopeMatters | internal/approval/approval.go:113-127 | the subject's listing decides exactly for unexpired approved records with a specific scope |
| Approval.VerdictIff | internal/approval/approval.go:93-135 | exactly when each of the six verdicts is given |
| Migration.MoveRowStep | internal/repository/department_migrate.sql.go:185-198 | a row moved earlier never changes the test of a later row |
| Migration.AnyOrder | internal/repository/department_migrate.sql.go:185-198 | row by row in any order, the UPDATE gives the table of the all-at-once reading |
| Migration.MovedKeepsUnique | internal/repository/department_migrate.sql.go:185-198 | UNIQUE(product, department, slug) survives |
| Migration.MovedPlusSkipped | internal/repository/department_migrate.sql.go:26-35 | moved + skipped = owned before, and the conflict count is the same after the UPDATE |
| Migration.SecondRunMovesNothing | internal/repository/department_migrate.sql.go:185-198 | after a run nothing is left to move |
| Migration.CopiesKeepActiveUnique | internal/repository/approvals.sql.go:51-67 | copies keep at most one active approval per department and product |
| Migration.CopyExists | internal/handler/web/departments_migrate.go:251-290 | a product the successor did not cover gets exactly one active approval there, copied from the source |
| Migration.VerdictKeptIff | internal/handler/web/departments_migrate.go:251-290 | the copy gives a subject the source's verdict at an instant, exactly unless the subject was named one by one in an unexpired approval: those lists are not copied |
| Migration.ListingLost | internal/handler/web/departments_migrate.go:251-290 | one approval for one named user: after the migration that user's verdict for the successor is no longer allowed |
| Migration.OthersKept | internal/handler/web/departments_migrate.go:255-272 | covered products and all other departments keep their rows |
| Migration.SecondRunCopiesNothing | internal/handler/web/departments_migrate.go:251-290 | after a run nothing is left to copy |
| Migration.SecondRun | internal/handler/web/departments_migrate.go:193-318 | a second migration reports 0 moved, 0 copied and the same number skipped, and changes no table |
| Migration.Migrations.MigrateLicenses | internal/repository/department_migrate.sql.go:185-198 | the row loop computes the all-at-once table and its count |
| Migration.Migrations.ListActiveApprovals | internal/repository/department_migrate.sql.go:73-78 | every active approval of the department once |
| Migration.Migrations.CopyOne | internal/handler/web/departments_migrate.go:258-289 | copies one approval exactly if the successor does not cover its product |
| Migration.Migrations.CopyApprovals | internal/handler/web/departments_migrate.go:251-290 | copies exactly what was uncovered before the loop; copied + skipped = listed |
| Migration.Migrations.Migrate | internal/handler/web/departments_migrate.go:193-318 | refuses exactly wrong department states; otherwise both tables and one audit entry change together, row by row as the next row says, or nothing does |
| Migration.MigratedRows | internal/handler/web/departments_migrate.go:193-318 | exactly the licenses whose product and slug the successor does not have change hands, and nothing else about them; every active approval of a product without one there gets exactly one copy with the same status, scope, conditions and expiry |
| Decimal.NonNegativeExact | internal/bootstrap/licenses.go:393-402 | of all texts exactly the empty one, the numerals below 2^63 with or without a plus and leading zeros, and minus zero are accepted, each as its number |
| ImportRows.ReadCsv | internal/bootstrap/bootstrap.go:131-172 | accepts exactly files whose header matches and whose records have its columns; rows are numbered from 1 |
| ImportRows.ParseDate | internal/bootstrap/licenses.go:406-415 | an accepted date is a real day of the calendar |
| ImportRows.ParseDateExact | internal/bootstrap/licenses.go:406-415 | exactly the texts of Gregorian calendar days, year, month, day, are read as dates, each as its day |
| ImportRows.Memo.Get | internal/bootstrap/licenses.go:264-280 | the cached answer is the fetched one, and no key is fetched twice |
| ImportDepartments.Validate | internal/bootstrap/departments.go:30-114 | a row is reported exactly if something is wrong with it; no errors means every row is clean |
| ImportDepartments.Validator.CheckCode | internal/bootstrap/departments.go:74-88 | the code is reported exactly if empty, unreadable, in the database or in an earlier row |
| ImportDepartments.Validator.CheckParent | internal/bootstrap/departments.go:90-102 | the parent is reported exactly if unreadable, the row itself, or neither in the database nor in an earlier row |
| ImportDepartments.CleanRowInserts | internal/bootstrap/departments.go:116-153 | a clean row always goes in after the rows before it |
| ImportDepartments.InsertKeepsAcyclic | internal/bootstrap/departments.go:128-137 | no insert ever closes a chain of parents |
| ImportDepartments.Insert | internal/bootstrap/departments.go:116-153 | validated rows all go in unless a statement fails by itself, each under the parent it names, and the parent relation stays acyclic |
| ImportLicenses.Validate | internal/bootstrap/licenses.go:48-187 | a row is reported exactly if something is wrong with it; no errors means every row is clean |
| ImportLicenses.Validator.CheckKey | internal/bootstrap/licenses.go:115-139 | the natural key is reported exactly if unreadable, in the database or in an earlier row |
| ImportLicenses.Validator.CheckFolder | internal/bootstrap/licenses.go:141-160 | so is the folder, among rows that name a vendor, a product and a slug |
| ImportLicenses.DistinctRows | internal/bootstrap/licenses.go:131-139 | different natural keys in the file are different keys in the database |
| ImportLicenses.EarlierRowDiffers | internal/bootstrap/licenses.go:131-160 | two clean rows of a file share neither natural key nor folder |
| ImportLicenses.CleanRowFits | internal/bootstrap/licenses.go:189-240 | a clean row always goes in after the rows before it |
| ImportLicenses.CleanLoads | internal/bootstrap/licenses.go:189-240 | so all rows of a validated file go in, each as the license it describes |
| ImportLicenses.ImportIsARun | internal/bootstrap/licenses.go:189-240 | an import is a run of creations that never touches the file store, so it keeps what every run keeps |
| ImportLicenses.Insert | internal/bootstrap/licenses.go:189-240 | computes that world, or stops at the first row that is refused or fails |
| ImportAssignments.Resolver.Lookup | internal/bootstrap/licenses.go:326-389 | after any sequence of rows the four caches give exactly the uncached answer: license, absence or failure, under the row's own line |
| ImportAssignments.Validator.CheckRow | internal/bootstrap/user_assignments.go:32-84 | license, subject and pair errors of one row |
| ImportAssignments.Validate | internal/bootstrap/user_assignments.go:32-84 | a row is reported exactly if something is wrong with it; no errors means every row is clean |
| ImportAssignments.CleanRowInserts | internal/bootstrap/device_assignments.go:86-106 | a clean row always goes in after the rows before it |
| ImportAssignments.Insert | internal/bootstrap/user_assignments.go:86-107 | validated rows all go in unless a statement fails by itself, and active assignments stay unique |
| ImportRules.DepartmentRule | internal/bootstrap/departments.go:30-114 | a department row passes exactly under conditions on its columns, the table and the earlier rows |
| ImportRules.ColumnIs | internal/bootstrap/departments.go:59-63 | a column's text is its cell without the white space around it |
| ImportRules.LicenseRule | internal/bootstrap/licenses.go:48-187 | a license row passes exactly if its columns have the formats, lead to one product and one department in force, and neither the world nor an earlier row has its key or its folder |
| ImportRules.LicenseRowFields | internal/bootstrap/licenses.go:189-240 | what a license row becomes, field by field |
| ImportRules.AssignmentRule | internal/bootstrap/user_assignments.go:32-84 | an assignment row passes exactly if it names a license and a present subject that neither the table nor an earlier row pairs |
| Bootstrap.Database.Run | internal/bootstrap/bootstrap.go:66-127 | all or nothing: exactly the rows and one audit entry are added, or tables and audit log are as before; a validated file fails only if a statement does |
| Bootstrap.ImportedLicensesKeepInv | internal/bootstrap/licenses.go:189-240 | a committed license import keeps documents, folders and files in agreement |
| Bootstrap.SecondImportRefused | internal/bootstrap/bootstrap.go:66-127 | importing the same file again is refused |
| Decimal.ParsePositiveExact | cmd/prune-logs/runner.go:165-184 | of all texts exactly the numerals of positive numbers below 2^63, with or without a plus and leading zeros, are accepted as settings, each as its number |
| Decimal.NumeralIff | cmd/prune-logs/runner.go:165-184 | a text of digits denotes a number exactly if it is the number's decimal rendering behind any number of zeros |
| Prune.ReferencesKept | cmd/prune-logs/runner.go:90-107 | after every statement each raw installation still has its import log |
| Prune.AfterIs | internal/repository/prune.sql.go:77-120 | what each table holds after any number of the four statements |
| Prune.DryRunPredicts | internal/repository/prune.sql.go:25-33 | the dry run counts exactly the rows each statement of a real run goes on to delete |
| Prune.PartialRunsConverge | cmd/prune-logs/runner.go:60-121 | a run broken off anywhere, at the same or earlier cutoffs, changes nothing about where the next full run ends |
| Prune.PruneIsHistoryStep | internal/repository/prune.sql.go:117-120 | pruning notifications only removes sent ones, a step of the notification histories |
| Prune.CutoffsAdvance | cmd/prune-logs/runner.go:60-88 | with unchanged settings cutoffs never go back, and nothing of the last day is pruned |
| Prune.CutoffsAre | cmd/prune-logs/runner.go:60-88 | each table has its own setting and its own default, and its cutoff lies that many days back |
| Prune.CutoffsComeFrom | cmd/prune-logs/runner.go:165-185 | a run has cutoffs only if every setting present spells a positive number |
| Prune.FullRunKeeps | cmd/prune-logs/runner.go:90-112 | a full run keeps exactly the rows from the cutoffs on, the logs of installations it keeps, and every notification that was not sent |
| Prune.Database.DryRunPrune | cmd/prune-logs/runner.go:130-158 | the announced counts are those of the real run |
| Prune.Database.PruneAll | cmd/prune-logs/runner.go:60-121 | a bad setting stops before the first delete; otherwise the statements run in order, up to the one that fails, and a full run keeps exactly what it should |
| AuditPages.List | internal/handler/web/audit_logs.go:42-122 | the page of the requested cursor; refuses exactly cursors that are not a non-negative number |
| AuditPages.MatchingIs | internal/repository/audit_logs.sql.go:61-74 | the query finds exactly the entries that pass the filters and lie before the cursor, newest first |
| AuditPages.MatchedFields | internal/repository/audit_logs.sql.go:61-74 | the same on the fields: action by its beginning, entity type and user name by equality, an empty filter text meaning no condition |
| AuditPages.AppendsAreInvisible | internal/repository/audit_logs.sql.go:61-74 | entries that arrive later never show up behind a cursor |
| AuditPages.PageIs | internal/handler/web/audit_logs.go:71-115 | the k-th page shows the k-th hundred of what matched at the first request |
| AuditPages.FollowedToTheEnd | internal/handler/web/audit_logs.go:71-115 | following "more" to its end shows exactly the entries that matched at the first request, newest first, none twice, on ceil(n / 100) pages and at least one |
| AuditPages.MoreMakesProgress | internal/handler/web/audit_logs.go:71-115 | a page that offers more is full and leaves fewer entries |
| BackupRotation.NameOfMatches | cmd/backup/runner.go:47-48 | the names a run writes are the ones rotation and cleanup look for |
| BackupRotation.NamesOrderTimes | cmd/backup/runner.go:47-48 | the order of the names is the order of the times |
| BackupRotation.NamesAreTimes | cmd/backup/runner.go:47-48 | names and times are the same thing: each backup name is written for exactly one time and read back as it |
| BackupRotation.StaleTmpIs | cmd/backup/runner.go:150-161 | leftovers are exactly the names of backups being written |
| BackupRotation.PlanIsDoomed | cmd/backup/runner.go:200-205 | cutting the sorted list dooms exactly the backups with enough newer ones |
| BackupRotation.OldestGo | cmd/backup/runner.go:166-205 | whatever goes is older than whatever stays |
| BackupRotation.ManyStay | cmd/backup/runner.go:200-205 | exactly `generations` backups stay, or all if there are fewer |
| BackupRotation.DestSurvivesIff | cmd/backup/runner.go:97-100 | a run keeps its own backup exactly if fewer than `generations` of the backups it finds tell a later time than its clock |
| BackupRotation.ClockWentBack | cmd/backup/runner.go:97-100 | a backup of the next day, one generation to keep: the run removes the backup it has just written |
| BackupRotation.OutputDir.ListBackups | cmd/backup/runner.go:182-196 | exactly the matching names, ascending |
| BackupRotation.OutputDir.RemoveStaleTmp | cmd/backup/runner.go:150-161 | removes exactly the interrupted leftovers |
| BackupRotation.OutputDir.PruneOldBackups | cmd/backup/runner.go:166-179 | removes exactly the doomed backups, or some of them when a removal fails |
| BackupRotation.OutputDir.DryRunBackup | cmd/backup/runner.go:129-145 | announces exactly what a real run at that moment removes |
| BackupRotation.OutputDir.RunBackup | cmd/backup/runner.go:26-115 | before the rename no backup is touched; a completed run added the new one and removed exactly the doomed ones, its own among them exactly if enough backups tell a later time |

## Left out

- HTTP routing, forms, CSRF, cookies, views and log lines: only the decision of a handler and the tables it changes are modelled.
- Mail, Teams and file senders: a send is an outcome, chosen freely for every record.
- SQLite itself: statements are atomic and transactions happen whole; unique and partial unique indexes are taken as the migrations declare them.
- Process death between a file operation and the commit, and edits of the file store from outside: the code leaves both to the integrity scan.
- Case-insensitive file systems: two slugs that differ only in case are two folders here.
- bcrypt, SHA-256 and random session ids: verification is an input, the hash an arbitrary function, a session id any value.
- MIME types beyond the magic numbers the store checks itself.
- The text of meta.yml beyond its being some content, and its temporary file; the wording of mails and of the gave-up summary, whose body is the set of ids it lists.
- YAML configuration, Excel and ZIP export: library output.
- Vendor, product, user and device screens and their importers: single-table inserts and updates.
- The Windows lock stub, the batch mains and the schema migration driver.
- CSV quoting and blank lines: records are taken as the CSV reader delivers them.
- The log-only counters for duplicates and missing recipients of the daily notify run.
- NotifyBatch.Batch.NotifyAll: a failing SELECT breaks off a run like a failing INSERT at the same point and has no outcome of its own.
- NotifyBatch.Batch.RetryAll: targets are worked through in any order, of which the order by id is one; the same holds for the rows of MigrateLicenses and ListActiveApprovals.
- Locks.Locker.AcquireOne: the metadata written into a lock file has no content here.
- Locks.Locker.Release: errors of unlock, close and remove are steps of `Locks.Next` and `LockFiles`, not answers of the method.
- Integrity.Scanner.Scan: findings are compared as sets, so the order of a report and a finding appearing twice are not described.
- Admins.AdminPages.GrantPost: looking up the department is an input; a statement that fails by itself is the failing audit entry.
- ImportAssignments.Insert: the external account id and the note of an assignment are not stored.
- ImportDepartments.Insert: valid_to and source_ou are checked or read but not stored, as in the code.
- AuditPages.FollowedToTheEnd: the retention batch deleting entries between two pages is not part of the runs considered.
- BackupRotation.OutputDir.RunBackup: the content of a backup file and its fsync.
