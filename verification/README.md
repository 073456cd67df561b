# Verified models of AutoRestic

AutoRestic is a Go service with a Vue frontend around the backup program restic. This project models, in Dafny 4.11,
the parts of it that keep state across goroutines and tables, and the parts that print text another part reads back,
and proves what they keep. `dafny verify dfyconfig.toml` checks all of it.

Sources that change state are classes and methods with loops (`SyncLoads`, `CacheStore`, `CoreSync`, `FilesSync`, `RepoLock`,
`LockCleanup`, `OutputBuffer`, `Planner`, `SnapshotPages`, the tokenizer, the parser and the argument builders), each
proved against functions. Concurrency is a set of state machines over those functions, one step per mutex section, SQL
statement or transaction, with every database call and command able to fail (`LoadProtocol`, `CoreSyncProtocol`,
`FileIndexProtocol`, `RepoLockProtocol`). A statement about `Reachable(s)` holds after every legal sequence of steps.

- `SyncLoads`, `LoadProtocol`: background loads, one per repository and domain, and the file-index queue.
- `CacheTables`, `FileTables`, `CacheStore`: the index tables of one repository and the statements and transactions on them.
- `CoreSyncProtocol`, `CoreSync`, `SummaryFate`: publication of a new snapshot list; summaries; what a failed run leaves behind.
- `FileIndexProtocol`, `FilesSync`: directory listings, their index rows, and the payloads they came from.
- `RepoLockProtocol`, `RepoLock`, `LockCleanup`: the operation lock of a repository, and clearing restic's own locks before scheduled commands.
- `ShellText`, `ShellWords`, `BackupArgs`, `BackupParser`, `CommandRoundTrip`, `CommandForms`, `IntegerFlags`: the backup
  command line, built twice, printed, and parsed back, and the other ways people write it.
- `OutputText`, `OutputBuffer`, `LogReadBack`: bounded log output, its truncation marker, and reading it back.
- `SnapshotPath`, `SnapshotPages`, `Planner`: paths inside snapshots, the paged list, the refresh planner.

What the outside world does is a parameter: which database calls succeed, what commands print, what `/proc` shows, what
time it is. JSON documents are taken as decoded values with their failures (`Malformed`, `None`). Output text is bytes,
one character each.

## What the proofs found

- A core sync that fails after it stored its config row can never be followed by a successful one until the repository is
  reset: the row is a plain INSERT at the next generation. `CoreSyncProtocol.CanPublishExactly` is the exact condition.
  A lost publishing write leaves the visible list empty in the same state.
- A backup summary that arrives between the replacement of the rows and the finalize is dropped; one that arrives between
  the finalize and the publishing write misses that publication and may come back with the next. `SummaryFate` says
  whether the next publication carries a summary: for one whose text is not blank and that `fillSnapshotSummaryFromDB`
  accepts, with no other summary of the snapshot under way, and payloads that list the snapshot without one of its own.
- A fresh file index row of a settled path can be wrong in two ways only (`ListedSnapshotAgrees`): a request whose path
  settles in exactly the third round of normalization (`"/a /. /"`; readers' paths are normalized twice before they are
  queued, and once more when stored), and a finalize that drops the snapshot between a store of rows and the success
  write. Both are shown by runs from the empty tables.
- A core sync whose failure cannot be recorded, or that a failing state write cuts short, leaves its row `running`; the
  planner resumes stale, failed and interrupted rows only, and nothing turns the one into the other (`FailureIsRetried`).
- A root whose paths are not known yet is marked stale and then overwritten as a success of no entries.
- As process 1 the service does not recognise locks of its own children, and unlocks them.
- The printed `--verbose` of the value `true` is refused by the parser; `--json` must be set for the flags to come back as
  they were, because the printer adds it; a list item may not hold a backslash before a line end, even inside quotes.
- A global option without a value right before `backup` swallows the word: `restic -q backup /data` is refused as another
  command (`OptionSwallowsBackup`). An empty value is refused after a space and taken after an equals sign.
- Log counts are wrong only when the stored text was cut and the read limit is shorter than the marker; a marker inside the
  output is believed, as far as it survives the cuts.
- Before the first publication the snapshot list returns rows that its total does not count (`UncountedExample`).
- While pages are loaded one by one, a snapshot that appears repeats a row; one that goes hides a row exactly when it had
  been read and more was to come.

## Model

Lemmas without a row are steps of proofs, or fix single texts, numbers and columns of the functions they stand beside.

| member | source | states |
|---|---|---|
| SyncLoads.RepoCacheService.EnqueueFileIndex | backend/internal/service/repo_cache_service.go:398-418 | one request per snapshot and path; a repeat strengthens the queued one |
| SyncLoads.RepoCacheService.DequeueFileIndex | backend/internal/service/repo_cache_service.go:697-709 | takes any one queued request, and the queue entry goes when it is empty |
| SyncLoads.RepoCacheService.BeginLoad | backend/internal/service/repo_cache_service.go:455-465 | the first caller of a slot owns a fresh load, every other one joins it |
| SyncLoads.RepoCacheService.FinishLoad | backend/internal/service/repo_cache_service.go:467-480 | the load leaves the map as its channel closes, and pending file work is seen in the same step |
| SyncLoads.RepoCacheService.AnnounceStarted | backend/internal/service/repo_cache_service.go:496-509 | the first positive id is kept and sent, later ones are ignored |
| SyncLoads.RequestsCoalesce | backend/internal/service/repo_cache_service.go:398-418 | any sequence of requests for one path of one snapshot leaves one: forced if any was, a prewarm if all were |
| SyncLoads.EnqueueAddsOnePath | backend/internal/service/repo_cache_service.go:398-418 | queueing a request queues its path of its snapshot; every other path of any snapshot stays queued or not, and other repositories are untouched, for snapshot ids without a bar |
| SyncLoads.EnqueueKeepsFlags | backend/internal/service/repo_cache_service.go:398-418 | a path queued alone has its own flags, one asked for twice is forced if either was and a prewarm if both were, and the flags of every other path stay |
| SyncLoads.DequeueTakesOnePath | backend/internal/service/repo_cache_service.go:697-709 | taking a request takes that one: all others stay, and an emptied queue goes |
| LoadProtocol.NoLostWakeUp | backend/internal/service/repo_cache_service.go:365-480 | queued file work always has an active files load, a caller about to start one, or a finished worker about to send one |
| LoadProtocol.QuietMeansDrained | backend/internal/service/repo_cache_service.go:393-480 | while anything is queued something is active or on its way |
| LoadProtocol.QueuedPathCanBeServed | backend/internal/service/repo_cache_service.go:614-709 | from every state some continuation lets a worker take any given queued path |
| LoadProtocol.RequestWaitsUntilTaken | backend/internal/service/repo_cache_service.go:365-480 | over any run, a queued path of a snapshot stays queued until a worker takes that very path of that snapshot |
| LoadProtocol.SingleFlight | backend/internal/service/repo_cache_service.go:424-480 | one live load and one runner per slot; `done` closes once, exactly when the load leaves the map |
| LoadProtocol.OneIdPerLoad | backend/internal/service/repo_cache_service.go:424-509 | all callers that get a positive id from one load get the one id sent on its channel |
| CacheTables.ReplacedCarries | backend/internal/service/repo_cache_service.go:1484-1586 | every entry of a payload without a summary is filled from the latest row that has facts to give, duplicates included, and those facts stay the latest |
| CacheTables.ReplacedKeys | backend/internal/service/repo_cache_service.go:1424-1538 | a payload adds exactly its ids at its generation and leaves every other generation alone |
| CacheTables.CarriedExactly | backend/internal/service/repo_cache_service.go:1540-1586 | for one entry without a summary over a published row, whatever older rows there are: the facts survive if and only if the row is accepted as a source and its text is not blank |
| CacheTables.SurvivesExactly | backend/internal/service/repo_cache_service.go:1540-1586 | the same by columns: a text, a total of files or bytes, or added data outlive a refresh; counts of new, changed or unmodified files alone do not |
| CacheTables.LastEntryWins | backend/internal/service/repo_cache_service.go:1484-1538 | the row of a snapshot has the time and details of the payload's last entry for it, and that entry's own facts when it has any, no text being stored as `{}` |
| CacheTables.FinalizeKeepsExactly | backend/internal/service/repo_cache_service.go:1251-1259 | a row survives the finalize if and only if it is of the new generation, and then as it is |
| CacheTables.SummaryKeepsColumns | backend/internal/service/repo_cache_service.go:921-947 | a summary replaces the facts of its row and leaves time, details and every other row |
| CacheTables.StaleMarkKeepsPublication | backend/internal/service/repo_cache_service.go:1215-1225 | a stale mark changes neither published generation, success time nor log id |
| CacheStore.RepoCache.SetSyncState | backend/internal/service/repo_cache_service.go:1833-1861 | generation 0, a missing success time and a missing log id keep the stored ones |
| CacheStore.RepoCache.StoreResticConfig | backend/internal/service/repo_cache_service.go:1277-1294 | succeeds exactly when the text decodes, the call works and no row stands at that generation |
| CacheStore.RepoCache.ReplaceSnapshots | backend/internal/service/repo_cache_service.go:1424-1538 | all batches or nothing, and exactly when it succeeds |
| CacheStore.RepoCache.FinalizeCoreGeneration | backend/internal/service/repo_cache_service.go:1243-1275 | one transaction: only rows of the new generation, and only files of its snapshots, stay |
| CacheStore.RepoCache.StoreBackupSummary | backend/internal/service/repo_cache_service.go:900-947 | facts are written at the published generation, other columns of a row that is there stay |
| CacheStore.RepoCache.StoreSnapshotFiles | backend/internal/service/repo_cache_service.go:1588-1718 | one directory replaced by one row for each direct child of the payload, column by column, and exactly when; every other row is kept |
| CacheStore.RepoCache.SetFileIndexState | backend/internal/service/repo_cache_service.go:1895-1915 | an index row is replaced, generation 0 keeps the stored one |
| CacheStore.RepoCache.MarkFileIndexesStale | backend/internal/service/repo_cache_service.go:1227-1239 | afterwards no index row is fresh; none comes or goes, running ones still run, counts, errors, generations and file rows stay |
| FileTables.AllStaleExactly | backend/internal/service/repo_cache_service.go:1227-1239 | the protocol's stale mark is the one result of which that holds |
| CoreSync.RunCoreSync | backend/internal/service/repo_cache_service.go:511-558 | every way the sequential code can go is a legal run of the protocol; it succeeds exactly when every answer it depends on is good, then shows the payload's ids with the row successful, 100, no error, the new generation and time; a reported failure leaves the row failed with that cause's phase, progress and error, and the old generation and success time; a failed state write leaves the row as it was or running |
| CoreSync.SyncConfig | backend/internal/service/repo_cache_service.go:516-532 | the config half, with its failed states and the row each leaves, is a run of the protocol that publishes nothing |
| CoreSync.SyncSnapshots | backend/internal/service/repo_cache_service.go:533-547 | the snapshots half succeeds only with a payload that decodes, and publishes nothing |
| CoreSync.PublishSnapshots | backend/internal/service/repo_cache_service.go:548-557 | finalize and publication: the generation moves exactly on success |
| CoreSync.SyncRows | backend/internal/service/repo_cache_service.go:533-557 | the part after the config row, with what it leaves visible on success, on failure and on a lost publishing write |
| CoreSync.FailureIsRetried | backend/internal/service/repo_cache_service.go:284-288 | the planner queues a repository again after a recorded failure, and not after an unrecorded one, a sync cut short or a success |
| CoreSyncProtocol.VisibleIsLastPayload | backend/internal/service/repo_cache_service.go:511-558 | nothing is stored above the next generation, a row there stands beside a config row, and the visible ids are those of the last payload and the summaries since, outside the finalize window |
| CoreSyncProtocol.PublicationIsExact | backend/internal/service/repo_cache_service.go:548-552 | publication makes the visible ids exactly those of the payload |
| CoreSyncProtocol.SyncStepsKeepVisibleRows | backend/internal/service/repo_cache_service.go:511-552 | in every reachable state, no step other than a committed finalize, a successful publication, a summary write or a reset changes a row that readers see; a failing finalize or publishing write does not |
| CoreSyncProtocol.FailedRefreshKeepsIndex | backend/internal/service/repo_cache_service.go:511-551 | over any run of failing syncs, stale marks, crashes and unwritten summaries, readers see the same rows at the same generation |
| CoreSyncProtocol.ProgressNeverLost | backend/internal/service/repo_cache_service.go:1215-1225 | over any run without a reset the published generation never falls and the success time is never cleared |
| CoreSyncProtocol.CanPublishExactly | backend/internal/service/repo_cache_service.go:1277-1294 | short of a reset a later sync can publish if and only if no config row was left at the next generation (a plain guard on the tables when no sync runs) |
| CoreSyncProtocol.FailureAfterConfigBlocks | backend/internal/service/repo_cache_service.go:529-554 | any failure after the config row is stored, a payload that does not decode included, and a lost publishing write, block all later syncs |
| CoreSyncProtocol.SummaryCarryOver | backend/internal/service/repo_cache_service.go:1484-1586 | a stored summary with all its metrics stays on the visible row through any number of syncs that list the snapshot bare |
| CoreSyncProtocol.SummaryStartsCarrying | backend/internal/service/repo_cache_service.go:900-947 | a summary written at the published generation before the rows are replaced is such a summary |
| CoreSyncProtocol.LateSummaryIsLost | backend/internal/service/repo_cache_service.go:545-552 | a summary written between the replacement and the finalize leaves no trace in the published tables |
| SummaryFate.SummaryReachesPublication | backend/internal/service/repo_cache_service.go:900-947 | a summary that no newer row of its snapshot outdoes, at whatever generation it is written, is on the visible row after the next publication whose rows are not replaced yet; written after a finalize, it reappears one publication later |
| SummaryFate.SummaryMissesPublication | backend/internal/service/repo_cache_service.go:900-947 | every other summary misses the next publication: it publishes the rows of the run in which the write failed |
| SummaryFate.KeptIsPublished | backend/internal/service/repo_cache_service.go:1558-1586 | facts of the latest row that has any are published by whatever sync comes through |
| FileTables.StoredListing | backend/internal/service/repo_cache_service.go:1588-1718 | after a store readers of the directory get the payload's children and readers of all others see no change |
| FileTables.ChildrenAreEntries | backend/internal/service/repo_cache_service.go:1624-1655 | the rows of a payload without repeats are its child entries one for one: each at its normalized path, with the entry's kind, details and name, or the last name of the path when it has none |
| FileTables.IsChildExactly | backend/internal/service/repo_cache_service.go:1629-1632 | an entry whose path is settled is a child if and only if it has a kind and its path is the directory, a slash and one name |
| FileTables.DistinctExactly | backend/internal/service/repo_cache_service.go:1612-1660 | the primary key refuses a payload if and only if two of its child entries have one normalized path |
| FileIndexProtocol.FreshIndexAgrees | backend/internal/service/repo_cache_service.go:614-681 | a fresh index row of a settled path that is not doubtful is a success; its directory lists one row for each child entry of the last payload, with that entry's columns, and its count is theirs |
| FileIndexProtocol.ListedSnapshotAgrees | backend/internal/service/repo_cache_service.go:614-681 | from any reachable state in which no settled directory of the snapshot is doubtful: fresh rows of settled paths stay true unless a path asked for settles in exactly the third round, or a finalize drops the snapshot between a store of rows and its success |
| FileIndexProtocol.SpaceFreeRequestsSettle | backend/internal/service/repo_cache_service.go:386-396 | a path without white space is queued settled, and so never one of those |
| FileIndexProtocol.FailedStoreKeepsRows | backend/internal/service/repo_cache_service.go:666-677 | a malformed, repeating or failing store leaves every row and a stale index, whether or not the failure is recorded |
| FileIndexProtocol.AliasedRequestBreaks | backend/internal/service/repo_cache_service.go:949-950 | the one kind of request that rule excludes: a path that settles in exactly the third round empties a directory under a fresh index row |
| FileIndexProtocol.DropBeforeSuccessBreaks | backend/internal/service/repo_cache_service.go:672-680 | a finalize that drops the snapshot before the success write leaves an index row without rows, which is wrong exactly when it counts any |
| FileIndexProtocol.AliasExample | backend/internal/service/repo_cache_service.go:386-396 | a run from the empty tables in which a request for `/a /. /` does so to `/a` |
| FileIndexProtocol.DropExample | backend/internal/service/repo_cache_service.go:1243-1275 | a run from the empty tables in which a finalize does so |
| FilesSync.RunFilesSync | backend/internal/service/repo_cache_service.go:614-695 | the worker's loop over its requests, roots included, with every failing call is a run of the protocol, and its last state is stale while any row is or when it only prewarmed |
| FilesSync.ServeRequest | backend/internal/service/repo_cache_service.go:636-680 | one request below the root is a run of the protocol that goes on exactly when the writes it depends on succeed; its index row ends running, failed with the error, or successful with the count and generation, and the directory's rows are the payload's children or as they were |
| FilesSync.ServeRoot | backend/internal/service/repo_cache_service.go:643-655 | one root request is such a run; it lists one directory for each top-level name of the backup paths, and with unknown paths its stale mark is overwritten by a success of no entries |
| RepoLock.RepoOperations.TryAcquire | backend/internal/service/repo_service.go:969-992 | the mutex section is the protocol's step Enter: a free repository is reserved with a fresh open state, a busy one is left as it is |
| RepoLock.RepoOperations.Release | backend/internal/service/repo_service.go:1003-1015 | the mutex section is the protocol's release: the live reservation leaves the map as its channel closes, any other is left alone, no channel is closed twice |
| RepoLockProtocol.MutualExclusion | backend/internal/service/repo_service.go:747-785 | two callers between getting and releasing a reservation of one repository are the same caller |
| RepoLockProtocol.ClosedWhenItLeaves | backend/internal/service/repo_service.go:969-1015 | a channel is closed at most once and exactly when its state leaves the map |
| RepoLockProtocol.WaiterHasHolder | backend/internal/service/repo_service.go:990-1000 | a waiter that cannot wake waits for a live holder other than itself, never for a freed repository |
| RepoLockProtocol.ReleaseIsIdempotent | backend/internal/service/repo_service.go:1003-1015 | releasing again changes nothing |
| RepoLockProtocol.NothingLeaks | backend/internal/service/repo_service.go:747-785 | nobody acquires or waits while holding, also when the reservation was handed over; every early return releases; when all callers are done no reservation is left |
| RepoLockProtocol.WaiterCanAcquire | backend/internal/service/repo_service.go:969-1001 | no deadlock: running commands, releases and wake-ups, without new callers or cancellations, let any waiter get the repository |
| LockCleanup.ResticLockProcessStatus | backend/internal/service/repo_service.go:907-929 | the walk ends and answers exactly whether the process is this one or, for own pid above 1, descends from it |
| LockCleanup.HasCurrentInstanceLiveLock | backend/internal/service/repo_service.go:890-905 | true exactly when some lock of this host belongs to this process or a child of it |
| LockCleanup.PrepareScheduledResticLocks | backend/internal/service/repo_service.go:799-826 | the loop is ready only after a listing without locks, and each pass unlocks exactly when it saw locks and none of its own |
| LockCleanup.PassesByOutcome | backend/internal/service/repo_service.go:803-856 | what each outcome of the listing leads to: a failure and an empty listing end the loop, a lock error and ids without records lead to `unlock`, records do exactly when none is held here |
| LockCleanup.NeverUnlocksOwnLock | backend/internal/service/repo_service.go:809-823 | a listing with a decoded lock of a live descendant never leads to `unlock --remove-all` |
| LockCleanup.Process1DisownsChildren | backend/internal/service/repo_service.go:917-928 | as process 1 every lock but its own is unlocked |
| ShellText.TokenizeShellLike | frontend/src/utils/resticBackupCommand.ts:186-231 | the loop computes the lexer that the laws below are about |
| ShellText.PrintedLineLexes | frontend/src/utils/resticPreview.ts:3-19 | every printed line lexes, to its non-empty words with line continuations replaced, never an open quote |
| ShellText.QuotingRoundTrip | frontend/src/utils/resticPreview.ts:3-6 | quoting and tokenizing give a list back if and only if its words are non-empty and hold no line continuation |
| ShellWords.WrittenLineLexes | frontend/src/utils/resticBackupCommand.ts:186-231 | words in double quotes, with backslashes or as printed, after any plain prefix and parted by spaces and line continuations, read as those words |
| ShellWords.WrittenRoundTrip | frontend/src/utils/resticBackupCommand.ts:186-231 | they read back exactly if and only if none is empty or holds a continuation |
| ShellWords.DoubleQuotingRoundTrip | frontend/src/utils/resticBackupCommand.ts:186-231 | the same for space-joined double-quoted words, under the condition for single-quoted ones |
| ShellWords.OpenQuoteFailsAfter | frontend/src/utils/resticBackupCommand.ts:225-228 | a double or single quote that is not closed is an error after any words, whatever its text holds |
| ShellWords.TrailingBackslash | frontend/src/utils/resticBackupCommand.ts:225 | a backslash at the very end stays in the last word |
| BackupArgs.BuildBackupArgs | backend/internal/service/task_service.go:215-249 | the arguments the backend runs, or which field it refuses |
| BackupArgs.BackendAcceptsExactly | backend/internal/service/task_service.go:215-249 | the backend builds a command if and only if the lists are arrays of strings, there is a source path and every flag is allowed and printable; the first flag in order that is not is the one it names |
| BackupArgs.ArgumentsInOrder | backend/internal/service/task_service.go:232-248 | the order of the arguments said on single items: `--json` comes after the flags and only when no flag is it, then exclude, tag and path |
| BackupArgs.BuildExtraFlagArgs | backend/internal/service/task_service.go:369-411 | flags in key order, `-vv`, dropped false and empty values, refused keys and values |
| BackupArgs.ContainsArg | backend/internal/service/task_service.go:413-420 | true exactly when the argument occurs |
| BackupArgs.TaskRunCommandPreview | frontend/src/utils/resticPreview.ts:78-86 | the printed line of the preview's arguments |
| BackupArgs.PreviewRepository | frontend/src/utils/resticPreview.ts:8-19 | the line of a repository is the plain line after one assignment of its endpoint, with the scheme of rclone and webdav; an empty endpoint adds nothing |
| BackupArgs.PreviewExtraFlagArgs | frontend/src/utils/resticPreview.ts:39-57 | the flags the preview shows |
| BackupArgs.PreviewEqualsExecution | backend/internal/service/task_service.go:215-249 | when the backend runs at all, the preview is the same command if and only if all list items are non-empty strings and the flag numbers print alike |
| IntegerFlags.PreviewEqualsExecutionForIntegers | backend/internal/service/task_service.go:400-405 | with integer flag numbers that leaves the list items alone |
| BackupArgs.AssembleInjective | backend/internal/service/task_service.go:232-248 | equal command lines with equally many flag words, of which one has no longer list than the other, have equal flags, excludes, tags and paths |
| BackupParser.ParseResticBackupCommand | frontend/src/utils/resticBackupCommand.ts:45-130 | the parser's loops, with every error, compute the reader that the round trip is about |
| CommandForms.InlineEqualsSpaced | frontend/src/utils/resticBackupCommand.ts:97-117 | for every flag with a value and every non-empty value, `--flag=value` reads as `--flag value`, whatever is read before and after |
| CommandForms.InlineTaken | frontend/src/utils/resticBackupCommand.ts:157-161 | an inline value is taken as it stands after the first equals sign, the empty one too |
| CommandForms.ValueMissing | frontend/src/utils/resticBackupCommand.ts:163-169 | a flag that needs a value is refused at the end and before an empty word |
| CommandForms.NumberValue | frontend/src/utils/resticBackupCommand.ts:171-178 | a number flag takes exactly what JavaScript reads as a finite number |
| CommandForms.InlineBoolean | frontend/src/utils/resticBackupCommand.ts:105-112 | eight words in any case of their letters give a boolean flag its value, every other is refused |
| CommandForms.BooleanAlone | frontend/src/utils/resticBackupCommand.ts:108-111 | a boolean flag alone is true and takes nothing of what follows |
| CommandForms.ShortOptions | frontend/src/utils/resticBackupCommand.ts:85-96 | `-v`, `-vv` and `-n` |
| CommandForms.ShortRefused | frontend/src/utils/resticBackupCommand.ts:120-122 | every other short option is refused |
| CommandForms.LongRefused | frontend/src/utils/resticBackupCommand.ts:118 | every long option of no known name is refused under its name, `--verbose` among them |
| CommandForms.DashedPaths | frontend/src/utils/resticBackupCommand.ts:79-84 | after `--` every word is a path, dashes and all |
| CommandForms.AssignmentSkipped | frontend/src/utils/resticBackupCommand.ts:51-54 | an assignment before the command changes nothing |
| CommandForms.CommandWords | frontend/src/utils/resticBackupCommand.ts:55-68 | what is read with and without `restic` and `backup`, and which first words are refused |
| CommandForms.GlobalOptionSkipped | frontend/src/utils/resticBackupCommand.ts:57-63 | a global option is skipped with its value, or alone before another option |
| CommandForms.OptionSwallowsBackup | frontend/src/utils/resticBackupCommand.ts:57-67 | one without a value right before `backup` swallows it |
| CommandForms.QuietBackupExample | frontend/src/utils/resticBackupCommand.ts:57-67 | `restic -q backup /data` is refused |
| CommandForms.DryRunRead | frontend/src/utils/resticBackupCommand.ts:45-130 | `restic backup -n` and a path is read as a dry run of that path |
| CommandRoundTrip.BackupLineRoundTrip | frontend/src/utils/resticBackupCommand.ts:45-130 | parsing the printed backup line gives the task back if and only if it has a path, no path starts with `-`, nothing holds a line continuation, every flag is of its kind and set, and `--json` is among the arguments |
| IntegerFlags.BackupLineRoundTripForIntegers | frontend/src/utils/resticBackupCommand.ts:171-178 | the same for integer flag numbers, without assumptions on other numbers |
| CommandRoundTrip.LineTokens | frontend/src/utils/resticPreview.ts:15-19 | the words a shell reader finds in any printed command, with or without a repository |
| CommandRoundTrip.FlagsReadBack | frontend/src/utils/resticBackupCommand.ts:97-119 | for flags of the right kind without a plain `--verbose`, the flags read back are those printed if and only if every one is kept and no `--json` had to be added |
| CommandRoundTrip.ReadProducible | frontend/src/utils/resticBackupCommand.ts:105-117 | the parser only ever produces flags of the right kind |
| OutputBuffer.BoundedOutputBuffer.WriteString | backend/internal/executor/executor.go:270-286 | the buffer stays the whole output cut once; bytes and lines are added up |
| OutputBuffer.WriteAll | backend/internal/executor/executor.go:270-286 | after any writes: the last bytes of the concatenation, the exact totals |
| OutputBuffer.LineTotalExactly | backend/internal/executor/executor.go:275 | the line total is that of the whole text if and only if every write but the last ends a line, and never less |
| OutputBuffer.ReadStream | backend/internal/executor/executor.go:232-256 | the pieces rejoin to what was read, hold no newline, and only the last may lack one |
| OutputBuffer.CommandOutputBuffers.AppendLine | backend/internal/executor/executor.go:316-337 | results and logs follow the events seen, in any interleaving |
| OutputBuffer.CommandOutputBuffers.PersistedOutputs | backend/internal/executor/executor.go:362-372 | what the log row gets is each text, or its tail and a marker with the true counts |
| OutputBuffer.StreamResultIsComplete | backend/internal/executor/executor.go:316-337 | a stream's result is what was read from it, its last line completed, however the streams interleave |
| OutputBuffer.CombinedFiltersToStreams | backend/internal/executor/executor.go:316-337 | the combined text filtered by a stream's tag is that stream's result |
| OutputBuffer.TextsEnd | backend/internal/executor/executor.go:316-352 | every text a command leaves is empty or ends a line |
| LogReadBack.MarkerRoundTrip | backend/internal/model/execution_log.go:100-131 | the marker printed after terminated text without one is parsed to the same numbers |
| LogReadBack.FindAfter | backend/internal/model/execution_log.go:18 | in terminated text and what follows it, the marker found is the first text's, or else that of what follows |
| LogReadBack.ReadBackExactly | backend/internal/repository/log_store.go:113-206 | the true byte and line counts come back if and only if nothing was cut at storing, or the limit holds the marker, or the stored text coincides in size and lines; truncated exactly when a stage cut; unchanged otherwise |
| LogReadBack.CutReadBack | backend/internal/repository/log_store.go:181-206 | text cut at storing is read as its tail with the original counts |
| LogReadBack.MarkerInOutputIsBelieved | backend/internal/repository/log_store.go:190-193 | a marker inside output that no stage cuts replaces the counts |
| LogReadBack.AnyOutputReadBack | backend/internal/repository/log_store.go:113-206 | what is told of any terminated output at any limit, cut or not, markers of its own included: when the marker of the first cut fits, the first marker of the kept text, or the true counts, or, for numbers that do not fit, the size of what was stored; when it does not fit, the size of what was stored |
| SnapshotPath.NormalizeIsNormal | backend/internal/service/repo_cache_service.go:1949-1962 | every result is the root or a chain of proper names: those that resolving leaves of the trimmed path |
| SnapshotPath.NormalizeBelow | backend/internal/service/repo_cache_service.go:1949-1962 | for paths without white space, a name below a path is below it once normalized; `.` and an empty name change nothing |
| SnapshotPath.NormalizeAbove | backend/internal/service/repo_cache_service.go:1949-1962 | `..` takes back the last name |
| SnapshotPath.NormalizeTrims | backend/internal/service/repo_cache_service.go:1949-1951 | white space around a path changes nothing |
| SnapshotPath.NormalizeIdempotent | backend/internal/service/repo_cache_service.go:1949-1962 | normalizing twice is normalizing once if and only if the last name that stays of the path does not end in white space |
| SnapshotPath.SpaceFreeIdempotent | backend/internal/service/repo_cache_service.go:1949-1962 | idempotent on every path without white space |
| SnapshotPath.SecondRoundExample | backend/internal/service/repo_cache_service.go:1949-1962 | `/x /` settles in the second round |
| SnapshotPath.ThirdRoundExample | backend/internal/service/repo_cache_service.go:1949-1962 | `/a /. /` settles in the third round only |
| SnapshotPath.ParentAndBase | backend/internal/service/repo_cache_service.go:1964-1986 | every path but the root is, once normalized, its parent, a slash and its base; the parent is normal, the base a proper name |
| SnapshotPath.ParentsReachRoot | backend/internal/service/repo_cache_service.go:1964-1974 | going up loses one level a step, down to the root after exactly the depth, if and only if every name of the path below the first is still a name without the white space at its end |
| SnapshotPath.SpaceFreePaths | backend/internal/service/repo_cache_service.go:1949-1986 | a path without white space is its settled parent, a slash and its base, and goes up level by level |
| SnapshotPath.RootEntriesFromSnapshotPaths | backend/internal/service/repo_cache_service.go:1988-2022 | the entries are strictly sorted and are exactly the first names of the paths |
| SnapshotPath.FirstSegmentIsName | backend/internal/service/repo_cache_service.go:1995-2002 | the first segment of a normalized path is its first name |
| SnapshotPages.ListSnapshotIndexFiltered | backend/internal/service/repo_cache_service.go:787-898 | a page is a window of the sorted matching rows, with clamped page and size and the total |
| SnapshotPages.PagesConcatenate | backend/internal/service/repo_cache_service.go:825-838 | the first pages are a prefix of the list, for every page size |
| SnapshotPages.AllPagesAreTheList | backend/internal/service/repo_cache_service.go:815-838 | enough pages give every matching row once, strictly ordered |
| SnapshotPages.FiltersPartition | backend/internal/service/repo_cache_service.go:885-898 | updated, unchanged and unknown split the unfiltered list, and their totals add up |
| SnapshotPages.FilterMeanings | backend/internal/service/repo_cache_service.go:885-898 | unknown is the row stored without facts, updated one that something new, changed or added sets apart, unchanged the rest |
| SnapshotPages.NewestFirst | backend/internal/service/repo_cache_service.go:830-838 | of two rows of the list the earlier has the later time, or the same time and the greater id |
| SnapshotPages.PageRows | backend/internal/service/repo_cache_service.go:787-838 | row k of a page is row offset + k of the list, and a short page is the last |
| SnapshotPages.LoadRepository | frontend/src/views/Snapshots.vue:441-449 | the load-all loop ends with every row of a published list once, when the list does not change between the pages |
| SnapshotPages.NewSnapshotRepeatsRow | frontend/src/views/Snapshots.vue:441-449 | a snapshot that appears between two pages repeats the last row of the page before |
| SnapshotPages.ForgottenSnapshotSkipsRow | frontend/src/views/Snapshots.vue:441-449 | one that goes between two pages hides the row the next page would have started with |
| SnapshotPages.LoadedAcrossRemoval | frontend/src/views/Snapshots.vue:441-449 | when one snapshot goes after page k was read, every row that stays is still loaded if and only if the one that went had not been read yet, or page k was the last |
| SnapshotPages.LaterPagesConcatenate | backend/internal/service/repo_cache_service.go:825-838 | the pages from one on to another are one window of the list |
| SnapshotPages.TotalExactly | backend/internal/service/repo_cache_service.go:814-822 | the total counts the matching rows if and only if a list was published or there are none |
| SnapshotPages.UncountedExample | backend/internal/service/repo_cache_service.go:814-838 | a backup before the first core sync reaches a state with one row listed and none counted |
| SnapshotPages.LoadAllSnapshots | frontend/src/views/Snapshots.vue:436-458 | the rows of all repositories, in order |
| Planner.PlanRefreshRound | backend/internal/service/repo_cache_service.go:212-258 | a round is the least due candidates, at most four, or nothing when a state cannot be read |
| Planner.PicksTheLeast | backend/internal/service/repo_cache_service.go:225-243 | picked ones are due, and come before all that are left out |
| Planner.RoundByRows | backend/internal/service/repo_cache_service.go:212-290 | said by the rows: a round queues up to four of the repositories without a running sync whose state is stale, failed or interrupted, the longest unchanged first |
| Planner.LessStrict | backend/internal/service/repo_cache_service.go:225-238 | the comparison is a strict total order |
| Planner.NobodyStarves | backend/internal/service/repo_cache_service.go:212-290 | when no sync is stuck, a due candidate with k ahead is picked within k / 4 + 1 rounds |
| Planner.PickedDespiteStuck | backend/internal/service/repo_cache_service.go:212-290 | whatever becomes of the picked syncs, a due candidate with k ahead is picked as soon as four times the rounds pass k and the times a sync left no later update time |
| Planner.QueueMoves | backend/internal/service/repo_cache_service.go:212-290 | each round takes four from ahead of a waiting candidate, and lets in only the stuck |
| Planner.QueueShortens | backend/internal/service/repo_cache_service.go:212-290 | when no sync is stuck, each round takes four from ahead of a waiting candidate and lets none in |

## Left out

- HTTP handlers, middleware, configuration, Vue components other than the load-all loop: plumbing and user interface.
- Encryption, HMAC tickets, the WebSocket hub, migrations, the cron library: libraries that cannot be seen, or channel timing the code does not guard.
- Stats and keys syncs, the scheduler's maintenance map and the map of active tasks: repeats of the core sync and of the operation lock.
- JSON decoding, SQLite, process execution and the clock: parameters, as said above.
- The five-second timeout of `queueDomainSync`: a caller may give up at any time and then nothing is said of the id it gets.
- FilesSync.RunFilesSync: the requests it takes are given as a sequence; that they are decoded from JSON lines as they were encoded is taken for granted for root entries.
- Root listings in `FileIndexProtocol`: readers may write any index state of a root at any time, and nothing is claimed of a root's index row.
- `markSyncStateStale` and `ResetRepository` are one step each, although the code reads and writes in two statements, or deletes in seven; a reset waits for running syncs and summary writers.
- Repositories are modelled one at a time in the table modules: every statement there is restricted to one repository id.
- Times of rows and operating times (`indexed_at`, `updated_at` outside the planner): not modelled.
- SyncLoads.EnqueueAddsOnePath: for snapshot ids without a `|`, as restic's are; the queue key `snapshot|path` is kept as text, and two pairs could share one only if an id held a bar.
- SyncLoads.RepoCacheService.DequeueFileIndex: which request is taken is left open, as Go leaves the order of map iteration.
- BackupArgs.PreviewEqualsExecution: numbers are printed by parameters; `IntegerFlags` instantiates them for integers below 2^53.
- BackupArgs.BuildBackupArgs: Go sorts keys by bytes and JavaScript by UTF-16 units; the model sorts by code points, which is the same on the allowed keys.
- BackupArgs.TaskRunCommandPreview: the forget-policy lines after the backup line are not modelled.
- LogReadBack.ReadBackExactly: for text beyond ASCII the second cut counts characters and the first one bytes; the model has one character a byte.
- OutputBuffer.CombinedFiltersToStreams: a pipe error adds a line of its own tag and may hold newlines; it is kept out of the filter law.
- Planner.NobodyStarves: a picked sync whose first state write fails keeps its old update time and is picked again; such rounds are counted by `PickedDespiteStuck`, and when every round is one of them nothing is promised.
- SnapshotPages.LoadRepository: the tables stay the same while the pages of one repository are read; the lemmas beside it say what one change between two pages does.
- Planner.PlanRefreshRound: the branch for the files domain is not modelled, because the planner only asks for the core domain.
- SnapshotPages.ListSnapshotIndexFiltered: a failing query is not modelled, and the filter is its four cases, not its text in any letter case.
- The kind and class recorded with a reservation: only reported in messages, never compared.
- SnapshotPath.NormalizeIsNormal: `path.Clean` is modelled from its documented rules on rooted paths.
- LockCleanup.PrepareScheduledResticLocks: listings that cannot be decoded count as one unknown lock, so the safety law is for decoded records.
