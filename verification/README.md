# Bit Rot Detector: a verified model

The Bit Rot Detector keeps a database of file digests on every drive it monitors. A *sync* walks
the drive and brings the database up to date, a *scrub* re-hashes the files that were checked
longest ago, and a *run* does either or both on a shadow copy of the database that replaces the
production database only if everything went well. This project models those parts in Dafny and
proves what they promise together: the tool never hides silent corruption by itself, and a run
that is cut short never damages the database.

`dafny verify dfyconfig.toml` checks the whole project. Nothing was executed.

## How it is built

Concurrent and crash-prone parts appear twice. A *machine* (a state, the steps that are enabled in
it, and what each step does) is what the theorems are about: a statement about all its runs is one
about all interleavings, map iteration orders, clock readings and failures. An *imperative* part
has the program's own fields and loops, and each of its methods is proved to take exactly the steps
of the machine that it should, so the theorems hold of it.

| files | part of the program |
|---|---|
| `Domain`, `Storage`, `ScrubSelection` | records, rows and clocks; the `files` and `run_history` tables and their statements |
| `SyncModel`, `SyncInvariant`, `SyncTheorems`, `SyncProgress` | the walker, the workers and the collector as a machine; its invariant, what every run guarantees, liveness |
| `SyncEntries` | the same guarantees said of directory entries, rows and clock readings alone |
| `SyncSchedules`, `SyncLead`, `SyncExamples` | which outcomes some schedule brings about: exact conditions on the input of a sync, how far the walker can run ahead, and examples |
| `Syncer` | the same pipeline as an object with shared fields, and `SyncDirectory` |
| `Scrub`, `ScrubFairness` | one scrub; which files repeated scrubs reach |
| `DriveModel`, `Canary`, `HotJournal` | the drive's files over any history of runs with failures and crashes; the canary; a crash in a transaction and the run after it |
| `BitRot` | the guarantee that the parts give together, and the history that breaks it where its condition fails |
| `Coordinator` | the repository's life cycle, `processDrive` and any number of runs, each of which may die anywhere |
| `WatcherModel`, `Watcher` | the debounce loop |
| `ProgressModel`, `Progress` | live progress: two channels that drop, and the single-flight flag |

The database is a map from paths to rows and a sequence of run records. A journal or log beside it
holds the rows that it puts in place when the database is opened: a journal, those that the
interrupted transaction touched, as they were before it. On disk, modification times
are in nanoseconds; rows hold seconds. Digests are arbitrary strings. What one hashing of a path
gives during a sync is a parameter (each path is hashed at most once), and so is what a scrub finds
on disk. What the walk reports may come in any order; `filepath.WalkDir` makes it lexical, so which
file is walked first can be read from the names (`AheadByName`). Repository calls may fail at any time
and then change nothing. What goes wrong in a run is a parameter of the run, a set of faults and the
paths for which writes may fail, so its contracts also say when it succeeds. The clock may show anything. Cancellation may come at any
time unless a theorem says otherwise. POSIX `rename()` is taken to be atomic.

## Where the code keeps less than its documentation says

* A new file can be taken for a moved one although the old file is still there: the search looks at
  the files seen *so far*, whereas the comment at `internal/scanner/scanner.go:436-438` says the
  search prevents this. `ClaimedExactly`: it happens in some run exactly if the new file can be
  hashed, matches the record, and the walk does not report the old file first; and it is taken for an
  added one in some run exactly if no match is gone and the walker can see all matches in time
  (`AddedExactly`: always with two workers, at most 1026 files ahead with one). The record comes back
  when the walker reaches the old file, because a file is marked as seen before its item is sent;
  but only if that file can be hashed and upserted (`LostExactly`, `LosableExactly`).
* So a digest is not always kept: `KeptExactly` says that every sync keeps the digest of a file that
  it finds unchanged exactly if no earlier new file may claim its record, and `LaunderedIfClaimable`
  that otherwise three committed runs, which walk the same files in the same order and all see the
  file unchanged, can leave any other digest.
* A new file can get the digest of another file (`NewDigestExactly` says when), and a later scrub
  then reports it although it is intact.
* Skipping and reusing digests refines hashing everything exactly where no record can be lost in this
  way (`EqualsRehashExactly`).
* A file whose walk entry or stat fails counts as deleted, and its record is swept, although the file
  may well be there (`FailedVisitIsSwept`).
* A sync that returns nil has not always judged every file it has seen. `NilJudgesAllExactly`: it has,
  in every run, exactly if it cannot be cancelled or finds no file. `ReturnsNilExactly` says which runs
  return nil, `ReturnedNil` what such a run lacks, and `CancelledButNil` is an example.
* The scrub quota is a share of the *eligible* rows (`internal/storage/repository.go:290`), not of all
  files (`internal/domain/interfaces.go:47-48`), and is rounded down.
* Files that do not validate keep their place at the head of the scrub queue. `FairExactly`:
  scrubbing reaches every other file within a bound exactly if fewer files fail than one scrub selects.
* A crashed run does not always leave the next one nothing (`docs/architecture.md:241-247`): `Open`
  removes the shadow, its `-wal` and its `-shm` file but not its `-journal`, although DELETE journal
  mode is used. `OpensProduction`: a run starts from production exactly if what is left beside the
  shadow holds nothing but what production holds; `HotJournalIsHarmlessExactly`: a crash leaves such
  a journal exactly if the interrupted transaction touches nothing that its run had changed before,
  so a crash in a run's first transaction is harmless; `HotJournalSurvives` crashes in the second,
  a scrub's update of a row that the sync has inserted.
  The theorems about whole histories that need it assume that no harmful journal survives a crash
  and that a harmful leftover log can be removed (`Tidy`).
* The watcher ignores three files to avoid feedback loops (`internal/watcher/watcher.go:122-126`).
  `FallsSilentExactly`: after a change it falls silent exactly if a resync touches no others; the
  shadow's rollback journal is one (`JournalFeedsBack`).
* A sync does not skip that journal either: it is none of the seven names (`EntriesAreAccountedFor`).
* There can be more than one forwarder: an operation's flag is lowered before its channel is drained.
  `OvertakesExactly`: a new operation's events can overtake earlier ones exactly if it starts while
  an event is undelivered.
* The run record is inserted after the canary post-check, not before it (`README.md:166-167`).

## Model

| member | source | states |
|---|---|---|
| Domain.StoreRoundTrip | internal/storage/repository.go:202-208 | Loading a row and upserting it changes its last-seen time only, and its added-at time exactly if that is Unix second 0 |
| Domain.SameSecond | internal/scanner/scanner.go:218 | Stored and on-disk times count as equal exactly if the latter lies within the stored second |
| Storage.Database.GetAllFiles | internal/storage/repository.go:180-212 | The rows, read in any order, come back with all their columns, each time as the beginning of the stored second |
| Storage.Database.UpsertFile | internal/storage/repository.go:215-238 | Replaces exactly the row of this path, by the record's columns and the seconds its times lie in, seen now and added now unless the record says when; or fails and changes nothing |
| Storage.Database.DeleteFile | internal/storage/repository.go:241-244 | Removes exactly this row, if there is one, or fails and changes nothing |
| Storage.Database.GetFilesForScrub | internal/storage/repository.go:247-295 | With an age filter no returned record was scrubbed later than that many days of 86400 seconds ago; with the whole asked for, all due rows are returned; they come longest unscrubbed first, as many as the quota says, and none passed over was scrubbed earlier |
| Storage.EligibleExactly | internal/storage/repository.go:251-255 | Both sides of the age filter to the nanosecond: a row passes exactly if it was never scrubbed or the second of its latest scrub ended at least that many days ago |
| Storage.Database.UpdateScrubStatus | internal/storage/repository.go:298-304 | This row gets the second of the clock and one more to its count, all else stays; or nothing changes |
| Storage.Database.InsertRunHistory | internal/storage/repository.go:357-369 | Appends to the history, or changes nothing |
| ScrubSelection.SelectionSize | internal/storage/repository.go:290-293 | The quota is the largest number within the percentage of the eligible rows, but at least one and at most all of them |
| ScrubSelection.PrefixIsSelection | internal/storage/repository.go:256-294 | Every prefix of an ordering of the eligible rows is a right selection: oldest first, and no row left out is strictly older than one taken |
| ScrubSelection.SelectionIsPrefix | internal/storage/repository.go:256-294 | Every right selection is such a prefix, so the two notions are the same |
| SyncInvariant.WalkerInvariant | internal/scanner/scanner.go:153-230 | Every action of the walker keeps the invariant of the pipeline |
| SyncInvariant.WorkerInvariant | internal/scanner/scanner.go:109-145 | So does every action of a worker and the closing of the results |
| SyncInvariant.CollectorInvariant | internal/scanner/scanner.go:234-334 | So does every action of the collector and of the sweep; a moved-from record that it deletes has never been upserted, since its path is not yet seen |
| SyncInvariant.RunInvariant | internal/scanner/scanner.go:81-348 | In every state of every run, cancelled or not: each seen path is in exactly one place, each verdict is justified, each row is the one its verdict calls for or the stored one unless it was claimed or swept, whoever claims a record is walked before its file, and the counters agree with the verdicts |
| SyncTheorems.ReturnsNilExactly | internal/scanner/scanner.go:234-239 | A run returns nil exactly if its walk was finished and its collector noticed no cancellation |
| SyncTheorems.ReturnedNil | internal/scanner/scanner.go:113-118 | Such a run has seen the whole tree, and each file was judged, dropped or left in the channel; without a cancellation each was judged |
| SyncTheorems.KeySet | internal/scanner/scanner.go:281-334 | In every interleaving no file on disk that hashes and is upserted lacks a record, false moves notwithstanding, and no other record remains unless its deletion failed |
| SyncTheorems.SyncIsRight | internal/scanner/scanner.go:256-334 | Path by path what a sync that returns nil makes of the table, cancelled or not: an upserted file has a right row, any other file on disk keeps its row exactly unless a walked-earlier match claimed it, any other record remains exactly if nothing deleted it; uncancelled, the upserted files are those that hashed and whose upsert worked |
| SyncTheorems.HashIsCurrent | internal/scanner/scanner.go:213-220 | A recorded file's digest is that of its content after the sync, exactly unless size and second are unchanged while a different digest is stored |
| SyncTheorems.FailedVisitIsSwept | internal/scanner/scanner.go:155-187 | A recorded file whose walk entry or stat failed loses its record, is counted as removed and reported as an error, unless deleting it fails |
| SyncTheorems.Conservation | internal/scanner/scanner.go:200-334 | scanned = files on disk = added + moved + modified + unchanged + unreadable; removed = records not on disk; one error per failure |
| SyncTheorems.TableIsDisk | internal/scanner/scanner.go:324-334 | After a sync without errors the table's keys are the files on disk |
| SyncTheorems.SizeBalance | internal/scanner/scanner.go:281-334 | Then new size = old size + added + moved - removed, in spite of false moves and sources claimed twice |
| SyncTheorems.MoveBounds | internal/scanner/scanner.go:278-304 | Moved in every interleaving if a matching record's file is gone, added in every interleaving if none matches, and a moved file carries on the digest and history of a match that it was walked before |
| SyncTheorems.LostExactly | internal/scanner/scanner.go:284-295 | A record of a file on disk is lost exactly if it was claimed and the file was not hashed or not upserted; a claimed record has a matching new file walked before its own |
| SyncTheorems.RefinesRehash | internal/scanner/scanner.go:119-137 | If stat determines content, every interleaving stores the digests of a sequential sync that hashes everything, and lacks at most records of files that cannot be hashed and that an earlier new file may claim |
| SyncTheorems.RecordsAreFresh | internal/scanner/scanner.go:256-262 | After a sync without errors each file's record has its size and modification second |
| SyncTheorems.Idempotent | internal/scanner/scanner.go:213-220 | Syncing an unchanged tree again hashes nothing, counts nothing and changes last-seen times only |
| SyncEntries.EntriesAreAccountedFor | internal/scanner/scanner.go:155-200 | After a sync that returns nil exactly the regular files under none of the seven names count; each failed walk, and each failed stat of a file under another name, gives one error in its turn; directories, links and the seven leave no row, count or error |
| SyncEntries.UpsertedRow | internal/scanner/scanner.go:213-312 | What an upserted row says, in sizes, nanoseconds and seconds: the file's own stat; the stored digest exactly if size and second are as stored, else that of the content; for a new file the content's digest or digest and history of a record that looks like it |
| SyncEntries.CountersAre | internal/scanner/scanner.go:200-334 | Every counter of an uncancelled sync but the split between added and moved is determined by disk, table and what can be hashed, whatever the schedule |
| SyncProgress.NeverBlocked | internal/scanner/scanner.go:95-98 | In every reachable state before the return some goroutine can act, also after a cancellation |
| SyncProgress.StepsDecrease | internal/scanner/scanner.go:107-230 | Every action brings the sync closer to its return |
| SyncProgress.RunsAreBounded | internal/scanner/scanner.go:81-348 | No run is longer than the measure of its first state |
| SyncProgress.CanReturn | internal/scanner/scanner.go:81-348 | From every reachable state the sync can be carried on to its return, with nil if it was not cancelled |
| SyncSchedules.ClaimedExactly | internal/scanner/scanner.go:439-459 | Some completed sync judges a file to be moved from a record exactly if the file is new, can be hashed, matches, and the walk does not report the record's file before it |
| SyncSchedules.LosableExactly | internal/scanner/scanner.go:281-312 | Some completed sync without a failing call loses the record of a file on disk exactly if the file cannot be hashed and an earlier walked new file matches and hashes |
| SyncSchedules.EqualsRehashExactly | internal/scanner/scanner.go:119-137 | If stat determines content, all interleavings without a failing call store what the sequential rehash stores exactly if no record can be lost so |
| SyncSchedules.NewDigestExactly | internal/scanner/scanner.go:284-289 | A new file gets the digest of its content in every interleaving exactly if every record that it may claim has this digest |
| SyncSchedules.KeptExactly | internal/scanner/scanner.go:213-220 | Every sync that returns nil keeps the digest of a file it finds unchanged, whatever fails or is cancelled, exactly if no earlier new file may claim the record |
| SyncSchedules.AheadByName | internal/scanner/scanner.go:155 | In a lexical walk a file is ahead of another exactly if the other is not on disk or its name comes later |
| SyncSchedules.NilJudgesAllExactly | internal/scanner/scanner.go:113-118 | All syncs that return nil have judged every file exactly if there is no cancellation or no file: for every tree with a file some schedule drops one |
| SyncLead.AddedExactly | internal/scanner/scanner.go:95-98 | Some completed sync takes a new file for added exactly if every match is on disk and, with one worker, walked at most 1026 files later: the two channels, the worker's item and the walker's |
| SyncExamples.FalseMovePossible | internal/scanner/scanner.go:446-457 | At any moment of a run, the result in the collector's hand can claim a matching record whose file is on disk exactly while the walker has not reached that file |
| SyncExamples.FalseMoveLosesRecord | internal/scanner/scanner.go:281-295 | An input, walked in the order of the names, on which a completed sync loses the record of a file on disk |
| SyncExamples.WalkOrderMatters | internal/scanner/scanner.go:446-457 | With the two names exchanged no sync does |
| SyncExamples.CancelledButNil | internal/scanner/scanner.go:113-118 | A cancelled sync that returns nil, without an error, and without a file it has seen |
| Syncer.ClampWorkers | internal/scanner/scanner.go:60-65 | The pool is never empty |
| Syncer.FindMovedFile | internal/scanner/scanner.go:439-459 | Returns an unseen record that matches, and none only if every match has been seen, in any iteration order |
| Syncer.SyncRun.Visit | internal/scanner/scanner.go:155-220 | The walk callback up to the send is the walker's step: it offers exactly regular files under none of the seven names and reports exactly what cannot be walked or, under another name, not be statted |
| Syncer.SyncRun.WorkerPut | internal/scanner/scanner.go:119-136 | Reuse or hashing is the worker's step |
| Syncer.SyncRun.Prepare | internal/scanner/scanner.go:256-304 | Record, counters and deletion are what the classification calls for |
| Syncer.SyncRun.RecordOne | internal/scanner/scanner.go:241-312 | The body of the collector's loop is the collector's step |
| Syncer.SyncRun.SweepOne | internal/scanner/scanner.go:326-334 | An iteration of the sweep is the sweep's step |
| Syncer.SyncRun.StepSomewhere | internal/scanner/scanner.go:95-334 | Whatever the scheduler does is a step of the machine, and it can always do something |
| Syncer.SyncDirectory | internal/scanner/scanner.go:81-348 | Returns for every schedule, with the state of a run of the machine; if with nil, it relates the tables as `SyncIsRight` says and accounts for the directory entries as `EntriesAreAccountedFor` says; without a cancellation it returns nil exactly if the records can be loaded |
| Scrub.ListedIff | internal/scanner/scanner.go:379-397 | A path is listed under a finding exactly if it was selected and checking it finds this |
| Scrub.ScrubOne | internal/scanner/scanner.go:379-402 | One iteration extends the outcome by exactly this file |
| Scrub.OutcomeOfFile | internal/scanner/scanner.go:379-402 | Corrupted exactly if checked, readable and of another digest; an error exactly if missing or unreadable; otherwise validated, which changes nothing but the row's scrub time and count |
| Scrub.ScrubSelected | internal/scanner/scanner.go:372-411 | The loop gets through the selection, or through a prefix of it if cancelled, with the outcome of exactly the files it checked |
| Scrub.ScrubFiles | internal/scanner/scanner.go:351-422 | Checks a right selection of the rows that are due, or a prefix of it if cancelled; reports and stamps are those of the checked files |
| Scrub.ScrubAccounts | internal/scanner/scanner.go:372-411 | validated + corrupted + errors = selected; no digest changes; scrub counts grow by the validated files whose update succeeded |
| ScrubFairness.ScrubIsRound | internal/scanner/scanner.go:372-411 | What `ScrubFiles` promises of an uncancelled scrub without an age filter, with updates in later seconds, is a round of the fairness theorems |
| ScrubFairness.BoundedFairness | internal/storage/repository.go:256-294 | With m failing files and quota n > m, any sequence of at least (N-m)/(n-m) rounds validates every other file |
| ScrubFairness.FairWithinWindow | internal/storage/repository.go:256-294 | So does every window of that many consecutive rounds, rounded up, of an arbitrarily long sequence |
| ScrubFairness.Starvation | internal/scanner/scanner.go:379-397 | If n or more failing files come first, no round ever validates anything again |
| ScrubFairness.StarvingRunExists | internal/scanner/scanner.go:379-397 | For all N > m >= n there are such rounds, in any number, that never reach a healthy file |
| ScrubFairness.FairExactly | internal/storage/repository.go:290-294 | There is a bound within which every healthy file is validated exactly if m < n |
| DriveModel.JournalUndoes | internal/storage/repository.go:99-105 | What a transaction saves before it changes rows takes the database back to the image from before it, however far it has come |
| DriveModel.CrashSafety | internal/storage/repository.go:54-90 | With any step failing and a crash anywhere, production is what the last run with a rename made of its shadow, and a run ends without an error exactly if it renamed |
| DriveModel.CommitsAreGuarded | internal/coordinator/coordinator.go:112-207 | Production is replaced only by a run that read the canary before and found it after its scans |
| DriveModel.OpensProduction | internal/storage/repository.go:58-68 | A copy can be opened exactly if production is not torn; the run starts from production, or from an empty database if there is none, exactly if the rows that a leftover journal and log restore are those of production |
| DriveModel.HotJournalIsHarmlessExactly | internal/storage/repository.go:59-63 | A crash inside a transaction leaves such a journal exactly if the run had not changed before what the transaction touches; always in its first transaction |
| HotJournal.NextRunExactly | internal/storage/repository.go:54-90 | After such a crash the next run that opens starts from production exactly under this condition |
| DriveModel.CommitsChain | internal/storage/repository.go:54-90 | Without harmful journals each committed run starts from exactly what the one before it left, and every open run from production |
| HotJournal.HotJournalSurvives | internal/storage/repository.go:59-63 | A crash while a combined run's scrub stamps a row that its sync has inserted, after which the next run starts from that row, which no run has committed |
| Canary.CanaryHistory | internal/coordinator/coordinator.go:228-233 | The canary holds its first value, nothing, or (a beginning of) the checksum of a committed production; it disagrees with production only between a rename and a completed write |
| Canary.CanaryHeals | internal/coordinator/coordinator.go:228-233 | A corollary of the canary's history: a completed canary write restores agreement |
| Canary.VerificationPasses | internal/coordinator/coordinator.go:140-159 | In every history without harmful journals, an opened database has the checksum that its run has read from the canary, unless that was empty, no run has committed yet, or a canary write is owed |
| BitRot.SyncKeepsDigest | internal/scanner/scanner.go:213-220 | A sync that sees a file with its recorded stat keeps its digest if it upserts it or if no earlier new file may claim it |
| BitRot.ReportedIffRotten | internal/scanner/scanner.go:385-397 | A run that re-checks such a file reports it as corrupted exactly if its content differs |
| BitRot.NeverLaundered | internal/coordinator/coordinator.go:102-236 | Over every history of runs that fail, roll back, are cancelled and crash anywhere, production keeps the digest of a file that every committed sync sees unchanged and upserts or finds unclaimable |
| BitRot.RotIsReported | internal/coordinator/coordinator.go:195-222 | And each run that has opened its database and re-checks the file reports it exactly if its content differs from that digest, whether it commits, fails or crashes afterwards |
| BitRot.LaunderedIfClaimable | internal/scanner/scanner.go:281-312 | For every table and tree in which the record of an unchanged file is claimable, a history of three committed runs, which walk the same files in the same order and all see the file unchanged, leaves production with any other digest |
| Coordinator.Drive.Die | internal/storage/repository.go:59-63 | The process may die in any phase; it commits nothing, and the machine's history goes on |
| Coordinator.Repository.Verify | internal/coordinator/coordinator.go:140-159 | A mismatch is found exactly if the canary holds a checksum, the database can be read and its checksum is another; without harmful journals it shows that a canary write is owed or that no run has committed |
| Coordinator.Repository.Commit | internal/storage/repository.go:312-322 | Production becomes the shadow, exactly if closing and renaming work; otherwise nothing changes and the run is failing or dead |
| Coordinator.Repository.Rollback | internal/storage/repository.go:326-336 | A step of the machine that leaves production alone and, unless that fails, removes the shadow |
| Coordinator.Drive.UpdateCanary | internal/coordinator/coordinator.go:228-233 | Unless a fault strikes, the canary becomes the checksum of production and no write is owed; otherwise it is untouched or a beginning of it |
| Coordinator.CopyProduction | internal/storage/repository.go:121-146 | The shadow becomes a complete copy, empty if there is no production, exactly if nothing fails on the way; otherwise the run ends with a failure |
| Coordinator.OpenRepository | internal/storage/repository.go:54-90 | Opens exactly if nothing fails on the way and production is not torn; then it contains what production contains, nothing if there is none, if nothing harmful lay beside the shadow |
| Coordinator.Scan | internal/coordinator/coordinator.go:172-200 | The phases asked for have run on the open database, with the effects that the sync and scrub theorems give them, and with the tree, workers, share and age filter asked for; without a cancellation it ends with exactly the error of the first fault that strikes |
| Coordinator.InsertRecord | internal/coordinator/coordinator.go:211-217 | Adds one record to the history, exactly if the run has scanned and the insertion works: drive, second of the start, duration, and the figures of the two results or zero |
| Coordinator.RunOpened | internal/coordinator/coordinator.go:131-226 | With the deferred rollback: without an error a commit that starts from the opened database and has this run's effect and history record, otherwise production as before; a finished scan is on record either way |
| Coordinator.ProcessDrive | internal/coordinator/coordinator.go:102-236 | Without a cancellation it ends with exactly the error of the first fault that strikes, a missing canary and a torn production included; without an error production was replaced by this run's effect on production, and the canary is its checksum if no fault strikes afterwards; with an error, production and canary as before; a checksum mismatch is noted exactly; a run that lives leaves no journal and, if it has opened and the shadow can be removed, no shadow |
| Coordinator.CommittedSync | internal/coordinator/coordinator.go:172-178 | A committed sync accounts for the directory entries; if it cannot be cancelled, its counters are those of disk and table, and if no write can fail either, only files that count have records, and all that can be hashed have one that shows their stat |
| Coordinator.CommittedScrub | internal/coordinator/coordinator.go:183-200 | A committed weekly or monthly scrub checks only rows last scrubbed over 7 or 30 days ago, any other all ages; asked for everything, it checks every such row; each row checked is counted once |
| Coordinator.RunTwice | internal/coordinator/coordinator.go:102-236 | The second of two committing runs starts from exactly what the first has left, and both commit exactly if no fault that matters strikes |
| Coordinator.Monitor | internal/coordinator/coordinator.go:102-236 | Runs in which nothing can go wrong all commit; over any number of runs and deaths production keeps the digest of each file that every sync sees unchanged and before any other file of its size and second |
| Coordinator.ProductionIsLastCommit | internal/coordinator/coordinator.go:102-236 | A corollary of `CrashSafety`: after any number of runs and deaths production is what the last commit left |
| Coordinator.DigestStands | internal/coordinator/coordinator.go:102-236 | `NeverLaundered` of any sequence of runs and deaths, with the effects that the runs are proved to have |
| Coordinator.ScrubsToldTheTruth | internal/coordinator/coordinator.go:195-222 | Every scrub of every such run, committed or not, has reported the file exactly if its content differed |
| WatcherModel.RunKeepsInv | internal/watcher/watcher.go:102-163 | Every run of the loop, with any timing of events and ticks, keeps the invariant |
| WatcherModel.DebounceIsCorrect | internal/watcher/watcher.go:89-163 | Roots are pending exactly while a timer is armed; each callback has exactly the roots accepted since the last one, a full interval after the last event; superseded timers never tick |
| WatcherModel.NothingIsLost | internal/watcher/watcher.go:110-118 | The accepted roots are those reported and those pending |
| WatcherModel.CallbacksAreSpaced | internal/watcher/watcher.go:139-151 | Callbacks are at least an interval apart |
| WatcherModel.BurstsCoalesce | internal/watcher/watcher.go:139-151 | Events less than an interval apart are never separated by a callback |
| WatcherModel.QuietMeansCallback | internal/watcher/watcher.go:109-119 | An interval after the last event at most the runtime's tick is missing for the callback |
| WatcherModel.AcceptsAllButThree | internal/watcher/watcher.go:121-139 | The roots accepted in a run are, in order, those of the received events of all files but these three |
| WatcherModel.SilentExactly | internal/watcher/watcher.go:122-126 | The loop stays silent exactly if all events it receives are of bitrot.db, bitrot.db.shadow or .bitrot-canary |
| WatcherModel.FallsSilentExactly | internal/watcher/watcher.go:109-126 | After a change, and with callbacks that touch files, the number of further callbacks without an outside event is bounded exactly if all files that a callback may touch are ignored |
| WatcherModel.JournalFeedsBack | internal/watcher/watcher.go:122-126 | If callbacks touch the shadow's journal there is no bound |
| Watcher.EventLoop.constructor | internal/watcher/watcher.go:42-45 | The interval is raised to 100 ms if it is shorter |
| Watcher.EventLoop.OnTimer | internal/watcher/watcher.go:109-119 | The pending roots, in any order, go to the callback and are cleared; no timer is listened to |
| Watcher.EventLoop.OnEvent | internal/watcher/watcher.go:121-151 | An event of one of the three files is ignored; any other is accepted: root added, old timer stopped and drained, new one started |
| Watcher.Run | internal/watcher/watcher.go:89-163 | Each turn gets what it calls for unless nothing is ready; the log is that of a run of the machine: all files but three are heard, nothing is lost, every callback is right |
| Watcher.OneChange | internal/watcher/watcher.go:109-151 | One change, an interval of quiet, the tick and the wake-up give exactly one callback, for its root, unless the file is one of the three |
| ProgressModel.AtMostOneOperation | internal/api/server.go:619-675 | At most one operation scans, it is the latest, and the flag says whether there is one |
| ProgressModel.ProgressStaysOrdered | internal/api/server.go:59-82 | Each subscriber reads a subsequence of what each operation emitted, through both dropping stages |
| ProgressModel.EveryEventIsAccountedFor | internal/api/server.go:73-82 | For a subscriber present throughout: emitted = delivered + lost in the channel + missed at the subscriber, so it has everything exactly if nothing was dropped |
| ProgressModel.CertainToArrive | internal/api/server.go:59-82 | An operation's first 256 events always reach its forwarder; a subscriber that reads nothing holds exactly the first 64 events published to it, or all; a whole operation of up to 64 events arrives |
| ProgressModel.OperationsInOrder | internal/api/server.go:634-675 | If no operation starts while an event of an earlier one is undelivered, every subscriber gets the events operation by operation |
| ProgressModel.OvertakesExactly | internal/api/server.go:634-675 | A start can be carried on to an inversion at a subscriber, without another such start, exactly if it finds an undelivered event |
| ProgressModel.OperationsOverlap | internal/api/server.go:634-675 | A run in which the second operation's event arrives before the first one's |
| Progress.Server.StartOperation | internal/api/server.go:619-633 | Accepts exactly if nothing is running, and then the new operation is the only one |
| Progress.Server.EmitProgress | internal/scanner/scanner.go:69-77 | A send that never waits: the channel's end, or nothing exactly if 256 events wait |
| Progress.Server.Report | internal/api/server.go:665-673 | The flag is lowered, and nothing is running then |
| Progress.Server.CloseChannel | internal/api/server.go:648 | Afterwards the channel is closed |
| Progress.Publish | internal/api/server.go:73-82 | Every registered subscriber, in any order, gets the event at the end of its channel unless that is full, while subscribers read and operations start, emit and end |
| Progress.ForwardOne | internal/api/server.go:639-643 | One event leaves the operation's channel and is published, while the other goroutines go on |

## Left out

- BLAKE3 and chunked reading: a digest is an arbitrary string that a hashing may fail to give.
- SQL, pragmas, schema and `integrity_check`: the tables are a map and a sequence; connecting to the shadow may fail for any reason, and fails on a torn file. A checksum is an arbitrary function of what the database contains, not of its pages.
- The pages of a journal are sets of rows; a crash may leave a database in a transaction in any state, but a journal either complete or not at all. A failed opening leaves journal and log where they are.
- Coordinator.Repository.Flush: a phase's writes reach the shadow in one transaction when it ends; a process that dies in a phase may have finished any transaction and begun another.
- Storage.Database.GetFilesForScrub: the percentage is a real number, so floating-point rounding in `float64(len)*percentage/100` is not modelled.
- ScrubFairness.BoundedFairness: rounds happen in strictly increasing seconds and without an age filter; a clock that goes back is not covered.
- SyncTheorems.RefinesRehash: asks that no upsert and no deletion of the sweep fails, and so does `EqualsRehashExactly`.
- The walk callback is given what the file system reports: skipped system directories do not occur, and a path is not reported twice. An unreadable root is a walk of one failed visit, after which every record is swept; the canary post-check is what guards against it.
- Hash errors of a scrub that is cancelled while it hashes count as unreadable files.
- The walk's error return without a cancellation: the callback never returns an error of its own, so that branch cannot be reached.
- Progress events inside the sync and scrub loops, logging and the run's duration; progress is modelled for operations whose goroutines do not outlive them.
- `Run` over several drives and its semaphore, which bounds how many drives are processed at once and needs a positive limit.
- The worker count comes from the drive type, a parameter here; disk health is not modelled.
- fsnotify registration and `rootFor`: events come with their base name and root. What a resync touches is a set of names, and it may touch any of them.
- The `-shm` file, which SQLite does not replay.
- Configuration, mail, static pages, HTTP read handlers, retry queue, scheduler, settings: plumbing or small stores whose properties would be easy.
