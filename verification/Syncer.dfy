/** The sync operation itself: the goroutines' shared variables as fields, each atomic action
    of a goroutine as a method, and a scheduler that lets any goroutine that can move do so.
    Every method is proved to take exactly one step of the state machine, and `SyncDirectory`
    to return, without deadlock, in a state that the machine reaches. */
module Syncer {
  import opened Domain
  import opened Storage
  import opened SyncModel
  import opened SyncInvariant
  import opened SyncTheorems
  import SyncEntries
  import SyncProgress

  /** The pool is never empty. */
  function ClampWorkers(numWorkers: int): (n: nat)
    ensures n >= 1 && (numWorkers >= 1 ==> n == numWorkers)
  {
    if numWorkers < 1 then 1 else numWorkers
  }

  /** Looks through the loaded records, in any order, for one that matches and has not been seen. */
  method FindMovedFile(ghost cfg: Config, newPath: Path, size: int, mtime: int, dbFiles: map<Path, FileRecord>,
                       seenFiles: map<Path, Stat>)
    returns (movedFrom: Option<Path>)
    requires dbFiles == DecodeAll(cfg.stored)
    ensures MoveSearch(cfg, seenFiles, newPath, Stat(size, mtime), movedFrom)
  {
    var untried := dbFiles.Keys;
    while untried != {}
      invariant untried <= dbFiles.Keys
      invariant forall source :: source in cfg.stored && source !in untried ==>
                  !cfg.Matches(newPath, Stat(size, mtime), source) || source in seenFiles
      decreases untried
    {
      var dbPath :| dbPath in untried;
      untried := untried - {dbPath};
      UnixRoundTrip(cfg.stored[dbPath].mtime);
      if dbPath != newPath && dbPath !in seenFiles {
        var rec := dbFiles[dbPath];
        if rec.fileSize == size && Unix(rec.mtime) == Unix(mtime) {
          return Some(dbPath);
        }
      }
    }
    return None;
  }

  /** What the parts of the loop's body do adds up to the collector's step. */
  lemma RecordAddsUp(cfg: Config, s: State, t: State, r: WorkResult, movedFrom: Option<Path>, added: int, now: int,
                     deleted: bool, upserted: bool, verdict: Verdict, row: Row)
    requires Running(s) && s.collector == Collector(Some(r), Collecting) && !r.err
    requires RecordEnabled(cfg, s.walker.seen, r, movedFrom) && verdict == Classify(cfg, r, movedFrom)
    requires row == RowFor(cfg, r, verdict, added, now)
    requires var rest := if verdict.MovedFrom? && deleted then s.rows - {verdict.source} else s.rows;
             t.rows == if upserted then rest[r.path := row] else rest
    requires var counted := Tally(s.result, r.path, verdict, true);
             t.result == if upserted then counted else counted.(errors := counted.errors + [UpsertFailed(r.path)])
    requires t == s.(collector := Collector(None, Collecting), rows := t.rows, result := t.result,
                     log := NoteVerdict(s.log, r.path, verdict, deleted, upserted))
    ensures Enabled(cfg, s, Collect(Record(movedFrom, added, now, deleted, upserted)))
    ensures t == Apply(cfg, s, Collect(Record(movedFrom, added, now, deleted, upserted)))
  {
  }

  /** Writes fail only for these paths. */
  predicate Allowed(s: State, step: Step, mayBreak: set<Path>)
  {
    step.Collect? ==>
    match step.c
    case Record(movedFrom, _, _, deleted, upserted) =>
      && s.collector.hand.Some? && (upserted || s.collector.hand.value.path in mayBreak)
      && (deleted || movedFrom.None? || movedFrom.value in mayBreak)
    case Sweep(path, deleted) => deleted || path in mayBreak
    case _ => true
  }

  predicate FailuresIn(log: Log, mayBreak: set<Path>)
  {
    log.upsertFailed <= mayBreak && log.undeleted <= mayBreak
  }

  lemma AllowedFailures(cfg: Config, s: State, step: Step, mayBreak: set<Path>)
    requires Enabled(cfg, s, step) && Allowed(s, step, mayBreak) && FailuresIn(s.log, mayBreak)
    ensures FailuresIn(Apply(cfg, s, step).log, mayBreak)
  {
  }

  class SyncRun {
    const entries: seq<DirEntry>
    const content: map<Path, Hash>
    const mayBreak: set<Path>
    const db: Database
    const dbFiles: map<Path, FileRecord>
    const numWorkers: nat
    ghost const cfg: Config

    // the walker
    var cursor: nat
    var pending: Option<WorkItem>
    var walkErr: Option<bool>
    var seenFiles: map<Path, Stat>
    // the channels and the pool
    var work: seq<WorkItem>
    var results: seq<WorkResult>
    var resultsClosed: bool
    var idle: nat
    var busy: seq<WorkItem>
    var exited: nat
    // the collector
    var hand: Option<WorkResult>
    var phase: Phase
    // shared
    var cancelled: bool
    var result: SyncResult
    ghost var log: Log

    ghost function Snapshot(): State
      reads this, db
    {
      State(Walker(cursor, pending, walkErr, seenFiles), Channels(work, results, resultsClosed),
            Pool(idle, busy, exited),
            Collector(hand, phase), cancelled, db.files, result, log)
    }

    /** The constants are those of the machine's configuration. */
    ghost predicate Linked()
    {
      && cfg.walk == VisitsOf(entries) && cfg.content == content && cfg.workers == numWorkers
      && dbFiles == DecodeAll(cfg.stored)
    }

    constructor (entries: seq<DirEntry>, content: map<Path, Hash>, db: Database, dbFiles: map<Path, FileRecord>,
                 numWorkers: int, mayBreak: set<Path>)
      requires DistinctFiles(VisitsOf(entries)) && dbFiles == DecodeAll(db.files)
      ensures Linked() && this.db == db && this.entries == entries && this.mayBreak == mayBreak
      ensures cfg == Config(VisitsOf(entries), db.files, content, ClampWorkers(numWorkers))
      ensures Snapshot() == Init(cfg)
    {
      this.entries, this.content, this.db, this.dbFiles := entries, content, db, dbFiles;
      this.numWorkers, this.mayBreak := ClampWorkers(numWorkers), mayBreak;
      cfg := Config(VisitsOf(entries), db.files, content, ClampWorkers(numWorkers));
      cursor, pending, walkErr, seenFiles := 0, None, None, map[];
      work, results, resultsClosed := [], [], false;
      idle, busy, exited := ClampWorkers(numWorkers), [], 0;
      hand, phase := None, Collecting;
      cancelled := false;
      result := SyncResult(0, 0, 0, 0, 0, []);
      log := Log(map[], {}, {}, {}, {});
    }

    // ---------- the walker ----------

    /** The walk callback, up to the send: it offers regular files but the tool's own, and reports what
        it cannot walk or, under another name, not stat. */
    method Visit()
      requires Linked() && Enabled(cfg, Snapshot(), Walk(Visiting))
      modifies `cursor, `result, `seenFiles, `pending
      ensures Snapshot() == Apply(cfg, old(Snapshot()), Walk(Visiting))
      ensures pending.Some? <==>
        SyncEntries.IsFile(entries[old(cursor)],
                           {"bitrot.db", "bitrot.db-wal", "bitrot.db-shm", "bitrot.db.shadow",
                            "bitrot.db.shadow-wal", "bitrot.db.shadow-shm", ".bitrot-canary"})
      ensures |result.errors| == |old(result.errors)| + 1 <==>
        SyncEntries.IsFailure(entries[old(cursor)],
                              {"bitrot.db", "bitrot.db-wal", "bitrot.db-shm", "bitrot.db.shadow",
                               "bitrot.db.shadow-wal", "bitrot.db.shadow-shm", ".bitrot-canary"})
    {
      var e := entries[cursor];
      assert cfg.walk[cursor] == VisitOf(e);
      SyncEntries.VisitIsFound(e);
      SyncEntries.VisitIsFailed(e);
      cursor := cursor + 1;
      if e.kind.WalkError? {
        result := result.(errors := result.errors + [VisitFailed(e.path)]);
        return;
      }
      if e.kind.Directory? || e.kind.Symlink? || IsOwnFile(e.base) {
        return;
      }
      if e.kind.StatError? {
        result := result.(errors := result.errors + [VisitFailed(e.path)]);
        return;
      }
      seenFiles := seenFiles[e.path := e.kind.stat];
      result := result.(filesScanned := result.filesScanned + 1);
      var item := MakeItem(e.path, e.kind.stat);
      pending := Some(item);
    }

    /** Reuses the stored digest if size and modification second are as recorded. */
    method MakeItem(path: Path, stat: Stat) returns (item: WorkItem)
      requires Linked()
      ensures item == cfg.ItemFor(path, stat)
    {
      item := WorkItem(path, stat.size, stat.mtime, "");
      if path in dbFiles {
        var existing := dbFiles[path];
        UnixRoundTrip(cfg.stored[path].mtime);
        if existing.fileSize == stat.size && Unix(existing.mtime) == Unix(stat.mtime) {
          item := item.(knownHash := existing.hash);
        }
      }
    }

    method SendItem()
      requires Linked() && Enabled(cfg, Snapshot(), Walk(Send))
      modifies `work, `pending
      ensures Snapshot() == Apply(cfg, old(Snapshot()), Walk(Send))
    {
      work := work + [pending.value];
      pending := None;
    }

    method StopWalk()
      requires Linked() && Enabled(cfg, Snapshot(), Walk(AbortWalk))
      modifies `log, `pending, `walkErr
      ensures Snapshot() == Apply(cfg, old(Snapshot()), Walk(AbortWalk))
    {
      log := log.(dropped := log.dropped + {pending.value.path});
      pending := None;
      walkErr := Some(false);
    }

    method FinishWalk()
      requires Linked() && Enabled(cfg, Snapshot(), Walk(SyncModel.FinishWalk))
      modifies `walkErr
      ensures Snapshot() == Apply(cfg, old(Snapshot()), Walk(SyncModel.FinishWalk))
    {
      walkErr := Some(true);
    }

    // ---------- the workers ----------

    method WorkerTake()
      requires Linked() && Enabled(cfg, Snapshot(), Work(Take))
      modifies `busy, `work, `idle
      ensures Snapshot() == Apply(cfg, old(Snapshot()), Work(Take))
    {
      busy := busy + [work[0]];
      work := work[1..];
      idle := idle - 1;
    }

    /** Reuses the known hash or computes one, and sends the result. */
    method WorkerPut(i: nat, interrupted: bool)
      requires Linked() && Enabled(cfg, Snapshot(), Work(Put(i, interrupted)))
      modifies `results, `busy, `idle
      ensures Snapshot() == Apply(cfg, old(Snapshot()), Work(Put(i, interrupted)))
    {
      var item := busy[i];
      var res: WorkResult;
      if item.knownHash != "" {
        res := WorkResult(item.path, item.knownHash, item.size, item.mtime, false);
      } else if interrupted || item.path !in content {
        res := WorkResult(item.path, "", item.size, item.mtime, true);
      } else {
        res := WorkResult(item.path, content[item.path], item.size, item.mtime, false);
      }
      results := results + [res];
      busy := Without(busy, i);
      idle := idle + 1;
    }

    method WorkerDrop(i: nat)
      requires Linked() && Enabled(cfg, Snapshot(), Work(Drop(i)))
      modifies `log, `busy, `exited
      ensures Snapshot() == Apply(cfg, old(Snapshot()), Work(Drop(i)))
    {
      log := log.(dropped := log.dropped + {busy[i].path});
      busy := Without(busy, i);
      exited := exited + 1;
    }

    method WorkerExit()
      requires Linked() && Enabled(cfg, Snapshot(), Work(Exit))
      modifies `idle, `exited
      ensures Snapshot() == Apply(cfg, old(Snapshot()), Work(Exit))
    {
      idle := idle - 1;
      exited := exited + 1;
    }

    method CloseChannel()
      requires Linked() && Enabled(cfg, Snapshot(), Work(CloseResults))
      modifies `resultsClosed
      ensures Snapshot() == Apply(cfg, old(Snapshot()), Work(CloseResults))
    {
      resultsClosed := true;
    }

    // ---------- the collector ----------

    method ReceiveResult()
      requires Linked() && Enabled(cfg, Snapshot(), Collect(Receive))
      modifies `hand, `results
      ensures Snapshot() == Apply(cfg, old(Snapshot()), Collect(Receive))
    {
      hand := Some(results[0]);
      results := results[1..];
    }

    method Abort()
      requires Linked() && Enabled(cfg, Snapshot(), Collect(AbortCollect))
      modifies `phase
      ensures Snapshot() == Apply(cfg, old(Snapshot()), Collect(AbortCollect))
    {
      phase := Aborted;
    }

    /** Classifies a file that was hashed, counts it, and deletes the record it was moved from. */
    method Prepare(res: WorkResult)
      returns (rec: FileRecord, movedFrom: Option<Path>, added: int, deleted: bool, ghost verdict: Verdict)
      requires Linked() && !res.err
      modifies this`result, db`files
      ensures RecordEnabled(cfg, seenFiles, res, movedFrom) && verdict == Classify(cfg, res, movedFrom)
      ensures rec.absPath == res.path && forall now :: Encode(rec, now) == RowFor(cfg, res, verdict, added, now)
      ensures result == Tally(old(result), res.path, verdict, true)
      ensures db.files == if verdict.MovedFrom? && deleted then old(db.files) - {verdict.source} else old(db.files)
      ensures deleted || (movedFrom.Some? && movedFrom.value in mayBreak)
    {
      rec := FileRecord(res.path, res.hash, 0, 0, None, 0, res.size, res.mtime);
      movedFrom, added, deleted := None, 0, true;
      if res.path in dbFiles {
        var existing := dbFiles[res.path];
        UnixRoundTrip(cfg.stored[res.path].mtime);
        verdict := Unchanged;
        if existing.fileSize != res.size || Unix(existing.mtime) != Unix(res.mtime) {
          result := result.(filesModified := result.filesModified + 1);
          verdict := Modified;
        }
        rec := rec.(addedAt := existing.addedAt,
                    lastScrubbed := existing.lastScrubbed, scrubCount := existing.scrubCount);
      } else {
        movedFrom := FindMovedFile(cfg, res.path, res.size, res.mtime, dbFiles, seenFiles);
        if movedFrom.Some? {
          var prev := dbFiles[movedFrom.value];
          rec := rec.(addedAt := prev.addedAt, hash := prev.hash,
                      lastScrubbed := prev.lastScrubbed, scrubCount := prev.scrubCount);
          var fails: bool := *;
          deleted := db.DeleteFile(movedFrom.value, fails && movedFrom.value in mayBreak);
          result := result.(filesMoved := result.filesMoved + 1);
          verdict := MovedFrom(movedFrom.value);
        } else {
          added := *;
          rec := rec.(addedAt := added);
          result := result.(filesAdded := result.filesAdded + 1);
          verdict := Added;
        }
      }
    }

    /** The body of the collector's loop for a file that could not be hashed. */
    method RecordFailure()
      requires Linked() && Running(Snapshot()) && phase.Collecting? && hand.Some? && hand.value.err
      modifies `hand, `result, `log
      ensures Enabled(cfg, old(Snapshot()), Collect(Record(None, 0, 0, true, true)))
      ensures Snapshot() == Apply(cfg, old(Snapshot()), Collect(Record(None, 0, 0, true, true)))
    {
      var path := hand.value.path;
      hand := None;
      result := result.(errors := result.errors + [HashFailed(path)]);
      log := log.(verdict := log.verdict[path := Unreadable]);
    }

    /** Upserts a record; a failure is reported, and the loop goes on. */
    method Upsert(rec: FileRecord) returns (upserted: bool, ghost now: int)
      modifies this`result, db`files
      ensures db.files == if upserted then old(db.files)[rec.absPath := Encode(rec, now)] else old(db.files)
      ensures result == if upserted then old(result)
                        else old(result).(errors := old(result).errors + [UpsertFailed(rec.absPath)])
      ensures upserted || rec.absPath in mayBreak
    {
      var fails: bool := *;
      upserted, now := db.UpsertFile(rec, fails && rec.absPath in mayBreak);
      if !upserted {
        result := result.(errors := result.errors + [UpsertFailed(rec.absPath)]);
      }
    }

    /** And for a file that was hashed. */
    method RecordHashed() returns (ghost step: Step)
      requires Linked() && Running(Snapshot()) && phase.Collecting? && hand.Some? && !hand.value.err
      modifies `hand, `result, `log, db`files
      ensures step.Collect? && step.c.Record? && Enabled(cfg, old(Snapshot()), step)
      ensures Allowed(old(Snapshot()), step, mayBreak)
      ensures Snapshot() == Apply(cfg, old(Snapshot()), step)
    {
      ghost var before := Snapshot();
      var res := hand.value;
      hand := None;
      var rec, movedFrom, added, deleted;
      ghost var verdict: Verdict;
      rec, movedFrom, added, deleted, verdict := Prepare(res);
      var upserted: bool;
      ghost var now: int;
      upserted, now := Upsert(rec);
      log := NoteVerdict(log, res.path, verdict, deleted, upserted);
      step := Collect(Record(movedFrom, added, now, deleted, upserted));
      RecordAddsUp(cfg, before, Snapshot(), res, movedFrom, added, now, deleted, upserted, verdict, Encode(rec, now));
    }

    /** The body of the collector's loop. */
    method RecordOne() returns (ghost step: Step)
      requires Linked() && Running(Snapshot()) && phase.Collecting? && hand.Some?
      modifies `hand, `result, `log, db`files
      ensures step.Collect? && step.c.Record? && Enabled(cfg, old(Snapshot()), step)
      ensures Allowed(old(Snapshot()), step, mayBreak)
      ensures Snapshot() == Apply(cfg, old(Snapshot()), step)
    {
      if hand.value.err {
        RecordFailure();
        step := Collect(Record(None, 0, 0, true, true));
      } else {
        step := RecordHashed();
      }
    }

    method EndLoop()
      requires Linked() && Enabled(cfg, Snapshot(), Collect(SyncModel.EndLoop))
      modifies `phase
      ensures Snapshot() == Apply(cfg, old(Snapshot()), Collect(SyncModel.EndLoop))
    {
      assert dbFiles.Keys == cfg.stored.Keys;
      phase := if walkErr.value then Sweeping(dbFiles.Keys) else Aborted;
    }

    method SweepOne(path: Path) returns (ghost step: Step)
      requires Linked() && phase.Sweeping? && path in phase.remaining
      modifies `phase, `result, `log, db`files
      ensures step.Collect? && step.c.Sweep? && Enabled(cfg, old(Snapshot()), step)
      ensures Allowed(old(Snapshot()), step, mayBreak)
      ensures Snapshot() == Apply(cfg, old(Snapshot()), step)
    {
      phase := Sweeping(phase.remaining - {path});
      var deleted := true;
      if path !in seenFiles {
        var fails: bool := *;
        deleted := db.DeleteFile(path, fails && path in mayBreak);
        result := result.(filesRemoved := result.filesRemoved + 1);
        log := if deleted then log else log.(undeleted := log.undeleted + {path});
      }
      step := Collect(Sweep(path, deleted));
    }

    method Return()
      requires Linked() && Enabled(cfg, Snapshot(), Collect(Finish))
      modifies `phase
      ensures Snapshot() == Apply(cfg, old(Snapshot()), Collect(Finish))
    {
      phase := Finished;
    }

    method CancelContext()
      requires Linked() && Enabled(cfg, Snapshot(), Cancel)
      modifies `cancelled
      ensures Snapshot() == Apply(cfg, old(Snapshot()), Cancel)
    {
      cancelled := true;
    }

    predicate WalkerCanMove()
      reads this
    {
      walkErr.None? && (pending.None? || |work| < WORK_BUFFER_SIZE || cancelled) && cursor <= |entries|
    }

    predicate PoolCanMove()
      reads this
    {
      || (idle > 0 && (work != [] || walkErr.Some?))
      || (busy != [] && (|results| < WORK_BUFFER_SIZE || cancelled))
      || (exited == numWorkers && !resultsClosed)
    }

    predicate CollectorCanMove()
      reads this
    {
      || phase.Sweeping?
      || (phase.Collecting? && (hand.Some? || results != [] || (resultsClosed && walkErr.Some?)))
    }

    method StepWalker() returns (ghost step: Step)
      requires Linked() && Running(Snapshot()) && WalkerCanMove()
      modifies `cursor, `result, `seenFiles, `pending, `work, `log, `walkErr
      ensures step.Walk? && Enabled(cfg, old(Snapshot()), step) && Snapshot() == Apply(cfg, old(Snapshot()), step)
    {
      if {
        case pending.None? && cursor < |entries| => step := Walk(Visiting); Visit();
        case pending.Some? && |work| < WORK_BUFFER_SIZE => step := Walk(Send); SendItem();
        case pending.Some? && cancelled => step := Walk(AbortWalk); StopWalk();
        case pending.None? && cursor == |entries| => step := Walk(SyncModel.FinishWalk); FinishWalk();
      }
    }

    method StepPool() returns (ghost step: Step)
      requires Linked() && Running(Snapshot()) && PoolCanMove()
      modifies `work, `results, `resultsClosed, `idle, `busy, `exited, `log
      ensures step.Work? && Enabled(cfg, old(Snapshot()), step) && Snapshot() == Apply(cfg, old(Snapshot()), step)
    {
      if {
        case idle > 0 && work != [] => step := Work(Take); WorkerTake();
        case busy != [] && |results| < WORK_BUFFER_SIZE =>
          var i :| 0 <= i < |busy|;
          var interrupted := *;
          interrupted := interrupted && cancelled;
          step := Work(Put(i, interrupted));
          WorkerPut(i, interrupted);
        case busy != [] && cancelled =>
          var i :| 0 <= i < |busy|;
          step := Work(Drop(i));
          WorkerDrop(i);
        case idle > 0 && work == [] && walkErr.Some? => step := Work(Exit); WorkerExit();
        case exited == numWorkers && !resultsClosed => step := Work(CloseResults); CloseChannel();
      }
    }

    method StepCollector() returns (ghost step: Step)
      requires Linked() && Running(Snapshot()) && CollectorCanMove()
      modifies `results, `hand, `phase, `result, `log, db`files
      ensures step.Collect? && Enabled(cfg, old(Snapshot()), step) && Snapshot() == Apply(cfg, old(Snapshot()), step)
      ensures Allowed(old(Snapshot()), step, mayBreak)
    {
      if {
        case phase.Collecting? && hand.None? && results != [] => step := Collect(Receive); ReceiveResult();
        case phase.Collecting? && hand.Some? => step := RecordOne();
        case phase.Collecting? && hand.Some? && cancelled => step := Collect(AbortCollect); Abort();
        case phase.Collecting? && hand.None? && results == [] && resultsClosed && walkErr.Some? =>
          step := Collect(SyncModel.EndLoop);
          EndLoop();
        case phase.Sweeping? && phase.remaining != {} =>
          var path :| path in phase.remaining;
          step := SweepOne(path);
        case phase == Sweeping({}) => step := Collect(Finish); Return();
      }
    }

    /** Lets some goroutine take a step, whichever the scheduler likes; that one of the
        alternatives is always open is the absence of deadlock. */
    method StepSomewhere() returns (ghost step: Step)
      requires Linked() && cfg.Valid() && Inv(cfg, Snapshot()) && Running(Snapshot())
      modifies this, db`files
      ensures step != Cancel && Enabled(cfg, old(Snapshot()), step) && Snapshot() == Apply(cfg, old(Snapshot()), step)
      ensures Allowed(old(Snapshot()), step, mayBreak)
    {
      ghost var possible := SyncProgress.NeverBlocked(cfg, Snapshot());
      if {
        case WalkerCanMove() => step := StepWalker();
        case PoolCanMove() => step := StepPool();
        case CollectorCanMove() => step := StepCollector();
      }
    }
  }

  /** How `SyncDirectory` returns: not started (cancelled before it began, or the records could
      not be loaded), with a nil error, or with the context's error. */
  datatype Status = NotStarted | Nil | ContextError

  /** Lets the goroutines run until the collector returns. */
  method RunToEnd(run: SyncRun, mayCancel: bool) returns (ghost steps: seq<Step>, ghost s: State)
    requires run.Linked() && run.cfg.Valid() && run.Snapshot() == Init(run.cfg)
    modifies run, run.db`files
    ensures IsRun(run.cfg, Init(run.cfg), steps) && s == After(run.cfg, Init(run.cfg), steps) == run.Snapshot()
    ensures Inv(run.cfg, s) && !Running(s) && (!mayCancel ==> !s.cancelled) && FailuresIn(s.log, run.mayBreak)
  {
    ghost var cfg := run.cfg;
    steps, s := [], run.Snapshot();
    InitInv(cfg);
    while run.phase.Collecting? || run.phase.Sweeping?
      invariant run.Linked() && Inv(cfg, run.Snapshot())
      invariant IsRun(cfg, Init(cfg), steps) && s == After(cfg, Init(cfg), steps) == run.Snapshot()
      invariant (!mayCancel ==> !run.cancelled) && FailuresIn(s.log, run.mayBreak)
      decreases SyncProgress.Measure(cfg, run.Snapshot())
    {
      var cancelNow := *;
      ghost var step;
      if mayCancel && !run.cancelled && cancelNow {
        step := Cancel;
        run.CancelContext();
      } else {
        step := run.StepSomewhere();
      }
      SyncProgress.Advance(cfg, steps, s, step);
      AllowedFailures(cfg, s, step, run.mayBreak);
      steps := steps + [step];
      s := run.Snapshot();
    }
  }

  /** Walks a tree, hashes what is new or changed, and brings the table up to date. `mayCancel`
      says whether the context can be cancelled while it runs, `fails` whether the records cannot be
      loaded; writes may fail only for paths in `mayBreak`. Whatever the walk reports, only regular
      files under other names than the tool's own count, and only failures to walk or to stat them
      are reported by the walk. */
  method SyncDirectory(entries: seq<DirEntry>, content: map<Path, Hash>, db: Database, numWorkers: int, mayCancel: bool,
                       fails: bool, mayBreak: set<Path>)
    returns (status: Status, result: SyncResult, ghost cfg: Config, ghost steps: seq<Step>, ghost s: State,
             ghost failedAt: seq<nat>)
    requires DistinctFiles(VisitsOf(entries))
    modifies db`files
    ensures cfg == Config(VisitsOf(entries), old(db.files), content, ClampWorkers(numWorkers))
    ensures status.NotStarted? ==> db.files == old(db.files)
    ensures fails ==> status.NotStarted?
    ensures !status.NotStarted? ==> IsRun(cfg, Init(cfg), steps) && s == After(cfg, Init(cfg), steps) && !Running(s)
    ensures !status.NotStarted? ==>
          db.files == s.rows && result == s.result && (status.Nil? <==> s.collector.phase.Finished?)
    ensures !mayCancel ==> !status.ContextError? && !s.cancelled && (status.Nil? <==> !fails)
    ensures status.Nil? ==>
      ReturnsNil(cfg, steps, s) && SyncOutcome(cfg, db.files, CallsOf(s.log)) && FailuresIn(s.log, mayBreak)
    ensures status.Nil? ==>
      SyncEntries.AccountsFor(entries, {"bitrot.db", "bitrot.db-wal", "bitrot.db-shm", "bitrot.db.shadow",
                                        "bitrot.db.shadow-wal", "bitrot.db.shadow-shm", ".bitrot-canary"},
                              s.walker.seen, failedAt, old(db.files), db.files, result)
  {
    cfg := Config(VisitsOf(entries), db.files, content, ClampWorkers(numWorkers));
    steps, s, result, failedAt := [], Init(cfg), SyncResult(0, 0, 0, 0, 0, []), [];
    var cancelledBefore := *;
    if mayCancel && cancelledBefore {
      return NotStarted, result, cfg, steps, s, failedAt;
    }
    var loaded, dbFiles := db.GetAllFiles(fails);
    if !loaded {
      return NotStarted, result, cfg, steps, s, failedAt;
    }
    var run := new SyncRun(entries, content, db, dbFiles, numWorkers, mayBreak);
    steps, s := RunToEnd(run, mayCancel);
    result := run.result;
    status := if run.phase.Finished? then Nil else ContextError;
    if status.Nil? {
      SyncIsRight(cfg, steps, s);
      failedAt := SyncEntries.EntriesAreAccountedFor(entries, cfg, steps, s);
    }
  }
}
