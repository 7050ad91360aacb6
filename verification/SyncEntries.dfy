/** What a sync does, said of the entries that the file system reports, of rows and of clock readings
    alone: which entries count, which errors are reported, what a row means, what the counters count. */
module SyncEntries {
  import opened Domain
  import opened SyncModel
  import opened SyncInvariant
  import opened SyncTheorems

  // ---------- the entries ----------

  predicate IsFile(e: DirEntry, skipped: set<string>)
  {
    e.kind.Regular? && e.base !in skipped
  }

  predicate IsFailure(e: DirEntry, skipped: set<string>)
  {
    e.kind.WalkError? || (e.kind.StatError? && e.base !in skipped)
  }

  /** The tree holds the files among the entries, with what was found of each. */
  ghost predicate IsTreeOf(entries: seq<DirEntry>, skipped: set<string>, tree: map<Path, Stat>)
  {
    && (forall path :: path in tree ==>
          exists i :: 0 <= i < |entries| && IsFile(entries[i], skipped) && entries[i].path == path)
    && (forall i :: 0 <= i < |entries| && IsFile(entries[i], skipped) ==>
          entries[i].path in tree && tree[entries[i].path] == entries[i].kind.stat)
  }

  /** `at` are the failed entries, in order. */
  ghost predicate AreFailures(entries: seq<DirEntry>, skipped: set<string>, at: seq<nat>)
  {
    && (forall j, k :: 0 <= j < k < |at| ==> at[j] < at[k])
    && (forall i :: i in at <==> 0 <= i < |entries| && IsFailure(entries[i], skipped))
  }

  /** The paths of the errors that the walk has reported, in order. */
  function VisitErrors(errors: seq<SyncError>): (paths: seq<Path>)
  {
    if errors == [] then []
    else
      var last := errors[|errors| - 1];
      VisitErrors(errors[..|errors| - 1]) + if last.VisitFailed? then [last.path] else []
  }

  /** Every file counts once, every failure gives one error in its turn, all other errors concern
      files, and a path that is no file has at most the row it had before. */
  ghost predicate AccountsFor(entries: seq<DirEntry>, skipped: set<string>, tree: map<Path, Stat>, failedAt: seq<nat>,
                              stored: Table, rows: Table, result: SyncResult)
  {
    && IsTreeOf(entries, skipped, tree) && result.filesScanned == |tree|
    && AreFailures(entries, skipped, failedAt) && |VisitErrors(result.errors)| == |failedAt|
    && (forall k :: 0 <= k < |failedAt| ==>
          failedAt[k] < |entries| && VisitErrors(result.errors)[k] == entries[failedAt[k]].path)
    && (forall k :: 0 <= k < |result.errors| && !result.errors[k].VisitFailed? ==> result.errors[k].path in tree)
    && (forall path :: path in rows && path !in tree ==> path in stored && rows[path] == stored[path])
  }

  lemma VisitIsFound(e: DirEntry)
    ensures VisitOf(e).Found?
       <==> IsFile(e, {"bitrot.db", "bitrot.db-wal", "bitrot.db-shm", "bitrot.db.shadow",
                       "bitrot.db.shadow-wal", "bitrot.db.shadow-shm", ".bitrot-canary"})
    ensures VisitOf(e).Found? ==> VisitOf(e) == Found(e.path, e.kind.stat)
  {
  }

  lemma VisitIsFailed(e: DirEntry)
    ensures VisitOf(e).Failed?
       <==> IsFailure(e, {"bitrot.db", "bitrot.db-wal", "bitrot.db-shm", "bitrot.db.shadow",
                          "bitrot.db.shadow-wal", "bitrot.db.shadow-shm", ".bitrot-canary"})
    ensures VisitOf(e).Failed? ==> VisitOf(e) == Failed(e.path)
  {
  }

  /** The visits single out the entries that are files and those that failed, if these are skipped. */
  ghost predicate Sorted(entries: seq<DirEntry>, skipped: set<string>)
  {
    forall i :: 0 <= i < |entries| ==>
      && (VisitOf(entries[i]).Found? <==> IsFile(entries[i], skipped))
      && (VisitOf(entries[i]).Failed? <==> IsFailure(entries[i], skipped))
      && (VisitOf(entries[i]).Found? ==> VisitOf(entries[i]) == Found(entries[i].path, entries[i].kind.stat))
      && (VisitOf(entries[i]).Failed? ==> VisitOf(entries[i]) == Failed(entries[i].path))
  }

  lemma SevenAreSkipped(entries: seq<DirEntry>)
    ensures Sorted(entries, {"bitrot.db", "bitrot.db-wal", "bitrot.db-shm", "bitrot.db.shadow",
                             "bitrot.db.shadow-wal", "bitrot.db.shadow-shm", ".bitrot-canary"})
  {
    forall e ensures VisitOf(e).Found? ==> VisitOf(e) == Found(e.path, e.kind.stat)
             ensures VisitOf(e).Failed? ==> VisitOf(e) == Failed(e.path) {
    }
  }

  lemma {:induction false} FoundInTree(walk: seq<Visit>, n: nat, i: nat)
    requires DistinctFiles(walk) && i < n <= |walk| && walk[i].Found?
    ensures walk[i].path in Tree(walk, n) && Tree(walk, n)[walk[i].path] == walk[i].stat
  {
    if i < n - 1 {
      FoundInTree(walk, n - 1, i);
    }
  }

  lemma {:induction false} TreeOfEntries(entries: seq<DirEntry>, skipped: set<string>)
    requires Sorted(entries, skipped) && DistinctFiles(VisitsOf(entries))
    ensures IsTreeOf(entries, skipped, Tree(VisitsOf(entries), |entries|))
  {
    var walk := VisitsOf(entries);
    forall path | path in Tree(walk, |walk|)
      ensures exists i :: 0 <= i < |entries| && IsFile(entries[i], skipped) && entries[i].path == path
    {
      TreeOrigin(walk, |walk|, path);
      var i :| 0 <= i < |walk| && walk[i].Found? && walk[i].path == path;
      assert IsFile(entries[i], skipped);
    }
    forall i | 0 <= i < |entries| && IsFile(entries[i], skipped)
      ensures entries[i].path in Tree(walk, |walk|) && Tree(walk, |walk|)[entries[i].path] == entries[i].kind.stat
    {
      FoundInTree(walk, |walk|, i);
    }
  }

  // ---------- the errors ----------

  function FailedPaths(walk: seq<Visit>, n: nat): (paths: seq<Path>)
    requires n <= |walk|
  {
    if n == 0 then []
    else FailedPaths(walk, n - 1) + if walk[n - 1].Failed? then [walk[n - 1].path] else []
  }

  lemma OneMoreError(errors: seq<SyncError>, e: SyncError)
    ensures VisitErrors(errors + [e]) == VisitErrors(errors) + if e.VisitFailed? then [e.path] else []
  {
    assert (errors + [e])[..|errors|] == errors;
  }

  ghost predicate ErrorsInOrder(walk: seq<Visit>, cursor: nat, seen: map<Path, Stat>, errors: seq<SyncError>)
  {
    && cursor <= |walk| && VisitErrors(errors) == FailedPaths(walk, cursor)
    && (forall k :: 0 <= k < |errors| && !errors[k].VisitFailed? ==> errors[k].path in seen)
  }

  ghost predicate InOrder(cfg: Config, s: State)
  {
    ErrorsInOrder(cfg.walk, s.walker.cursor, s.walker.seen, s.result.errors)
  }

  lemma VisitStaysInOrder(walk: seq<Visit>, n: nat, seen: map<Path, Stat>, errors: seq<SyncError>)
    requires ErrorsInOrder(walk, n, seen, errors) && n < |walk|
    ensures walk[n].Failed? ==> ErrorsInOrder(walk, n + 1, seen, errors + [VisitFailed(walk[n].path)])
    ensures walk[n].Skipped? ==> ErrorsInOrder(walk, n + 1, seen, errors)
    ensures walk[n].Found? ==> ErrorsInOrder(walk, n + 1, seen[walk[n].path := walk[n].stat], errors)
  {
    if walk[n].Failed? {
      OneMoreError(errors, VisitFailed(walk[n].path));
    }
  }

  lemma WalkerKeepsErrors(cfg: Config, s: State, w: WalkerStep)
    requires InOrder(cfg, s) && WalkerEnabled(cfg, s, w)
    ensures InOrder(cfg, ApplyWalker(cfg, s, w))
  {
    if w.Visiting? {
      VisitStaysInOrder(cfg.walk, s.walker.cursor, s.walker.seen, s.result.errors);
    }
  }

  lemma FileErrorStaysInOrder(walk: seq<Visit>, cursor: nat, seen: map<Path, Stat>, errors: seq<SyncError>,
                              e: SyncError)
    requires ErrorsInOrder(walk, cursor, seen, errors) && !e.VisitFailed? && e.path in seen
    ensures ErrorsInOrder(walk, cursor, seen, errors + [e])
  {
    OneMoreError(errors, e);
  }

  lemma RecordAddsOneError(cfg: Config, s: State, c: CollectorStep)
    requires CollectorEnabled(cfg, s, c)
    ensures ApplyCollector(cfg, s, c).walker == s.walker
    ensures var errors := ApplyCollector(cfg, s, c).result.errors;
      || errors == s.result.errors
      || (c.Record? && errors == s.result.errors + [HashFailed(s.collector.hand.value.path)])
      || (c.Record? && errors == s.result.errors + [UpsertFailed(s.collector.hand.value.path)])
  {
  }

  lemma CollectorKeepsErrors(cfg: Config, s: State, c: CollectorStep)
    requires InOrder(cfg, s) && Items(cfg, s) && CollectorEnabled(cfg, s, c)
    ensures InOrder(cfg, ApplyCollector(cfg, s, c))
  {
    RecordAddsOneError(cfg, s, c);
    if s.collector.hand.Some? {
      var path := s.collector.hand.value.path;
      FileErrorStaysInOrder(cfg.walk, s.walker.cursor, s.walker.seen, s.result.errors, HashFailed(path));
      FileErrorStaysInOrder(cfg.walk, s.walker.cursor, s.walker.seen, s.result.errors, UpsertFailed(path));
    }
  }

  lemma StepKeepsErrors(cfg: Config, s: State, step: Step)
    requires Items(cfg, s) && InOrder(cfg, s) && Enabled(cfg, s, step)
    ensures InOrder(cfg, Apply(cfg, s, step))
  {
    match step
    case Walk(w) => WalkerKeepsErrors(cfg, s, w);
    case Collect(c) => CollectorKeepsErrors(cfg, s, c);
    case _ =>
  }

  lemma {:induction false} RunKeepsErrors(cfg: Config, s: State, steps: seq<Step>)
    requires cfg.Valid() && Inv(cfg, s) && InOrder(cfg, s) && IsRun(cfg, s, steps)
    ensures InOrder(cfg, After(cfg, s, steps))
    decreases |steps|
  {
    if steps != [] {
      Invariant(cfg, s, steps[0]);
      StepKeepsErrors(cfg, s, steps[0]);
      RunKeepsErrors(cfg, Apply(cfg, s, steps[0]), steps[1..]);
    }
  }

  lemma {:induction false} FailuresInOrder(entries: seq<DirEntry>, skipped: set<string>, n: nat)
    returns (at: seq<nat>)
    requires Sorted(entries, skipped) && n <= |entries|
    ensures AreFailures(entries[..n], skipped, at)
    ensures var paths := FailedPaths(VisitsOf(entries), n);
            |at| == |paths| && forall k :: 0 <= k < |at| ==> at[k] < n && paths[k] == entries[at[k]].path
  {
    at := [];
    if n > 0 {
      at := FailuresInOrder(entries, skipped, n - 1);
      if IsFailure(entries[n - 1], skipped) {
        at := at + [n - 1];
      }
    }
  }

  // ---------- what a sync makes of the entries ----------

  lemma OtherRowsStay(cfg: Config, steps: seq<Step>, s: State)
    requires ReturnsNil(cfg, steps, s)
    ensures forall path :: path in s.rows && path !in cfg.Disk() ==>
              path in cfg.stored && s.rows[path] == cfg.stored[path]
  {
    SyncIsRight(cfg, steps, s);
    forall path | path in s.rows && path !in cfg.Disk() ensures path in cfg.stored && s.rows[path] == cfg.stored[path] {
      assert PathOutcome(cfg, path, CallsOf(s.log), s.rows);
    }
  }

  lemma SyncAccountsFor(entries: seq<DirEntry>, skipped: set<string>, cfg: Config, steps: seq<Step>, s: State)
    returns (failedAt: seq<nat>)
    requires Sorted(entries, skipped) && cfg.walk == VisitsOf(entries) && ReturnsNil(cfg, steps, s)
    ensures AccountsFor(entries, skipped, s.walker.seen, failedAt, cfg.stored, s.rows, s.result)
  {
    ReturnedNil(cfg, steps, s);
    TreeOfEntries(entries, skipped);
    InitInv(cfg);
    RunKeepsErrors(cfg, Init(cfg), steps);
    failedAt := FailuresInOrder(entries, skipped, |entries|);
    assert entries[..|entries|] == entries;
    OtherRowsStay(cfg, steps, s);
  }

  /** After a sync that returns nil, exactly the regular files count whose names are none of the seven;
      exactly the entries that cannot be walked or, being none of the seven, not be statted are reported,
      each once; and nothing else leaves a trace: no row, no count and no error. */
  lemma EntriesAreAccountedFor(entries: seq<DirEntry>, cfg: Config, steps: seq<Step>, s: State)
    returns (failedAt: seq<nat>)
    requires cfg.walk == VisitsOf(entries) && ReturnsNil(cfg, steps, s)
    ensures AccountsFor(entries, {"bitrot.db", "bitrot.db-wal", "bitrot.db-shm", "bitrot.db.shadow",
                                  "bitrot.db.shadow-wal", "bitrot.db.shadow-shm", ".bitrot-canary"},
                        s.walker.seen, failedAt, cfg.stored, s.rows, s.result)
  {
    SevenAreSkipped(entries);
    failedAt := SyncAccountsFor(entries, {"bitrot.db", "bitrot.db-wal", "bitrot.db-shm", "bitrot.db.shadow",
                                          "bitrot.db.shadow-wal", "bitrot.db.shadow-shm", ".bitrot-canary"},
                                cfg, steps, s);
  }

  // ---------- the rows ----------

  /** The row records this size and the second of this time. */
  predicate Shows(row: Row, stat: Stat)
  {
    row.fileSize == stat.size && InSecond(stat.mtime, row.mtime)
  }

  lemma SameStatIs(cfg: Config, path: Path, stat: Stat)
    ensures cfg.SameStat(path, stat) <==>
      && path in cfg.stored && cfg.stored[path].fileSize == stat.size
      && cfg.stored[path].mtime * 1_000_000_000 <= stat.mtime < (cfg.stored[path].mtime + 1) * 1_000_000_000
    ensures path in cfg.stored ==> (Shows(cfg.stored[path], stat) <==> cfg.SameStat(path, stat))
  {
  }

  /** What an upserted row says: the file's size and second; for a recorded file the history and, if size
      and second were as recorded with a digest, that digest, otherwise that of the content; for a new
      file either that of the content and no history, all records that look like it being of files on
      disk, or digest and history of a record that looks like it and whose file the walk has not
      reported before it. */
  lemma UpsertedRow(cfg: Config, rows: Table, calls: Calls, path: Path)
    requires cfg.Valid() && SyncOutcome(cfg, rows, calls) && path in calls.recorded
    ensures path in cfg.Disk() && path in rows && Shows(rows[path], cfg.Disk()[path])
    ensures path in cfg.stored ==>
      && KeepsHistory(cfg.stored[path], rows[path])
      && (if Shows(cfg.stored[path], cfg.Disk()[path]) && cfg.stored[path].hash != ""
          then rows[path].hash == cfg.stored[path].hash
          else path in cfg.content && rows[path].hash == cfg.content[path])
    ensures path !in cfg.stored ==>
      || (&& path in cfg.content && rows[path].hash == cfg.content[path]
          && rows[path].scrubCount == 0 && rows[path].lastScrubbed == None
          && forall source | source in cfg.stored ::
               Shows(cfg.stored[source], cfg.Disk()[path]) ==> source in cfg.Disk())
      || (exists source | source in cfg.stored ::
            && Shows(cfg.stored[source], cfg.Disk()[path]) && cfg.Ahead(path, source)
            && rows[path].hash == cfg.stored[source].hash && KeepsHistory(cfg.stored[source], rows[path]))
  {
    assert PathOutcome(cfg, path, calls, rows);
    var stat := cfg.Disk()[path];
    forall other ensures other in cfg.stored ==> (Shows(cfg.stored[other], stat) <==> cfg.SameStat(other, stat)) {
      SameStatIs(cfg, other, stat);
    }
  }

  // ---------- the counters ----------

  /** The recorded files that the disk shows changed and that can be hashed. */
  ghost function ChangedFiles(cfg: Config): set<Path>
  {
    set path | path in cfg.Disk() && path in cfg.stored && path in cfg.content
               && !Shows(cfg.stored[path], cfg.Disk()[path])
  }

  /** The files without a record that can be hashed. */
  ghost function NewFiles(cfg: Config): set<Path>
  {
    set path | path in cfg.Disk() && path !in cfg.stored && path in cfg.content
  }

  /** The files whose digest is needed and cannot be computed. */
  ghost function UnreadableFiles(cfg: Config): set<Path>
  {
    set path | path in cfg.Disk() && path !in cfg.content
               && (path in cfg.stored && Shows(cfg.stored[path], cfg.Disk()[path]) ==> cfg.stored[path].hash == "")
  }

  lemma VerdictIs(cfg: Config, steps: seq<Step>, s: State, path: Path)
    requires Completes(cfg, steps, s)
    ensures path in s.log.verdict <==> path in cfg.Disk()
    ensures path in s.log.verdict ==>
      && (s.log.verdict[path].Modified? <==> path in ChangedFiles(cfg))
      && (s.log.verdict[path].Added? || s.log.verdict[path].MovedFrom? <==> path in NewFiles(cfg))
      && (s.log.verdict[path].Unreadable? <==> path in UnreadableFiles(cfg))
  {
    CompletedJudgesAll(cfg, steps, s);
    if path in s.log.verdict {
      assert Justified(cfg, s.walker.seen, s.cancelled, path, s.log.verdict[path]);
      SameStatIs(cfg, path, cfg.Disk()[path]);
    }
  }

  lemma KindsAre(cfg: Config, steps: seq<Step>, s: State)
    requires Completes(cfg, steps, s)
    ensures PathsOf(s.log.verdict, ModifiedKind) == ChangedFiles(cfg)
    ensures PathsOf(s.log.verdict, UnreadableKind) == UnreadableFiles(cfg)
    ensures PathsOf(s.log.verdict, AddedKind) + PathsOf(s.log.verdict, MovedKind) == NewFiles(cfg)
  {
    forall path
      ensures path in PathsOf(s.log.verdict, ModifiedKind) <==> path in ChangedFiles(cfg)
      ensures path in PathsOf(s.log.verdict, UnreadableKind) <==> path in UnreadableFiles(cfg)
      ensures path in PathsOf(s.log.verdict, AddedKind) + PathsOf(s.log.verdict, MovedKind) <==> path in NewFiles(cfg)
    {
      VerdictIs(cfg, steps, s, path);
    }
  }

  /** All counters of an uncancelled sync but the split between added and moved are determined by the
      disk, the table and what can be hashed, whatever the schedule is. */
  lemma CountersAre(cfg: Config, steps: seq<Step>, s: State)
    requires Completes(cfg, steps, s)
    ensures s.result.filesScanned == |cfg.Disk()|
    ensures s.result.filesModified == |ChangedFiles(cfg)|
    ensures s.result.filesAdded + s.result.filesMoved == |NewFiles(cfg)|
    ensures s.result.filesRemoved == |cfg.stored.Keys - cfg.Disk().Keys|
    ensures |s.result.errors| == WalkFailures(cfg.walk, |cfg.walk|) + |UnreadableFiles(cfg)| + |s.log.upsertFailed|
  {
    CompletedJudgesAll(cfg, steps, s);
    Conservation(cfg, steps, s);
    KindsAre(cfg, steps, s);
    assert PathsOf(s.log.verdict, AddedKind) !! PathsOf(s.log.verdict, MovedKind);
  }
}
