/** What a sync that returns leaves behind, whatever the schedule was. */
module SyncTheorems {
  import opened Domain
  import opened SyncModel
  import opened SyncInvariant

  /** `s` is the final state of some run that returned without an error. */
  ghost predicate ReturnsNil(cfg: Config, steps: seq<Step>, s: State)
  {
    cfg.Valid() && IsRun(cfg, Init(cfg), steps) && s == After(cfg, Init(cfg), steps) && s.collector.phase.Finished?
  }

  /** And that was never cancelled. */
  ghost predicate Completes(cfg: Config, steps: seq<Step>, s: State)
  {
    ReturnsNil(cfg, steps, s) && !s.cancelled
  }

  /** The files on disk that end up with a digest: unchanged ones, and those that can be hashed. */
  ghost predicate Hashable(cfg: Config, path: Path)
  {
    path in cfg.Disk() && (cfg.ItemFor(path, cfg.Disk()[path]).knownHash != "" || path in cfg.content)
  }

  lemma {:induction false} CountZero(items: seq<WorkItem>, path: Path)
    requires forall i :: 0 <= i < |items| ==> items[i].path != path
    ensures ItemCount(items, path) == 0
  {
    if items != [] {
      CountZero(items[1..], path);
    }
  }

  lemma {:induction false} RunToAborted(cfg: Config, s: State, steps: seq<Step>)
    requires IsRun(cfg, s, steps) && Running(s)
    ensures After(cfg, s, steps).collector.phase.Aborted? ==>
          Collect(AbortCollect) in steps || After(cfg, s, steps).walker.done == Some(false)
    ensures Collect(AbortCollect) in steps ==> After(cfg, s, steps).collector.phase.Aborted?
    decreases |steps|
  {
    if steps != [] {
      var t := Apply(cfg, s, steps[0]);
      assert steps == [steps[0]] + steps[1..];
      if Running(t) {
        RunToAborted(cfg, t, steps[1..]);
      } else {
        assert steps[1..] == [];
      }
    }
  }

  /** Exactly those runs return nil whose walk reached its end and whose collector did not notice
      a cancellation while it held a result. */
  lemma ReturnsNilExactly(cfg: Config, steps: seq<Step>, s: State)
    requires cfg.Valid() && IsRun(cfg, Init(cfg), steps) && s == After(cfg, Init(cfg), steps) && !Running(s)
    ensures s.collector.phase.Finished? <==> s.walker.done == Some(true) && Collect(AbortCollect) !in steps
  {
    InitInv(cfg);
    RunInvariant(cfg, Init(cfg), steps);
    RunToAborted(cfg, Init(cfg), steps);
  }

  ghost predicate LeftInChannel(s: State, path: Path)
  {
    exists i :: 0 <= i < |s.chans.work| && s.chans.work[i].path == path
  }

  /** A run that returns nil has walked the whole tree, and each file was judged, or dropped by a
      worker, or left in the channel when the last worker had gone; the latter two need a cancellation. */
  lemma ReturnedNil(cfg: Config, steps: seq<Step>, s: State)
    requires ReturnsNil(cfg, steps, s)
    ensures Inv(cfg, s) && s.walker.seen == cfg.Disk()
    ensures forall path :: path in cfg.Disk() ==>
              path in s.log.verdict || path in s.log.dropped || LeftInChannel(s, path)
    ensures !s.cancelled ==> s.log.dropped == {} && s.chans.work == []
    ensures s.log.verdict.Keys <= cfg.Disk().Keys
  {
    InitInv(cfg);
    RunInvariant(cfg, Init(cfg), steps);
    forall path | path in cfg.Disk()
      ensures path in s.log.verdict || path in s.log.dropped || LeftInChannel(s, path)
    {
      assert FlowAt(s, path);
      if forall i :: 0 <= i < |s.chans.work| ==> s.chans.work[i].path != path {
        CountZero(s.chans.work, path);
      }
    }
    forall path | path in s.log.verdict ensures path in cfg.Disk() {
      assert FlowAt(s, path);
    }
  }

  lemma CompletedJudgesAll(cfg: Config, steps: seq<Step>, s: State)
    requires Completes(cfg, steps, s)
    ensures Inv(cfg, s) && s.walker.seen == cfg.Disk() && s.log.verdict.Keys == cfg.Disk().Keys
  {
    ReturnedNil(cfg, steps, s);
    assert forall path :: path in cfg.Disk() ==> path in s.log.verdict;
  }

  // ---------- the key set ----------

  /** Despite moves claimed while the walk was still going on, no file that is on disk, hashes
      and is upserted lacks a record, and no record is left of a file that is not on disk
      unless deleting it failed. */
  lemma KeySet(cfg: Config, steps: seq<Step>, s: State)
    requires Completes(cfg, steps, s)
    ensures forall path :: Hashable(cfg, path) && path !in s.log.upsertFailed ==> path in s.rows
    ensures forall path :: path in s.rows ==> path in cfg.Disk() || path in s.log.undeleted
  {
    CompletedJudgesAll(cfg, steps, s);
    forall path | Hashable(cfg, path) && path !in s.log.upsertFailed ensures path in s.rows {
      assert Justified(cfg, s.walker.seen, s.cancelled, path, s.log.verdict[path]);
      assert RowInv(cfg, s.walker.seen, s.collector.phase, s.log, s.rows, path);
    }
    forall path | path in s.rows ensures path in cfg.Disk() || path in s.log.undeleted {
      assert RowInv(cfg, s.walker.seen, s.collector.phase, s.log, s.rows, path);
    }
  }

  // ---------- the rows ----------

  /** How the repository calls of a sync went: the paths it has upserted, the records that it has
      deleted as moved-from, and those whose deletion in the sweep failed. */
  datatype Calls = Calls(recorded: set<Path>, claimed: set<Path>, undeleted: set<Path>)

  ghost function CallsOf(log: Log): Calls
  {
    Calls((set path | path in log.verdict && Upserted(log, path)), log.claimed, log.undeleted)
  }

  /** What a sync that returns nil makes of a path that it has upserted. */
  ghost predicate IsRecorded(cfg: Config, path: Path, stat: Stat, row: Row)
  {
    row.fileSize == stat.size && row.mtime == Unix(stat.mtime) &&
    if path in cfg.stored then
      Settled(cfg, path, stat, row.hash) && KeepsHistory(cfg.stored[path], row)
    else
      || (&& path in cfg.content && row.hash == cfg.content[path] && row.scrubCount == 0 && row.lastScrubbed == None
          && forall source | source in cfg.stored :: cfg.Matches(path, stat, source) ==> source in cfg.Disk())
      || (exists source | source in cfg.stored ::
            cfg.MayClaim(path, source) && row.hash == cfg.stored[source].hash && KeepsHistory(cfg.stored[source], row))
  }

  /** What it makes of any path: an upserted file has a right row; a file on disk that was not
      upserted keeps its row unless a new file has claimed it; and a record of a file that is
      not on disk remains only if nothing managed to delete it. */
  ghost predicate PathOutcome(cfg: Config, path: Path, calls: Calls, rows: Table)
  {
    if path in calls.recorded then
      path in cfg.Disk() && path in rows && IsRecorded(cfg, path, cfg.Disk()[path], rows[path])
    else
      && (path in rows <==>
            path in cfg.stored && path !in calls.claimed && (path in cfg.Disk() || path in calls.undeleted))
      && (path in rows ==> rows[path] == cfg.stored[path])
  }

  /** Some file may claim the record. */
  ghost predicate Claimable(cfg: Config, source: Path)
  {
    exists path :: cfg.MayClaim(path, source)
  }

  /** The relation between the tables before and after a sync that returns nil. */
  ghost predicate SyncOutcome(cfg: Config, rows: Table, calls: Calls)
  {
    && (forall path :: PathOutcome(cfg, path, calls, rows))
    && (forall path :: path in calls.recorded ==> Hashable(cfg, path))
    && (forall source :: source in calls.claimed ==> Claimable(cfg, source))
  }

  lemma MovesAreClaims(cfg: Config, s: State, path: Path, source: Path)
    requires Inv(cfg, s) && s.walker.seen == cfg.Disk()
    requires path in s.log.verdict && s.log.verdict[path] == MovedFrom(source)
    ensures cfg.MayClaim(path, source)
  {
    assert Justified(cfg, s.walker.seen, s.cancelled, path, s.log.verdict[path]);
  }

  lemma PathIsRight(cfg: Config, s: State, path: Path)
    requires Inv(cfg, s) && s.walker.seen == cfg.Disk() && s.collector.phase.Finished?
    ensures PathOutcome(cfg, path, CallsOf(s.log), s.rows)
    ensures path in CallsOf(s.log).recorded ==> Hashable(cfg, path)
  {
    assert RowInv(cfg, s.walker.seen, s.collector.phase, s.log, s.rows, path);
    if Upserted(s.log, path) {
      assert Justified(cfg, s.walker.seen, s.cancelled, path, s.log.verdict[path]);
      if s.log.verdict[path].MovedFrom? {
        MovesAreClaims(cfg, s, path, s.log.verdict[path].source);
      }
    }
  }

  /** Every sync that returns nil, in every interleaving and even if it was cancelled, relates its
      tables by `SyncOutcome`; and if it was not, it has upserted exactly the files that could be
      hashed and whose upsert did not fail. */
  lemma SyncIsRight(cfg: Config, steps: seq<Step>, s: State)
    requires ReturnsNil(cfg, steps, s)
    ensures SyncOutcome(cfg, s.rows, CallsOf(s.log))
    ensures !s.cancelled ==>
              forall path :: path in CallsOf(s.log).recorded <==> Hashable(cfg, path) && path !in s.log.upsertFailed
  {
    ReturnedNil(cfg, steps, s);
    forall path
      ensures PathOutcome(cfg, path, CallsOf(s.log), s.rows)
      ensures path in CallsOf(s.log).recorded ==> Hashable(cfg, path)
    {
      PathIsRight(cfg, s, path);
    }
    forall source | source in s.log.claimed ensures Claimable(cfg, source) {
      var path :| path in s.log.verdict && s.log.verdict[path] == MovedFrom(source);
      MovesAreClaims(cfg, s, path, source);
    }
    if !s.cancelled {
      forall path ensures path in CallsOf(s.log).recorded <==> Hashable(cfg, path) && path !in s.log.upsertFailed {
        RecordedExactly(cfg, steps, s, path);
      }
    }
  }

  lemma RecordedExactly(cfg: Config, steps: seq<Step>, s: State, path: Path)
    requires Completes(cfg, steps, s)
    ensures path in CallsOf(s.log).recorded <==> Hashable(cfg, path) && path !in s.log.upsertFailed
  {
    CompletedJudgesAll(cfg, steps, s);
    if path in cfg.Disk() {
      assert Justified(cfg, s.walker.seen, s.cancelled, path, s.log.verdict[path]);
    }
  }

  /** The stored digest of a file that had a record is that of its content, exactly unless size
      and modification second are unchanged while a different, non-empty digest is stored. */
  lemma HashIsCurrent(cfg: Config, steps: seq<Step>, s: State, path: Path)
    requires Completes(cfg, steps, s)
    requires path in cfg.stored && path in cfg.Disk() && path in cfg.content && path !in s.log.upsertFailed
    ensures path in s.rows
    ensures s.rows[path].hash == cfg.content[path]
       <==> !(&& cfg.SameStat(path, cfg.Disk()[path])
              && cfg.stored[path].hash != "" && cfg.stored[path].hash != cfg.content[path])
  {
    SyncIsRight(cfg, steps, s);
    assert PathOutcome(cfg, path, CallsOf(s.log), s.rows);
  }

  /** A file whose walk entry or stat failed counts as gone: its record is swept and reported as
      removed, unless deleting it fails, although nothing says that the file is not there. */
  lemma FailedVisitIsSwept(cfg: Config, steps: seq<Step>, s: State, i: nat)
    requires ReturnsNil(cfg, steps, s)
    requires i < |cfg.walk| && cfg.walk[i].Failed? && cfg.walk[i].path in cfg.stored && cfg.walk[i].path !in cfg.Disk()
    ensures cfg.walk[i].path in s.rows ==> cfg.walk[i].path in s.log.undeleted
    ensures s.result.errors != [] && s.result.filesRemoved > 0
  {
    SyncIsRight(cfg, steps, s);
    ReturnedNil(cfg, steps, s);
    assert PathOutcome(cfg, cfg.walk[i].path, CallsOf(s.log), s.rows);
    FailuresCount(cfg.walk, |cfg.walk|, i);
    assert cfg.walk[i].path in cfg.stored.Keys - cfg.Disk().Keys;
  }

  lemma {:induction false} FailuresCount(walk: seq<Visit>, n: nat, i: nat)
    requires i < n <= |walk| && walk[i].Failed?
    ensures WalkFailures(walk, n) > 0
  {
    if i < n - 1 {
      FailuresCount(walk, n - 1, i);
    }
  }

  // ---------- conservation ----------

  lemma KindsPartition(verdict: map<Path, Verdict>)
    ensures |verdict| == |PathsOf(verdict, UnreadableKind)| + |PathsOf(verdict, UnchangedKind)|
                       + |PathsOf(verdict, ModifiedKind)|
                       + |PathsOf(verdict, MovedKind)| + |PathsOf(verdict, AddedKind)|
    decreases verdict.Keys
  {
    if verdict != map[] {
      var path :| path in verdict;
      var rest := verdict - {path};
      assert rest[path := verdict[path]] == verdict;
      KindsPartition(rest);
      JudgeOne(rest, path, verdict[path], UnreadableKind);
      JudgeOne(rest, path, verdict[path], UnchangedKind);
      JudgeOne(rest, path, verdict[path], ModifiedKind);
      JudgeOne(rest, path, verdict[path], MovedKind);
      JudgeOne(rest, path, verdict[path], AddedKind);
      assert |verdict| == |rest| + 1;
    }
  }

  /** Every file scanned is counted once, every record not seen is counted removed, and every
      failure is reported once, in every interleaving and whatever the repository does. */
  lemma Conservation(cfg: Config, steps: seq<Step>, s: State)
    requires Completes(cfg, steps, s)
    ensures s.result.filesScanned == |cfg.Disk()|
    ensures s.result.filesScanned == s.result.filesAdded + s.result.filesMoved + s.result.filesModified
                                   + |PathsOf(s.log.verdict, UnchangedKind)| + |PathsOf(s.log.verdict, UnreadableKind)|
    ensures s.result.filesRemoved == |cfg.stored.Keys - cfg.Disk().Keys|
    ensures |s.result.errors| == WalkFailures(cfg.walk, |cfg.walk|)
                               + |PathsOf(s.log.verdict, UnreadableKind)| + |s.log.upsertFailed|
  {
    CompletedJudgesAll(cfg, steps, s);
    KindsPartition(s.log.verdict);
    assert |s.log.verdict| == |s.log.verdict.Keys| == |cfg.Disk().Keys|;
  }

  lemma NoErrors(cfg: Config, s: State)
    requires Inv(cfg, s) && s.result.errors == []
    ensures s.log.upsertFailed == {} && forall path :: path in s.log.verdict ==> !s.log.verdict[path].Unreadable?
  {
    assert PathsOf(s.log.verdict, UnreadableKind) == {};
    forall path | path in s.log.verdict ensures !s.log.verdict[path].Unreadable? {
      assert path !in PathsOf(s.log.verdict, UnreadableKind);
    }
  }

  lemma NewPaths(cfg: Config, s: State)
    requires VerdictInv(cfg, s.walker.seen, s.cancelled, s.log.verdict)
    requires forall path :: path in s.log.verdict ==> !s.log.verdict[path].Unreadable?
    ensures s.log.verdict.Keys - cfg.stored.Keys
         == PathsOf(s.log.verdict, MovedKind) + PathsOf(s.log.verdict, AddedKind)
  {
  }

  lemma OnDiskIsKept(cfg: Config, steps: seq<Step>, s: State, path: Path)
    requires Completes(cfg, steps, s) && s.result.errors == [] && path in cfg.Disk()
    ensures path in s.rows
  {
    CompletedJudgesAll(cfg, steps, s);
    NoErrors(cfg, s);
    assert RowInv(cfg, s.walker.seen, s.collector.phase, s.log, s.rows, path);
  }

  /** After a sync without errors and failed deletions the table holds exactly the files on disk. */
  lemma TableIsDisk(cfg: Config, steps: seq<Step>, s: State)
    requires Completes(cfg, steps, s) && s.result.errors == [] && s.log.undeleted == {}
    ensures s.rows.Keys == cfg.Disk().Keys
  {
    KeySet(cfg, steps, s);
    forall path | path in cfg.Disk() ensures path in s.rows {
      OnDiskIsKept(cfg, steps, s, path);
    }
  }

  lemma NewCount(cfg: Config, s: State)
    requires VerdictInv(cfg, s.walker.seen, s.cancelled, s.log.verdict) && CountInv(s.result, s.log.verdict)
    requires forall path :: path in s.log.verdict ==> !s.log.verdict[path].Unreadable?
    ensures |s.log.verdict.Keys - cfg.stored.Keys| == s.result.filesMoved + s.result.filesAdded
  {
    NewPaths(cfg, s);
    assert PathsOf(s.log.verdict, MovedKind) !! PathsOf(s.log.verdict, AddedKind);
  }

  /** Then its size is the old size plus added plus moved minus removed: a false move, or a
      source that is claimed twice, does not upset the balance. */
  lemma SizeBalance(cfg: Config, steps: seq<Step>, s: State)
    requires Completes(cfg, steps, s) && s.result.errors == [] && s.log.undeleted == {}
    ensures |s.rows| + s.result.filesRemoved == |cfg.stored| + s.result.filesAdded + s.result.filesMoved
  {
    CompletedJudgesAll(cfg, steps, s);
    NoErrors(cfg, s);
    NewCount(cfg, s);
    TableIsDisk(cfg, steps, s);
    Conservation(cfg, steps, s);
    assert |s.rows| == |s.rows.Keys| && |cfg.stored| == |cfg.stored.Keys|;
  }

  // ---------- moves ----------

  ghost predicate HasGoneMatch(cfg: Config, path: Path, stat: Stat)
  {
    exists source :: source in cfg.stored && source !in cfg.Disk() && cfg.Matches(path, stat, source)
  }

  ghost predicate HasMatch(cfg: Config, path: Path, stat: Stat)
  {
    exists source :: source in cfg.stored && cfg.Matches(path, stat, source)
  }

  /** Which new files count as moved depends on the schedule only where a matching record's
      file is still on disk: if some match is gone, moved in every run; if there is no match,
      added in every run; and a moved file carries on the record of a match. */
  lemma MoveBounds(cfg: Config, steps: seq<Step>, s: State, path: Path)
    requires Completes(cfg, steps, s) && path in cfg.Disk() && path !in cfg.stored && path in cfg.content
    ensures path in s.log.verdict && (s.log.verdict[path].MovedFrom? || s.log.verdict[path].Added?)
    ensures HasGoneMatch(cfg, path, cfg.Disk()[path]) ==> s.log.verdict[path].MovedFrom?
    ensures !HasMatch(cfg, path, cfg.Disk()[path]) ==> s.log.verdict[path].Added?
    ensures s.log.verdict[path].MovedFrom? && path !in s.log.upsertFailed ==>
              var source := s.log.verdict[path].source;
              && cfg.MayClaim(path, source) && path in s.rows
              && s.rows[path].hash == cfg.stored[source].hash && KeepsHistory(cfg.stored[source], s.rows[path])
  {
    CompletedJudgesAll(cfg, steps, s);
    assert Justified(cfg, s.walker.seen, s.cancelled, path, s.log.verdict[path]);
    assert RowInv(cfg, s.walker.seen, s.collector.phase, s.log, s.rows, path);
    if s.log.verdict[path].MovedFrom? {
      MovesAreClaims(cfg, s, path, s.log.verdict[path].source);
    }
  }

  /** A record whose file is on disk is missing at the end exactly if it was claimed and the file
      was then not recorded again. */
  lemma LostExactly(cfg: Config, steps: seq<Step>, s: State, path: Path)
    requires Completes(cfg, steps, s) && path in cfg.stored && path in cfg.Disk()
    ensures path !in s.rows <==> path in s.log.claimed && (!Hashable(cfg, path) || path in s.log.upsertFailed)
    ensures path in s.log.claimed ==> Claimable(cfg, path)
  {
    SyncIsRight(cfg, steps, s);
    assert PathOutcome(cfg, path, CallsOf(s.log), s.rows);
  }

  // ---------- refinement of full rehashing ----------

  /** The digests that a sequential sync leaves which hashes every file it visits, in walk order;
      a file that cannot be hashed keeps the digest on record, if there is one. */
  function Rehash(cfg: Config, n: nat): (hashes: map<Path, Hash>)
    requires n <= |cfg.walk|
  {
    if n == 0 then map[]
    else
      var rest, visit := Rehash(cfg, n - 1), cfg.walk[n - 1];
      if !visit.Found? then rest
      else if visit.path in cfg.content then rest[visit.path := cfg.content[visit.path]]
      else if visit.path in cfg.stored then rest[visit.path := cfg.stored[visit.path].hash]
      else rest
  }

  lemma {:induction false} RehashAt(cfg: Config, n: nat, path: Path)
    requires n <= |cfg.walk|
    ensures path in Rehash(cfg, n) <==> path in Tree(cfg.walk, n) && (path in cfg.content || path in cfg.stored)
    ensures path in Rehash(cfg, n) ==>
              Rehash(cfg, n)[path] == if path in cfg.content then cfg.content[path] else cfg.stored[path].hash
  {
    if n > 0 {
      RehashAt(cfg, n - 1, path);
    }
  }

  /** Size and modification second determine the content, for every record whose digest is reused:
      a file's own, or for a new file that of a record it matches. */
  ghost predicate StatDeterminesContent(cfg: Config)
  {
    forall path, source :: path in cfg.Disk() && path in cfg.content && cfg.SameStat(source, cfg.Disk()[path])
      && (if source == path then cfg.stored[source].hash != "" else path !in cfg.stored)
      ==> cfg.stored[source].hash == cfg.content[path]
  }

  lemma PathRefinesRehash(cfg: Config, steps: seq<Step>, s: State, path: Path)
    requires Completes(cfg, steps, s) && s.log.upsertFailed == {} && s.log.undeleted == {} && StatDeterminesContent(cfg)
    ensures path in s.rows ==>
              path in Rehash(cfg, |cfg.walk|) && s.rows[path].hash == Rehash(cfg, |cfg.walk|)[path]
    ensures path in Rehash(cfg, |cfg.walk|) && path !in s.rows ==> Losable(cfg, path)
  {
    SyncIsRight(cfg, steps, s);
    RehashAt(cfg, |cfg.walk|, path);
    assert PathOutcome(cfg, path, CallsOf(s.log), s.rows);
    if path in Rehash(cfg, |cfg.walk|) && path !in s.rows {
      LostExactly(cfg, steps, s, path);
    }
  }

  /** A recorded file on disk that cannot be hashed although its size or time has changed, and whose
      record an earlier new file may claim. */
  ghost predicate Losable(cfg: Config, path: Path)
  {
    path in cfg.stored && path in cfg.Disk() && !Hashable(cfg, path) && Claimable(cfg, path)
  }

  /** Skipping unchanged files and reusing the digests of moved ones refines hashing everything: if
      size and second determine the content and no repository call fails, every interleaving
      stores the digests that the sequential rehash stores. It lacks at most the records of files
      that cannot be hashed and that an earlier new file may claim. */
  lemma RefinesRehash(cfg: Config, steps: seq<Step>, s: State)
    requires Completes(cfg, steps, s) && s.log.upsertFailed == {} && s.log.undeleted == {}
    requires StatDeterminesContent(cfg)
    ensures forall path :: path in s.rows ==>
              path in Rehash(cfg, |cfg.walk|) && s.rows[path].hash == Rehash(cfg, |cfg.walk|)[path]
    ensures forall path :: path in Rehash(cfg, |cfg.walk|) && path !in s.rows ==> Losable(cfg, path)
  {
    forall path
      ensures path in s.rows ==>
                path in Rehash(cfg, |cfg.walk|) && s.rows[path].hash == Rehash(cfg, |cfg.walk|)[path]
      ensures path in Rehash(cfg, |cfg.walk|) && path !in s.rows ==> Losable(cfg, path)
    {
      PathRefinesRehash(cfg, steps, s, path);
    }
  }

  ghost predicate SameDigests(rows: Table, hashes: map<Path, Hash>)
  {
    rows.Keys == hashes.Keys && forall path :: path in rows ==> rows[path].hash == hashes[path]
  }

  // ---------- idempotence ----------

  /** `after` is `before` with another last-seen time and, if it was the epoch second, another added-at time. */
  ghost predicate OnlySeenAgain(before: Row, after: Row)
  {
    after == before.(lastSeen := after.lastSeen,
                     addedAt := if before.addedAt == 0 then after.addedAt else before.addedAt)
  }

  /** After a sync without errors every file on disk has a record with its size and modification
      second, although modification times lose their nanoseconds on the way through the store. */
  lemma RecordsAreFresh(cfg: Config, steps: seq<Step>, s: State, path: Path)
    requires Completes(cfg, steps, s) && s.result.errors == [] && s.log.undeleted == {}
    ensures path in s.rows <==> path in cfg.Disk()
    ensures path in s.rows ==>
          s.rows[path].fileSize == cfg.Disk()[path].size && s.rows[path].mtime == Unix(cfg.Disk()[path].mtime)
  {
    TableIsDisk(cfg, steps, s);
    CompletedJudgesAll(cfg, steps, s);
    NoErrors(cfg, s);
    assert RowInv(cfg, s.walker.seen, s.collector.phase, s.log, s.rows, path);
  }

  /** A sync that finds every file unchanged leaves all rows but for their last-seen times. */
  lemma UnchangedTree(cfg: Config, steps: seq<Step>, s: State)
    requires Completes(cfg, steps, s)
    requires cfg.stored.Keys == cfg.Disk().Keys
    requires forall path :: path in cfg.Disk() ==> cfg.SameStat(path, cfg.Disk()[path]) && cfg.stored[path].hash != ""
    ensures forall path :: path in cfg.Disk() ==>
          s.log.verdict.Keys == cfg.Disk().Keys && s.log.verdict[path] == Unchanged
    ensures s.rows.Keys == cfg.stored.Keys
    ensures forall path :: path in s.rows ==> OnlySeenAgain(cfg.stored[path], s.rows[path])
  {
    CompletedJudgesAll(cfg, steps, s);
    forall path | path in cfg.Disk() ensures s.log.verdict[path] == Unchanged {
      assert Justified(cfg, s.walker.seen, s.cancelled, path, s.log.verdict[path]);
    }
    forall path
      ensures path in s.rows <==> path in cfg.stored
      ensures path in s.rows ==> OnlySeenAgain(cfg.stored[path], s.rows[path])
    {
      assert RowInv(cfg, s.walker.seen, s.collector.phase, s.log, s.rows, path);
    }
  }

  /** Syncing an unchanged tree again after a committed sync without errors hashes nothing, counts
      nothing, and touches nothing but last-seen times. */
  lemma Idempotent(cfg: Config, steps: seq<Step>, s: State, again: Config, steps': seq<Step>, s': State)
    requires Completes(cfg, steps, s) && s.result.errors == [] && s.log.undeleted == {}
    requires forall path :: path in s.rows ==> s.rows[path].hash != ""
    requires Completes(again, steps', s') && again.walk == cfg.walk && again.stored == s.rows
    ensures forall path :: path in again.Disk() ==> again.ItemFor(path, again.Disk()[path]).knownHash != ""
    ensures s'.result.filesAdded == s'.result.filesModified == s'.result.filesMoved == s'.result.filesRemoved == 0
    ensures s'.rows.Keys == s.rows.Keys
    ensures forall path :: path in s.rows ==> OnlySeenAgain(s.rows[path], s'.rows[path])
  {
    forall path ensures path in s.rows <==> path in cfg.Disk()
                ensures path in cfg.Disk() ==> again.SameStat(path, again.Disk()[path]) {
      RecordsAreFresh(cfg, steps, s, path);
    }
    assert again.stored.Keys == again.Disk().Keys;
    UnchangedTree(again, steps', s');
    NothingCounted(again, steps', s');
  }

  lemma NothingCounted(cfg: Config, steps: seq<Step>, s: State)
    requires Completes(cfg, steps, s) && cfg.stored.Keys == cfg.Disk().Keys
    requires forall path :: path in cfg.Disk() ==>
          s.log.verdict.Keys == cfg.Disk().Keys && s.log.verdict[path] == Unchanged
    ensures s.result.filesAdded == s.result.filesModified == s.result.filesMoved == s.result.filesRemoved == 0
  {
    CompletedJudgesAll(cfg, steps, s);
    Conservation(cfg, steps, s);
    assert cfg.stored.Keys - cfg.Disk().Keys == {};
    assert PathsOf(s.log.verdict, AddedKind) == {} && PathsOf(s.log.verdict, ModifiedKind) == {};
    assert PathsOf(s.log.verdict, MovedKind) == {};
  }
}
