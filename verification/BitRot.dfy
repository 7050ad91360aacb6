/** The guarantee that the parts give together: the tool never replaces the digest of a file
    whose size and modification second stay as recorded, so silent corruption stays visible. */
module BitRot {
  import opened Domain
  import opened SyncModel
  import opened SyncInvariant
  import opened SyncTheorems
  import opened ScrubSelection
  import opened Scrub
  import S = SyncSchedules
  import D = DriveModel

  /** What happened in the sync and in the scrub of one run, as far as their outcomes depend on it. */
  datatype SyncTrace = SyncTrace(cfg: Config, calls: Calls)
  datatype ScrubTrace = ScrubTrace(
    disk: map<Path, OnDisk>,
    selected: seq<Path>,
    res: ScrubResult,
    stamps: map<Path, int>,
    unstamped: set<Path>)
  datatype RunTrace = RunTrace(sync: Option<SyncTrace>, between: Table, scrub: Option<ScrubTrace>)

  ghost predicate SyncPart(before: Table, after: Table, trace: Option<SyncTrace>)
  {
    match trace
    case None => after == before
    case Some(t) => t.cfg.Valid() && t.cfg.stored == before && SyncOutcome(t.cfg, after, t.calls)
  }

  ghost predicate ScrubPart(before: Table, after: Table, trace: Option<ScrubTrace>)
  {
    match trace
    case None => after == before
    case Some(t) =>
      && Distinct(t.selected)
      && (forall i :: 0 <= i < |t.selected| ==> t.selected[i] in before)
      && Outcome(before, t.disk, t.selected, t.res, after, t.stamps, t.unstamped)
  }

  /** A run is a sync, a scrub, both in this order, or neither. */
  ghost predicate RunEffect(before: Table, after: Table, trace: RunTrace)
  {
    SyncPart(before, trace.between, trace.sync) && ScrubPart(trace.between, after, trace.scrub)
  }

  /** The file's record: its stat as stored, and a non-empty digest. */
  ghost predicate Stands(files: Table, path: Path, size: int, second: int, hash: Hash)
  {
    && path in files && files[path].fileSize == size && files[path].mtime == second
    && files[path].hash == hash && hash != ""
  }

  /** If the run syncs, it sees the file with this size and modification second. */
  ghost predicate SeenUnchanged(trace: RunTrace, path: Path, size: int, second: int)
  {
    trace.sync.Some? ==>
      var disk := trace.sync.value.cfg.Disk();
      path in disk && disk[path].size == size && Unix(disk[path].mtime) == second
  }

  /** And it upserts the file, or no earlier new file may claim the record. */
  ghost predicate Spared(trace: RunTrace, path: Path)
  {
    trace.sync.Some? ==>
      path in trace.sync.value.calls.recorded || !Claimable(trace.sync.value.cfg, path)
  }

  /** What the guarantee asks of every committed run. */
  ghost predicate Benign(traces: seq<RunTrace>, path: Path, size: int, second: int)
  {
    forall k :: 0 <= k < |traces| ==> SeenUnchanged(traces[k], path, size, second) && Spared(traces[k], path)
  }

  /** The run's scrub selects the file and can read it. */
  ghost predicate Rechecks(trace: RunTrace, path: Path)
  {
    trace.scrub.Some? && path in trace.scrub.value.selected && Look(trace.scrub.value.disk, path).Readable?
  }

  /** The scrub reports the file as corrupted exactly if its content does not have the given digest. */
  ghost predicate TellsTheTruth(trace: RunTrace, path: Path, hash: Hash)
    requires Rechecks(trace, path)
  {
    path in trace.scrub.value.res.filesCorrupted <==> Look(trace.scrub.value.disk, path).hash != hash
  }

  lemma SyncKeepsDigest(before: Table, after: Table, trace: RunTrace, path: Path, size: int, second: int, hash: Hash)
    requires SyncPart(before, after, trace.sync) && Stands(before, path, size, second, hash)
    requires SeenUnchanged(trace, path, size, second) && Spared(trace, path)
    ensures Stands(after, path, size, second, hash)
  {
    if trace.sync.Some? {
      var t := trace.sync.value;
      assert PathOutcome(t.cfg, path, t.calls, after);
    }
  }

  /** In a run whose scrub selects the file and can read it, the file is reported as corrupted
      exactly if its content no longer has the recorded digest. */
  lemma ReportedIffRotten(before: Table, after: Table, trace: RunTrace,
                          path: Path, size: int, second: int, hash: Hash)
    requires RunEffect(before, after, trace) && Stands(before, path, size, second, hash)
    requires SeenUnchanged(trace, path, size, second) && Spared(trace, path)
    requires Rechecks(trace, path)
    ensures TellsTheTruth(trace, path, hash)
  {
    SyncKeepsDigest(before, trace.between, trace, path, size, second, hash);
    var t := trace.scrub.value;
    ListedIff(trace.between, t.disk, t.selected, Corrupt, path);
  }

  // ---------- histories ----------

  /** A history's commits are the effects of runs with the given traces. */
  ghost predicate Explained(commits: seq<D.Commit>, traces: seq<RunTrace>)
  {
    |commits| == |traces| && forall k :: 0 <= k < |commits| ==> IsEffect(commits[k], traces[k])
  }

  ghost predicate IsEffect(commit: D.Commit, trace: RunTrace)
  {
    RunEffect(commit.start.files, commit.final.files, trace)
  }

  lemma OneMoreCommit(commits: seq<D.Commit>, traces: seq<RunTrace>, commit: D.Commit, trace: RunTrace)
    requires Explained(commits, traces) && IsEffect(commit, trace)
    ensures Explained(commits + [commit], traces + [trace])
  {
  }

  lemma {:induction false} ChainKeepsDigest(initial: Option<D.DbFile>, commits: seq<D.Commit>, traces: seq<RunTrace>,
                                            n: nat,
                                            path: Path, size: int, second: int, hash: Hash)
    requires D.Chained(initial, commits) && Explained(commits, traces) && n <= |commits|
    requires Stands(D.Contents(initial).files, path, size, second, hash) && Benign(traces, path, size, second)
    ensures Stands(D.Contents(D.Production(initial, commits[..n])).files, path, size, second, hash)
  {
    if n > 0 {
      var k := n - 1;
      ChainKeepsDigest(initial, commits, traces, k, path, size, second, hash);
      assert D.StartsFromLast(initial, commits, k) && IsEffect(commits[k], traces[k]);
      RunKeepsDigest(commits[k].start.files, commits[k].final.files, traces[k], path, size, second, hash);
      assert commits[..n][n - 1] == commits[k];
    }
  }

  lemma RunKeepsDigest(before: Table, after: Table, trace: RunTrace, path: Path, size: int, second: int, hash: Hash)
    requires RunEffect(before, after, trace) && Stands(before, path, size, second, hash)
    requires SeenUnchanged(trace, path, size, second) && Spared(trace, path)
    ensures Stands(after, path, size, second, hash)
  {
    SyncKeepsDigest(before, trace.between, trace, path, size, second, hash);
  }

  /** Bit rot is never laundered: over every history of runs that sync, scrub or do both, that
      fail, roll back, are cancelled and crash anywhere, production keeps the digest of a file as
      long as every committed sync sees it with the recorded size and modification second, and
      upserts it or finds no earlier new file that may claim its record. No harmful journal may
      survive a crash. */
  lemma NeverLaundered(sum: D.Image -> string, dir: D.Dir, events: seq<D.Event>, traces: seq<RunTrace>,
                       path: Path, size: int, second: int, hash: Hash)
    requires dir.journal.Some? ==> D.Agrees(D.Contents(dir.prod), dir.journal.value)
    requires D.IsHistory(sum, D.Init(dir), events) && D.Tidy(sum, D.Init(dir), events)
    requires Explained(D.After(sum, D.Init(dir), events).commits, traces)
    requires Stands(D.Contents(dir.prod).files, path, size, second, hash) && Benign(traces, path, size, second)
    ensures Stands(D.Contents(D.After(sum, D.Init(dir), events).dir.prod).files, path, size, second, hash)
  {
    var t := D.After(sum, D.Init(dir), events);
    D.CommitsChain(sum, dir.prod, D.Init(dir), events);
    ChainKeepsDigest(dir.prod, t.commits, traces, |t.commits|, path, size, second, hash);
    assert t.commits[..|t.commits|] == t.commits;
  }

  /** So every run of such a history that has opened the database, whether it commits later, fails
      or crashes, and whose scrub selects the file and can read it, reports the file as corrupted
      exactly if its content differs from the digest first recorded. */
  lemma RotIsReported(sum: D.Image -> string, dir: D.Dir, events: seq<D.Event>, traces: seq<RunTrace>,
                      after: Table, trace: RunTrace, path: Path, size: int, second: int, hash: Hash)
    requires dir.journal.Some? ==> D.Agrees(D.Contents(dir.prod), dir.journal.value)
    requires D.IsHistory(sum, D.Init(dir), events) && D.Tidy(sum, D.Init(dir), events)
    requires var t := D.After(sum, D.Init(dir), events);
             Explained(t.commits, traces) && D.IsOpen(t.phase) && RunEffect(t.phase.start.files, after, trace)
    requires Stands(D.Contents(dir.prod).files, path, size, second, hash)
    requires Benign(traces + [trace], path, size, second)
    requires Rechecks(trace, path)
    ensures TellsTheTruth(trace, path, hash)
  {
    var t := D.After(sum, D.Init(dir), events);
    assert (traces + [trace])[|traces|] == trace;
    assert forall k :: 0 <= k < |traces| ==> (traces + [trace])[k] == traces[k];
    NeverLaundered(sum, dir, events, traces, path, size, second, hash);
    D.CommitsChain(sum, dir.prod, D.Init(dir), events);
    ReportedIffRotten(t.phase.start.files, after, trace, path, size, second, hash);
  }

  /** The scan of a run that has opened production as the first `commitsBefore` commits have left it. */
  datatype Scan = Scan(commitsBefore: nat, start: Table, after: Table, trace: RunTrace)

  ghost predicate IsScan(initial: Option<D.DbFile>, commits: seq<D.Commit>, scan: Scan)
  {
    && scan.commitsBefore <= |commits| && RunEffect(scan.start, scan.after, scan.trace)
    && scan.start == D.Contents(D.Production(initial, commits[..scan.commitsBefore])).files
  }

  lemma ScanTellsTheTruth(initial: Option<D.DbFile>, commits: seq<D.Commit>, traces: seq<RunTrace>, scan: Scan,
                          path: Path, size: int, second: int, hash: Hash)
    requires D.Chained(initial, commits) && Explained(commits, traces) && IsScan(initial, commits, scan)
    requires Stands(D.Contents(initial).files, path, size, second, hash) && Benign(traces, path, size, second)
    requires SeenUnchanged(scan.trace, path, size, second) && Spared(scan.trace, path) && Rechecks(scan.trace, path)
    ensures TellsTheTruth(scan.trace, path, hash)
  {
    ChainKeepsDigest(initial, commits, traces, scan.commitsBefore, path, size, second, hash);
    ReportedIffRotten(scan.start, scan.after, scan.trace, path, size, second, hash);
  }

  /** The walk reports the file with this size and modification second, and no file with the same
      size and second before it. */
  predicate FirstOfItsKind(walk: seq<Visit>, path: Path, size: int, second: int)
  {
    exists j | 0 <= j < |walk| ::
      && walk[j].Found? && walk[j].path == path && walk[j].stat.size == size && Unix(walk[j].stat.mtime) == second
      && forall i | 0 <= i < j :: walk[i].Found? ==> walk[i].stat.size != size || Unix(walk[i].stat.mtime) != second
  }

  /** What a run needs to keep a file's digest can so be seen from the tree alone. */
  lemma FirstIsSpared(before: Table, trace: RunTrace, path: Path, size: int, second: int, hash: Hash)
    requires Stands(before, path, size, second, hash)
    requires trace.sync.Some? ==>
               var cfg := trace.sync.value.cfg;
               cfg.stored == before && cfg.Valid() && FirstOfItsKind(cfg.walk, path, size, second)
    ensures SeenUnchanged(trace, path, size, second) && Spared(trace, path)
  {
    if trace.sync.Some? {
      var cfg := trace.sync.value.cfg;
      var j :| 0 <= j < |cfg.walk| && cfg.walk[j].Found? && cfg.walk[j].path == path
               && cfg.walk[j].stat.size == size && Unix(cfg.walk[j].stat.mtime) == second
               && forall i | 0 <= i < j :: cfg.walk[i].Found? ==>
                   cfg.walk[i].stat.size != size || Unix(cfg.walk[i].stat.mtime) != second;
      S.FoundIn(cfg.walk, |cfg.walk|, j);
      forall taker ensures !cfg.MayClaim(taker, path) {
        NoEarlierTwin(cfg, j, taker);
      }
    }
  }

  lemma NoEarlierTwin(cfg: Config, j: nat, taker: Path)
    requires cfg.Valid() && j < |cfg.walk| && cfg.walk[j].Found? && cfg.SameStat(cfg.walk[j].path, cfg.walk[j].stat)
    requires forall i :: 0 <= i < j && cfg.walk[i].Found? ==> !cfg.SameStat(cfg.walk[j].path, cfg.walk[i].stat)
    ensures !cfg.MayClaim(taker, cfg.walk[j].path)
  {
    forall i | 0 <= i < |cfg.walk| && cfg.walk[i].Found? && cfg.walk[i].path == taker
      ensures cfg.walk[j].path in Tree(cfg.walk, i + 1) || !cfg.SameStat(cfg.walk[j].path, cfg.walk[i].stat)
      ensures taker in cfg.Disk() && cfg.Disk()[taker] == cfg.walk[i].stat
    {
      S.FoundIn(cfg.walk, |cfg.walk|, i);
      if j <= i {
        S.FoundIn(cfg.walk, i + 1, j);
      }
    }
  }

  // ---------- laundering ----------

  /** The two walks report the same files in the same order. */
  predicate SamePaths(a: seq<Visit>, b: seq<Visit>)
  {
    && |a| == |b|
    && forall i | 0 <= i < |a| ::
         (a[i].Found? <==> b[i].Found?) && if a[i].Found? then a[i].path == b[i].path else a[i] == b[i]
  }

  function Resized(visit: Visit, path: Path, size: int): Visit
  {
    if visit.Found? && visit.path != path then Found(visit.path, visit.stat.(size := size)) else visit
  }

  /** The same tree, with every file but one grown to this size. */
  function Grown(walk: seq<Visit>, path: Path, size: int): (grown: seq<Visit>)
    ensures |grown| == |walk|
    ensures forall i :: 0 <= i < |walk| ==> grown[i] == Resized(walk[i], path, size)
  {
    seq(|walk|, i requires 0 <= i < |walk| => Resized(walk[i], path, size))
  }

  lemma {:induction false} GrownAt(walk: seq<Visit>, path: Path, size: int, n: nat, other: Path)
    requires n <= |walk|
    ensures other in Tree(Grown(walk, path, size), n) <==> other in Tree(walk, n)
    ensures other in Tree(walk, n) ==>
              Tree(Grown(walk, path, size), n)[other]
              == if other == path then Tree(walk, n)[other] else Tree(walk, n)[other].(size := size)
  {
    if n > 0 {
      GrownAt(walk, path, size, n - 1, other);
    }
  }

  /** What the syncs after the loss find: every other file has another size, and all can be hashed. */
  function AfterLoss(cfg: Config, path: Path, rows: Table, rotten: Hash): Config
    requires path in cfg.Disk()
  {
    Config(Grown(cfg.walk, path, cfg.Disk()[path].size + 1), rows,
           map other | other in cfg.Disk() :: if other == path then rotten else "digest", cfg.workers)
  }

  lemma AfterLossDisk(cfg: Config, path: Path, rows: Table, rotten: Hash)
    requires cfg.Valid() && path in cfg.Disk()
    ensures var cfg2 := AfterLoss(cfg, path, rows, rotten);
            && cfg2.Valid() && SamePaths(cfg.walk, cfg2.walk) && cfg2.Disk().Keys == cfg.Disk().Keys
            && (forall other :: other in cfg.Disk() ==> Hashable(cfg2, other))
            && cfg2.Disk()[path] == cfg.Disk()[path]
            && (forall other :: other in cfg.Disk() && other != path ==>
                  cfg2.Disk()[other].size == cfg.Disk()[path].size + 1)
  {
    var cfg2 := AfterLoss(cfg, path, rows, rotten);
    forall other
      ensures other in cfg2.Disk() <==> other in cfg.Disk()
      ensures other in cfg.Disk() ==>
                cfg2.Disk()[other]
                == if other == path then cfg.Disk()[path] else cfg.Disk()[other].(size := cfg.Disk()[path].size + 1)
    {
      GrownAt(cfg.walk, path, cfg.Disk()[path].size + 1, |cfg.walk|, other);
    }
  }

  /** No record but the lost one's could be mistaken for the lost file. */
  ghost predicate NoTwin(rows: Table, path: Path, size: int)
  {
    path !in rows && forall other :: other in rows ==> rows[other].fileSize != size
  }

  /** A sync that finds all other files grown, and whose upsert of the lost file fails. */
  lemma SyncWithoutTwin(cfg: Config, path: Path, rows: Table, rotten: Hash) returns (s: State)
    requires cfg.Valid() && path in cfg.Disk() && path !in rows
    ensures SyncOutcome(AfterLoss(cfg, path, rows, rotten), s.rows, CallsOf(s.log))
    ensures NoTwin(s.rows, path, cfg.Disk()[path].size)
  {
    var cfg2 := AfterLoss(cfg, path, rows, rotten);
    AfterLossDisk(cfg, path, rows, rotten);
    S.Start(cfg2);
    s := S.FailAtTurn(cfg2, Init(cfg2), 0, path);
    S.ReachableInv(cfg2, s);
    s := S.CarryOn(cfg2, s);
    var steps := S.Completed(cfg2, s);
    SyncIsRight(cfg2, steps, s);
    forall other ensures other in s.rows ==> other != path && s.rows[other].fileSize != cfg.Disk()[path].size {
      assert PathOutcome(cfg2, other, CallsOf(s.log), s.rows);
    }
  }

  /** A file whose record is lost, and that no record looks like, is recorded anew, with whatever
      content it has by then. */
  lemma LostIsRecordedAnew(cfg: Config, path: Path, rows: Table, rotten: Hash) returns (s: State)
    requires cfg.Valid() && path in cfg.Disk() && NoTwin(rows, path, cfg.Disk()[path].size) && rotten != ""
    ensures SyncOutcome(AfterLoss(cfg, path, rows, rotten), s.rows, CallsOf(s.log))
    ensures Stands(s.rows, path, cfg.Disk()[path].size, Unix(cfg.Disk()[path].mtime), rotten)
  {
    var cfg2 := AfterLoss(cfg, path, rows, rotten);
    AfterLossDisk(cfg, path, rows, rotten);
    S.Start(cfg2);
    S.ReachableInv(cfg2, Init(cfg2));
    s := S.CarryOn(cfg2, Init(cfg2));
    var steps := S.Completed(cfg2, s);
    SyncIsRight(cfg2, steps, s);
    assert PathOutcome(cfg2, path, CallsOf(s.log), s.rows);
  }

  /** `s` is where a history without harmful journals has led. */
  ghost predicate LeadsTo(sum: D.Image -> string, dir: D.Dir, events: seq<D.Event>, s: D.State)
  {
    && D.IsHistory(sum, D.Init(dir), events) && D.Tidy(sum, D.Init(dir), events)
    && s == D.After(sum, D.Init(dir), events)
  }

  lemma Next(sum: D.Image -> string, dir: D.Dir, events: seq<D.Event>, s: D.State, e: D.Event)
    returns (more: seq<D.Event>, t: D.State)
    requires LeadsTo(sum, dir, events, s) && D.Enabled(sum, s, e) && !e.Crash? && (e.RemoveStale? ==> e.walGone)
    ensures LeadsTo(sum, dir, more, t) && t == D.Apply(sum, s, e)
  {
    D.OneMoreEvent(sum, D.Init(dir), events, e);
    D.OneMoreTidy(sum, D.Init(dir), events, e);
    more, t := events + [e], D.Apply(sum, s, e);
  }

  lemma OpenUp(sum: D.Image -> string, dir: D.Dir, events: seq<D.Event>, s: D.State)
    returns (more: seq<D.Event>, t: D.State)
    requires LeadsTo(sum, dir, events, s)
    requires s.phase.Idle? && s.dir.canary.Some? && s.dir.wal.None? && s.dir.journal.None?
    requires s.dir.prod.Some? && s.dir.prod.value.Whole?
    ensures LeadsTo(sum, dir, more, t) && t.dir == s.dir.(shadow := s.dir.prod) && t.commits == s.commits
    ensures t.phase == D.Open(s.dir.canary.value, s.dir.prod.value.image, s.dir.prod.value.image)
  {
    more, t := Next(sum, dir, events, s, D.ReadCanary(true));
    more, t := Next(sum, dir, more, t, D.RemoveStale(true, true));
    more, t := Next(sum, dir, more, t, D.CreateShadow(true));
    more, t := Next(sum, dir, more, t, D.FinishCopy(true));
    more, t := Next(sum, dir, more, t, D.Connect(true, true));
  }

  /** A whole run without mishap that makes this of the database. */
  lemma CommittedRun(sum: D.Image -> string, dir: D.Dir, events: seq<D.Event>, s: D.State, image: D.Image)
    returns (more: seq<D.Event>, t: D.State)
    requires LeadsTo(sum, dir, events, s)
    requires s.phase.Idle? && s.dir.canary.Some? && s.dir.wal.None? && s.dir.journal.None?
    requires s.dir.prod.Some? && s.dir.prod.value.Whole?
    ensures LeadsTo(sum, dir, more, t) && t.phase.Idle?
    ensures t.dir == s.dir.(prod := Some(D.Whole(image)), shadow := None)
    ensures t.commits == s.commits + [D.Commit(s.dir.prod.value.image, image)]
  {
    var touched := s.dir.prod.value.image.files.Keys + image.files.Keys;
    more, t := OpenUp(sum, dir, events, s);
    more, t := Next(sum, dir, more, t, D.Write(image, touched, true));
    more, t := Next(sum, dir, more, t, D.End(true));
    more, t := Next(sum, dir, more, t, D.PostCheck(true));
    more, t := Next(sum, dir, more, t, D.Close(true));
    more, t := Next(sum, dir, more, t, D.Rename(true));
    more, t := Next(sum, dir, more, t, D.TruncateCanary(false));
  }

  ghost function SyncOnly(cfg: Config, s: State): RunTrace
  {
    RunTrace(Some(SyncTrace(cfg, CallsOf(s.log))), s.rows, None)
  }

  function StartDir(files: Table): D.Dir
  {
    D.Dir(Some(D.Whole(D.Image(files, []))), None, None, None, Some(""))
  }

  /** A sync that loses the record of a file. */
  lemma LosingSync(cfg: Config, path: Path) returns (s: State)
    requires cfg.Valid() && path in cfg.Disk() && cfg.SameStat(path, cfg.Disk()[path])
    requires cfg.stored[path].hash != "" && Claimable(cfg, path)
    ensures SyncOutcome(cfg, s.rows, CallsOf(s.log)) && path !in s.rows
  {
    var taker :| cfg.MayClaim(taker, path);
    var steps;
    steps, s := S.ClaimingRun(cfg, taker, path, true);
    LostExactly(cfg, steps, s, path);
    SyncIsRight(cfg, steps, s);
  }

  /** The sync of a run sees the same files in the same order as this one, and the file unchanged. */
  ghost predicate SameTree(trace: RunTrace, cfg: Config, path: Path, stat: Stat)
  {
    && trace.sync.Some? && SamePaths(cfg.walk, trace.sync.value.cfg.walk)
    && SeenUnchanged(trace, path, stat.size, Unix(stat.mtime))
  }

  /** Three runs in a row, each of which makes its table of the database. */
  lemma ThreeCommits(sum: D.Image -> string, before: Table, first: Table, second: Table, third: Table)
    returns (events: seq<D.Event>, t: D.State)
    ensures LeadsTo(sum, StartDir(before), events, t) && t.dir.prod == Some(D.Whole(D.Image(third, [])))
    ensures t.commits == [D.Commit(D.Image(before, []), D.Image(first, [])),
                          D.Commit(D.Image(first, []), D.Image(second, [])),
                          D.Commit(D.Image(second, []), D.Image(third, []))]
  {
    var dir := StartDir(before);
    events, t := CommittedRun(sum, dir, [], D.Init(dir), D.Image(first, []));
    events, t := CommittedRun(sum, dir, events, t, D.Image(second, []));
    events, t := CommittedRun(sum, dir, events, t, D.Image(third, []));
  }

  lemma LaterRun(cfg: Config, path: Path, rows: Table, rotten: Hash, s: State)
    requires cfg.Valid() && path in cfg.Disk()
    requires SyncOutcome(AfterLoss(cfg, path, rows, rotten), s.rows, CallsOf(s.log))
    ensures RunEffect(rows, s.rows, SyncOnly(AfterLoss(cfg, path, rows, rotten), s))
    ensures SameTree(SyncOnly(AfterLoss(cfg, path, rows, rotten), s), cfg, path, cfg.Disk()[path])
  {
    AfterLossDisk(cfg, path, rows, rotten);
  }

  /** The condition on claims is needed. Whatever the table and the tree are: if an earlier new file
      may claim the record of a file that is unchanged, then three committed runs, which walk the
      same files in the same order and all see the file unchanged, can leave production with any
      other digest for it. The first loses the record, the second finds all other files grown, and
      the third has nothing to mistake the file for. */
  lemma LaunderedIfClaimable(sum: D.Image -> string, cfg: Config, path: Path, rotten: Hash)
    returns (events: seq<D.Event>, t: D.State, traces: seq<RunTrace>)
    requires cfg.Valid() && path in cfg.Disk() && cfg.SameStat(path, cfg.Disk()[path]) && cfg.stored[path].hash != ""
    requires Claimable(cfg, path) && rotten != ""
    ensures LeadsTo(sum, StartDir(cfg.stored), events, t) && Explained(t.commits, traces)
    ensures |traces| == 3 && traces[0].sync.Some? && traces[0].sync.value.cfg == cfg
    ensures forall k :: 0 <= k < 3 ==> SameTree(traces[k], cfg, path, cfg.Disk()[path])
    ensures Stands(D.Contents(t.dir.prod).files, path, cfg.Disk()[path].size, Unix(cfg.Disk()[path].mtime), rotten)
  {
    var s1 := LosingSync(cfg, path);
    var s2 := SyncWithoutTwin(cfg, path, s1.rows, rotten);
    var s3 := LostIsRecordedAnew(cfg, path, s2.rows, rotten);
    LaterRun(cfg, path, s1.rows, rotten, s2);
    LaterRun(cfg, path, s2.rows, rotten, s3);
    events, t := ThreeCommits(sum, cfg.stored, s1.rows, s2.rows, s3.rows);
    traces := [SyncOnly(cfg, s1), SyncOnly(AfterLoss(cfg, path, s1.rows, rotten), s2),
               SyncOnly(AfterLoss(cfg, path, s2.rows, rotten), s3)];
    assert RunEffect(cfg.stored, s1.rows, traces[0]) && SameTree(traces[0], cfg, path, cfg.Disk()[path]);
  }
}
