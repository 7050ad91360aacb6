/** The sync pipeline as a state machine. A walker, a pool of workers and a collector run
    concurrently over two bounded channels; one step of the machine is one action of one of
    them that the others can observe. `Enabled` says when an action can happen and `Apply`
    what it does; a run is any sequence of enabled steps, so a statement about all runs is a
    statement about all interleavings, all map iteration orders, all clock readings and all
    repository failures. */
module SyncModel {
  import opened Domain

  const WORK_BUFFER_SIZE: nat := 512

  /** Size in bytes and modification time in nanoseconds. */
  datatype Stat = Stat(size: int, mtime: int)

  /** One call of the walk callback as the file system makes it. */
  datatype DirEntry = DirEntry(path: Path, base: string, kind: EntryKind)

  datatype EntryKind = WalkError | Directory | Symlink | StatError | Regular(stat: Stat)

  /** What one call of the walk callback amounts to. */
  datatype Visit = Failed(path: Path) | Skipped | Found(path: Path, stat: Stat)

  /** The database and canary files, which a sync never records. */
  predicate IsOwnFile(base: string)
  {
    base in {"bitrot.db", "bitrot.db.shadow", "bitrot.db-wal", "bitrot.db-shm",
             "bitrot.db.shadow-wal", "bitrot.db.shadow-shm", ".bitrot-canary"}
  }

  function VisitOf(e: DirEntry): Visit
  {
    if e.kind.WalkError? then Failed(e.path)
    else if e.kind.Directory? || e.kind.Symlink? || IsOwnFile(e.base) then Skipped
    else if e.kind.StatError? then Failed(e.path)
    else Found(e.path, e.kind.stat)
  }

  function VisitsOf(entries: seq<DirEntry>): (walk: seq<Visit>)
    ensures |walk| == |entries|
    ensures forall i :: 0 <= i < |walk| ==> walk[i] == VisitOf(entries[i])
  {
    seq(|entries|, i requires 0 <= i < |entries| => VisitOf(entries[i]))
  }

  /** The files among the first `n` visits of a walk. */
  function Tree(walk: seq<Visit>, n: nat): (tree: map<Path, Stat>)
    requires n <= |walk|
  {
    if n == 0 then map[]
    else if walk[n - 1].Found? then Tree(walk, n - 1)[walk[n - 1].path := walk[n - 1].stat]
    else Tree(walk, n - 1)
  }

  /** A directory walk reports no path twice. */
  predicate DistinctFiles(walk: seq<Visit>)
  {
    forall i, j :: 0 <= i < j < |walk| && walk[i].Found? && walk[j].Found? ==> walk[i].path != walk[j].path
  }

  /** Everything a run depends on besides its schedule: what the walk reports, the table at
      the start, the digest of every file that can be hashed, and the pool size. Each path is
      hashed at most once in a run, so one digest per path covers files that change meanwhile.
      No theorem depends on the order of the walk, but `filepath.WalkDir` makes it lexical, so
      whether a file is ahead of another can be read from their names. */
  datatype Config = Config(walk: seq<Visit>, stored: Table, content: map<Path, Hash>, workers: nat) {
    predicate Valid()
    {
      DistinctFiles(walk) && workers >= 1
    }

    function Disk(): map<Path, Stat>
    {
      Tree(walk, |walk|)
    }

    /** The stored size and modification second agree with the disk. */
    predicate SameStat(path: Path, stat: Stat)
    {
      path in stored && stored[path].fileSize == stat.size && stored[path].mtime == Unix(stat.mtime)
    }

    /** `source` is a record that a new file `path` could have been moved from. */
    predicate Matches(path: Path, stat: Stat, source: Path)
    {
      source != path && SameStat(source, stat)
    }

    /** The walk reports `path`, and has not reported `source` up to then. */
    ghost predicate Ahead(path: Path, source: Path)
    {
      exists i :: 0 <= i < |walk| && walk[i].Found? && walk[i].path == path && source !in Tree(walk, i + 1)
    }

    /** `path` is a new file that can be hashed, looks like the record of `source`, and is walked before it. */
    ghost predicate MayClaim(path: Path, source: Path)
    {
      && path in Disk() && path !in stored && path in content
      && Matches(path, Disk()[path], source) && Ahead(path, source)
    }

    function ItemFor(path: Path, stat: Stat): WorkItem
    {
      WorkItem(path, stat.size, stat.mtime, if SameStat(path, stat) then stored[path].hash else "")
    }

    /** What a worker makes of an item; hashing that is interrupted by a cancellation fails. */
    function ResultOf(item: WorkItem, interrupted: bool): WorkResult
    {
      if item.knownHash != "" then
        WorkResult(item.path, item.knownHash, item.size, item.mtime, false)
      else if !interrupted && item.path in content then
        WorkResult(item.path, content[item.path], item.size, item.mtime, false)
      else
        WorkResult(item.path, "", item.size, item.mtime, true)
    }
  }

  datatype WorkItem = WorkItem(path: Path, size: int, mtime: int, knownHash: Hash)

  datatype WorkResult = WorkResult(path: Path, hash: Hash, size: int, mtime: int, err: bool)

  datatype SyncError = VisitFailed(path: Path) | HashFailed(path: Path) | UpsertFailed(path: Path)

  datatype SyncResult = SyncResult(
    filesScanned: nat,
    filesAdded: nat,
    filesModified: nat,
    filesMoved: nat,
    filesRemoved: nat,
    errors: seq<SyncError>)

  /** What the collector decided about a path. */
  datatype Verdict = Unreadable | Unchanged | Modified | MovedFrom(source: Path) | Added

  /** `remaining` are the records the deletion sweep has still to look at. */
  datatype Phase = Collecting | Sweeping(remaining: set<Path>) | Finished | Aborted

  /** The walker goroutine, and the map of seen files that it grows and the collector reads.
      `pending` is the item it is about to send; `done` is what it left for `<-walkErr`. */
  datatype Walker = Walker(cursor: nat, pending: Option<WorkItem>, done: Option<bool>, seen: map<Path, Stat>)

  datatype Channels = Channels(work: seq<WorkItem>, results: seq<WorkResult>, resultsClosed: bool)

  /** The pool's workers are interchangeable: how many are idle, what the busy ones hold, how many have returned. */
  datatype Pool = Pool(idle: nat, busy: seq<WorkItem>, exited: nat)

  /** The collector; `hand` is the result it has received and is about to act on. */
  datatype Collector = Collector(hand: Option<WorkResult>, phase: Phase)

  /** What has happened so far: verdicts, items lost to a cancellation, failed upserts and failed
      deletions of the sweep, and the records that moves have claimed and deleted. */
  datatype Log = Log(
    verdict: map<Path, Verdict>,
    dropped: set<Path>,
    upsertFailed: set<Path>,
    undeleted: set<Path>,
    claimed: set<Path>)

  datatype State = State(
    walker: Walker,
    chans: Channels,
    pool: Pool,
    collector: Collector,
    cancelled: bool,
    rows: Table,
    result: SyncResult,
    log: Log)

  function Init(cfg: Config): State
  {
    State(Walker(0, None, None, map[]), Channels([], [], false), Pool(cfg.workers, [], 0),
          Collector(None, Collecting), false, cfg.stored, SyncResult(0, 0, 0, 0, 0, []), Log(map[], {}, {}, {}, {}))
  }

  datatype WalkerStep = Visiting | Send | AbortWalk | FinishWalk

  datatype WorkerStep = Take | Put(i: nat, interrupted: bool) | Drop(i: nat) | Exit | CloseResults

  datatype CollectorStep =
    | Receive
    | Record(movedFrom: Option<Path>, addedAt: int, now: int, deleted: bool, upserted: bool)
    | AbortCollect
    | EndLoop
    | Sweep(path: Path, deleted: bool)
    | Finish

  datatype Step = Walk(w: WalkerStep) | Work(k: WorkerStep) | Collect(c: CollectorStep) | Cancel

  /** What the search for a moved-from record may return: any unseen match, or none if there is none. */
  predicate MoveSearch(cfg: Config, seen: map<Path, Stat>, path: Path, stat: Stat, found: Option<Path>)
  {
    match found
    case Some(source) => cfg.Matches(path, stat, source) && source !in seen
    case None => forall source | source in cfg.stored :: cfg.Matches(path, stat, source) ==> source in seen
  }

  predicate Running(s: State)
  {
    s.collector.phase.Collecting? || s.collector.phase.Sweeping?
  }

  predicate WalkerEnabled(cfg: Config, s: State, w: WalkerStep)
  {
    s.walker.done.None? &&
    match w
    case Visiting => s.walker.pending.None? && s.walker.cursor < |cfg.walk|
    case Send => s.walker.pending.Some? && |s.chans.work| < WORK_BUFFER_SIZE
    case AbortWalk => s.walker.pending.Some? && s.cancelled
    case FinishWalk => s.walker.pending.None? && s.walker.cursor == |cfg.walk|
  }

  predicate WorkerEnabled(cfg: Config, s: State, k: WorkerStep)
  {
    match k
    case Take => s.pool.idle > 0 && s.chans.work != []
    case Put(i, interrupted) =>
      i < |s.pool.busy| && |s.chans.results| < WORK_BUFFER_SIZE && (interrupted ==> s.cancelled)
    case Drop(i) => i < |s.pool.busy| && s.cancelled
    case Exit => s.pool.idle > 0 && s.chans.work == [] && s.walker.done.Some?
    case CloseResults => s.pool.exited == cfg.workers && !s.chans.resultsClosed
  }

  predicate CollectorEnabled(cfg: Config, s: State, c: CollectorStep)
  {
    match c
    case Receive => s.collector.phase.Collecting? && s.collector.hand.None? && s.chans.results != []
    case Record(movedFrom, _, _, _, _) =>
      && s.collector.phase.Collecting? && s.collector.hand.Some?
      && RecordEnabled(cfg, s.walker.seen, s.collector.hand.value, movedFrom)
    case AbortCollect => s.collector.phase.Collecting? && s.collector.hand.Some? && s.cancelled
    case EndLoop =>
      && s.collector.phase.Collecting? && s.collector.hand.None?
      && s.chans.results == [] && s.chans.resultsClosed && s.walker.done.Some?
    case Sweep(path, _) => s.collector.phase.Sweeping? && path in s.collector.phase.remaining
    case Finish => s.collector.phase == Sweeping({})
  }

  predicate RecordEnabled(cfg: Config, seen: map<Path, Stat>, r: WorkResult, movedFrom: Option<Path>)
  {
    if r.err || r.path in cfg.stored then movedFrom == None
    else MoveSearch(cfg, seen, r.path, Stat(r.size, r.mtime), movedFrom)
  }

  predicate Enabled(cfg: Config, s: State, step: Step)
  {
    Running(s) &&
    match step
    case Walk(w) => WalkerEnabled(cfg, s, w)
    case Work(k) => WorkerEnabled(cfg, s, k)
    case Collect(c) => CollectorEnabled(cfg, s, c)
    case Cancel => !s.cancelled
  }

  /** The walk callback marks a file as seen and counts it before it offers it to the workers. */
  function ApplyWalker(cfg: Config, s: State, w: WalkerStep): State
    requires WalkerEnabled(cfg, s, w)
  {
    match w
    case Visiting =>
      var next := s.walker.(cursor := s.walker.cursor + 1);
      (match cfg.walk[s.walker.cursor]
       case Failed(path) =>
         s.(walker := next, result := s.result.(errors := s.result.errors + [VisitFailed(path)]))
       case Skipped => s.(walker := next)
       case Found(path, stat) =>
         s.(walker := next.(seen := s.walker.seen[path := stat], pending := Some(cfg.ItemFor(path, stat))),
            result := s.result.(filesScanned := s.result.filesScanned + 1)))
    case Send =>
      s.(walker := s.walker.(pending := None), chans := s.chans.(work := s.chans.work + [s.walker.pending.value]))
    case AbortWalk =>
      s.(walker := s.walker.(pending := None, done := Some(false)),
         log := s.log.(dropped := s.log.dropped + {s.walker.pending.value.path}))
    case FinishWalk => s.(walker := s.walker.(done := Some(true)))
  }

  function Without<T>(xs: seq<T>, i: nat): seq<T>
    requires i < |xs|
  {
    xs[..i] + xs[i + 1..]
  }

  function ApplyWorker(cfg: Config, s: State, k: WorkerStep): State
    requires WorkerEnabled(cfg, s, k)
  {
    match k
    case Take =>
      s.(chans := s.chans.(work := s.chans.work[1..]),
         pool := Pool(s.pool.idle - 1, s.pool.busy + [s.chans.work[0]], s.pool.exited))
    case Put(i, interrupted) =>
      s.(chans := s.chans.(results := s.chans.results + [cfg.ResultOf(s.pool.busy[i], interrupted)]),
         pool := Pool(s.pool.idle + 1, Without(s.pool.busy, i), s.pool.exited))
    case Drop(i) =>
      s.(pool := Pool(s.pool.idle, Without(s.pool.busy, i), s.pool.exited + 1),
         log := s.log.(dropped := s.log.dropped + {s.pool.busy[i].path}))
    case Exit => s.(pool := Pool(s.pool.idle - 1, s.pool.busy, s.pool.exited + 1))
    case CloseResults => s.(chans := s.chans.(resultsClosed := true))
  }

  function ApplyCollector(cfg: Config, s: State, c: CollectorStep): State
    requires CollectorEnabled(cfg, s, c)
  {
    match c
    case Receive =>
      s.(chans := s.chans.(results := s.chans.results[1..]),
         collector := s.collector.(hand := Some(s.chans.results[0])))
    case Record(movedFrom, addedAt, now, deleted, upserted) =>
      RecordResult(cfg, s, movedFrom, addedAt, now, deleted, upserted)
    case AbortCollect => s.(collector := s.collector.(phase := Aborted))
    case EndLoop =>
      s.(collector := s.collector.(phase := if s.walker.done.value then Sweeping(cfg.stored.Keys) else Aborted))
    case Sweep(path, deleted) => SweepPath(s, path, deleted)
    case Finish => s.(collector := s.collector.(phase := Finished))
  }

  function Apply(cfg: Config, s: State, step: Step): State
    requires Enabled(cfg, s, step)
  {
    match step
    case Walk(w) => ApplyWalker(cfg, s, w)
    case Work(k) => ApplyWorker(cfg, s, k)
    case Collect(c) => ApplyCollector(cfg, s, c)
    case Cancel => s.(cancelled := true)
  }

  function Classify(cfg: Config, r: WorkResult, movedFrom: Option<Path>): Verdict
  {
    if r.err then Unreadable
    else if r.path in cfg.stored then (if cfg.SameStat(r.path, Stat(r.size, r.mtime)) then Unchanged else Modified)
    else if movedFrom.Some? then MovedFrom(movedFrom.value)
    else Added
  }

  function RowFor(cfg: Config, r: WorkResult, v: Verdict, addedAt: int, now: int): Row
    requires !v.Unreadable?
    requires v.Unchanged? || v.Modified? ==> r.path in cfg.stored
    requires v.MovedFrom? ==> v.source in cfg.stored
  {
    match v
    case Added =>
      Encode(FileRecord(r.path, r.hash, addedAt, 0, None, 0, r.size, r.mtime), now)
    case MovedFrom(source) =>
      var prev := Decode(source, cfg.stored[source]);
      Encode(FileRecord(r.path, prev.hash, prev.addedAt, 0, prev.lastScrubbed, prev.scrubCount, r.size, r.mtime), now)
    case _ =>
      var prev := Decode(r.path, cfg.stored[r.path]);
      Encode(FileRecord(r.path, r.hash, prev.addedAt, 0, prev.lastScrubbed, prev.scrubCount, r.size, r.mtime), now)
  }

  function Tally(res: SyncResult, path: Path, v: Verdict, upserted: bool): SyncResult
  {
    var counted :=
      match v
      case Unreadable => res.(errors := res.errors + [HashFailed(path)])
      case Unchanged => res
      case Modified => res.(filesModified := res.filesModified + 1)
      case MovedFrom(_) => res.(filesMoved := res.filesMoved + 1)
      case Added => res.(filesAdded := res.filesAdded + 1);
    if v.Unreadable? || upserted then counted
    else counted.(errors := counted.errors + [UpsertFailed(path)])
  }

  /** The table after the moved-from record was deleted and the new one upserted, if those calls succeed. */
  function RecordRows(cfg: Config, rows: Table, r: WorkResult, v: Verdict, addedAt: int, now: int, deleted: bool,
                      upserted: bool): Table
    requires v.Unchanged? || v.Modified? ==> r.path in cfg.stored
    requires v.MovedFrom? ==> v.source in cfg.stored
  {
    var rest := if v.MovedFrom? && deleted then rows - {v.source} else rows;
    if !v.Unreadable? && upserted then rest[r.path := RowFor(cfg, r, v, addedAt, now)] else rest
  }

  function NoteVerdict(log: Log, path: Path, v: Verdict, deleted: bool, upserted: bool): Log
  {
    log.(verdict := log.verdict[path := v],
         upsertFailed := if !v.Unreadable? && !upserted then log.upsertFailed + {path} else log.upsertFailed,
         claimed := if v.MovedFrom? && deleted then log.claimed + {v.source} else log.claimed)
  }

  /** The body of the collector's loop: classify, delete the moved-from record, upsert. */
  function RecordResult(cfg: Config, s: State, movedFrom: Option<Path>, addedAt: int, now: int, deleted: bool,
                        upserted: bool): State
    requires CollectorEnabled(cfg, s, Record(movedFrom, addedAt, now, deleted, upserted))
  {
    var r := s.collector.hand.value;
    var v := Classify(cfg, r, movedFrom);
    s.(collector := s.collector.(hand := None),
       rows := RecordRows(cfg, s.rows, r, v, addedAt, now, deleted, upserted),
       result := Tally(s.result, r.path, v, upserted),
       log := NoteVerdict(s.log, r.path, v, deleted, upserted))
  }

  /** One iteration of the deletion sweep. */
  function SweepPath(s: State, path: Path, deleted: bool): State
    requires s.collector.phase.Sweeping?
  {
    var t := s.(collector := s.collector.(phase := Sweeping(s.collector.phase.remaining - {path})));
    if path in s.walker.seen then t
    else t.(rows := if deleted then s.rows - {path} else s.rows,
            result := s.result.(filesRemoved := s.result.filesRemoved + 1),
            log := s.log.(undeleted := if deleted then s.log.undeleted else s.log.undeleted + {path}))
  }

  predicate IsRun(cfg: Config, s: State, steps: seq<Step>)
    decreases |steps|
  {
    steps == [] || (Enabled(cfg, s, steps[0]) && IsRun(cfg, Apply(cfg, s, steps[0]), steps[1..]))
  }

  function After(cfg: Config, s: State, steps: seq<Step>): State
    requires IsRun(cfg, s, steps)
    decreases |steps|
  {
    if steps == [] then s else After(cfg, Apply(cfg, s, steps[0]), steps[1..])
  }
}
