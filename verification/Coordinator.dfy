/** One run on one drive: `processDrive` and the repository's life cycle, with any step failing
    and the process dying anywhere; what goes wrong is a parameter of the run. Whatever a method
    does to the drive's files is proved to be a step of the crash machine in `DriveModel`, and
    whatever a run commits to be the effect of its sync and its scrub, so the theorems about both
    hold for every sequence of runs. */
module Coordinator {
  import opened Domain
  import opened ScrubSelection
  import opened Storage
  import opened SyncModel
  import opened SyncTheorems
  import opened Scrub
  import opened BitRot
  import SyncEntries
  import Syncer
  import C = Canary
  import D = DriveModel

  /** What can go wrong in a run, besides a cancellation and failing writes to the tables. */
  datatype Fault =
    | CanaryUnreadable | ShadowStays | LogStays | ShadowNotCreated | CopyBreaks
    | ConnectionFails | BrokenShadowStays | ChecksumFails
    | RecordsUnreadable | SelectionFails
    | MountVanishes | CanaryNotFound | RecordNotInserted | CloseFails | RenameFails | ShadowNotRemoved
    | CanaryNotOpened | CanaryCutShort
    | Dies(when: Moment)

  datatype Moment =
    | Opening | Clearing | Copying | Connecting | Syncing | Scrubbing | Recording | Committing
    | RollingBack | Sealing | Writing

  predicate CopyWorks(faults: set<Fault>)
  {
    ShadowNotCreated !in faults && Dies(Copying) !in faults && CopyBreaks !in faults
  }

  predicate ConnectionWorks(faults: set<Fault>)
  {
    Dies(Connecting) !in faults && ConnectionFails !in faults
  }

  predicate OpeningWorks(faults: set<Fault>)
  {
    Dies(Opening) !in faults && Dies(Clearing) !in faults && CopyWorks(faults) && ConnectionWorks(faults)
  }

  predicate SealingWorks(faults: set<Fault>)
  {
    Dies(Sealing) !in faults && CanaryNotOpened !in faults && Dies(Writing) !in faults && CanaryCutShort !in faults
  }

  // ---------- which error a run ends with ----------

  /** The error that the first fault to strike causes in the opening of a run, ... */
  function OpenFault(dir: D.Dir, faults: set<Fault>): Option<RunError>
  {
    if dir.canary.None? || CanaryUnreadable in faults then Some(CanaryPreCheck)
    else if !OpeningWorks(faults) || dir.prod == Some(D.Torn) then Some(OpenFailed)
    else None
  }

  /** ... in its sync, ... */
  function SyncFault(faults: set<Fault>): Option<RunError>
  {
    if Dies(Syncing) in faults then Some(Died)
    else if RecordsUnreadable in faults then Some(SyncFailed)
    else None
  }

  /** ... in its scrub, ... */
  function ScrubFault(faults: set<Fault>): Option<RunError>
  {
    if Dies(Scrubbing) in faults then Some(Died)
    else if SelectionFails in faults then Some(ScrubFailed)
    else None
  }

  function ScanFault(opts: Options, faults: set<Fault>): Option<RunError>
  {
    if opts.runSync && SyncFault(faults).Some? then SyncFault(faults)
    else if opts.runScrub then ScrubFault(faults)
    else None
  }

  /** ... in its commit, ... */
  function CommitFault(faults: set<Fault>): Option<RunError>
  {
    if CloseFails in faults then Some(CommitFailed)
    else if Dies(Committing) in faults then Some(Died)
    else if RenameFails in faults then Some(CommitFailed)
    else None
  }

  /** ... from the check of the mount on, ... */
  function EndFault(canary: Option<string>, faults: set<Fault>): Option<RunError>
  {
    if canary.None? || MountVanishes in faults || CanaryNotFound in faults then Some(CanaryPostCheck)
    else if Dies(Recording) in faults then Some(Died)
    else CommitFault(faults)
  }

  /** ... after the opening, ... */
  function LaterFault(canary: Option<string>, opts: Options, faults: set<Fault>): Option<RunError>
  {
    if ScanFault(opts, faults).Some? then ScanFault(opts, faults) else EndFault(canary, faults)
  }

  /** ... and in all of it. */
  function FaultOf(dir: D.Dir, opts: Options, faults: set<Fault>): Option<RunError>
  {
    if OpenFault(dir, faults).Some? then OpenFault(dir, faults) else LaterFault(dir.canary, opts, faults)
  }

  /** The run ends with this error, unless a cancellation has stopped one of its scans. */
  predicate EndsWith(err: Option<RunError>, expected: Option<RunError>, mayCancel: bool)
  {
    err == expected || (mayCancel && (err == Some(SyncFailed) || err == Some(ScrubFailed)))
  }

  /** Nothing lies beside the shadow that would change production. */
  predicate Clean(dir: D.Dir)
  {
    && (dir.wal.Some? ==> D.Agrees(D.Contents(dir.prod), dir.wal.value))
    && (dir.journal.Some? ==> D.Agrees(D.Contents(dir.prod), dir.journal.value))
  }

  /** In particular if nothing lies there at all. */
  lemma NothingLeftIsClean(dir: D.Dir)
    requires dir.wal.None? && dir.journal.None?
    ensures Clean(dir)
  {
  }

  /** The files of the drive that a run touches. */
  class Drive {
    var prod: Option<D.DbFile>
    var shadow: Option<D.DbFile>
    var wal: Option<D.Pages>
    var journal: Option<D.Pages>
    var canary: Option<string>
    const checksum: D.Image -> string
    /** No crash leaves a harmful journal, and leftover logs can be removed. */
    const tidy: bool
    /** The machine's first state, the steps it has taken since, and where it stands. */
    ghost const first: D.State
    ghost var events: seq<D.Event>
    ghost var state: D.State
    /** What the sync and the scrub of each committed run did, and of each run that got so far. */
    ghost var traces: seq<RunTrace>
    ghost var scans: seq<Scan>

    ghost function Files(): D.Dir
      reads this
    {
      D.Dir(prod, shadow, wal, journal, canary)
    }

    /** The steps taken so far are a history of the machine, and it agrees with the files. */
    ghost predicate Tracked()
      reads this
    {
      && D.IsHistory(checksum, first, events) && D.After(checksum, first, events) == state
      && C.CanaryInv(checksum, first.dir.prod, first.dir.canary, state) && C.StoredInv(checksum, state)
      && (tidy ==> D.Tidy(checksum, first, events) && D.TidyInv(first.dir.prod, state))
    }

    /** Every commit is the effect of the run that made it, and every scan that of its run. */
    ghost predicate Accounted()
      reads this
    {
      && Explained(state.commits, traces)
      && (tidy ==> forall k :: 0 <= k < |scans| ==> IsScan(first.dir.prod, state.commits, scans[k]))
    }

    ghost predicate Valid()
      reads this
    {
      state.dir == Files() && Tracked() && Accounted()
    }

    twostate predicate Took(e: D.Event)
      reads this
    {
      && D.Enabled(checksum, old(state), e)
      && state == D.Apply(checksum, old(state), e)
    }

    constructor (dir: D.Dir, checksum: D.Image -> string, tidy: bool)
      requires tidy && dir.journal.Some? ==> D.Agrees(D.Contents(dir.prod), dir.journal.value)
      ensures Valid() && this.checksum == checksum && this.tidy == tidy
      ensures first == state == D.Init(dir) && events == [] && traces == [] && scans == []
    {
      prod, shadow, wal, journal, canary := dir.prod, dir.shadow, dir.wal, dir.journal, dir.canary;
      this.checksum, this.tidy := checksum, tidy;
      state, first := D.Init(dir), D.Init(dir);
      events, traces, scans := [], [], [];
    }

    /** Notes a step of the machine whose effect the files already show. */
    ghost method Advance(e: D.Event)
      requires Tracked() && D.Enabled(checksum, state, e) && (tidy ==> D.TidyEvent(state, e))
      requires D.Apply(checksum, state, e).dir == Files()
      modifies `state, `events
      ensures Tracked() && Took(e) && state.dir == Files()
    {
      D.OneMoreEvent(checksum, first, events, e);
      C.StepKeepsCanary(checksum, first.dir.prod, first.dir.canary, state, e);
      C.StepKeepsStored(checksum, first.dir.prod, first.dir.canary, state, e);
      if tidy {
        D.OneMoreTidy(checksum, first, events, e);
        D.StepKeepsTidy(checksum, first.dir.prod, state, e);
      }
      state := D.Apply(checksum, state, e);
      events := events + [e];
    }

    /** A step that commits nothing. */
    ghost method Step(e: D.Event)
      requires Tracked() && Accounted() && D.Enabled(checksum, state, e) && (tidy ==> D.TidyEvent(state, e))
      requires D.Apply(checksum, state, e).dir == Files() && e != D.Rename(true)
      modifies `state, `events
      ensures Valid() && Took(e) && state.commits == old(state.commits)
    {
      Advance(e);
    }

    /** The step that commits, and what it commits. */
    ghost method StepCommit(trace: RunTrace)
      requires Tracked() && Accounted() && D.Enabled(checksum, state, D.Rename(true))
      requires D.Apply(checksum, state, D.Rename(true)).dir == Files()
      requires RunEffect(state.phase.start.files, state.phase.current.files, trace)
      modifies `state, `events, `traces
      ensures Valid() && Took(D.Rename(true))
      ensures traces == old(traces) + [trace]
    {
      ghost var before := state.commits;
      OneMoreCommit(before, traces, D.Commit(state.phase.start, state.phase.current), trace);
      Advance(D.Rename(true));
      traces := traces + [trace];
      forall k | tidy && 0 <= k < |scans| ensures IsScan(first.dir.prod, state.commits, scans[k]) {
        assert state.commits[..scans[k].commitsBefore] == before[..scans[k].commitsBefore];
        assert IsScan(first.dir.prod, before, scans[k]);
      }
    }

    /** Notes that the run under way has finished its scan. */
    ghost method NoteScan(after: Table, trace: RunTrace)
      requires Valid() && state.phase.Open? && RunEffect(state.phase.start.files, after, trace)
      modifies `scans
      ensures Valid() && scans == old(scans) + [Scan(|state.commits|, state.phase.start.files, after, trace)]
    {
      var scan := Scan(|state.commits|, state.phase.start.files, after, trace);
      assert state.commits[..|state.commits|] == state.commits;
      assert tidy ==> IsScan(first.dir.prod, state.commits, scan);
      scans := scans + [scan];
    }

    /** The process dies. A shadow with a transaction or a replay under way may be left in any
        state, and the journal may or may not survive. */
    method Die()
      requires Valid() && !state.phase.Idle?
      modifies `shadow, `journal, `state, `events
      ensures Valid() && state.phase.Idle? && state.end.Crashed? && state.commits == old(state.commits)
      ensures journal.None? || journal == old(journal)
      ensures old(journal).None? && old(wal).None? ==> shadow == old(shadow)
    {
      var kept: bool := *;
      if tidy && journal.Some? && !D.Agrees(D.Contents(prod), journal.value) {
        kept := false;
      }
      if journal.Some? || wal.Some? {
        shadow := *;
      }
      ghost var left := shadow;
      if !kept {
        journal := None;
      }
      Step(D.Crash(left, kept));
    }

    /** Fails if the file is missing or cannot be read. */
    method ReadCanary(faults: set<Fault>) returns (ok: bool, stored: string)
      requires Valid() && state.phase.Idle?
      modifies `state, `events
      ensures Valid() && Took(D.ReadCanary(ok)) && (ok ==> canary == Some(stored))
      ensures ok <==> canary.Some? && CanaryUnreadable !in faults
    {
      ok := CanaryUnreadable !in faults && canary.Some?;
      stored := if ok then canary.value else "";
      Step(D.ReadCanary(ok));
    }

    /** The check that the canary is still there after the scans. */
    method StatCanary(faults: set<Fault>) returns (ok: bool)
      requires Valid() && state.phase.Open? && journal.None?
      modifies `state, `events
      ensures Valid() && Took(D.PostCheck(ok))
      ensures ok <==> canary.Some? && CanaryNotFound !in faults
    {
      ok := CanaryNotFound !in faults && canary.Some?;
      Step(D.PostCheck(ok));
    }

    /** The mount may disappear while the scans run, and the canary with it. */
    method MaybeUnmount(faults: set<Fault>)
      requires Valid()
      modifies `canary, `state, `events
      ensures Valid() && state.phase == old(state.phase) && state.commits == old(state.commits)
      ensures canary == if MountVanishes in faults then None else old(canary)
    {
      if MountVanishes in faults {
        canary := None;
        Step(D.CanaryVanishes);
      }
    }

    /** Checksums production and writes the result to the canary, which may fail, or stop half-way. If
        nothing goes wrong the canary is the checksum of production, and no write is owed. */
    method UpdateCanary(faults: set<Fault>)
      requires Valid() && state.phase.Committed? && prod.Some? && prod.value.Whole?
      modifies `shadow, `journal, `canary, `state, `events
      ensures Valid() && state.phase.Idle? && (state.end.Succeeded? || state.end.Crashed?)
      ensures state.commits == old(state.commits) && journal.None? && shadow == old(shadow)
      ensures canary == old(canary) || (canary.Some? && canary.value <= checksum(prod.value.image))
      ensures SealingWorks(faults) ==>
        state.end.Succeeded? && canary == Some(checksum(prod.value.image)) && !state.owed
      ensures CanaryNotOpened in faults || Dies(Sealing) in faults ==> canary == old(canary)
      ensures Dies(Sealing) in faults || (CanaryNotOpened !in faults && Dies(Writing) in faults) <==> state.end.Crashed?
    {
      var text := checksum(prod.value.image);
      if Dies(Sealing) in faults {
        Die();
        return;
      }
      if CanaryNotOpened in faults {
        Step(D.TruncateCanary(false));
        return;
      }
      canary := Some("");
      Step(D.TruncateCanary(true));
      if Dies(Writing) in faults {
        Die();
        return;
      }
      var written := |text|;
      if CanaryCutShort in faults {
        written :| 0 <= written <= |text|;
      }
      canary := Some(text[..written]);
      assert text[..|text|] == text;
      Step(D.FinishCanary(written));
    }
  }

  /** The open repository: the drive and the connection to its shadow database. */
  class Repository {
    const drive: Drive
    const db: Database

    /** Between two transactions the shadow holds what the connection shows. */
    ghost predicate Valid()
      reads this, drive, db
    {
      && drive.Valid() && D.IsOpen(drive.state.phase) && drive.journal.None?
      && drive.state.phase.current == Current()
    }

    ghost function Current(): D.Image
      reads db
    {
      D.Image(db.files, db.history)
    }

    constructor (drive: Drive, db: Database)
      ensures this.drive == drive && this.db == db
    {
      this.drive, this.db := drive, db;
    }

    /** A transaction brings the shadow to this image. */
    method Transact(image: D.Image, touched: set<Path>, withHistory: bool)
      requires drive.Valid() && D.IsOpen(drive.state.phase) && drive.journal.None?
      requires var current := drive.state.phase.current;
               D.DifferWithin(current, image, D.Saved(current, touched, withHistory))
      modifies drive`shadow, drive`journal, drive`state, drive`events
      ensures drive.Valid() && drive.journal.None? && drive.state.commits == old(drive.state.commits)
      ensures drive.state.phase == D.WithCurrent(old(drive.state.phase), image)
      ensures drive.shadow == Some(D.Whole(image))
    {
      ghost var saved := D.Saved(drive.state.phase.current, touched, withHistory);
      BeginTransaction(image, saved, touched, withHistory);
      drive.journal := None;
      drive.Step(D.End(true));
    }

    /** The journal is written before the shadow. */
    method BeginTransaction(image: D.Image, ghost saved: D.Pages, touched: set<Path>, withHistory: bool)
      requires drive.Valid() && D.IsOpen(drive.state.phase) && drive.journal.None?
      requires saved == D.Saved(drive.state.phase.current, touched, withHistory)
      requires D.DifferWithin(drive.state.phase.current, image, saved)
      modifies drive`shadow, drive`journal, drive`state, drive`events
      ensures drive.Valid() && drive.Took(D.Write(image, touched, withHistory))
      ensures drive.state.commits == old(drive.state.commits)
    {
      assert drive.shadow == Some(D.Whole(drive.state.phase.current));
      var before := drive.shadow.value.image;
      drive.journal := Some(D.Saved(before, touched, withHistory));
      drive.shadow := Some(D.Whole(image));
      drive.Step(D.Write(image, touched, withHistory));
    }

    /** What the connection has written reaches the shadow file. */
    method Flush()
      requires drive.Valid() && D.IsOpen(drive.state.phase) && drive.journal.None?
      modifies drive`shadow, drive`journal, drive`state, drive`events
      ensures Valid() && drive.state.commits == old(drive.state.commits)
      ensures drive.state.phase == D.WithCurrent(old(drive.state.phase), Current())
    {
      assert drive.shadow == Some(D.Whole(drive.state.phase.current));
      var before := drive.shadow.value.image;
      var image := D.Image(db.files, db.history);
      Transact(image, before.files.Keys + image.files.Keys, true);
    }

    /** The process dies during the scans, with any transactions done and perhaps another under way. */
    method Die(done: D.Image, dirty: D.Image, touched: set<Path>, withHistory: bool)
      requires drive.Valid() && D.IsOpen(drive.state.phase) && drive.journal.None?
      modifies drive`shadow, drive`journal, drive`state, drive`events
      ensures drive.Valid() && drive.state.phase.Idle? && drive.state.end.Crashed?
      ensures drive.state.commits == old(drive.state.commits)
    {
      var any: bool := *;
      if any {
        assert drive.shadow == Some(D.Whole(drive.state.phase.current));
        Transact(done, drive.shadow.value.image.files.Keys + done.files.Keys, true);
        if D.DifferWithin(done, dirty, D.Saved(done, touched, withHistory)) {
          ghost var saved := D.Saved(drive.state.phase.current, touched, withHistory);
          BeginTransaction(dirty, saved, touched, withHistory);
        }
      }
      drive.Die();
    }

    method MaybeDie(dies: bool)
      requires drive.Valid() && D.IsOpen(drive.state.phase) && drive.journal.None?
      modifies drive`shadow, drive`journal, drive`state, drive`events
      ensures drive.Valid() && drive.state.commits == old(drive.state.commits)
      ensures if dies then drive.state.phase.Idle? && drive.state.end.Crashed?
              else drive.state == old(drive.state) && drive.Files() == old(drive.Files())
    {
      if dies {
        var files: Table := *;
        var history: seq<RunRecord> := *;
        var files2: Table := *;
        var history2: seq<RunRecord> := *;
        var touched: set<Path> := *;
        var withHistory: bool := *;
        Die(D.Image(files, history), D.Image(files2, history2), touched, withHistory);
      }
    }

    method ComputeChecksum(faults: set<Fault>) returns (ok: bool, sum: string)
      requires Valid()
      ensures (ok <==> ChecksumFails !in faults) && sum == drive.checksum(Current())
    {
      ok := ChecksumFails !in faults;
      sum := drive.checksum(D.Image(db.files, db.history));
    }

    /** Compares the opened database with the checksum from the canary, if there is one and the
        database can be read. If no harmful journal has survived, a mismatch shows that a write of the
        canary is owed, or that no run of this history has written it. */
    method Verify(stored: string, faults: set<Fault>) returns (mismatch: bool)
      requires Valid() && drive.state.phase.Open? && drive.state.phase.start == Current()
      requires stored == drive.state.phase.stored
      ensures mismatch <==> stored != "" && ChecksumFails !in faults && drive.checksum(Current()) != stored
      ensures drive.tidy && mismatch ==> drive.state.owed || drive.state.commits == []
    {
      mismatch := false;
      if stored != "" {
        var computed, current := ComputeChecksum(faults);
        mismatch := computed && current != stored;
      }
    }

    /** Closes the connection and renames the shadow over production. */
    method Commit(faults: set<Fault>, ghost trace: RunTrace) returns (err: Option<RunError>)
      requires Valid() && drive.state.phase.PostChecked?
      requires RunEffect(drive.state.phase.start.files, db.files, trace)
      modifies drive`prod, drive`shadow, drive`journal, drive`state, drive`events, drive`traces
      ensures drive.Valid()
      ensures err.None? ==>
        && drive.state.phase.Committed? && drive.prod == Some(D.Whole(Current())) && drive.journal.None?
        && drive.shadow.None?
        && drive.state.commits == old(drive.state.commits) + [D.Commit(old(drive.state.phase.start), Current())]
        && drive.traces == old(drive.traces) + [trace]
      ensures err.Some? ==>
        && Stopped(drive, err.value)
        && drive.prod == old(drive.prod) && drive.traces == old(drive.traces)
        && drive.state.commits == old(drive.state.commits)
      ensures err == CommitFault(faults)
    {
      drive.Step(D.Close(CloseFails !in faults));
      if CloseFails in faults {
        return Some(CommitFailed);
      }
      if Dies(Committing) in faults {
        drive.Die();
        return Some(Died);
      }
      err := None;
      if RenameFails !in faults {
        drive.prod, drive.shadow := drive.shadow, None;
        drive.StepCommit(trace);
      } else {
        drive.Step(D.Rename(false));
        err := Some(CommitFailed);
      }
    }

    /** Removes the shadow, if that is possible. */
    method Rollback(faults: set<Fault>) returns (ok: bool)
      requires drive.Valid() && drive.state.phase.Failing?
      modifies drive`shadow, drive`state, drive`events
      ensures drive.Valid() && drive.Took(D.Rollback(ok)) && drive.state.commits == old(drive.state.commits)
      ensures (ok <==> ShadowNotRemoved !in faults) && (ok ==> drive.shadow.None?)
    {
      ok := ShadowNotRemoved !in faults;
      if ok {
        drive.shadow := None;
      }
      drive.Step(D.Rollback(ok));
    }
  }

  // ---------- opening ----------

  /** How a run that could not open its database has ended. */
  ghost predicate GaveUp(s: D.State)
  {
    s.phase.Idle? && (s.end.Failed? || s.end.Crashed?)
  }

  /** Clears away what an earlier run has left, but for a journal. */
  method RemoveStale(drive: Drive, faults: set<Fault>)
    requires drive.Valid() && drive.state.phase.Checked?
    modifies drive`shadow, drive`wal, drive`state, drive`events
    ensures drive.Valid() && drive.state.phase.Cleaned? && drive.state.commits == old(drive.state.commits)
    ensures drive.state.phase.stored == old(drive.state.phase.stored) && drive.state.owed == old(drive.state.owed)
    ensures drive.wal.None? || drive.wal == old(drive.wal)
    ensures LogStays !in faults ==> drive.wal.None?
    ensures ShadowStays !in faults ==> drive.shadow.None?
  {
    var shadowGone := ShadowStays !in faults;
    var walGone := LogStays !in faults;
    if drive.tidy && drive.wal.Some? && !D.Agrees(D.Contents(drive.prod), drive.wal.value) {
      walGone := true;
    }
    if shadowGone {
      drive.shadow := None;
    }
    if walGone {
      drive.wal := None;
    }
    drive.Step(D.RemoveStale(shadowGone, walGone));
  }

  /** Copies production; the copy may fail at its start or on the way, and the process may die. A
      missing production is copied as a database without rows and runs. */
  method CopyProduction(drive: Drive, faults: set<Fault>) returns (ok: bool)
    requires drive.Valid() && drive.state.phase.Cleaned?
    modifies drive`shadow, drive`journal, drive`state, drive`events
    ensures drive.Valid() && drive.state.commits == old(drive.state.commits)
    ensures drive.journal.None? || drive.journal == old(drive.journal)
    ensures ok ==>
      && drive.state.phase.Copied?
      && drive.shadow == if drive.prod.None? then Some(D.Whole(D.Image(map[], []))) else drive.prod
    ensures ok ==>
          drive.state.phase.stored == old(drive.state.phase.stored) && drive.state.owed == old(drive.state.owed)
    ensures ok ==> drive.journal == old(drive.journal)
    ensures ok <==> CopyWorks(faults)
    ensures !ok ==> GaveUp(drive.state)
  {
    ok := false;
    var created := ShadowNotCreated !in faults;
    if created {
      drive.shadow := Some(D.Torn);
    }
    drive.Step(D.CreateShadow(created));
    if !created {
      return;
    }
    if Dies(Copying) in faults {
      drive.Die();
      return;
    }
    ok := CopyBreaks !in faults;
    if ok {
      drive.shadow := Some(D.CopyOf(drive.prod));
    }
    drive.Step(D.FinishCopy(ok));
  }

  /** SQLite replays a journal or log that lies beside the database, and removes it. */
  method Replay(drive: Drive, image: D.Image) returns (seen: D.Image)
    requires drive.Valid() && drive.state.phase.Copied? && drive.shadow == Some(D.Whole(image))
    modifies drive`shadow, drive`wal, drive`journal, drive`state, drive`events
    ensures drive.Valid() && drive.state.commits == old(drive.state.commits)
    ensures drive.wal.None? && drive.journal.None? && drive.state.owed == old(drive.state.owed)
    ensures drive.state.phase == D.Open(old(drive.state.phase.stored), seen, seen)
    ensures D.Harmless(old(drive.Files()), image) ==> seen == image
  {
    seen := D.Replayed(D.Dir(drive.prod, drive.shadow, drive.wal, drive.journal, drive.canary), image);
    D.ReplayedIff(drive.Files(), image);
    drive.shadow, drive.wal, drive.journal := Some(D.Whole(seen)), None, None;
    drive.Step(D.Connect(true, false));
  }

  /** Opens the shadow, with whatever is replayed. */
  method ConnectShadow(drive: Drive, faults: set<Fault>) returns (repo: Repository?)
    requires drive.Valid() && drive.state.phase.Copied?
    modifies drive`shadow, drive`wal, drive`journal, drive`state, drive`events
    ensures drive.Valid() && drive.state.commits == old(drive.state.commits)
    ensures repo != null <==> ConnectionWorks(faults) && drive.prod != Some(D.Torn)
    ensures repo == null ==> GaveUp(drive.state) && drive.wal == old(drive.wal)
    ensures repo == null && drive.state.end.Failed? && BrokenShadowStays !in faults ==> drive.shadow.None?
    ensures drive.wal.None? || drive.wal == old(drive.wal)
    ensures drive.journal.None? || drive.journal == old(drive.journal)
    ensures repo != null ==>
      && fresh(repo) && fresh(repo.db) && repo.drive == drive && repo.Valid() && drive.state.phase.Open?
      && drive.state.phase.start == repo.Current()
      && drive.state.phase.stored == old(drive.state.phase.stored) && drive.state.owed == old(drive.state.owed)
      && (Clean(old(drive.Files())) ==> repo.Current() == D.Contents(drive.prod))
  {
    repo := null;
    if Dies(Connecting) in faults {
      drive.Die();
      return;
    }
    var copy := D.CopyOf(drive.prod);
    assert drive.shadow == Some(copy);
    if ConnectionFails in faults || copy.Torn? {
      var removed := BrokenShadowStays !in faults;
      if removed {
        drive.shadow := None;
      }
      drive.Step(D.Connect(false, removed));
      return;
    }
    var seen := Replay(drive, copy.image);
    var db := new Database(seen.files, seen.history);
    repo := new Repository(drive, db);
  }

  /** A run gets to open its database exactly if nothing fails before and production is not torn; a
      missing production is no hindrance. It then has what production has, if nothing harmful lay
      beside the shadow. */
  method OpenRepository(drive: Drive, faults: set<Fault>) returns (repo: Repository?)
    requires drive.Valid() && drive.state.phase.Checked?
    modifies drive`shadow, drive`wal, drive`journal, drive`state, drive`events
    ensures drive.Valid() && drive.state.commits == old(drive.state.commits)
    ensures repo != null <==> OpeningWorks(faults) && drive.prod != Some(D.Torn)
    ensures repo == null ==> GaveUp(drive.state)
    ensures drive.wal.None? || drive.wal == old(drive.wal)
    ensures drive.journal.None? || drive.journal == old(drive.journal)
    ensures repo != null ==>
      && fresh(repo) && fresh(repo.db) && repo.drive == drive && repo.Valid() && drive.state.phase.Open?
      && drive.state.phase.start == repo.Current()
      && drive.state.phase.stored == old(drive.state.phase.stored) && drive.state.owed == old(drive.state.owed)
      && (Clean(old(drive.Files())) || (old(drive.wal).None? && old(drive.journal).None?) ==>
            repo.Current() == if drive.prod.None? then D.Image(map[], []) else drive.prod.value.image)
  {
    repo := null;
    if Dies(Opening) in faults {
      drive.Die();
      return;
    }
    RemoveStale(drive, faults);
    if Dies(Clearing) in faults {
      drive.Die();
      return;
    }
    var copied := CopyProduction(drive, faults);
    if copied {
      repo := ConnectShadow(drive, faults);
    }
  }

  // ---------- scanning ----------

  datatype Options = Options(
    runSync: bool,
    runScrub: bool,
    scrubPercentage: real,
    scrubFrequency: string,
    maxWorkers: int)

  /** What a run finds: the tree, the digests of its files as the sync and as the scrub read
      them, the workers the drive suits, whether the context can be cancelled, what goes wrong, and for
      which paths writes to the table may fail. */
  datatype Env = Env(
    entries: seq<DirEntry>,
    content: map<Path, Hash>,
    disk: map<Path, OnDisk>,
    driveWorkers: int,
    now: int,
    driveName: string,
    drivePath: string,
    durationMs: int,
    mayCancel: bool,
    faults: set<Fault>,
    mayBreak: set<Path>)

  /** `Died` stands for a result that nobody gets. */
  datatype RunError = CanaryPreCheck | OpenFailed | SyncFailed | ScrubFailed | CanaryPostCheck | CommitFailed | Died

  datatype DriveResult = DriveResult(
    syncResult: Option<SyncResult>,
    scrubResult: Option<ScrubResult>,
    err: Option<RunError>)

  function MinAge(frequency: string): Option<int>
  {
    if frequency == "weekly" then Some(7) else if frequency == "monthly" then Some(30) else None
  }

  function BuildRunRecord(env: Env, sync: Option<SyncResult>, scrub: Option<ScrubResult>): RunRecord
  {
    var s := if sync.Some? then sync.value else SyncResult(0, 0, 0, 0, 0, []);
    var c := if scrub.Some? then scrub.value else ScrubResult(0, [], []);
    RunRecord(env.drivePath, env.driveName, Unix(env.now), env.durationMs,
              s.filesScanned, s.filesAdded, s.filesModified, s.filesRemoved, s.filesMoved,
              c.filesValidated, |c.filesCorrupted|, |s.errors|, |c.errors|)
  }

  /** The record's columns: who and when, and the figures of the two results, or zero. */
  predicate Describes(rec: RunRecord, env: Env, sync: Option<SyncResult>, scrub: Option<ScrubResult>)
  {
    && rec.driveId == env.drivePath && rec.driveName == env.driveName
    && InSecond(env.now, rec.startedAt) && rec.durationMs == env.durationMs
    && (match sync
        case Some(result) =>
          && rec.filesScanned == result.filesScanned && rec.filesAdded == result.filesAdded
          && rec.filesModified == result.filesModified && rec.filesRemoved == result.filesRemoved
          && rec.filesMoved == result.filesMoved && rec.syncErrors == |result.errors|
        case None =>
          && rec.filesScanned == rec.filesAdded == rec.filesModified == 0
          && rec.filesRemoved == rec.filesMoved == rec.syncErrors == 0)
    && (match scrub
        case Some(result) =>
          && rec.filesValidated == result.filesValidated
          && rec.filesCorrupted == |result.filesCorrupted| && rec.scrubErrors == |result.errors|
        case None => rec.filesValidated == rec.filesCorrupted == rec.scrubErrors == 0)
  }

  /** The sync was one of this tree with the workers that the drive and the options allow, and it
      returned this result and left this table. */
  ghost predicate SyncedAs(t: SyncTrace, after: Table, opts: Options, env: Env, result: SyncResult)
  {
    && t.cfg.walk == VisitsOf(env.entries) && t.cfg.content == env.content
    && t.cfg.workers >= 1
    && (t.cfg.workers > 1 ==> t.cfg.workers <= opts.maxWorkers && t.cfg.workers <= env.driveWorkers)
    && (t.cfg.workers >= opts.maxWorkers || t.cfg.workers >= env.driveWorkers)
    && exists steps, s ::
         && ReturnsNil(t.cfg, steps, s) && (!env.mayCancel ==> !s.cancelled)
         && s.log.upsertFailed <= env.mayBreak && s.log.undeleted <= env.mayBreak
         && t.calls == CallsOf(s.log) && result == s.result && after == s.rows
  }

  /** The scrub checked the files on disk that were due and in their turn. */
  ghost predicate ScrubbedAs(t: ScrubTrace, before: Table, opts: Options, env: Env)
  {
    && t.disk == env.disk && t.unstamped <= env.mayBreak
    && IsOldestDue(before, if opts.scrubFrequency == "weekly" then Some(7)
                           else if opts.scrubFrequency == "monthly" then Some(30) else None,
                   env.now, opts.scrubPercentage, t.selected)
  }

  /** The trace is that of a run in this environment, with these results. */
  ghost predicate From(trace: RunTrace, opts: Options, env: Env, res: DriveResult)
  {
    && (trace.sync.Some? <==> opts.runSync) && (res.syncResult.Some? <==> opts.runSync)
    && (trace.sync.Some? ==> SyncedAs(trace.sync.value, trace.between, opts, env, res.syncResult.value))
    && (trace.scrub.Some? <==> opts.runScrub)
    && (trace.scrub.Some? ==> ScrubbedAs(trace.scrub.value, trace.between, opts, env))
    && res.scrubResult == if trace.scrub.Some? then Some(trace.scrub.value.res) else None
  }

  /** The run under way has been stopped by an error, or by the death of the process. */
  ghost predicate Stopped(drive: Drive, err: RunError)
    reads drive
  {
    if err.Died? then drive.state.phase.Idle? && drive.state.end.Crashed?
    else drive.state.phase.Failing? && drive.journal.None?
  }

  method SyncPhase(repo: Repository, opts: Options, env: Env)
    returns (err: Option<RunError>, result: SyncResult, ghost trace: SyncTrace)
    requires repo.Valid() && repo.drive.state.phase.Open? && DistinctFiles(VisitsOf(env.entries))
    modifies repo.drive`shadow, repo.drive`journal, repo.drive`state, repo.drive`events, repo.db`files
    ensures repo.drive.Valid() && repo.drive.state.commits == old(repo.drive.state.commits)
    ensures err.None? ==>
      && repo.Valid() && repo.drive.state.phase.Open?
      && repo.drive.state.phase.start == old(repo.drive.state.phase.start)
      && SyncPart(old(repo.db.files), repo.db.files, Some(trace))
      && SyncedAs(trace, repo.db.files, opts, env, result)
    ensures err.Some? ==> Stopped(repo.drive, err.value)
    ensures EndsWith(err, SyncFault(env.faults), env.mayCancel)
  {
    var workers := if env.driveWorkers > opts.maxWorkers then opts.maxWorkers else env.driveWorkers;
    var status;
    ghost var cfg, steps, s, failedAt;
    status, result, cfg, steps, s, failedAt :=
      Syncer.SyncDirectory(env.entries, env.content, repo.db, workers, env.mayCancel, RecordsUnreadable in env.faults,
                           env.mayBreak);
    trace := SyncTrace(cfg, CallsOf(s.log));
    err := None;
    repo.MaybeDie(Dies(Syncing) in env.faults);
    if Dies(Syncing) in env.faults {
      err := Some(Died);
      return;
    }
    repo.Flush();
    if !status.Nil? {
      err := Some(SyncFailed);
      repo.drive.Step(D.ScanFails);
    }
  }

  method ScrubPhase(repo: Repository, opts: Options, env: Env)
    returns (err: Option<RunError>, result: ScrubResult, ghost trace: ScrubTrace)
    requires repo.Valid() && repo.drive.state.phase.Open?
    modifies repo.drive`shadow, repo.drive`journal, repo.drive`state, repo.drive`events, repo.db`files
    ensures repo.drive.Valid() && repo.drive.state.commits == old(repo.drive.state.commits)
    ensures err.None? ==>
      && repo.Valid() && repo.drive.state.phase.Open?
      && repo.drive.state.phase.start == old(repo.drive.state.phase.start)
      && ScrubPart(old(repo.db.files), repo.db.files, Some(trace))
      && ScrubbedAs(trace, old(repo.db.files), opts, env) && trace.res == result
    ensures err.Some? ==> Stopped(repo.drive, err.value)
    ensures EndsWith(err, ScrubFault(env.faults), env.mayCancel)
  {
    var status;
    ghost var selected, checked, stamps, unstamped;
    status, result, selected, checked, stamps, unstamped :=
      ScrubFiles(repo.db, env.disk, opts.scrubPercentage, MinAge(opts.scrubFrequency), env.now, env.mayCancel,
                 SelectionFails in env.faults, env.mayBreak);
    trace := ScrubTrace(env.disk, selected, result, stamps, unstamped);
    err := None;
    repo.MaybeDie(Dies(Scrubbing) in env.faults);
    if Dies(Scrubbing) in env.faults {
      err := Some(Died);
      return;
    }
    repo.Flush();
    if !status.Nil? {
      err := Some(ScrubFailed);
      repo.drive.Step(D.ScanFails);
    }
  }

  /** The sync and the scrub phase on the open repository. */
  method Scan(repo: Repository, opts: Options, env: Env) returns (res: DriveResult, ghost trace: RunTrace)
    requires repo.Valid() && repo.drive.state.phase.Open? && DistinctFiles(VisitsOf(env.entries))
    modifies repo.drive`shadow, repo.drive`journal, repo.drive`state, repo.drive`events, repo.db`files
    ensures repo.drive.Valid() && repo.drive.state.commits == old(repo.drive.state.commits)
    ensures res.err.None? ==>
      && repo.Valid() && repo.drive.state.phase.Open?
      && repo.drive.state.phase.start == old(repo.drive.state.phase.start)
      && RunEffect(old(repo.db.files), repo.db.files, trace) && From(trace, opts, env, res)
    ensures res.err.Some? ==> Stopped(repo.drive, res.err.value) && res.scrubResult.None?
    ensures EndsWith(res.err, ScanFault(opts, env.faults), env.mayCancel)
  {
    res := DriveResult(None, None, None);
    trace := RunTrace(None, repo.db.files, None);
    if opts.runSync {
      var err, result;
      ghost var t;
      err, result, t := SyncPhase(repo, opts, env);
      if err.Some? {
        return res.(err := err), trace;
      }
      res := res.(syncResult := Some(result));
      trace := RunTrace(Some(t), repo.db.files, None);
    }
    if opts.runScrub {
      var err, result;
      ghost var t;
      err, result, t := ScrubPhase(repo, opts, env);
      if err.Some? {
        return res.(err := err), trace;
      }
      res := res.(scrubResult := Some(result));
      trace := trace.(scrub := Some(t));
    }
  }

  // ---------- a run ----------

  /** A run adds a record of itself to the history exactly if it has scanned and the insertion does not fail. */
  predicate HistoryGrows(before: seq<RunRecord>, after: seq<RunRecord>, opts: Options, env: Env, res: DriveResult)
  {
    if (opts.runSync || opts.runScrub) && RecordNotInserted !in env.faults then
      && |after| == |before| + 1 && after[..|before|] == before
      && Describes(after[|before|], env, res.syncResult, res.scrubResult)
    else after == before
  }

  /** What a committed run has made of the database it opened. */
  ghost predicate IsRun(c: D.Commit, opts: Options, env: Env, res: DriveResult, trace: RunTrace)
  {
    && IsEffect(c, trace) && From(trace, opts, env, res)
    && HistoryGrows(c.start.history, c.final.history, opts, env, res)
  }

  /** The run has committed this, and replaced production by it. */
  twostate predicate Committed(drive: Drive, commit: D.Commit, trace: RunTrace)
    reads drive
  {
    && drive.prod == Some(D.Whole(commit.final))
    && drive.state.commits == old(drive.state.commits) + [commit] && drive.traces == old(drive.traces) + [trace]
    && drive.journal.None? && drive.shadow.None?
  }

  twostate predicate NothingCommitted(drive: Drive)
    reads drive
  {
    && drive.prod == old(drive.prod)
    && drive.state.commits == old(drive.state.commits) && drive.traces == old(drive.traces)
  }

  /** The check of the canary after the scans. */
  method CheckMount(repo: Repository, faults: set<Fault>) returns (present: bool)
    requires repo.Valid() && repo.drive.state.phase.Open?
    modifies repo.drive`canary, repo.drive`state, repo.drive`events
    ensures repo.drive.Valid() && repo.drive.state.commits == old(repo.drive.state.commits)
    ensures present ==>
      && repo.Valid() && repo.drive.state.phase.PostChecked?
      && repo.drive.state.phase.start == old(repo.drive.state.phase.start)
      && repo.drive.canary == old(repo.drive.canary) && repo.drive.canary.Some?
    ensures present <==> old(repo.drive.canary).Some? && MountVanishes !in faults && CanaryNotFound !in faults
    ensures !present ==>
      && repo.drive.state.phase.Failing?
      && (repo.drive.canary == old(repo.drive.canary) || repo.drive.canary.None?)
  {
    repo.drive.MaybeUnmount(faults);
    present := repo.drive.StatCanary(faults);
  }

  /** Adds the run's record to the history. */
  method InsertRecord(db: Database, opts: Options, env: Env, res: DriveResult)
    modifies db`history
    ensures HistoryGrows(old(db.history), db.history, opts, env, res)
  {
    if opts.runSync || opts.runScrub {
      var rec := BuildRunRecord(env, res.syncResult, res.scrubResult);
      var inserted := db.InsertRunHistory(rec, RecordNotInserted in env.faults);
    }
  }

  /** The run's record and its commit. */
  method RecordAndCommit(repo: Repository, opts: Options, env: Env, res: DriveResult,
                         ghost before: D.Image, ghost trace: RunTrace)
    returns (err: Option<RunError>, ghost commit: D.Commit)
    requires repo.Valid() && repo.drive.state.phase.PostChecked?
    requires repo.drive.state.phase.start == before && before.history == repo.db.history
    requires RunEffect(before.files, repo.db.files, trace) && From(trace, opts, env, res)
    modifies repo.drive`prod, repo.drive`shadow, repo.drive`journal
    modifies repo.drive`state, repo.drive`events, repo.drive`traces, repo.db`history
    ensures repo.drive.Valid()
    ensures err.None? ==>
      && repo.drive.state.phase.Committed? && Committed(repo.drive, commit, trace)
      && commit.start == before && IsRun(commit, opts, env, res, trace)
    ensures err.Some? ==> Stopped(repo.drive, err.value) && NothingCommitted(repo.drive)
    ensures err == if Dies(Recording) in env.faults then Some(Died) else CommitFault(env.faults)
  {
    commit := D.Commit(before, before);
    InsertRecord(repo.db, opts, env, res);
    repo.MaybeDie(Dies(Recording) in env.faults);
    if Dies(Recording) in env.faults {
      err := Some(Died);
      return;
    }
    repo.Flush();
    commit := D.Commit(before, repo.Current());
    err := repo.Commit(env.faults, trace);
  }

  /** The end of a run that has scanned. */
  method Conclude(repo: Repository, opts: Options, env: Env, res0: DriveResult,
                  ghost before: D.Image, ghost trace: RunTrace)
    returns (res: DriveResult, ghost commit: D.Commit)
    requires repo.Valid() && repo.drive.state.phase.Open? && res0.err.None?
    requires repo.drive.state.phase.start == before && before.history == repo.db.history
    requires RunEffect(before.files, repo.db.files, trace) && From(trace, opts, env, res0)
    modifies repo.drive`prod, repo.drive`shadow, repo.drive`journal, repo.drive`canary
    modifies repo.drive`state, repo.drive`events, repo.drive`traces, repo.db`history
    ensures repo.drive.Valid()
    ensures res == res0.(err := res.err)
    ensures res.err == EndFault(old(repo.drive.canary), env.faults)
    ensures repo.drive.canary == old(repo.drive.canary) || repo.drive.canary.None?
    ensures res.err.None? ==>
      && repo.drive.state.phase.Committed? && Committed(repo.drive, commit, trace)
      && commit.start == before && IsRun(commit, opts, env, res, trace)
      && repo.drive.canary == old(repo.drive.canary) && repo.drive.canary.Some?
    ensures res.err.Some? ==> Stopped(repo.drive, res.err.value) && NothingCommitted(repo.drive)
  {
    commit := D.Commit(before, before);
    var err := Some(CanaryPostCheck);
    var present := CheckMount(repo, env.faults);
    if present {
      err, commit := RecordAndCommit(repo, opts, env, res0, before, trace);
    }
    res := res0.(err := err);
  }

  /** What a run reports of its scrub is what the latest scan found, of the files due in their turn. */
  twostate predicate Reported(drive: Drive, res: DriveResult, opts: Options, env: Env)
    reads drive
  {
    && |drive.scans| == |old(drive.scans)| + 1 && drive.scans[..|old(drive.scans)|] == old(drive.scans)
    && var trace := drive.scans[|old(drive.scans)|].trace;
       && trace.scrub.Some? && ScrubbedAs(trace.scrub.value, trace.between, opts, env)
       && res.scrubResult == Some(trace.scrub.value.res)
  }

  /** A finished scan is noted, whatever becomes of the run. */
  method ScanAndNote(repo: Repository, opts: Options, env: Env) returns (res: DriveResult, ghost trace: RunTrace)
    requires repo.Valid() && repo.drive.state.phase.Open? && DistinctFiles(VisitsOf(env.entries))
    requires repo.drive.state.phase.start == repo.Current()
    modifies repo.drive`shadow, repo.drive`journal, repo.drive`state, repo.drive`events, repo.drive`scans, repo.db`files
    ensures repo.drive.Valid() && repo.drive.state.commits == old(repo.drive.state.commits)
    ensures res.err.None? ==>
      && repo.Valid() && repo.drive.state.phase.Open?
      && repo.drive.state.phase.start == old(repo.Current())
      && RunEffect(old(repo.db.files), repo.db.files, trace) && From(trace, opts, env, res)
      && (res.scrubResult.Some? ==> Reported(repo.drive, res, opts, env))
    ensures res.err.Some? ==> Stopped(repo.drive, res.err.value) && res.scrubResult.None?
    ensures EndsWith(res.err, ScanFault(opts, env.faults), env.mayCancel)
  {
    res, trace := Scan(repo, opts, env);
    if res.err.None? {
      repo.drive.NoteScan(repo.db.files, trace);
    }
  }

  /** Everything between the opening of the repository and its commit. */
  method ScanAndCommit(repo: Repository, opts: Options, env: Env)
    returns (res: DriveResult, ghost trace: RunTrace, ghost commit: D.Commit)
    requires repo.Valid() && repo.drive.state.phase.Open? && DistinctFiles(VisitsOf(env.entries))
    requires repo.drive.state.phase.start == repo.Current()
    modifies repo.drive`prod, repo.drive`shadow, repo.drive`journal, repo.drive`canary
    modifies repo.drive`state, repo.drive`events, repo.drive`traces, repo.drive`scans, repo.db
    ensures repo.drive.Valid()
    ensures EndsWith(res.err, LaterFault(old(repo.drive.canary), opts, env.faults), env.mayCancel)
    ensures repo.drive.canary == old(repo.drive.canary) || repo.drive.canary.None?
    ensures res.err.None? ==>
      && repo.drive.state.phase.Committed? && Committed(repo.drive, commit, trace)
      && commit.start == old(repo.Current()) && IsRun(commit, opts, env, res, trace)
      && repo.drive.canary == old(repo.drive.canary) && repo.drive.canary.Some?
    ensures res.err.Some? ==> Stopped(repo.drive, res.err.value) && NothingCommitted(repo.drive)
    ensures res.scrubResult.Some? ==> Reported(repo.drive, res, opts, env)
  {
    ghost var before := repo.Current();
    commit := D.Commit(before, before);
    res, trace := ScanAndNote(repo, opts, env);
    if res.err.None? {
      res, commit := Conclude(repo, opts, env, res, before, trace);
    }
  }

  /** The deferred rollback of a run that was stopped by an error. */
  method CleanUp(repo: Repository, faults: set<Fault>)
    requires repo.drive.Valid() && repo.drive.state.phase.Failing? && repo.drive.journal.None?
    modifies repo.drive`shadow, repo.drive`journal, repo.drive`state, repo.drive`events
    ensures repo.drive.Valid() && GaveUp(repo.drive.state) && repo.drive.state.commits == old(repo.drive.state.commits)
    ensures repo.drive.state.end.Failed? ==>
      repo.drive.journal.None? && (ShadowNotRemoved !in faults ==> repo.drive.shadow.None?)
    ensures repo.drive.state.end.Crashed? <==> Dies(RollingBack) in faults
  {
    if Dies(RollingBack) in faults {
      repo.drive.Die();
    } else {
      var removed := repo.Rollback(faults);
    }
  }

  /** The same with the deferred rollback, which runs unless the commit has succeeded. */
  method RunOpened(repo: Repository, opts: Options, env: Env)
    returns (res: DriveResult, ghost trace: RunTrace, ghost commit: D.Commit)
    requires repo.Valid() && repo.drive.state.phase.Open? && DistinctFiles(VisitsOf(env.entries))
    requires repo.drive.state.phase.start == repo.Current()
    modifies repo.drive`prod, repo.drive`shadow, repo.drive`journal, repo.drive`canary
    modifies repo.drive`state, repo.drive`events, repo.drive`traces, repo.drive`scans, repo.db
    ensures repo.drive.Valid()
    ensures EndsWith(res.err, LaterFault(old(repo.drive.canary), opts, env.faults), env.mayCancel)
    ensures repo.drive.canary == old(repo.drive.canary) || repo.drive.canary.None?
    ensures res.err.None? ==>
      && repo.drive.state.phase.Committed? && Committed(repo.drive, commit, trace)
      && commit.start == old(repo.Current()) && IsRun(commit, opts, env, res, trace)
      && repo.drive.canary == old(repo.drive.canary) && repo.drive.canary.Some?
    ensures res.err.Some? ==> GaveUp(repo.drive.state) && NothingCommitted(repo.drive)
    ensures res.err.Some? && repo.drive.state.end.Failed? ==>
      repo.drive.journal.None? && (ShadowNotRemoved !in env.faults ==> repo.drive.shadow.None?)
    ensures res.scrubResult.Some? ==> Reported(repo.drive, res, opts, env)
  {
    res, trace, commit := ScanAndCommit(repo, opts, env);
    if res.err.Some? && !res.err.value.Died? {
      CleanUp(repo, env.faults);
    }
  }

  /** And with the update of the canary after a commit. */
  method RunAndSeal(repo: Repository, opts: Options, env: Env)
    returns (res: DriveResult, ghost trace: RunTrace, ghost commit: D.Commit)
    requires repo.Valid() && repo.drive.state.phase.Open? && DistinctFiles(VisitsOf(env.entries))
    requires repo.drive.state.phase.start == repo.Current()
    modifies repo.drive`prod, repo.drive`shadow, repo.drive`journal, repo.drive`canary
    modifies repo.drive`state, repo.drive`events, repo.drive`traces, repo.drive`scans, repo.db
    ensures repo.drive.Valid() && repo.drive.state.phase.Idle?
    ensures EndsWith(res.err, LaterFault(old(repo.drive.canary), opts, env.faults), env.mayCancel)
    ensures res.err.None? && SealingWorks(env.faults) ==>
      repo.drive.canary == Some(repo.drive.checksum(commit.final)) && repo.drive.state.end.Succeeded?
    ensures res.err.None? ==>
      && (repo.drive.state.end.Succeeded? || repo.drive.state.end.Crashed?)
      && Committed(repo.drive, commit, trace) && commit.start == old(repo.Current())
      && IsRun(commit, opts, env, res, trace)
      && old(repo.drive.canary).Some? && repo.drive.canary.Some?
      && (repo.drive.canary == old(repo.drive.canary) || repo.drive.canary.value <= repo.drive.checksum(commit.final))
    ensures res.err.Some? ==>
      && GaveUp(repo.drive.state) && NothingCommitted(repo.drive)
      && (repo.drive.state.end.Failed? ==>
            repo.drive.journal.None? && (ShadowNotRemoved !in env.faults ==> repo.drive.shadow.None?))
      && (repo.drive.canary == old(repo.drive.canary) || repo.drive.canary.None?)
    ensures res.scrubResult.Some? ==> Reported(repo.drive, res, opts, env)
  {
    res, trace, commit := RunOpened(repo, opts, env);
    if res.err.None? {
      repo.drive.UpdateCanary(env.faults);
    }
  }

  /** The start of a run. */
  method CheckAndOpen(drive: Drive, faults: set<Fault>)
    returns (repo: Repository?, err: Option<RunError>, stored: string)
    requires drive.Valid() && drive.state.phase.Idle?
    modifies drive`shadow, drive`wal, drive`journal, drive`state, drive`events
    ensures drive.Valid() && drive.state.commits == old(drive.state.commits)
    ensures err == OpenFault(old(drive.Files()), faults) && (repo == null <==> err.Some?)
    ensures repo == null ==> GaveUp(drive.state)
    ensures drive.wal.None? || drive.wal == old(drive.wal)
    ensures drive.journal.None? || drive.journal == old(drive.journal)
    ensures repo != null ==>
      && fresh(repo) && fresh(repo.db) && repo.drive == drive && repo.Valid() && drive.state.phase.Open?
      && drive.state.phase.start == repo.Current() && drive.canary.Some?
      && drive.state.phase.stored == stored && drive.canary == Some(stored) && drive.state.owed == old(drive.state.owed)
      && (Clean(old(drive.Files())) ==> repo.Current() == D.Contents(drive.prod))
  {
    repo, err := null, Some(CanaryPreCheck);
    var ok;
    ok, stored := drive.ReadCanary(faults);
    if ok {
      repo := OpenRepository(drive, faults);
      err := if repo == null then Some(OpenFailed) else None;
    }
  }

  /** One run on a drive. If it cannot be cancelled, it ends with exactly the error of the first fault that
      strikes, a missing canary and a torn production included. A mismatch of the
      stored checksum is noted and otherwise ignored. Unless the process dies, the run returns without
      an error exactly if production was replaced, by a database that starts from production as it
      was; with an error, production is untouched and so is the canary, unless it has disappeared by
      itself. A run that has opened its database and lives leaves no shadow, unless that cannot be
      removed. Only a death leaves a journal, and a death after the commit leaves what was committed. If
      nothing goes wrong after the commit, the canary is the checksum of what was committed. */
  method ProcessDrive(drive: Drive, opts: Options, env: Env)
    returns (res: DriveResult, mismatch: bool, ghost trace: RunTrace, ghost commit: D.Commit)
    requires drive.Valid() && drive.state.phase.Idle? && DistinctFiles(VisitsOf(env.entries))
    modifies drive
    ensures drive.Valid() && drive.state.phase.Idle?
    ensures EndsWith(res.err, FaultOf(old(drive.Files()), opts, env.faults), env.mayCancel)
    ensures res.err.None? && SealingWorks(env.faults) ==>
      drive.canary == Some(drive.checksum(commit.final)) && drive.state.end.Succeeded?
    ensures !drive.state.end.Crashed? ==> (res.err.None? <==> drive.state.end.Succeeded?)
    ensures drive.wal.None? || drive.wal == old(drive.wal)
    ensures drive.state.end.Crashed? || drive.journal.None? || drive.journal == old(drive.journal)
    ensures OpenFault(old(drive.Files()), env.faults).None? && drive.state.end.Failed? ==>
      ShadowNotRemoved in env.faults || drive.shadow.None?
    ensures old(drive.canary).None? ==> res.err == Some(CanaryPreCheck)
    ensures res.err.Some? ==> NothingCommitted(drive) && (drive.canary == old(drive.canary) || drive.canary.None?)
    ensures res.err.None? ==>
      && Committed(drive, commit, trace) && IsRun(commit, opts, env, res, trace)
      && (Clean(old(drive.Files())) || drive.tidy ==> commit.start == D.Contents(old(drive.prod)))
      && drive.wal.None? && drive.journal.None?
      && old(drive.canary).Some? && drive.canary.Some?
      && (drive.canary == old(drive.canary) || drive.canary.value <= drive.checksum(commit.final))
    ensures res.scrubResult.Some? ==> Reported(drive, res, opts, env)
    ensures Clean(old(drive.Files())) || drive.tidy ==>
      (mismatch <==>
        && OpenFault(old(drive.Files()), env.faults).None? && ChecksumFails !in env.faults
        && old(drive.canary).value != ""
        && old(drive.canary).value != drive.checksum(D.Contents(old(drive.prod))))
    ensures drive.tidy && mismatch ==> old(drive.state.owed) || old(drive.state.commits) == []
  {
    res, mismatch := DriveResult(None, None, None), false;
    trace := RunTrace(None, map[], None);
    commit := D.Commit(D.EMPTY, D.EMPTY);
    var repo, err, stored := CheckAndOpen(drive, env.faults);
    if repo == null {
      res := res.(err := err);
      return;
    }
    mismatch := repo.Verify(stored, env.faults);
    res, trace, commit := RunAndSeal(repo, opts, env);
  }

  // ---------- what a committed run has done ----------

  /** A committed sync, said of the directory entries: the regular files under other names than the
      tool's own are counted and nothing else is; if it could not be cancelled, its counters are
      those of the disk and the table; and if no write can fail either, all files that can be
      hashed have a record that shows their stat, and no other path has a record. */
  lemma CommittedSync(c: D.Commit, opts: Options, env: Env, res: DriveResult, trace: RunTrace)
    returns (tree: map<Path, Stat>, failedAt: seq<nat>)
    requires IsRun(c, opts, env, res, trace) && opts.runSync
    ensures SyncEntries.AccountsFor(env.entries, {"bitrot.db", "bitrot.db-wal", "bitrot.db-shm", "bitrot.db.shadow",
                                                  "bitrot.db.shadow-wal", "bitrot.db.shadow-shm", ".bitrot-canary"},
                                    tree, failedAt, c.start.files, trace.between, res.syncResult.value)
    ensures !env.mayCancel ==>
      var cfg, result := trace.sync.value.cfg, res.syncResult.value;
      && result.filesModified == |SyncEntries.ChangedFiles(cfg)|
      && result.filesAdded + result.filesMoved == |SyncEntries.NewFiles(cfg)|
      && result.filesRemoved == |c.start.files.Keys - tree.Keys|
    ensures !env.mayCancel && env.mayBreak == {} ==>
      && (forall path :: path in trace.between ==> path in tree)
      && (forall path :: path in tree && path in env.content ==>
            path in trace.between && SyncEntries.Shows(trace.between[path], tree[path]))
  {
    var cfg := trace.sync.value.cfg;
    var steps, s :| ReturnsNil(cfg, steps, s) && (!env.mayCancel ==> !s.cancelled)
                    && s.log.upsertFailed <= env.mayBreak && s.log.undeleted <= env.mayBreak
                    && trace.sync.value.calls == CallsOf(s.log)
                    && res.syncResult.value == s.result && trace.between == s.rows;
    failedAt := SyncEntries.EntriesAreAccountedFor(env.entries, cfg, steps, s);
    tree := s.walker.seen;
    ReturnedNil(cfg, steps, s);
    if !env.mayCancel {
      SyncEntries.CountersAre(cfg, steps, s);
      KeySet(cfg, steps, s);
      UnbrokenSync(cfg, steps, s);
    }
  }

  lemma UnbrokenSync(cfg: Config, steps: seq<Step>, s: State)
    requires Completes(cfg, steps, s)
    ensures s.log.upsertFailed == {} ==> forall path :: path in cfg.Disk() && path in cfg.content ==>
              path in s.rows && SyncEntries.Shows(s.rows[path], cfg.Disk()[path])
  {
    SyncIsRight(cfg, steps, s);
    forall path | s.log.upsertFailed == {} && path in cfg.Disk() && path in cfg.content
      ensures path in s.rows && SyncEntries.Shows(s.rows[path], cfg.Disk()[path])
    {
      SyncEntries.UpsertedRow(cfg, s.rows, CallsOf(s.log), path);
    }
  }

  /** A committed scrub, said of rows and the clock: a weekly or monthly one checks only rows that were
      last scrubbed over 7 or 30 days ago, or never; if all is asked for, it checks all these rows, and
      any other scrub all rows there are. Each row checked is counted once. */
  lemma CommittedScrub(c: D.Commit, opts: Options, env: Env, res: DriveResult, trace: RunTrace)
    requires IsRun(c, opts, env, res, trace) && opts.runScrub
    ensures forall path :: path in trace.scrub.value.selected ==> path in trace.between
    ensures forall path :: path in trace.scrub.value.selected && trace.between[path].lastScrubbed.Some? ==>
      var time := trace.between[path].lastScrubbed.value;
      && (opts.scrubFrequency == "weekly" ==> (time + 1 + 7 * 86_400) * 1_000_000_000 <= env.now)
      && (opts.scrubFrequency == "monthly" ==> (time + 1 + 30 * 86_400) * 1_000_000_000 <= env.now)
    ensures opts.scrubPercentage >= 100.0 ==> forall path :: path in trace.between ==>
      var time := trace.between[path].lastScrubbed;
      path in trace.scrub.value.selected
      || (opts.scrubFrequency == "weekly" && time.Some? && (time.value + 1 + 7 * 86_400) * 1_000_000_000 > env.now)
      || (opts.scrubFrequency == "monthly" && time.Some? && (time.value + 1 + 30 * 86_400) * 1_000_000_000 > env.now)
    ensures var result := trace.scrub.value.res;
      && res.scrubResult == Some(result)
      && result.filesValidated + |result.filesCorrupted| + |result.errors| == |trace.scrub.value.selected|
    ensures opts.scrubPercentage >= 100.0 && opts.scrubFrequency != "weekly" && opts.scrubFrequency != "monthly" ==>
      |trace.scrub.value.selected| == |trace.between|
  {
    var t := trace.scrub.value;
    ScrubAccounts(trace.between, t.disk, t.selected, t.res, c.final.files, t.stamps, t.unstamped);
    if opts.scrubPercentage >= 100.0 && opts.scrubFrequency != "weekly" && opts.scrubFrequency != "monthly" {
      WholeIsSelected(|DueRows(trace.between, None, env.now)|, opts.scrubPercentage);
      assert DueRows(trace.between, None, env.now) == trace.between.Keys;
      assert |trace.between| == |trace.between.Keys|;
    }
  }

  // ---------- any number of runs ----------

  /** A run that commits leaves a drive that the next run can open. */
  method RunOnce(drive: Drive, job: Job) returns (ok: bool, ghost commit: D.Commit)
    requires drive.Valid() && drive.state.phase.Idle? && DistinctFiles(VisitsOf(job.env.entries))
    modifies drive
    ensures drive.Valid() && drive.state.phase.Idle?
    ensures !job.env.mayCancel ==>
      (ok <==> FaultOf(old(drive.Files()), job.opts, job.env.faults).None?)
    ensures ok ==>
      && drive.canary.Some? && drive.wal.None? && drive.journal.None? && drive.prod == Some(D.Whole(commit.final))
      && old(drive.canary).Some? && drive.state.commits == old(drive.state.commits) + [commit]
      && (Clean(old(drive.Files())) ==> commit.start == D.Contents(old(drive.prod)))
  {
    var res, mismatch;
    ghost var trace;
    res, mismatch, trace, commit := ProcessDrive(drive, job.opts, job.env);
    ok := res.err.None?;
  }

  /** Successive commits chain: the second run starts from exactly what the first has left, and it
      too commits exactly if nothing goes wrong. */
  method RunTwice(drive: Drive, job: Job, next: Job) returns (both: bool, ghost commits: seq<D.Commit>)
    requires drive.Valid() && drive.state.phase.Idle? && Clean(drive.Files())
    requires DistinctFiles(VisitsOf(job.env.entries)) && DistinctFiles(VisitsOf(next.env.entries))
    modifies drive
    ensures drive.Valid() && drive.state.phase.Idle?
    ensures !job.env.mayCancel && !next.env.mayCancel ==>
      (both <==>
        && FaultOf(old(drive.Files()), job.opts, job.env.faults).None?
        && FaultOf(old(drive.Files()), next.opts, next.env.faults).None?)
    ensures both ==>
      && |commits| == 2 && drive.state.commits == old(drive.state.commits) + commits
      && commits[0].start == D.Contents(old(drive.prod)) && commits[1].start == commits[0].final
  {
    ghost var commit;
    both, commit := RunOnce(drive, job);
    commits := [commit];
    if both {
      both, commit := RunOnce(drive, next);
      commits := commits + [commit];
    }
  }

  datatype Job = Job(opts: Options, env: Env)

  /** Nothing can keep this job from committing, if the canary is there and production is not torn. */
  predicate IsSmooth(job: Job)
  {
    !job.env.mayCancel && FaultOf(D.Dir(None, None, None, None, Some("")), job.opts, job.env.faults).None?
  }

  /** The run leaves the file alone, if it syncs. */
  ghost predicate LeavesFile(job: Job, path: Path, size: int, second: int)
  {
    job.opts.runSync ==> FirstOfItsKind(VisitsOf(job.env.entries), path, size, second)
  }

  /** The canary is there and production, if there is one, can be opened. */
  predicate IsReady(canary: Option<string>, prod: Option<D.DbFile>)
  {
    canary.Some? && prod != Some(D.Torn)
  }

  lemma RunLeavesFile(c: D.Commit, job: Job, res: DriveResult, trace: RunTrace,
                      path: Path, size: int, second: int, hash: Hash)
    requires IsRun(c, job.opts, job.env, res, trace) && LeavesFile(job, path, size, second)
    requires Stands(c.start.files, path, size, second, hash)
    ensures Stands(c.final.files, path, size, second, hash)
  {
    FirstIsSpared(c.start.files, trace, path, size, second, hash);
    RunKeepsDigest(c.start.files, c.final.files, trace, path, size, second, hash);
  }

  /** One of the runs of `Monitor`. */
  method MonitorOne(drive: Drive, job: Job, ghost path: Path, ghost size: int, ghost second: int, ghost hash: Hash)
    requires drive.Valid() && drive.state.phase.Idle? && DistinctFiles(VisitsOf(job.env.entries))
    modifies drive
    ensures drive.Valid() && drive.state.phase.Idle?
    ensures |old(drive.state.commits)| <= |drive.state.commits| <= |old(drive.state.commits)| + 1
    ensures IsSmooth(job) && IsReady(old(drive.canary), old(drive.prod)) ==>
      IsReady(drive.canary, drive.prod) && |drive.state.commits| == |old(drive.state.commits)| + 1
    ensures drive.tidy && LeavesFile(job, path, size, second) ==>
      old(Stands(D.Contents(drive.prod).files, path, size, second, hash)) ==>
      Stands(D.Contents(drive.prod).files, path, size, second, hash)
  {
    ghost var before := D.Contents(drive.prod).files;
    var res, mismatch;
    ghost var trace, commit;
    res, mismatch, trace, commit := ProcessDrive(drive, job.opts, job.env);
    if res.err.None? && drive.tidy && LeavesFile(job, path, size, second) && Stands(before, path, size, second, hash) {
      RunLeavesFile(commit, job, res, trace, path, size, second, hash);
    }
  }

  /** Any number of runs, each of which may fail at any step and die anywhere; each commits at most
      once, and all do if nothing can go wrong. If no death leaves a harmful journal, production keeps
      the digest of every file that the runs find unchanged and before any other file of its size and
      modification second. */
  method Monitor(drive: Drive, jobs: seq<Job>, ghost path: Path, ghost size: int, ghost second: int, ghost hash: Hash)
    requires drive.Valid() && drive.state.phase.Idle?
    requires forall k :: 0 <= k < |jobs| ==> DistinctFiles(VisitsOf(jobs[k].env.entries))
    modifies drive
    ensures drive.Valid() && drive.state.phase.Idle?
    ensures |old(drive.state.commits)| <= |drive.state.commits| <= |old(drive.state.commits)| + |jobs|
    ensures IsReady(old(drive.canary), old(drive.prod)) && (forall k :: 0 <= k < |jobs| ==> IsSmooth(jobs[k])) ==>
      |drive.state.commits| == |old(drive.state.commits)| + |jobs|
    ensures drive.tidy && (forall k :: 0 <= k < |jobs| ==> LeavesFile(jobs[k], path, size, second)) ==>
      old(Stands(D.Contents(drive.prod).files, path, size, second, hash)) ==>
      Stands(D.Contents(drive.prod).files, path, size, second, hash)
  {
    var i := 0;
    while i < |jobs|
      invariant 0 <= i <= |jobs|
      invariant drive.Valid() && drive.state.phase.Idle?
      invariant |old(drive.state.commits)| <= |drive.state.commits| <= |old(drive.state.commits)| + i
      invariant IsReady(old(drive.canary), old(drive.prod)) && (forall k :: 0 <= k < |jobs| ==> IsSmooth(jobs[k])) ==>
        IsReady(drive.canary, drive.prod) && |drive.state.commits| == |old(drive.state.commits)| + i
      invariant drive.tidy && (forall k :: 0 <= k < |jobs| ==> LeavesFile(jobs[k], path, size, second)) ==>
        old(Stands(D.Contents(drive.prod).files, path, size, second, hash)) ==>
        Stands(D.Contents(drive.prod).files, path, size, second, hash)
    {
      MonitorOne(drive, jobs[i], path, size, second, hash);
      i := i + 1;
    }
  }

  /** After any number of runs, however they ended, production is what the last one left whose
      rename happened. */
  lemma ProductionIsLastCommit(drive: Drive)
    requires drive.Valid()
    ensures drive.prod == D.Production(drive.first.dir.prod, drive.state.commits)
    ensures drive.state.phase.Idle? && drive.state.end.Succeeded? ==> drive.state.renamed
  {
  }

  /** Bit rot is never laundered, of any sequence of runs and deaths: production keeps the digest of
      a file as long as every committed sync sees it unchanged and spares it. */
  lemma DigestStands(drive: Drive, path: Path, size: int, second: int, hash: Hash)
    requires drive.Valid() && drive.tidy
    requires Stands(D.Contents(drive.first.dir.prod).files, path, size, second, hash)
    requires Benign(drive.traces, path, size, second)
    ensures Stands(D.Contents(drive.prod).files, path, size, second, hash)
  {
    var commits := drive.state.commits;
    ChainKeepsDigest(drive.first.dir.prod, commits, drive.traces, |commits|, path, size, second, hash);
    assert commits[..|commits|] == commits;
  }

  /** And every scrub of every run, whether the run was committed, failed later or died, has
      reported the file exactly if its content did not have this digest. */
  lemma ScrubsToldTheTruth(drive: Drive, path: Path, size: int, second: int, hash: Hash, k: nat)
    requires drive.Valid() && drive.tidy && k < |drive.scans|
    requires Stands(D.Contents(drive.first.dir.prod).files, path, size, second, hash)
    requires Benign(drive.traces, path, size, second)
    requires var trace := drive.scans[k].trace;
             SeenUnchanged(trace, path, size, second) && Spared(trace, path) && Rechecks(trace, path)
    ensures TellsTheTruth(drive.scans[k].trace, path, hash)
  {
    ScanTellsTheTruth(drive.first.dir.prod, drive.state.commits, drive.traces, drive.scans[k],
                      path, size, second, hash);
  }
}
