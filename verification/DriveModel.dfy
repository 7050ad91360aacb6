/** The files of a monitored drive over any number of runs. A run copies the production
    database to a shadow, works on the shadow, renames it over production and rewrites the
    canary; each of its steps can fail, and the process can crash between any two steps, in
    the middle of the copy, of a transaction or of the canary write. The atomicity of
    `rename()` in POSIX.1 is the one thing taken for granted. */
module DriveModel {
  import opened Domain
  import opened Storage

  /** The contents of a database file. */
  datatype Image = Image(files: Table, history: seq<RunRecord>)

  datatype DbFile = Torn | Whole(image: Image)

  /** The rows, and perhaps the history, that a journal or a write-ahead log beside a database
      puts in place when the database is opened. */
  datatype Pages = Pages(rows: map<Path, Option<Row>>, history: Option<seq<RunRecord>>)

  function RowAt(image: Image, path: Path): Option<Row>
  {
    if path in image.files then Some(image.files[path]) else None
  }

  function Overwrite(image: Image, pages: Pages): Image
  {
    Image(map path | path in image.files.Keys + pages.rows.Keys && (path in pages.rows ==> pages.rows[path].Some?) ::
            if path in pages.rows then pages.rows[path].value else image.files[path],
          if pages.history.Some? then pages.history.value else image.history)
  }

  /** What a transaction writes to its journal before it changes these rows. */
  function Saved(image: Image, touched: set<Path>, withHistory: bool): Pages
  {
    Pages(map path | path in touched :: RowAt(image, path), if withHistory then Some(image.history) else None)
  }

  /** The two images differ at most where the pages lie. */
  predicate DifferWithin(a: Image, b: Image, pages: Pages)
  {
    && (forall path | path in a.files.Keys + b.files.Keys :: path in pages.rows || RowAt(a, path) == RowAt(b, path))
    && (pages.history.Some? || a.history == b.history)
  }

  predicate Agrees(image: Image, pages: Pages)
  {
    && (forall path | path in pages.rows :: pages.rows[path] == RowAt(image, path))
    && (pages.history.Some? ==> pages.history.value == image.history)
  }

  lemma OverwriteAt(image: Image, pages: Pages, path: Path)
    ensures RowAt(Overwrite(image, pages), path) == if path in pages.rows then pages.rows[path] else RowAt(image, path)
  {
  }

  lemma SameImage(a: Image, b: Image)
    requires a.history == b.history && forall path :: RowAt(a, path) == RowAt(b, path)
    ensures a == b
  {
    forall path ensures path in a.files <==> path in b.files
                ensures path in a.files ==> a.files[path] == b.files[path] {
      assert RowAt(a, path) == RowAt(b, path);
    }
  }

  /** A journal does what it is for: it takes the database it belongs to back to the image from
      before the transaction, however far the transaction has come. */
  lemma JournalUndoes(before: Image, dirty: Image, touched: set<Path>, withHistory: bool)
    requires DifferWithin(before, dirty, Saved(before, touched, withHistory))
    ensures Overwrite(dirty, Saved(before, touched, withHistory)) == before
  {
    var pages := Saved(before, touched, withHistory);
    forall path ensures RowAt(Overwrite(dirty, pages), path) == RowAt(before, path) {
      OverwriteAt(dirty, pages, path);
    }
    SameImage(Overwrite(dirty, pages), before);
  }

  lemma UnchangedIff(image: Image, pages: Pages)
    ensures Overwrite(image, pages) == image <==> Agrees(image, pages)
  {
    forall path
      ensures RowAt(Overwrite(image, pages), path)
           == if path in pages.rows then pages.rows[path] else RowAt(image, path)
    {
      OverwriteAt(image, pages, path);
    }
    if Agrees(image, pages) {
      SameImage(Overwrite(image, pages), image);
    }
  }

  /** Both, with `above` written last. */
  function Layered(below: Pages, above: Pages): Pages
  {
    Pages(below.rows + above.rows, if above.history.Some? then above.history else below.history)
  }

  lemma OverwriteTwice(image: Image, below: Pages, above: Pages)
    ensures Overwrite(Overwrite(image, below), above) == Overwrite(image, Layered(below, above))
  {
    var twice, once := Overwrite(Overwrite(image, below), above), Overwrite(image, Layered(below, above));
    forall path ensures RowAt(twice, path) == RowAt(once, path) {
      OverwriteAt(image, below, path);
      OverwriteAt(Overwrite(image, below), above, path);
      OverwriteAt(image, Layered(below, above), path);
    }
    SameImage(twice, once);
  }

  /** The directory: the two database files, a write-ahead log and a rollback journal beside the
      shadow, and the canary with its contents. */
  datatype Dir = Dir(
    prod: Option<DbFile>,
    shadow: Option<DbFile>,
    wal: Option<Pages>,
    journal: Option<Pages>,
    canary: Option<string>)

  /** How far a run has come. `stored` is the checksum read from the canary, `start` what the
      database contained when it was opened, `current` what it contains now. */
  datatype Phase =
    | Idle
    | Checked(stored: string)
    | Cleaned(stored: string)
    | Copying(stored: string)
    | Copied(stored: string)
    | Open(stored: string, start: Image, current: Image)
    | PostChecked(start: Image, current: Image)
    | Closed(start: Image, current: Image)
    | Committed
    | Truncated
    | Failing

  /** A committed run: what it started from and what it left. */
  datatype Commit = Commit(start: Image, final: Image)

  /** How the latest run ended. */
  datatype RunEnd = NoRun | Running | Failed | Succeeded | Crashed

  /** `commits` are the runs whose rename happened; `owed` says that production was replaced and
      the canary not completely rewritten since; `end` and `renamed` concern the latest run. */
  datatype State = State(dir: Dir, phase: Phase, commits: seq<Commit>, owed: bool, end: RunEnd, renamed: bool)

  function Init(dir: Dir): State
  {
    State(dir, Idle, [], false, NoRun, false)
  }

  const EMPTY := Image(map[], [])

  /** What a copy of production contains; a missing database copies as an empty one. */
  function CopyOf(prod: Option<DbFile>): DbFile
  {
    if prod.Some? then prod.value else Whole(EMPTY)
  }

  /** A transaction appears as two events: `Write` saves what it touches in the journal and changes
      the shadow; `End` deletes the journal, which commits, or takes the shadow back. */
  datatype Event =
    | ReadCanary(ok: bool)
    | RemoveStale(shadowGone: bool, walGone: bool)
    | CreateShadow(ok: bool)
    | FinishCopy(ok: bool)
    | Connect(ok: bool, removed: bool)
    | Write(image: Image, touched: set<Path>, withHistory: bool)
    | End(committed: bool)
    | ScanFails
    | PostCheck(ok: bool)
    | Close(ok: bool)
    | Rename(ok: bool)
    | Rollback(removed: bool)
    | TruncateCanary(ok: bool)
    | FinishCanary(written: nat)
    | Crash(shadow: Option<DbFile>, kept: bool)
    | CanaryVanishes
    | CanaryTouched

  /** The database that SQLite shows when it opens this image: rolled back by a journal, and then
      brought forward by a log. */
  function Replayed(dir: Dir, image: Image): Image
  {
    var back := if dir.journal.Some? then Overwrite(image, dir.journal.value) else image;
    if dir.wal.Some? then Overwrite(back, dir.wal.value) else back
  }

  predicate IsOpen(phase: Phase)
  {
    phase.Open? || phase.PostChecked?
  }

  predicate Enabled(sum: Image -> string, s: State, e: Event)
  {
    match e
    case ReadCanary(ok) => s.phase.Idle? && (ok ==> s.dir.canary.Some?)
    case RemoveStale(_, _) => s.phase.Checked?
    case CreateShadow(_) => s.phase.Cleaned?
    case FinishCopy(_) => s.phase.Copying?
    case Connect(ok, _) => s.phase.Copied? && (ok ==> s.dir.shadow.Some? && s.dir.shadow.value.Whole?)
    case Write(image, touched, withHistory) =>
      && IsOpen(s.phase) && s.dir.journal.None?
      && DifferWithin(s.phase.current, image, Saved(s.phase.current, touched, withHistory))
    case End(_) =>
      IsOpen(s.phase) && s.dir.journal.Some? && s.dir.shadow.Some? && s.dir.shadow.value.Whole?
    case ScanFails => s.phase.Open? && s.dir.journal.None?
    case PostCheck(ok) => s.phase.Open? && s.dir.journal.None? && (ok ==> s.dir.canary.Some?)
    case Close(_) => s.phase.PostChecked? && s.dir.journal.None?
    case Rename(ok) => s.phase.Closed? && (ok ==> s.dir.shadow.Some?)
    case Rollback(_) => s.phase.Failing?
    case TruncateCanary(_) => s.phase.Committed?
    case FinishCanary(written) =>
      && s.phase.Truncated? && s.dir.prod.Some? && s.dir.prod.value.Whole?
      && written <= |sum(s.dir.prod.value.image)|
    case Crash(shadow, kept) =>
      // the shadow is in danger only in a transaction, or while a journal or log is replayed
      !s.phase.Idle? && (s.dir.journal.Some? || s.dir.wal.Some? || shadow == s.dir.shadow)
    case CanaryVanishes => true
    case CanaryTouched => s.dir.canary.None?
  }

  function Fail(s: State): State
  {
    s.(phase := Idle, end := Failed)
  }

  function WithCurrent(phase: Phase, image: Image): Phase
    requires IsOpen(phase)
  {
    if phase.Open? then Open(phase.stored, phase.start, image) else PostChecked(phase.start, image)
  }

  function Apply(sum: Image -> string, s: State, e: Event): State
    requires Enabled(sum, s, e)
  {
    match e
    case ReadCanary(ok) =>
      var t := s.(renamed := false, end := Running);
      if ok then t.(phase := Checked(s.dir.canary.value)) else Fail(t)
    case RemoveStale(shadowGone, walGone) =>
      s.(dir := s.dir.(shadow := if shadowGone then None else s.dir.shadow, wal := if walGone then None else s.dir.wal),
         phase := Cleaned(s.phase.stored))
    case CreateShadow(ok) =>
      if ok then s.(dir := s.dir.(shadow := Some(Torn)), phase := Copying(s.phase.stored)) else Fail(s)
    case FinishCopy(ok) =>
      if ok then s.(dir := s.dir.(shadow := Some(CopyOf(s.dir.prod))), phase := Copied(s.phase.stored)) else Fail(s)
    case Connect(ok, removed) =>
      if ok then
        var seen := Replayed(s.dir, s.dir.shadow.value.image);
        s.(dir := s.dir.(shadow := Some(Whole(seen)), wal := None, journal := None),
           phase := Open(s.phase.stored, seen, seen))
      else Fail(s.(dir := if removed then s.dir.(shadow := None) else s.dir))
    case Write(image, touched, withHistory) =>
      s.(dir := s.dir.(shadow := Some(Whole(image)), journal := Some(Saved(s.phase.current, touched, withHistory))))
    case End(committed) =>
      if committed then
        s.(dir := s.dir.(journal := None), phase := WithCurrent(s.phase, s.dir.shadow.value.image))
      else s.(dir := s.dir.(journal := None, shadow := Some(Whole(s.phase.current))))
    case ScanFails => s.(phase := Failing)
    case PostCheck(ok) => s.(phase := if ok then PostChecked(s.phase.start, s.phase.current) else Failing)
    case Close(ok) => s.(phase := if ok then Closed(s.phase.start, s.phase.current) else Failing)
    case Rename(ok) =>
      if ok then
        s.(dir := s.dir.(prod := s.dir.shadow, shadow := None), phase := Committed,
           commits := s.commits + [Commit(s.phase.start, s.phase.current)], owed := true, renamed := true)
      else s.(phase := Failing)
    case Rollback(removed) => Fail(s.(dir := if removed then s.dir.(shadow := None) else s.dir))
    case TruncateCanary(ok) =>
      if ok then s.(dir := s.dir.(canary := Some("")), phase := Truncated) else s.(phase := Idle, end := Succeeded)
    case FinishCanary(written) =>
      var text := sum(s.dir.prod.value.image);
      s.(dir := s.dir.(canary := Some(text[..written])),
         phase := Idle, end := Succeeded, owed := s.owed && written < |text|)
    case Crash(shadow, kept) =>
      s.(dir := s.dir.(shadow := shadow, journal := if kept then s.dir.journal else None),
         phase := Idle, end := Crashed)
    case CanaryVanishes => s.(dir := s.dir.(canary := None))
    case CanaryTouched => s.(dir := s.dir.(canary := Some("")))
  }

  predicate IsHistory(sum: Image -> string, s: State, events: seq<Event>)
    decreases |events|
  {
    events == [] || (Enabled(sum, s, events[0]) && IsHistory(sum, Apply(sum, s, events[0]), events[1..]))
  }

  function After(sum: Image -> string, s: State, events: seq<Event>): State
    requires IsHistory(sum, s, events)
    decreases |events|
  {
    if events == [] then s else After(sum, Apply(sum, s, events[0]), events[1..])
  }

  lemma {:induction false} OneMoreEvent(sum: Image -> string, s: State, events: seq<Event>, e: Event)
    requires IsHistory(sum, s, events) && Enabled(sum, After(sum, s, events), e)
    ensures IsHistory(sum, s, events + [e]) && After(sum, s, events + [e]) == Apply(sum, After(sum, s, events), e)
    decreases |events|
  {
    if events == [] {
      assert events + [e] == [e];
      assert [e][1..] == [];
    } else {
      assert (events + [e])[1..] == events[1..] + [e];
      OneMoreEvent(sum, Apply(sum, s, events[0]), events[1..], e);
    }
  }

  // ---------- crash safety ----------

  function Production(initial: Option<DbFile>, commits: seq<Commit>): Option<DbFile>
  {
    if commits == [] then initial else Some(Whole(commits[|commits| - 1].final))
  }

  ghost predicate ShadowInv(s: State)
  {
    match s.phase
    case Copying(_) => s.dir.shadow == Some(Torn)
    case Copied(_) => s.dir.shadow == Some(CopyOf(s.dir.prod))
    case Closed(_, current) => s.dir.shadow == Some(Whole(current))
    case _ => IsOpen(s.phase) && s.dir.journal.None? ==> s.dir.shadow == Some(Whole(s.phase.current))
  }

  /** While the database is open its journal holds what the transaction under way has touched; once
      it is closed there is none. */
  ghost predicate JournalInv(s: State)
  {
    && (IsOpen(s.phase) && s.dir.journal.Some? ==>
          && Agrees(s.phase.current, s.dir.journal.value)
          && s.dir.shadow.Some? && s.dir.shadow.value.Whole?
          && DifferWithin(s.phase.current, s.dir.shadow.value.image, s.dir.journal.value))
    && (s.phase.Closed? || s.phase.Committed? || s.phase.Truncated? ==> s.dir.journal.None?)
    && (IsOpen(s.phase) || s.phase.Closed? || s.phase.Committed? || s.phase.Truncated? ==> s.dir.wal.None?)
  }

  ghost predicate EndInv(s: State)
  {
    && (s.phase.Idle? <==> !s.end.Running?)
    && (s.phase.Committed? || s.phase.Truncated? ==> s.renamed)
    && (!s.phase.Idle? && s.renamed ==> s.phase.Committed? || s.phase.Truncated?)
    && (s.end.Failed? ==> !s.renamed)
    && (s.end.Succeeded? ==> s.renamed)
  }

  ghost predicate SafeInv(initial: Option<DbFile>, s: State)
  {
    && s.dir.prod == Production(initial, s.commits)
    && ShadowInv(s)
    && JournalInv(s)
    && EndInv(s)
    && (s.renamed ==> s.commits != [])
  }

  lemma TransactionKeepsSafe(sum: Image -> string, initial: Option<DbFile>, s: State, e: Event)
    requires SafeInv(initial, s) && Enabled(sum, s, e) && (e.Write? || e.End?)
    ensures SafeInv(initial, Apply(sum, s, e))
  {
  }

  lemma OpeningKeepsSafe(sum: Image -> string, initial: Option<DbFile>, s: State, e: Event)
    requires SafeInv(initial, s) && Enabled(sum, s, e)
    requires e.ReadCanary? || e.RemoveStale? || e.CreateShadow? || e.FinishCopy? || e.Connect?
    ensures SafeInv(initial, Apply(sum, s, e))
  {
  }

  lemma StepKeepsSafe(sum: Image -> string, initial: Option<DbFile>, s: State, e: Event)
    requires SafeInv(initial, s) && Enabled(sum, s, e)
    ensures SafeInv(initial, Apply(sum, s, e))
  {
    if e.Write? || e.End? {
      TransactionKeepsSafe(sum, initial, s, e);
    } else if e.ReadCanary? || e.RemoveStale? || e.CreateShadow? || e.FinishCopy? || e.Connect? {
      OpeningKeepsSafe(sum, initial, s, e);
    }
  }

  /** Whatever fails and wherever the process crashes, production is at all times exactly what
      the last run whose rename happened had made of its shadow; and a run ends without an
      error exactly if its rename happened, unless it crashes. */
  lemma {:induction false} CrashSafety(sum: Image -> string, initial: Option<DbFile>, s: State, events: seq<Event>)
    requires SafeInv(initial, s) && IsHistory(sum, s, events)
    ensures var t := After(sum, s, events);
      && SafeInv(initial, t)
      && t.dir.prod == Production(initial, t.commits)
      && (t.phase.Idle? && !t.end.Crashed? && !t.end.NoRun? ==> (t.end.Succeeded? <==> t.renamed))
    decreases |events|
  {
    if events != [] {
      StepKeepsSafe(sum, initial, s, events[0]);
      CrashSafety(sum, initial, Apply(sum, s, events[0]), events[1..]);
    }
  }

  // ---------- the guards of a commit ----------

  ghost predicate NoReadIn(events: seq<Event>, from: nat, to: nat)
    requires to <= |events|
  {
    forall i :: from <= i < to ==> !events[i].ReadCanary?
  }

  /** The latest run among the first `n` events has read the canary, and has found it still there
      after its scans. */
  ghost predicate CanaryStillThere(events: seq<Event>, n: nat)
    requires n <= |events|
  {
    exists i, k :: 0 <= i < k < n &&
      events[i] == ReadCanary(true) && NoReadIn(events, i + 1, n) && events[k] == PostCheck(true)
  }

  /** How far the latest run among the first `n` events has come with its two checks, and where they are. */
  datatype Guard = Unread | Read(at: nat) | Rechecked(at: nat, again: nat)

  function GuardOf(events: seq<Event>, n: nat): Guard
    requires n <= |events|
  {
    if n == 0 then Unread
    else
      var before := GuardOf(events, n - 1);
      match events[n - 1]
      case ReadCanary(ok) => if ok then Read(n - 1) else Unread
      case PostCheck(ok) => if ok && !before.Unread? then Rechecked(before.at, n - 1) else before
      case _ => before
  }

  lemma {:induction false} GuardMeans(events: seq<Event>, n: nat)
    requires n <= |events|
    ensures var guard := GuardOf(events, n);
      && (!guard.Unread? ==> guard.at < n && events[guard.at] == ReadCanary(true) && NoReadIn(events, guard.at + 1, n))
      && (guard.Rechecked? ==> guard.at < guard.again < n && events[guard.again] == PostCheck(true))
  {
    if n > 0 {
      GuardMeans(events, n - 1);
    }
  }

  predicate Guarded(phase: Phase, guard: Guard)
  {
    && (phase.Checked? || phase.Cleaned? || phase.Copying? || phase.Copied? || phase.Open? ==> !guard.Unread?)
    && (phase.PostChecked? || phase.Closed? ==> guard.Rechecked?)
  }

  /** In every history, production is replaced only by a run that has read the canary and then
      found it still there after its scans. */
  lemma {:induction false} CommitsAreGuarded(sum: Image -> string, s: State, events: seq<Event>, n: nat)
    requires n <= |events| && IsHistory(sum, s, events[n..]) && Guarded(s.phase, GuardOf(events, n))
    ensures forall j :: n <= j < |events| && events[j] == Rename(true) ==> CanaryStillThere(events, j)
    decreases |events| - n
  {
    if n < |events| {
      assert events[n..][1..] == events[n + 1..] && events[n..][0] == events[n];
      GuardMeans(events, n);
      CommitsAreGuarded(sum, Apply(sum, s, events[n]), events, n + 1);
    }
  }

  // ---------- what a run starts from ----------

  /** The image that a database file has once it is opened; a torn one cannot be. */
  function Contents(file: Option<DbFile>): Image
  {
    if CopyOf(file).Whole? then CopyOf(file).image else EMPTY
  }

  /** What lies beside the shadow changes nothing of this image. */
  predicate Harmless(dir: Dir, image: Image)
  {
    && (dir.wal.Some? ==> Agrees(image, dir.wal.value))
    && (dir.journal.Some? ==>
          && (forall path | path in dir.journal.value.rows ::
                (dir.wal.Some? && path in dir.wal.value.rows) || dir.journal.value.rows[path] == RowAt(image, path))
          && (dir.journal.value.history.Some? ==>
                (dir.wal.Some? && dir.wal.value.history.Some?) || dir.journal.value.history.value == image.history))
  }

  lemma ReplayedIff(dir: Dir, image: Image)
    ensures Replayed(dir, image) == image <==> Harmless(dir, image)
  {
    if dir.journal.Some? && dir.wal.Some? {
      OverwriteTwice(image, dir.journal.value, dir.wal.value);
      UnchangedIff(image, Layered(dir.journal.value, dir.wal.value));
    } else if dir.journal.Some? {
      UnchangedIff(image, dir.journal.value);
    } else if dir.wal.Some? {
      UnchangedIff(image, dir.wal.value);
    }
  }

  /** A complete copy of production can be opened exactly if production is not torn; a missing
      production counts as a database without rows and runs. The run then starts from exactly
      production, whatever stale shadow there was, exactly if the journal and the log that are left
      beside the shadow hold nothing but what production holds. */
  lemma OpensProduction(sum: Image -> string, initial: Option<DbFile>, s: State, removed: bool)
    requires SafeInv(initial, s) && s.phase.Copied?
    ensures Enabled(sum, s, Connect(true, removed)) <==> s.dir.prod != Some(Torn)
    ensures s.dir.prod != Some(Torn) ==>
      var image := if s.dir.prod.None? then Image(map[], []) else s.dir.prod.value.image;
      && (Apply(sum, s, Connect(true, removed)).phase.start == image <==> Harmless(s.dir, image))
      && (s.dir.wal.None? && s.dir.journal.None? ==> Apply(sum, s, Connect(true, removed)).phase.start == image)
  {
    ReplayedIff(s.dir, Contents(s.dir.prod));
  }

  /** A crash in the middle of a transaction leaves a journal that is harmless to the next run exactly
      if the run had not changed before what this transaction touches. So it is always harmless
      in the first transaction of a run. */
  lemma HotJournalIsHarmlessExactly(initial: Option<DbFile>, s: State)
    requires SafeInv(initial, s) && IsOpen(s.phase) && s.dir.journal.Some? && s.phase.start == Contents(s.dir.prod)
    ensures Harmless(s.dir, Contents(s.dir.prod))
       <==> && (forall path | path in s.dir.journal.value.rows ::
                  RowAt(s.phase.current, path) == RowAt(s.phase.start, path))
            && (s.dir.journal.value.history.Some? ==> s.phase.current.history == s.phase.start.history)
    ensures s.phase.current == s.phase.start ==> Harmless(s.dir, Contents(s.dir.prod))
  {
  }

  /** No crash leaves a harmful journal, and leftover logs that would do harm can be removed. */
  predicate TidyEvent(s: State, e: Event)
  {
    match e
    case Crash(_, kept) => kept && s.dir.journal.Some? ==> Agrees(Contents(s.dir.prod), s.dir.journal.value)
    case RemoveStale(_, walGone) => s.dir.wal.Some? && !Agrees(Contents(s.dir.prod), s.dir.wal.value) ==> walGone
    case _ => true
  }

  predicate Tidy(sum: Image -> string, s: State, events: seq<Event>)
    requires IsHistory(sum, s, events)
    decreases |events|
  {
    events == [] || (TidyEvent(s, events[0]) && Tidy(sum, Apply(sum, s, events[0]), events[1..]))
  }

  lemma {:induction false} OneMoreTidy(sum: Image -> string, s: State, events: seq<Event>, e: Event)
    requires IsHistory(sum, s, events) && Tidy(sum, s, events)
    requires Enabled(sum, After(sum, s, events), e) && TidyEvent(After(sum, s, events), e)
    ensures IsHistory(sum, s, events + [e]) && Tidy(sum, s, events + [e])
    decreases |events|
  {
    OneMoreEvent(sum, s, events, e);
    if events == [] {
      assert (events + [e])[1..] == [];
    } else {
      assert (events + [e])[1..] == events[1..] + [e];
      OneMoreTidy(sum, Apply(sum, s, events[0]), events[1..], e);
    }
  }

  /** Committed runs form a chain: each starts from exactly what the one before it left. */
  ghost predicate Chained(initial: Option<DbFile>, commits: seq<Commit>)
  {
    forall k :: 0 <= k < |commits| ==> StartsFromLast(initial, commits, k)
  }

  ghost predicate StartsFromLast(initial: Option<DbFile>, commits: seq<Commit>, k: nat)
    requires k < |commits|
  {
    commits[k].start == Contents(Production(initial, commits[..k]))
  }

  ghost predicate TidyInv(initial: Option<DbFile>, s: State)
  {
    && SafeInv(initial, s)
    && (!IsOpen(s.phase) && s.dir.journal.Some? ==> Agrees(Contents(s.dir.prod), s.dir.journal.value))
    && (s.phase.Cleaned? || s.phase.Copying? || s.phase.Copied? ==>
          s.dir.wal.Some? ==> Agrees(Contents(s.dir.prod), s.dir.wal.value))
    && (IsOpen(s.phase) || s.phase.Closed? ==> s.phase.start == Contents(s.dir.prod))
    && Chained(initial, s.commits)
  }

  lemma ChainGrows(initial: Option<DbFile>, commits: seq<Commit>, c: Commit)
    requires Chained(initial, commits) && c.start == Contents(Production(initial, commits))
    ensures Chained(initial, commits + [c])
  {
    var after := commits + [c];
    forall k | 0 <= k < |after| ensures StartsFromLast(initial, after, k) {
      assert after[..k] == commits[..k];
      assert k < |commits| ==> StartsFromLast(initial, commits, k);
      assert k == |commits| ==> commits[..k] == commits;
    }
  }

  lemma ConnectKeepsTidy(sum: Image -> string, initial: Option<DbFile>, s: State, removed: bool)
    requires TidyInv(initial, s) && Enabled(sum, s, Connect(true, removed))
    ensures TidyInv(initial, Apply(sum, s, Connect(true, removed)))
  {
    StepKeepsSafe(sum, initial, s, Connect(true, removed));
    ReplayedIff(s.dir, Contents(s.dir.prod));
  }

  lemma RenameKeepsTidy(sum: Image -> string, initial: Option<DbFile>, s: State)
    requires TidyInv(initial, s) && Enabled(sum, s, Rename(true))
    ensures TidyInv(initial, Apply(sum, s, Rename(true)))
  {
    StepKeepsSafe(sum, initial, s, Rename(true));
    ChainGrows(initial, s.commits, Commit(s.phase.start, s.phase.current));
  }

  lemma OpenKeepsTidy(sum: Image -> string, initial: Option<DbFile>, s: State, e: Event)
    requires TidyInv(initial, s) && Enabled(sum, s, e)
    requires e.Write? || e.End? || e.ScanFails? || e.PostCheck? || e.Close?
    ensures TidyInv(initial, Apply(sum, s, e))
  {
    StepKeepsSafe(sum, initial, s, e);
  }

  lemma StepKeepsTidy(sum: Image -> string, initial: Option<DbFile>, s: State, e: Event)
    requires TidyInv(initial, s) && Enabled(sum, s, e) && TidyEvent(s, e)
    ensures TidyInv(initial, Apply(sum, s, e))
  {
    if e.Rename? && e.ok {
      RenameKeepsTidy(sum, initial, s);
    } else if e.Connect? && e.ok {
      ConnectKeepsTidy(sum, initial, s, e.removed);
    } else if e.Write? || e.End? || e.ScanFails? || e.PostCheck? || e.Close? {
      OpenKeepsTidy(sum, initial, s, e);
    } else {
      StepKeepsSafe(sum, initial, s, e);
    }
  }

  /** If no harmful journal survives a crash, all committed runs of a history form a chain from the
      initial database to production, and whatever run is open started from production. */
  lemma {:induction false} CommitsChain(sum: Image -> string, initial: Option<DbFile>, s: State, events: seq<Event>)
    requires TidyInv(initial, s) && IsHistory(sum, s, events) && Tidy(sum, s, events)
    ensures TidyInv(initial, After(sum, s, events))
    decreases |events|
  {
    if events != [] {
      StepKeepsTidy(sum, initial, s, events[0]);
      CommitsChain(sum, initial, Apply(sum, s, events[0]), events[1..]);
    }
  }
}
