/** What a crash in the middle of a transaction does to the next run. */
module HotJournal {
  import opened Domain
  import opened Storage
  import opened DriveModel

  ghost predicate Leads(sum: Image -> string, s: State, t: State)
  {
    exists events :: IsHistory(sum, s, events) && After(sum, s, events) == t
  }

  lemma Then(sum: Image -> string, s0: State, s: State, e: Event) returns (t: State)
    requires Leads(sum, s0, s) && Enabled(sum, s, e)
    ensures t == Apply(sum, s, e) && Leads(sum, s0, t)
  {
    var events :| IsHistory(sum, s0, events) && After(sum, s0, events) == s;
    OneMoreEvent(sum, s0, events, e);
    t := Apply(sum, s, e);
  }

  lemma OpenUp(sum: Image -> string, s0: State, s: State) returns (t: State)
    requires Leads(sum, s0, s) && s.phase.Idle? && s.dir.canary.Some? && s.dir.prod != Some(Torn)
    requires s.dir.wal.None?
    ensures Leads(sum, s0, t) && t.phase.Open? && t.phase.start == t.phase.current
    ensures t.phase.start == Replayed(s.dir, Contents(s.dir.prod))
    ensures t.dir == s.dir.(shadow := Some(Whole(t.phase.start)), journal := None) && t.commits == s.commits
  {
    t := Then(sum, s0, s, ReadCanary(true));
    t := Then(sum, s0, t, RemoveStale(true, true));
    t := Then(sum, s0, t, CreateShadow(true));
    t := Then(sum, s0, t, FinishCopy(true));
    t := Then(sum, s0, t, Connect(true, true));
  }

  /** A run that dies in a transaction with its journal in place, and the next run that opens: it starts
      from production exactly if the transaction had touched nothing that its run had changed before. */
  lemma NextRunExactly(sum: Image -> string, initial: Option<DbFile>, s: State, shadow: Option<DbFile>)
    returns (t: State)
    requires SafeInv(initial, s) && IsOpen(s.phase) && s.dir.journal.Some?
    requires s.phase.start == Contents(s.dir.prod) && s.dir.prod != Some(Torn) && s.dir.canary.Some?
    ensures Leads(sum, s, t) && t.phase.Open? && t.dir.prod == s.dir.prod && t.commits == s.commits
    ensures t.phase.start == Contents(s.dir.prod)
       <==> && (forall path | path in s.dir.journal.value.rows ::
                  RowAt(s.phase.current, path) == RowAt(s.phase.start, path))
            && (s.dir.journal.value.history.Some? ==> s.phase.current.history == s.phase.start.history)
  {
    assert IsHistory(sum, s, []) && After(sum, s, []) == s;
    HotJournalIsHarmlessExactly(initial, s);
    t := Then(sum, s, s, Crash(shadow, true));
    ReplayedIff(t.dir, Contents(s.dir.prod));
    t := OpenUp(sum, s, t);
  }

  const FIRST_ROW := Row("h", 1, 1, None, 0, 1, 1)
  const SECOND_ROW := Stamped(FIRST_ROW, 2)

  const FIRST_IMAGE := Image(map["/a" := FIRST_ROW], [])
  const SECOND_IMAGE := Image(map["/a" := SECOND_ROW], [])

  /** The sync of a run inserts a row, and the run crashes while its scrub stamps it. */
  lemma CrashInSecondTransaction(sum: Image -> string, s0: State, s: State) returns (t: State)
    requires Leads(sum, s0, s) && s.phase.Open? && s.phase.current == EMPTY && s.dir.journal.None?
    ensures Leads(sum, s0, t) && t.phase.Idle? && t.commits == s.commits
    ensures t.dir == s.dir.(shadow := Some(Whole(SECOND_IMAGE)), journal := Some(Saved(FIRST_IMAGE, {"/a"}, false)))
  {
    t := Then(sum, s0, s, Write(FIRST_IMAGE, {"/a"}, false));
    t := Then(sum, s0, t, End(true));
    t := Then(sum, s0, t, Write(SECOND_IMAGE, {"/a"}, false));
    t := Then(sum, s0, t, Crash(t.dir.shadow, true));
  }

  /** The promise that a crashed run leaves the next one nothing is broken by a hot journal. A run
      inserts a row, and crashes while its scrub stamps that row: the journal holds the inserted row.
      The leftovers are cleared of the shadow and its log but not of its journal, and so the
      next run starts with a row that no run has committed. */
  lemma HotJournalSurvives(sum: Image -> string, s: State) returns (t: State)
    requires s.phase.Idle? && s.dir == Dir(Some(Whole(EMPTY)), None, None, None, Some("")) && s.commits == []
    ensures Leads(sum, s, t) && t.phase.Open? && t.phase.start == FIRST_IMAGE
    ensures t.dir.prod == Some(Whole(EMPTY)) && t.commits == []
  {
    assert IsHistory(sum, s, []) && After(sum, s, []) == s;
    t := OpenUp(sum, s, s);
    t := CrashInSecondTransaction(sum, s, t);
    t := OpenUp(sum, s, t);
  }
}
