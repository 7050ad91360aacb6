/** Inputs that show where the pipeline's promises stop. */
module SyncExamples {
  import opened Domain
  import opened SyncModel
  import opened SyncInvariant
  import opened SyncTheorems
  import opened SyncSchedules

  /** During a run, a record whose file is on disk can be claimed as moved exactly as long as the
      walker has not reached that file. */
  lemma FalseMovePossible(cfg: Config, s: State, source: Path, addedAt: int, now: int, deleted: bool, upserted: bool)
    requires cfg.Valid() && Inv(cfg, s) && s.collector.phase.Collecting? && s.collector.hand.Some?
    requires var r := s.collector.hand.value;
             !r.err && r.path !in cfg.stored && cfg.Matches(r.path, Stat(r.size, r.mtime), source)
    requires source in cfg.Disk()
    ensures Enabled(cfg, s, Collect(Record(Some(source), addedAt, now, deleted, upserted)))
       <==> exists i :: s.walker.cursor <= i < |cfg.walk| && cfg.walk[i].Found? && cfg.walk[i].path == source
  {
    var i := IndexOf(cfg.walk, |cfg.walk|, source);
    if source in s.walker.seen {
      var k := IndexOf(cfg.walk, s.walker.cursor, source);
      assert forall j :: s.walker.cursor <= j < |cfg.walk| && cfg.walk[j].Found? ==> cfg.walk[j].path != source;
    } else if i < s.walker.cursor {
      FoundIn(cfg.walk, s.walker.cursor, i);
    }
  }

  // ---------- a false move that costs a record ----------

  const OLD_ROW := Row("h", 5, 5, None, 0, 1, 0)

  const NEW_STAT := Stat(1, 0)
  const CHANGED_STAT := Stat(2, 0)

  /** A recorded file has changed and cannot be read; a new file looks like the record. They are walked
      in the order of their names. */
  function LossConfig(changed: Path, newFile: Path): Config
  {
    Config(if Before(newFile, changed) then [Found(newFile, NEW_STAT), Found(changed, CHANGED_STAT)]
           else [Found(changed, CHANGED_STAT), Found(newFile, NEW_STAT)],
           map[changed := OLD_ROW], map[newFile := "h"], 1)
  }

  /** If the new file's name comes first, a completed sync without failing repository calls can lose
      the record, although its file is on disk. */
  lemma FalseMoveLosesRecord()
    ensures LexicalWalk(LossConfig("/b", "/a").walk) && CanLose(LossConfig("/b", "/a"), "/b")
  {
    var cfg := LossConfig("/b", "/a");
    assert Before("a", "b") && Before("/a", "/b");
    FoundIn(cfg.walk, 2, 0);
    FoundIn(cfg.walk, 2, 1);
    AheadByName(cfg, "/a", "/b");
    assert cfg.MayClaim("/a", "/b");
    LosableExactly(cfg, "/b");
  }

  /** If the two names are the other way round, none can. */
  lemma WalkOrderMatters()
    ensures LexicalWalk(LossConfig("/a", "/b").walk) && !CanLose(LossConfig("/a", "/b"), "/a")
  {
    var cfg := LossConfig("/a", "/b");
    assert Before("a", "b") && Before("/a", "/b");
    BeforeIsOneWay("/a", "/b");
    FoundIn(cfg.walk, 2, 0);
    AheadByName(cfg, "/b", "/a");
    forall path ensures !cfg.MayClaim(path, "/a") {
      assert cfg.Disk().Keys == {"/a", "/b"};
    }
    LosableExactly(cfg, "/a");
  }

  // ---------- a cancelled sync that returns nil ----------

  function CancelConfig(): Config
  {
    Config([Found("/b", NEW_STAT)], map[], map["/b" := "h"], 1)
  }

  /** The worker holds "/b" and the walker has nothing more to visit. */
  function FileTaken(): State
  {
    State(Walker(1, None, None, map["/b" := Stat(1, 0)]), Channels([], [], false),
          Pool(0, [WorkItem("/b", 1, 0, "")], 0), Collector(None, Collecting),
          false, map[], SyncResult(1, 0, 0, 0, 0, []), Log(map[], {}, {}, {}, {}))
  }

  lemma FileIsTaken()
    ensures Reachable(CancelConfig(), FileTaken())
  {
    var cfg := CancelConfig();
    Start(cfg);
    var s := Go(cfg, Init(cfg), Walk(Visiting));
    assert s.walker == Walker(1, Some(WorkItem("/b", 1, 0, "")), None, map["/b" := Stat(1, 0)]);
    s := Go(cfg, s, Walk(Send));
    s := Go(cfg, s, Work(Take));
    assert s == FileTaken();
  }

  /** A sync that is cancelled after its walk can return nil without having recorded a file that
      it has seen and could have hashed, and without reporting an error. */
  lemma CancelledButNil() returns (s: State)
    ensures Reachable(CancelConfig(), s) && s.cancelled && s.collector.phase.Finished?
    ensures Hashable(CancelConfig(), "/b") && "/b" in s.walker.seen && "/b" !in s.rows && s.result.errors == []
  {
    var cfg := CancelConfig();
    FileIsTaken();
    s := Go(cfg, FileTaken(), Walk(FinishWalk));
    s := Go(cfg, s, Cancel);
    s := Go(cfg, s, Work(Drop(0)));
    s := Go(cfg, s, Work(CloseResults));
    s := Go(cfg, s, Collect(EndLoop));
    assert s.collector.phase == Sweeping({});
    s := Go(cfg, s, Collect(Finish));
    FoundIn(cfg.walk, 1, 0);
  }
}
