/** Which outcomes some schedule brings about. A run is built file by file: each file passes
    through the whole pipeline before the walker goes on, so that at its turn exactly the files
    before it have been seen. This turns the bounds of `SyncTheorems` into exact conditions on
    the input of a sync. */
module SyncSchedules {
  import opened Domain
  import opened SyncModel
  import opened SyncInvariant
  import opened SyncTheorems
  import SyncProgress

  ghost predicate Reachable(cfg: Config, s: State)
  {
    exists steps :: IsRun(cfg, Init(cfg), steps) && After(cfg, Init(cfg), steps) == s
  }

  lemma Start(cfg: Config)
    ensures Reachable(cfg, Init(cfg))
  {
    assert IsRun(cfg, Init(cfg), []) && After(cfg, Init(cfg), []) == Init(cfg);
  }

  lemma ReachableInv(cfg: Config, s: State)
    requires cfg.Valid() && Reachable(cfg, s)
    ensures Inv(cfg, s)
  {
    var steps :| IsRun(cfg, Init(cfg), steps) && After(cfg, Init(cfg), steps) == s;
    InitInv(cfg);
    RunInvariant(cfg, Init(cfg), steps);
  }

  lemma Go(cfg: Config, s: State, step: Step) returns (t: State)
    requires Reachable(cfg, s) && Enabled(cfg, s, step)
    ensures t == Apply(cfg, s, step) && Reachable(cfg, t)
  {
    var steps :| IsRun(cfg, Init(cfg), steps) && After(cfg, Init(cfg), steps) == s;
    OneMoreStep(cfg, Init(cfg), steps, step);
    t := Apply(cfg, s, step);
  }

  // ---------- what a run never takes back ----------

  ghost predicate LogExtends(before: Log, after: Log)
  {
    && before.claimed <= after.claimed
    && forall path :: path in before.verdict ==> path in after.verdict && after.verdict[path] == before.verdict[path]
  }

  lemma RecordExtends(cfg: Config, s: State, c: CollectorStep)
    requires Flow(s) && CollectorEnabled(cfg, s, c) && c.Record?
    ensures var t := ApplyCollector(cfg, s, c);
            && LogExtends(s.log, t.log) && t.log.undeleted == s.log.undeleted
            && (c.upserted ==> t.log.upsertFailed == s.log.upsertFailed)
  {
    assert FlowAt(s, s.collector.hand.value.path);
    HandIsFresh(s);
  }

  /** No other step judges or claims anything. */
  lemma OthersExtend(cfg: Config, s: State, step: Step)
    requires Enabled(cfg, s, step) && !(step.Collect? && step.c.Record?)
    ensures var t := Apply(cfg, s, step);
            && t.log.verdict == s.log.verdict && t.log.claimed == s.log.claimed
            && t.log.upsertFailed == s.log.upsertFailed
            && (SyncProgress.CallsSucceed(step) ==> t.log.undeleted == s.log.undeleted)
  {
  }

  lemma StepExtends(cfg: Config, s: State, step: Step)
    requires Flow(s) && Enabled(cfg, s, step)
    ensures LogExtends(s.log, Apply(cfg, s, step).log)
    ensures SyncProgress.CallsSucceed(step) ==>
              var t := Apply(cfg, s, step);
              t.log.upsertFailed == s.log.upsertFailed && t.log.undeleted == s.log.undeleted
  {
    if step.Collect? && step.c.Record? {
      RecordExtends(cfg, s, step.c);
    } else {
      OthersExtend(cfg, s, step);
    }
  }

  /** Any state that was not cancelled can be carried on to the return, with all calls succeeding. */
  lemma {:induction false} CarryOn(cfg: Config, s: State) returns (t: State)
    requires cfg.Valid() && Reachable(cfg, s) && Inv(cfg, s) && !s.cancelled && !s.collector.phase.Aborted?
    ensures Reachable(cfg, t) && t.collector.phase.Finished? && !t.cancelled
    ensures LogExtends(s.log, t.log) && t.log.upsertFailed == s.log.upsertFailed && t.log.undeleted == s.log.undeleted
    decreases SyncProgress.Measure(cfg, s)
  {
    if Running(s) {
      var step := SyncProgress.NeverBlocked(cfg, s);
      SyncProgress.StepsDecrease(cfg, s, step);
      Invariant(cfg, s, step);
      StepExtends(cfg, s, step);
      var next := Go(cfg, s, step);
      assert PhaseInv(cfg, next.walker.done, next.chans, next.collector, next.cancelled);
      t := CarryOn(cfg, next);
    } else {
      t := s;
    }
  }

  lemma Completed(cfg: Config, s: State) returns (steps: seq<Step>)
    requires cfg.Valid() && Reachable(cfg, s) && s.collector.phase.Finished? && !s.cancelled
    ensures Completes(cfg, steps, s)
  {
    steps :| IsRun(cfg, Init(cfg), steps) && After(cfg, Init(cfg), steps) == s;
  }

  // ---------- one file at a time ----------

  /** The first `n` visits are done, and nothing is under way but the result in the collector's hand
      and what workers hold back. */
  ghost predicate Calm(cfg: Config, s: State, n: nat, hand: Option<WorkResult>, held: seq<WorkItem> := [])
  {
    && n <= |cfg.walk| && |held| <= cfg.workers
    && s.walker == Walker(n, None, None, Tree(cfg.walk, n))
    && s.chans == Channels([], [], false)
    && s.pool == Pool(cfg.workers - |held|, held, 0)
    && s.collector == Collector(hand, Collecting)
    && !s.cancelled
  }

  function ResultFor(cfg: Config, path: Path, stat: Stat): WorkResult
  {
    cfg.ResultOf(cfg.ItemFor(path, stat), false)
  }

  lemma Skip(cfg: Config, s: State, n: nat, held: seq<WorkItem> := []) returns (t: State)
    requires Reachable(cfg, s) && Calm(cfg, s, n, None, held) && n < |cfg.walk| && !cfg.walk[n].Found?
    ensures Reachable(cfg, t) && Calm(cfg, t, n + 1, None, held) && t.log == s.log
  {
    t := Go(cfg, s, Walk(Visiting));
  }

  lemma Deliver(cfg: Config, s: State, n: nat, held: seq<WorkItem> := []) returns (t: State)
    requires Reachable(cfg, s) && Calm(cfg, s, n, None, held) && |held| < cfg.workers
    requires n < |cfg.walk| && cfg.walk[n].Found?
    ensures Reachable(cfg, t) && t.log == s.log
    ensures Calm(cfg, t, n + 1, Some(ResultFor(cfg, cfg.walk[n].path, cfg.walk[n].stat)), held)
  {
    t := Hold(cfg, s, n, held);
    t := Hand(cfg, t, n + 1, held, cfg.ItemFor(cfg.walk[n].path, cfg.walk[n].stat));
  }

  /** A worker takes the file at visit `n`. */
  lemma Hold(cfg: Config, s: State, n: nat, held: seq<WorkItem> := []) returns (t: State)
    requires Reachable(cfg, s) && Calm(cfg, s, n, None, held) && |held| < cfg.workers
    requires n < |cfg.walk| && cfg.walk[n].Found?
    ensures Reachable(cfg, t) && t.log == s.log
    ensures Calm(cfg, t, n + 1, None, held + [cfg.ItemFor(cfg.walk[n].path, cfg.walk[n].stat)])
  {
    var item := cfg.ItemFor(cfg.walk[n].path, cfg.walk[n].stat);
    t := Go(cfg, s, Walk(Visiting));
    assert t.walker == Walker(n + 1, Some(item), None, Tree(cfg.walk, n + 1));
    t := Go(cfg, t, Walk(Send));
    assert t.chans.work == [item];
    t := Go(cfg, t, Work(Take));
    assert t.chans.work == [];
  }

  /** It is hashed, and the collector receives the result. */
  lemma Hand(cfg: Config, s: State, n: nat, held: seq<WorkItem>, item: WorkItem) returns (t: State)
    requires Reachable(cfg, s) && Calm(cfg, s, n, None, held + [item])
    ensures Reachable(cfg, t) && t.log == s.log && Calm(cfg, t, n, Some(cfg.ResultOf(item, false)), held)
  {
    t := Go(cfg, s, Work(Put(|held|, false)));
    assert Without(held + [item], |held|) == held;
    assert t.chans.results == [cfg.ResultOf(item, false)];
    t := Go(cfg, t, Collect(Receive));
  }

  lemma Settle(cfg: Config, s: State, n: nat, r: WorkResult, movedFrom: Option<Path>, upserted: bool,
               held: seq<WorkItem> := [])
    returns (t: State)
    requires Reachable(cfg, s) && Calm(cfg, s, n, Some(r), held) && RecordEnabled(cfg, s.walker.seen, r, movedFrom)
    ensures Reachable(cfg, t) && Calm(cfg, t, n, None, held)
    ensures t.log == NoteVerdict(s.log, r.path, Classify(cfg, r, movedFrom), true, upserted)
  {
    t := Go(cfg, s, Collect(Record(movedFrom, 0, 0, true, upserted)));
  }

  /** Whatever the search may answer is an answer it can give. */
  lemma SomeAnswer(cfg: Config, seen: map<Path, Stat>, r: WorkResult) returns (movedFrom: Option<Path>)
    ensures RecordEnabled(cfg, seen, r, movedFrom)
  {
    movedFrom := None;
    if !r.err && r.path !in cfg.stored {
      movedFrom := SyncProgress.MoveSearchAnswers(cfg, seen, r.path, Stat(r.size, r.mtime));
    }
  }

  lemma PassFile(cfg: Config, s: State, n: nat, upserted: bool, held: seq<WorkItem> := []) returns (t: State)
    requires cfg.Valid() && Reachable(cfg, s) && Calm(cfg, s, n, None, held) && |held| < cfg.workers
    requires n < |cfg.walk| && cfg.walk[n].Found?
    ensures Reachable(cfg, t) && Calm(cfg, t, n + 1, None, held)
    ensures LogExtends(s.log, t.log) && t.log.undeleted == s.log.undeleted
    ensures t.log.upsertFailed == s.log.upsertFailed
      + if upserted || ResultFor(cfg, cfg.walk[n].path, cfg.walk[n].stat).err then {} else {cfg.walk[n].path}
  {
    var u := Deliver(cfg, s, n, held);
    var r := u.collector.hand.value;
    var movedFrom := SomeAnswer(cfg, u.walker.seen, r);
    HandIsNew(cfg, u);
    t := Settle(cfg, u, n + 1, r, movedFrom, upserted, held);
  }

  lemma HandIsNew(cfg: Config, s: State)
    requires cfg.Valid() && Reachable(cfg, s) && s.collector.hand.Some?
    ensures s.collector.hand.value.path !in s.log.verdict
  {
    ReachableInv(cfg, s);
    assert FlowAt(s, s.collector.hand.value.path);
    HandIsFresh(s);
  }

  /** The next visit, from start to finish; its upsert fails if that is wanted. */
  lemma PassOne(cfg: Config, s: State, n: nat, upserted: bool, held: seq<WorkItem> := []) returns (t: State)
    requires cfg.Valid() && Reachable(cfg, s) && Calm(cfg, s, n, None, held) && |held| < cfg.workers
    requires n < |cfg.walk|
    ensures Reachable(cfg, t) && Calm(cfg, t, n + 1, None, held)
    ensures LogExtends(s.log, t.log) && t.log.undeleted == s.log.undeleted
    ensures upserted ==> t.log.upsertFailed == s.log.upsertFailed
    ensures !upserted && cfg.walk[n].Found? && !ResultFor(cfg, cfg.walk[n].path, cfg.walk[n].stat).err ==>
              t.log.upsertFailed == s.log.upsertFailed + {cfg.walk[n].path}
  {
    if cfg.walk[n].Found? {
      t := PassFile(cfg, s, n, upserted, held);
    } else {
      t := Skip(cfg, s, n, held);
    }
  }

  lemma {:induction false} PassUntil(cfg: Config, s: State, n: nat, m: nat, held: seq<WorkItem> := [])
    returns (t: State)
    requires cfg.Valid() && Reachable(cfg, s) && Calm(cfg, s, n, None, held) && |held| < cfg.workers
    requires n <= m <= |cfg.walk|
    ensures Reachable(cfg, t) && Calm(cfg, t, m, None, held)
    ensures LogExtends(s.log, t.log)
    ensures t.log.upsertFailed == s.log.upsertFailed && t.log.undeleted == s.log.undeleted
    decreases m - n
  {
    t := s;
    if n < m {
      t := PassOne(cfg, s, n, true, held);
      t := PassUntil(cfg, t, n + 1, m, held);
    }
  }

  /** The file at visit `n` claims a record whose file has not been seen by then. */
  lemma Claim(cfg: Config, s: State, n: nat, source: Path) returns (t: State)
    requires cfg.Valid() && Reachable(cfg, s) && Calm(cfg, s, n, None) && n < |cfg.walk| && cfg.walk[n].Found?
    requires var path := cfg.walk[n].path;
             && path !in cfg.stored && path in cfg.content
             && cfg.Matches(path, cfg.walk[n].stat, source) && source !in Tree(cfg.walk, n + 1)
    ensures Reachable(cfg, t) && Calm(cfg, t, n + 1, None)
    ensures t.log.verdict == s.log.verdict[cfg.walk[n].path := MovedFrom(source)]
    ensures source in t.log.claimed
    ensures t.log.upsertFailed == s.log.upsertFailed && t.log.undeleted == s.log.undeleted
  {
    t := Deliver(cfg, s, n);
    t := Settle(cfg, t, n + 1, t.collector.hand.value, Some(source), true);
  }

  lemma {:induction false} IndexOf(walk: seq<Visit>, n: nat, path: Path) returns (i: nat)
    requires n <= |walk| && DistinctFiles(walk) && path in Tree(walk, n)
    ensures i < n && walk[i] == Found(path, Tree(walk, n)[path]) && path !in Tree(walk, i)
  {
    TreeOrigin(walk, n, path);
    if walk[n - 1].Found? && walk[n - 1].path == path {
      i := n - 1;
      NotYetSeen(walk, i);
    } else {
      i := IndexOf(walk, n - 1, path);
    }
  }

  lemma ClaimAtTurn(cfg: Config, path: Path, source: Path) returns (s: State, n: nat)
    requires cfg.Valid() && cfg.MayClaim(path, source)
    ensures Reachable(cfg, s) && Calm(cfg, s, n, None) && source !in Tree(cfg.walk, n)
    ensures path in s.log.verdict && s.log.verdict[path] == MovedFrom(source) && source in s.log.claimed
    ensures s.log.upsertFailed == {} && s.log.undeleted == {}
  {
    var i :| 0 <= i < |cfg.walk| && cfg.walk[i].Found? && cfg.walk[i].path == path && source !in Tree(cfg.walk, i + 1);
    FoundIn(cfg.walk, |cfg.walk|, i);
    Start(cfg);
    s := PassUntil(cfg, Init(cfg), 0, i);
    s := Claim(cfg, s, i, source);
    n := i + 1;
  }

  /** The upsert of a file that has not been walked yet fails, when its turn comes. */
  lemma FailAtTurn(cfg: Config, s: State, n: nat, path: Path) returns (t: State)
    requires cfg.Valid() && Reachable(cfg, s) && Calm(cfg, s, n, None)
    requires path !in Tree(cfg.walk, n) && Hashable(cfg, path)
    ensures Reachable(cfg, t) && Running(t) && !t.cancelled
    ensures LogExtends(s.log, t.log) && t.log.upsertFailed == s.log.upsertFailed + {path}
    ensures t.log.undeleted == s.log.undeleted
  {
    var j := IndexOf(cfg.walk, |cfg.walk|, path);
    if j < n {
      FoundIn(cfg.walk, n, j);
    }
    t := PassUntil(cfg, s, n, j);
    t := PassOne(cfg, t, j, false);
  }

  /** A record that may be claimed is claimed in some run; and if the file of the record is on disk
      and hashes, its own upsert can fail in that run. */
  lemma ClaimingRun(cfg: Config, path: Path, source: Path, fails: bool) returns (steps: seq<Step>, s: State)
    requires cfg.Valid() && cfg.MayClaim(path, source)
    requires fails ==> Hashable(cfg, source)
    ensures Completes(cfg, steps, s) && s.log.undeleted == {}
    ensures path in s.log.verdict && s.log.verdict[path] == MovedFrom(source) && source in s.log.claimed
    ensures s.log.upsertFailed == if fails then {source} else {}
  {
    var n;
    s, n := ClaimAtTurn(cfg, path, source);
    if fails {
      s := FailAtTurn(cfg, s, n, source);
    }
    ReachableInv(cfg, s);
    s := CarryOn(cfg, s);
    steps := Completed(cfg, s);
  }

  lemma {:induction false} FoundIn(walk: seq<Visit>, n: nat, i: nat)
    requires DistinctFiles(walk) && i < n <= |walk| && walk[i].Found?
    ensures walk[i].path in Tree(walk, n) && Tree(walk, n)[walk[i].path] == walk[i].stat
  {
    if i < n - 1 {
      FoundIn(walk, n - 1, i);
    }
  }

  // ---------- the order of the walk ----------

  /** In the order of the walk: directory by directory, and by name within a directory. */
  predicate Before(a: Path, b: Path)
  {
    if b == "" then false
    else if a == "" then true
    else if a[0] != b[0] then Rank(a[0]) < Rank(b[0])
    else Before(a[1..], b[1..])
  }

  /** The separator comes before every other character. */
  function Rank(c: char): nat
  {
    if c == '/' then 0 else c as nat + 1
  }

  /** The order in which `filepath.WalkDir` reports files. */
  predicate LexicalWalk(walk: seq<Visit>)
  {
    forall i, j :: 0 <= i < j < |walk| && walk[i].Found? && walk[j].Found? ==> Before(walk[i].path, walk[j].path)
  }

  lemma {:induction false} BeforeIsOneWay(a: Path, b: Path)
    requires Before(a, b)
    ensures !Before(b, a) && a != b
    decreases |a|
  {
    if a != "" && a[0] == b[0] {
      BeforeIsOneWay(a[1..], b[1..]);
    }
  }

  /** In a lexical walk the names say which file is ahead. */
  lemma AheadByName(cfg: Config, path: Path, source: Path)
    requires cfg.Valid() && LexicalWalk(cfg.walk) && path in cfg.Disk() && source != path
    ensures cfg.Ahead(path, source) <==> source !in cfg.Disk() || Before(path, source)
  {
    var i := IndexOf(cfg.walk, |cfg.walk|, path);
    assert forall k :: 0 <= k < |cfg.walk| && cfg.walk[k].Found? && cfg.walk[k].path == path ==> k == i;
    TreeGrows(cfg.walk, i + 1, |cfg.walk|);
    if source in cfg.Disk() {
      var j := IndexOf(cfg.walk, |cfg.walk|, source);
      if j < i {
        FoundIn(cfg.walk, i + 1, j);
        BeforeIsOneWay(source, path);
      } else {
        TreeGrows(cfg.walk, i + 1, j);
        assert Before(path, source);
      }
    }
  }

  // ---------- exact conditions ----------

  ghost predicate CanClaim(cfg: Config, path: Path, source: Path)
  {
    exists steps, s :: Completes(cfg, steps, s) && path in s.log.verdict && s.log.verdict[path] == MovedFrom(source)
  }

  /** Some completed sync takes a file for moved from a record exactly if the file is new, can be
      hashed and matches the record, and the walk does not report the record's file before it. */
  lemma ClaimedExactly(cfg: Config, path: Path, source: Path)
    requires cfg.Valid()
    ensures CanClaim(cfg, path, source) <==> cfg.MayClaim(path, source)
  {
    if CanClaim(cfg, path, source) {
      var steps, s :| Completes(cfg, steps, s) && path in s.log.verdict && s.log.verdict[path] == MovedFrom(source);
      CompletedJudgesAll(cfg, steps, s);
      MovesAreClaims(cfg, s, path, source);
    }
    if cfg.MayClaim(path, source) {
      var steps, s := ClaimingRun(cfg, path, source, false);
    }
  }

  ghost predicate CanLose(cfg: Config, path: Path)
  {
    exists steps, s :: Completes(cfg, steps, s) && s.log.upsertFailed == {} && s.log.undeleted == {} && path !in s.rows
  }

  /** Some completed sync without a failing call loses the record of a file on disk exactly if
      the file cannot be hashed and an earlier new file may claim the record. */
  lemma LosableExactly(cfg: Config, path: Path)
    requires cfg.Valid() && path in cfg.stored && path in cfg.Disk()
    ensures CanLose(cfg, path) <==> Losable(cfg, path)
  {
    if CanLose(cfg, path) {
      var steps, s :| Completes(cfg, steps, s) && s.log.upsertFailed == {} && s.log.undeleted == {} && path !in s.rows;
      LostExactly(cfg, steps, s, path);
    }
    if Losable(cfg, path) {
      var taker :| cfg.MayClaim(taker, path);
      var steps, s := ClaimingRun(cfg, taker, path, false);
      LostExactly(cfg, steps, s, path);
    }
  }

  ghost predicate AlwaysRehashes(cfg: Config)
  {
    forall steps, s :: Completes(cfg, steps, s) && s.log.upsertFailed == {} && s.log.undeleted == {}
      ==> SameDigests(s.rows, Rehash(cfg, |cfg.walk|))
  }

  /** If size and second determine the content, every interleaving without a failing call stores
      exactly what the sequential rehash stores, exactly if no record is losable. */
  lemma EqualsRehashExactly(cfg: Config)
    requires cfg.Valid() && StatDeterminesContent(cfg)
    ensures AlwaysRehashes(cfg) <==> forall path :: path in cfg.stored ==> !Losable(cfg, path)
  {
    if forall path :: path in cfg.stored ==> !Losable(cfg, path) {
      forall steps, s | Completes(cfg, steps, s) && s.log.upsertFailed == {} && s.log.undeleted == {}
        ensures SameDigests(s.rows, Rehash(cfg, |cfg.walk|))
      {
        RefinesRehash(cfg, steps, s);
      }
    }
    if AlwaysRehashes(cfg) {
      forall path | path in cfg.stored ensures !Losable(cfg, path) {
        if path in cfg.Disk() {
          LosableExactly(cfg, path);
          RehashAt(cfg, |cfg.walk|, path);
        }
      }
    }
  }

  ghost predicate AlwaysCurrent(cfg: Config, path: Path)
  {
    forall steps, s :: Completes(cfg, steps, s) && path !in s.log.upsertFailed
      ==> path in s.rows && path in cfg.content && s.rows[path].hash == cfg.content[path]
  }

  /** A new file gets the digest of its own content in every interleaving exactly if every record
      that it may claim has this digest; otherwise a later scrub may report it, although it is intact. */
  lemma NewDigestExactly(cfg: Config, path: Path)
    requires cfg.Valid() && path in cfg.Disk() && path !in cfg.stored && path in cfg.content
    ensures AlwaysCurrent(cfg, path)
       <==> forall source :: cfg.MayClaim(path, source) ==> cfg.stored[source].hash == cfg.content[path]
  {
    if forall source :: cfg.MayClaim(path, source) ==> cfg.stored[source].hash == cfg.content[path] {
      forall steps, s | Completes(cfg, steps, s) && path !in s.log.upsertFailed
        ensures path in s.rows && path in cfg.content && s.rows[path].hash == cfg.content[path]
      {
        SyncIsRight(cfg, steps, s);
        assert PathOutcome(cfg, path, CallsOf(s.log), s.rows);
      }
    }
    if AlwaysCurrent(cfg, path) {
      forall source | cfg.MayClaim(path, source) ensures cfg.stored[source].hash == cfg.content[path] {
        var steps, s := ClaimingRun(cfg, path, source, false);
        MoveBounds(cfg, steps, s, path);
      }
    }
  }

  ghost predicate AlwaysKept(cfg: Config, path: Path, hash: Hash)
  {
    forall steps, s :: ReturnsNil(cfg, steps, s) ==> path in s.rows && s.rows[path].hash == hash
  }

  /** Every sync that returns nil, cancelled or not and whatever calls fail, keeps the digest of a
      recorded file that it finds unchanged, exactly if no earlier new file may claim the record. */
  lemma KeptExactly(cfg: Config, path: Path)
    requires cfg.Valid() && path in cfg.Disk() && cfg.SameStat(path, cfg.Disk()[path]) && cfg.stored[path].hash != ""
    ensures AlwaysKept(cfg, path, cfg.stored[path].hash) <==> !Claimable(cfg, path)
  {
    if !Claimable(cfg, path) {
      forall steps, s | ReturnsNil(cfg, steps, s)
        ensures path in s.rows && s.rows[path].hash == cfg.stored[path].hash
      {
        SyncIsRight(cfg, steps, s);
        assert PathOutcome(cfg, path, CallsOf(s.log), s.rows);
      }
    }
    if AlwaysKept(cfg, path, cfg.stored[path].hash) {
      forall taker ensures !cfg.MayClaim(taker, path) {
        if cfg.MayClaim(taker, path) {
          var steps, s := ClaimingRun(cfg, taker, path, true);
          LostExactly(cfg, steps, s, path);
          assert false;
        }
      }
    }
  }

  // ---------- cancelled runs that return nil ----------

  /** The walk is over and nothing is under way. */
  ghost predicate Empty(s: State)
  {
    && s.walker.done == Some(true) && s.chans.work == [] && s.pool.busy == [] && s.chans.results == []
    && s.collector.hand.None? && !s.collector.phase.Aborted?
  }

  lemma StepStaysEmpty(cfg: Config, s: State, step: Step)
    requires Empty(s) && Enabled(cfg, s, step)
    ensures Empty(Apply(cfg, s, step)) && Apply(cfg, s, step).log.verdict == s.log.verdict
  {
  }

  /** From there a sync returns nil without judging anything more, cancelled or not. */
  lemma {:induction false} RunHome(cfg: Config, s: State) returns (t: State)
    requires cfg.Valid() && Reachable(cfg, s) && Inv(cfg, s) && Empty(s)
    ensures Reachable(cfg, t) && t.collector.phase.Finished? && t.log.verdict == s.log.verdict
    decreases SyncProgress.Measure(cfg, s)
  {
    if Running(s) {
      var step := SyncProgress.NeverBlocked(cfg, s);
      SyncProgress.StepsDecrease(cfg, s, step);
      Invariant(cfg, s, step);
      StepStaysEmpty(cfg, s, step);
      var next := Go(cfg, s, step);
      t := RunHome(cfg, next);
    } else {
      t := s;
    }
  }

  lemma {:induction false} LastFound(walk: seq<Visit>, n: nat) returns (j: nat)
    requires n <= |walk| && Tree(walk, n) != map[]
    ensures j < n && walk[j].Found? && forall i :: j < i < n ==> !walk[i].Found?
  {
    j := n - 1;
    if !walk[j].Found? {
      j := LastFound(walk, n - 1);
    }
  }

  lemma {:induction false} SkipUntilEnd(cfg: Config, s: State, n: nat, held: seq<WorkItem>) returns (t: State)
    requires Reachable(cfg, s) && Calm(cfg, s, n, None, held)
    requires forall i :: n <= i < |cfg.walk| ==> !cfg.walk[i].Found?
    ensures Reachable(cfg, t) && Calm(cfg, t, |cfg.walk|, None, held) && t.log == s.log
    decreases |cfg.walk| - n
  {
    t := s;
    if n < |cfg.walk| {
      t := Skip(cfg, s, n, held);
      t := SkipUntilEnd(cfg, t, n + 1, held);
    }
  }

  /** The walk ends, a cancellation comes, and the worker drops its item. */
  lemma CancelAndDrop(cfg: Config, s: State, item: WorkItem) returns (t: State)
    requires cfg.Valid() && Reachable(cfg, s) && Calm(cfg, s, |cfg.walk|, None, [item])
    ensures Reachable(cfg, t) && Inv(cfg, t) && Empty(t) && item.path !in t.log.verdict
  {
    ReachableInv(cfg, s);
    assert FlowAt(s, item.path) && ItemCount(s.pool.busy, item.path) == 1;
    t := Go(cfg, s, Walk(FinishWalk));
    t := Go(cfg, t, Cancel);
    t := Go(cfg, t, Work(Drop(0)));
    ReachableInv(cfg, t);
  }

  ghost predicate JudgedAll(cfg: Config, s: State)
  {
    forall path :: path in cfg.Disk() ==> path in s.log.verdict
  }

  ghost predicate AlwaysJudgesAll(cfg: Config, mayCancel: bool)
  {
    forall steps, s :: ReturnsNil(cfg, steps, s) && (mayCancel || !s.cancelled) ==> JudgedAll(cfg, s)
  }

  lemma MissingRun(cfg: Config) returns (steps: seq<Step>, s: State)
    requires cfg.Valid() && cfg.Disk() != map[]
    ensures ReturnsNil(cfg, steps, s) && !JudgedAll(cfg, s)
  {
    var j := LastFound(cfg.walk, |cfg.walk|);
    var item := cfg.ItemFor(cfg.walk[j].path, cfg.walk[j].stat);
    FoundIn(cfg.walk, |cfg.walk|, j);
    Start(cfg);
    s := PassUntil(cfg, Init(cfg), 0, j);
    s := Hold(cfg, s, j);
    assert [] + [item] == [item];
    s := SkipUntilEnd(cfg, s, j + 1, [item]);
    s := CancelAndDrop(cfg, s, item);
    s := RunHome(cfg, s);
    steps :| IsRun(cfg, Init(cfg), steps) && After(cfg, Init(cfg), steps) == s;
  }

  /** That a sync returns nil means that it has judged every file exactly if it cannot be cancelled
      or finds no file: for every tree with a file there is a schedule that drops one. */
  lemma NilJudgesAllExactly(cfg: Config, mayCancel: bool)
    requires cfg.Valid()
    ensures AlwaysJudgesAll(cfg, mayCancel) <==> !mayCancel || cfg.Disk() == map[]
  {
    if mayCancel && cfg.Disk() != map[] {
      var steps, s := MissingRun(cfg);
    } else if !mayCancel {
      forall steps, s | ReturnsNil(cfg, steps, s) && !s.cancelled ensures JudgedAll(cfg, s) {
        CompletedJudgesAll(cfg, steps, s);
      }
    }
  }
}
