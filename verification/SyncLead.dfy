/** How far the walker can get ahead of the collector, and so when a new file can be taken for
    added although a record matches it: the walker must have seen all matching files by then. With
    two workers one can hold the file back for as long as it likes; with one worker everything
    behind the file waits in the channels. */
module SyncLead {
  import opened Domain
  import opened SyncModel
  import opened SyncInvariant
  import opened SyncTheorems
  import opened SyncSchedules

  /** What a single worker and the channels hold behind a result in the collector's hand: the results,
      the worker's item, the work, and the item that the walker has seen but not sent. */
  const LEAD := 2 * WORK_BUFFER_SIZE + 2

  /** The files among the first `n` visits, in order. */
  function Visited(walk: seq<Visit>, n: nat): (paths: seq<Path>)
    requires n <= |walk|
  {
    if n == 0 then []
    else Visited(walk, n - 1) + if walk[n - 1].Found? then [walk[n - 1].path] else []
  }

  /** The walk reports `source` at most `LEAD` files after `path`. */
  ghost predicate InReach(walk: seq<Visit>, path: Path, source: Path)
  {
    exists i, m :: 0 <= i < |walk| && 0 <= m < |walk| && WithinLead(walk, i, m, path, source)
  }

  predicate WithinLead(walk: seq<Visit>, i: nat, m: nat, path: Path, source: Path)
    requires i < |walk| && m < |walk|
  {
    && walk[i].Found? && walk[i].path == path && walk[m].Found? && walk[m].path == source
    && |Visited(walk, m + 1)| <= |Visited(walk, i + 1)| + LEAD
  }

  lemma {:induction false} VisitedGrows(walk: seq<Visit>, n: nat, m: nat)
    requires n <= m <= |walk|
    ensures Visited(walk, n) <= Visited(walk, m)
    decreases m
  {
    if n < m {
      VisitedGrows(walk, n, m - 1);
    }
  }

  lemma {:induction false} VisitedAreSeen(walk: seq<Visit>, n: nat, a: nat)
    requires n <= |walk| && a < |Visited(walk, n)|
    ensures Visited(walk, n)[a] in Tree(walk, n)
  {
    if a < |Visited(walk, n - 1)| {
      VisitedAreSeen(walk, n - 1, a);
    }
  }

  /** A file stands in the line of visited files at the place of its visit, and nowhere else. */
  lemma {:induction false} PlaceOf(walk: seq<Visit>, n: nat, a: nat, i: nat)
    requires DistinctFiles(walk) && i < n <= |walk| && walk[i].Found?
    requires a < |Visited(walk, n)| && Visited(walk, n)[a] == walk[i].path
    ensures a + 1 == |Visited(walk, i + 1)|
  {
    if a == |Visited(walk, n - 1)| {
      assert walk[n - 1].path == walk[i].path;
      assert i == n - 1;
    } else if i == n - 1 {
      VisitedAreSeen(walk, i, a);
      NotYetSeen(walk, i);
      assert false;
    } else {
      PlaceOf(walk, n - 1, a, i);
    }
  }

  // ---------- one worker: a conveyor ----------

  function ItemPaths(items: seq<WorkItem>): (paths: seq<Path>)
  {
    seq(|items|, i requires 0 <= i < |items| => items[i].path)
  }

  function ResultPaths(results: seq<WorkResult>): (paths: seq<Path>)
  {
    seq(|results|, i requires 0 <= i < |results| => results[i].path)
  }

  function HandPath(hand: Option<WorkResult>): seq<Path>
  {
    if hand.Some? then [hand.value.path] else []
  }

  function PendingPath(pending: Option<WorkItem>): seq<Path>
  {
    if pending.Some? then [pending.value.path] else []
  }

  function Joined(hand: seq<Path>, results: seq<Path>, busy: seq<Path>, work: seq<Path>, pending: seq<Path>): seq<Path>
  {
    hand + results + busy + work + pending
  }

  /** Everything under way, in the order in which it will be recorded. */
  function Line(s: State): seq<Path>
  {
    Joined(HandPath(s.collector.hand), ResultPaths(s.chans.results), ItemPaths(s.pool.busy), ItemPaths(s.chans.work),
           PendingPath(s.walker.pending))
  }

  lemma Shifts(hand: seq<Path>, results: seq<Path>, busy: seq<Path>, work: seq<Path>, pending: seq<Path>)
    ensures Joined([], hand + results, busy, work, pending) == Joined(hand, results, busy, work, pending)
    ensures Joined(hand, results + busy, [], work, pending) == Joined(hand, results, busy, work, pending)
    ensures Joined(hand, results, [], busy + work, pending) == Joined(hand, results, busy, work, pending)
    ensures Joined(hand, results, busy, work + pending, []) == Joined(hand, results, busy, work, pending)
    ensures Joined(hand, results, busy, work, pending) == Joined(hand, results, busy, work, []) + pending
    ensures Joined(hand, results, busy, work, pending) == hand + Joined([], results, busy, work, pending)
  {
  }

  predicate IsSuffix(a: seq<Path>, b: seq<Path>)
  {
    |a| <= |b| && b[|b| - |a|..] == a
  }

  /** With one worker the files under way are the last ones visited, in order. */
  ghost predicate Conveyor(cfg: Config, s: State)
  {
    s.walker.cursor <= |cfg.walk| && IsSuffix(Line(s), Visited(cfg.walk, s.walker.cursor))
  }

  /** Files judged to be added had every match within reach. */
  ghost predicate AddedInv(cfg: Config, verdict: map<Path, Verdict>)
  {
    forall path :: path in verdict && verdict[path].Added? ==> AllInReach(cfg, path)
  }

  /** Every record that the file on disk matches is that of a file not too far behind it. */
  ghost predicate AllInReach(cfg: Config, path: Path)
  {
    path in cfg.Disk() &&
    forall source :: source in cfg.stored && cfg.Matches(path, cfg.Disk()[path], source) ==>
      InReach(cfg.walk, path, source)
  }

  lemma LongerSuffix(a: seq<Path>, b: seq<Path>, path: Path)
    requires IsSuffix(a, b)
    ensures IsSuffix(a + [path], b + [path])
  {
  }

  lemma VisitKeepsLine(cfg: Config, s: State)
    requires WalkerEnabled(cfg, s, Visiting) && Conveyor(cfg, s)
    ensures Conveyor(cfg, ApplyWalker(cfg, s, Visiting))
  {
    var t := ApplyWalker(cfg, s, Visiting);
    if cfg.walk[s.walker.cursor].Found? {
      var path := cfg.walk[s.walker.cursor].path;
      Shifts(HandPath(s.collector.hand), ResultPaths(s.chans.results), ItemPaths(s.pool.busy),
             ItemPaths(s.chans.work), [path]);
      LongerSuffix(Line(s), Visited(cfg.walk, s.walker.cursor), path);
    }
  }

  lemma SendKeepsLine(cfg: Config, s: State)
    requires WalkerEnabled(cfg, s, Send)
    ensures Line(ApplyWalker(cfg, s, Send)) == Line(s)
  {
    var t := ApplyWalker(cfg, s, Send);
    assert ItemPaths(t.chans.work) == ItemPaths(s.chans.work) + PendingPath(s.walker.pending);
    Shifts(HandPath(s.collector.hand), ResultPaths(s.chans.results), ItemPaths(s.pool.busy),
           ItemPaths(s.chans.work), PendingPath(s.walker.pending));
  }

  lemma TakeKeepsLine(cfg: Config, s: State)
    requires WorkerEnabled(cfg, s, Take) && s.pool.busy == []
    ensures Line(ApplyWorker(cfg, s, Take)) == Line(s)
  {
    var t := ApplyWorker(cfg, s, Take);
    FirstItem(s.chans.work);
    assert t.pool.busy == [s.chans.work[0]];
    Shifts(HandPath(s.collector.hand), ResultPaths(s.chans.results), ItemPaths(t.pool.busy),
           ItemPaths(t.chans.work), PendingPath(s.walker.pending));
  }

  lemma FirstItem(items: seq<WorkItem>)
    requires items != []
    ensures ItemPaths(items) == ItemPaths([items[0]]) + ItemPaths(items[1..]) && ItemPaths([]) == []
  {
  }

  lemma PutKeepsLine(cfg: Config, s: State, interrupted: bool)
    requires WorkerEnabled(cfg, s, Put(0, interrupted)) && |s.pool.busy| == 1
    ensures Line(ApplyWorker(cfg, s, Put(0, interrupted))) == Line(s)
  {
    var t := ApplyWorker(cfg, s, Put(0, interrupted));
    assert t.pool.busy == [] && ItemPaths(t.pool.busy) == [];
    assert ResultPaths(t.chans.results) == ResultPaths(s.chans.results) + ItemPaths(s.pool.busy);
    Shifts(HandPath(s.collector.hand), ResultPaths(s.chans.results), ItemPaths(s.pool.busy),
           ItemPaths(s.chans.work), PendingPath(s.walker.pending));
  }

  lemma ReceiveKeepsLine(cfg: Config, s: State)
    requires CollectorEnabled(cfg, s, Receive)
    ensures Line(ApplyCollector(cfg, s, Receive)) == Line(s)
  {
    var t := ApplyCollector(cfg, s, Receive);
    Shifts(HandPath(t.collector.hand), ResultPaths(t.chans.results), ItemPaths(s.pool.busy),
           ItemPaths(s.chans.work), PendingPath(s.walker.pending));
  }

  lemma RecordShortensLine(cfg: Config, s: State, c: CollectorStep)
    requires CollectorEnabled(cfg, s, c) && c.Record? && Conveyor(cfg, s)
    ensures Conveyor(cfg, ApplyCollector(cfg, s, c))
  {
    var t := ApplyCollector(cfg, s, c);
    Shifts(HandPath(s.collector.hand), ResultPaths(s.chans.results), ItemPaths(s.pool.busy),
           ItemPaths(s.chans.work), PendingPath(s.walker.pending));
  }

  lemma StepKeepsConveyor(cfg: Config, s: State, step: Step)
    requires cfg.workers == 1 && PoolInv(cfg, s.walker.done, s.chans, s.pool, s.cancelled)
    requires Conveyor(cfg, s) && Enabled(cfg, s, step) && !Apply(cfg, s, step).cancelled
    ensures Conveyor(cfg, Apply(cfg, s, step))
  {
    match step
    case Walk(Visiting) => VisitKeepsLine(cfg, s);
    case Walk(Send) => SendKeepsLine(cfg, s);
    case Walk(_) =>
    case Work(Take) => TakeKeepsLine(cfg, s);
    case Work(Put(_, interrupted)) => PutKeepsLine(cfg, s, interrupted);
    case Work(_) =>
    case Collect(Receive) => ReceiveKeepsLine(cfg, s);
    case Collect(Record(_, _, _, _, _)) => RecordShortensLine(cfg, s, step.c);
    case Collect(_) =>
  }

  lemma SeenWithinLead(cfg: Config, s: State, i: nat, source: Path)
    requires cfg.Valid() && WalkInv(cfg, s.walker, s.result.filesScanned, s.cancelled)
    requires Conveyor(cfg, s) && 0 < |Line(s)| <= LEAD + 1
    requires i < s.walker.cursor && cfg.walk[i].Found? && Line(s)[0] == cfg.walk[i].path && source in s.walker.seen
    ensures InReach(cfg.walk, cfg.walk[i].path, source)
  {
    var visited := Visited(cfg.walk, s.walker.cursor);
    var place := |visited| - |Line(s)|;
    assert visited[place] == visited[place..][0];
    PlaceOf(cfg.walk, s.walker.cursor, place, i);
    TreeOrigin(cfg.walk, s.walker.cursor, source);
    var m :| 0 <= m < s.walker.cursor && cfg.walk[m].Found? && cfg.walk[m].path == source;
    VisitedGrows(cfg.walk, m + 1, s.walker.cursor);
    assert WithinLead(cfg.walk, i, m, cfg.walk[i].path, source);
  }

  lemma RecordKeepsAdded(cfg: Config, s: State, c: CollectorStep)
    requires cfg.Valid() && cfg.workers == 1 && Inv(cfg, s) && Conveyor(cfg, s) && AddedInv(cfg, s.log.verdict)
    requires CollectorEnabled(cfg, s, c) && c.Record?
    ensures AddedInv(cfg, ApplyCollector(cfg, s, c).log.verdict)
  {
    var r := s.collector.hand.value;
    if Classify(cfg, r, c.movedFrom).Added? {
      assert FlowAt(s, r.path);
      HandIsFresh(s);
      var i := IndexOf(cfg.walk, s.walker.cursor, r.path);
      FoundIn(cfg.walk, |cfg.walk|, i);
      assert Items(cfg, s) && cfg.Disk()[r.path] == Stat(r.size, r.mtime);
      forall source | source in cfg.stored && cfg.Matches(r.path, cfg.Disk()[r.path], source)
        ensures InReach(cfg.walk, r.path, source)
      {
        SeenWithinLead(cfg, s, i, source);
      }
    }
  }

  lemma {:induction false} RunKeepsAdded(cfg: Config, s: State, steps: seq<Step>)
    requires cfg.Valid() && cfg.workers == 1 && Inv(cfg, s) && Conveyor(cfg, s) && AddedInv(cfg, s.log.verdict)
    requires IsRun(cfg, s, steps) && !After(cfg, s, steps).cancelled
    ensures AddedInv(cfg, After(cfg, s, steps).log.verdict)
    decreases |steps|
  {
    if steps != [] {
      var t := Apply(cfg, s, steps[0]);
      Invariant(cfg, s, steps[0]);
      StaysCancelled(cfg, t, steps[1..]);
      StepKeepsConveyor(cfg, s, steps[0]);
      if steps[0].Collect? && steps[0].c.Record? {
        RecordKeepsAdded(cfg, s, steps[0].c);
      } else {
        OthersExtend(cfg, s, steps[0]);
      }
      RunKeepsAdded(cfg, t, steps[1..]);
    }
  }

  lemma {:induction false} StaysCancelled(cfg: Config, s: State, steps: seq<Step>)
    requires IsRun(cfg, s, steps)
    ensures s.cancelled ==> After(cfg, s, steps).cancelled
    decreases |steps|
  {
    if steps != [] {
      StaysCancelled(cfg, Apply(cfg, s, steps[0]), steps[1..]);
    }
  }

  // ---------- running ahead ----------

  /** A result waits in the collector's hand, the first `n` visits are done, and the last `c` files have
      piled up behind it as far as a single worker and the channels allow. */
  ghost predicate Ahead(cfg: Config, s: State, n: nat, c: nat, r: WorkResult)
  {
    && n <= |cfg.walk| && c <= LEAD && s.walker.cursor == n && s.walker.done.None?
    && s.collector == Collector(Some(r), Collecting) && !s.cancelled && !s.chans.resultsClosed
    && |s.chans.results| == (if c < WORK_BUFFER_SIZE then c else WORK_BUFFER_SIZE)
    && |s.pool.busy| == (if c <= WORK_BUFFER_SIZE then 0 else 1)
    && s.pool.idle == 1 - |s.pool.busy| && s.pool.exited == 0
    && |s.chans.work| == (if c <= WORK_BUFFER_SIZE + 1 then 0
                          else if c < LEAD then c - WORK_BUFFER_SIZE - 1 else WORK_BUFFER_SIZE)
    && (s.walker.pending.Some? <==> c == LEAD)
  }

  lemma PileUp(cfg: Config, s: State, n: nat, c: nat, r: WorkResult) returns (t: State)
    requires Reachable(cfg, s) && Ahead(cfg, s, n, c, r) && n < |cfg.walk| && cfg.walk[n].Found? && c < LEAD
    ensures Reachable(cfg, t) && Ahead(cfg, t, n + 1, c + 1, r) && t.log == s.log
  {
    t := Go(cfg, s, Walk(Visiting));
    if c + 1 < LEAD {
      t := Go(cfg, t, Walk(Send));
    }
    if c <= WORK_BUFFER_SIZE {
      t := Go(cfg, t, Work(Take));
    }
    if c < WORK_BUFFER_SIZE {
      t := Go(cfg, t, Work(Put(0, false)));
    }
  }

  /** The walker goes on until the walk is over or nothing more fits. */
  lemma {:induction false} RunAhead(cfg: Config, s: State, i: nat, n: nat, c: nat, r: WorkResult)
    returns (t: State, m: nat, d: nat)
    requires i < n && Reachable(cfg, s) && Ahead(cfg, s, n, c, r)
    requires |Visited(cfg.walk, n)| == |Visited(cfg.walk, i + 1)| + c
    ensures i < m && Reachable(cfg, t) && Ahead(cfg, t, m, d, r) && t.log == s.log
    ensures |Visited(cfg.walk, m)| == |Visited(cfg.walk, i + 1)| + d
    ensures m == |cfg.walk| || d == LEAD
    decreases |cfg.walk| - n
  {
    t, m, d := s, n, c;
    if n < |cfg.walk| && !cfg.walk[n].Found? && c < LEAD {
      t := Go(cfg, s, Walk(Visiting));
      t, m, d := RunAhead(cfg, t, i, n + 1, c, r);
    } else if n < |cfg.walk| && cfg.walk[n].Found? && c < LEAD {
      t := PileUp(cfg, s, n, c, r);
      t, m, d := RunAhead(cfg, t, i, n + 1, c + 1, r);
    }
  }

  lemma ReachIsVisited(walk: seq<Visit>, i: nat, m: nat, path: Path, source: Path)
    requires DistinctFiles(walk) && i < m <= |walk| && walk[i].Found? && walk[i].path == path
    requires m == |walk| || |Visited(walk, m)| == |Visited(walk, i + 1)| + LEAD
    requires InReach(walk, path, source)
    ensures source in Tree(walk, m)
  {
    var j, q :| 0 <= j < |walk| && 0 <= q < |walk| && WithinLead(walk, j, q, path, source);
    assert j == i;
    if m <= q {
      VisitedGrows(walk, m, q);
    }
    FoundIn(walk, m, q);
  }

  // ---------- when a new file is added ----------

  ghost predicate CanAdd(cfg: Config, path: Path)
  {
    exists steps, s :: Completes(cfg, steps, s) && path in s.log.verdict && s.log.verdict[path].Added?
  }

  /** Every matching record is that of a file on disk, and with a single worker of one within its lead. */
  ghost predicate MayAdd(cfg: Config, path: Path)
  {
    path in cfg.Disk() &&
    forall source :: source in cfg.stored && cfg.Matches(path, cfg.Disk()[path], source) ==>
      source in cfg.Disk() && (cfg.workers >= 2 || InReach(cfg.walk, path, source))
  }

  /** Once all matching files have been seen, the search finds nothing. */
  lemma JudgeAdded(cfg: Config, s: State, path: Path, stat: Stat)
    requires cfg.Valid() && Reachable(cfg, s) && !s.cancelled && path !in cfg.stored && path in cfg.content
    requires s.collector == Collector(Some(ResultFor(cfg, path, stat)), Collecting)
    requires forall source :: source in cfg.stored && cfg.Matches(path, stat, source) ==> source in s.walker.seen
    ensures CanAdd(cfg, path)
  {
    var t := Go(cfg, s, Collect(Record(None, 0, 0, true, true)));
    ReachableInv(cfg, t);
    t := CarryOn(cfg, t);
    var steps := Completed(cfg, t);
  }

  /** One worker holds the file until the others have dealt with everything else. */
  lemma HoldBack(cfg: Config, path: Path)
    requires cfg.Valid() && cfg.workers >= 2 && path in cfg.Disk() && path !in cfg.stored && path in cfg.content
    requires MayAdd(cfg, path)
    ensures CanAdd(cfg, path)
  {
    var i := IndexOf(cfg.walk, |cfg.walk|, path);
    var item := cfg.ItemFor(path, cfg.Disk()[path]);
    Start(cfg);
    var s := PassUntil(cfg, Init(cfg), 0, i);
    s := Hold(cfg, s, i);
    assert [] + [item] == [item];
    s := PassUntil(cfg, s, i + 1, |cfg.walk|, [item]);
    s := Hand(cfg, s, |cfg.walk|, [], item);
    JudgeAdded(cfg, s, path, cfg.Disk()[path]);
  }

  /** The only worker has handed the file over, and the walker runs ahead of the collector. */
  lemma LookAhead(cfg: Config, path: Path)
    requires cfg.Valid() && cfg.workers == 1 && path in cfg.Disk() && path !in cfg.stored && path in cfg.content
    requires MayAdd(cfg, path)
    ensures CanAdd(cfg, path)
  {
    var i := IndexOf(cfg.walk, |cfg.walk|, path);
    Start(cfg);
    var s := PassUntil(cfg, Init(cfg), 0, i);
    s := Deliver(cfg, s, i);
    var t, m, d := RunAhead(cfg, s, i, i + 1, 0, s.collector.hand.value);
    ReachableInv(cfg, t);
    forall source | source in cfg.stored && cfg.Matches(path, cfg.Disk()[path], source)
      ensures source in t.walker.seen
    {
      ReachIsVisited(cfg.walk, i, m, path, source);
    }
    JudgeAdded(cfg, t, path, cfg.Disk()[path]);
  }

  lemma SingleWorker(cfg: Config, steps: seq<Step>, s: State)
    requires Completes(cfg, steps, s) && cfg.workers == 1
    ensures AddedInv(cfg, s.log.verdict)
  {
    InitInv(cfg);
    assert Line(Init(cfg)) == [];
    RunKeepsAdded(cfg, Init(cfg), steps);
  }

  lemma AddedMay(cfg: Config, steps: seq<Step>, s: State, path: Path)
    requires Completes(cfg, steps, s) && path in s.log.verdict && s.log.verdict[path].Added?
    ensures path in cfg.Disk() && MayAdd(cfg, path)
  {
    CompletedJudgesAll(cfg, steps, s);
    assert Justified(cfg, s.walker.seen, s.cancelled, path, s.log.verdict[path]);
    if cfg.workers == 1 {
      SingleWorker(cfg, steps, s);
    }
  }

  /** Some completed sync takes a new file that can be hashed for added exactly if every record that
      it matches is that of a file on disk, and, with a single worker, of one that the walk reports
      at most 1026 files after it. */
  lemma AddedExactly(cfg: Config, path: Path)
    requires cfg.Valid() && path in cfg.Disk() && path !in cfg.stored && path in cfg.content
    ensures CanAdd(cfg, path) <==> MayAdd(cfg, path)
    ensures LEAD == 1026
  {
    if CanAdd(cfg, path) {
      var steps, s :| Completes(cfg, steps, s) && path in s.log.verdict && s.log.verdict[path].Added?;
      AddedMay(cfg, steps, s, path);
    }
    if MayAdd(cfg, path) {
      if cfg.workers == 1 {
        LookAhead(cfg, path);
      } else {
        HoldBack(cfg, path);
      }
    }
  }
}
