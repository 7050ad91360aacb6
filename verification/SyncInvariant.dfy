/** What every step of the sync pipeline keeps. Each part of the invariant speaks of the few
    components of the state that it needs; `Invariant` ties the parts together. */
module SyncInvariant {
  import opened Domain
  import opened SyncModel

  // ---------- the walk ----------

  ghost predicate WalkInv(cfg: Config, walker: Walker, scanned: nat, cancelled: bool)
  {
    && walker.cursor <= |cfg.walk|
    && walker.seen == Tree(cfg.walk, walker.cursor)
    && scanned == |walker.seen|
    && (walker.done.Some? ==> walker.pending.None?)
    && (walker.done == Some(true) ==> walker.cursor == |cfg.walk|)
    && (walker.done == Some(false) ==> cancelled)
  }

  lemma {:induction false} TreeOrigin(walk: seq<Visit>, n: nat, path: Path)
    requires n <= |walk| && path in Tree(walk, n)
    ensures exists i :: 0 <= i < n && walk[i].Found? && walk[i].path == path
  {
    if walk[n - 1].Found? && walk[n - 1].path == path {
    } else {
      TreeOrigin(walk, n - 1, path);
    }
  }

  /** A file that is about to be visited has not been seen yet. */
  lemma NotYetSeen(walk: seq<Visit>, n: nat)
    requires DistinctFiles(walk) && n < |walk| && walk[n].Found?
    ensures walk[n].path !in Tree(walk, n)
  {
    if walk[n].path in Tree(walk, n) {
      TreeOrigin(walk, n, walk[n].path);
    }
  }

  lemma WalkerKeepsWalk(cfg: Config, s: State, w: WalkerStep)
    requires cfg.Valid() && WalkInv(cfg, s.walker, s.result.filesScanned, s.cancelled) && WalkerEnabled(cfg, s, w)
    ensures var t := ApplyWalker(cfg, s, w); WalkInv(cfg, t.walker, t.result.filesScanned, t.cancelled)
  {
    if w.Visiting? && cfg.walk[s.walker.cursor].Found? {
      NotYetSeen(cfg.walk, s.walker.cursor);
    }
  }

  /** Files seen before stay seen, with the same size and time. */
  ghost predicate Extends(before: map<Path, Stat>, after: map<Path, Stat>)
  {
    forall path :: path in before ==> path in after && after[path] == before[path]
  }

  lemma WalkerOnlyAdds(cfg: Config, s: State, w: WalkerStep)
    requires cfg.Valid() && WalkInv(cfg, s.walker, s.result.filesScanned, s.cancelled) && WalkerEnabled(cfg, s, w)
    ensures Extends(s.walker.seen, ApplyWalker(cfg, s, w).walker.seen)
  {
    if w.Visiting? && cfg.walk[s.walker.cursor].Found? {
      NotYetSeen(cfg.walk, s.walker.cursor);
    }
  }

  // ---------- the pool, the channels and the phases ----------

  ghost predicate PoolInv(cfg: Config, done: Option<bool>, chans: Channels, pool: Pool, cancelled: bool)
  {
    && pool.idle + |pool.busy| + pool.exited == cfg.workers
    && |chans.work| <= WORK_BUFFER_SIZE
    && |chans.results| <= WORK_BUFFER_SIZE
    && (pool.exited > 0 && !cancelled ==> done.Some? && chans.work == [])
    && (chans.resultsClosed ==> pool.exited == cfg.workers)
  }

  ghost predicate PhaseInv(cfg: Config, done: Option<bool>, chans: Channels, collector: Collector, cancelled: bool)
  {
    && (collector.phase.Sweeping? ==> collector.phase.remaining <= cfg.stored.Keys)
    && (collector.phase.Sweeping? || collector.phase.Finished? ==>
          chans.results == [] && chans.resultsClosed && collector.hand.None? && done == Some(true))
    && (collector.phase.Aborted? ==> cancelled)
  }

  lemma CollectorKeepsPool(cfg: Config, s: State, c: CollectorStep)
    requires WalkInv(cfg, s.walker, s.result.filesScanned, s.cancelled)
    requires PoolInv(cfg, s.walker.done, s.chans, s.pool, s.cancelled)
    requires PhaseInv(cfg, s.walker.done, s.chans, s.collector, s.cancelled)
    requires CollectorEnabled(cfg, s, c)
    ensures var t := ApplyCollector(cfg, s, c);
            && PoolInv(cfg, t.walker.done, t.chans, t.pool, t.cancelled)
            && PhaseInv(cfg, t.walker.done, t.chans, t.collector, t.cancelled)
  {
  }

  // ---------- where every seen path is ----------

  ghost function ItemCount(items: seq<WorkItem>, path: Path): nat
  {
    if items == [] then 0 else (if items[0].path == path then 1 else 0) + ItemCount(items[1..], path)
  }

  ghost function ResultCount(results: seq<WorkResult>, path: Path): nat
  {
    if results == [] then 0 else (if results[0].path == path then 1 else 0) + ResultCount(results[1..], path)
  }

  /** How often a path occurs between the walker and the collector's verdict. */
  ghost function InFlight(walker: Walker, chans: Channels, pool: Pool, hand: Option<WorkResult>, path: Path): nat
  {
    (if walker.pending.Some? && walker.pending.value.path == path then 1 else 0)
    + ItemCount(chans.work, path) + ItemCount(pool.busy, path) + ResultCount(chans.results, path)
    + (if hand.Some? && hand.value.path == path then 1 else 0)
  }

  /** A seen path is in exactly one place: in flight once, or judged, or dropped; any other path is nowhere. */
  ghost predicate FlowAt(s: State, path: Path)
  {
    InFlight(s.walker, s.chans, s.pool, s.collector.hand, path)
    + (if path in s.log.verdict then 1 else 0) + (if path in s.log.dropped then 1 else 0)
    == if path in s.walker.seen then 1 else 0
  }

  ghost predicate Flow(s: State)
  {
    forall path :: FlowAt(s, path)
  }

  lemma {:induction false} ItemCountConcat(a: seq<WorkItem>, b: seq<WorkItem>, path: Path)
    ensures ItemCount(a + b, path) == ItemCount(a, path) + ItemCount(b, path)
  {
    if a == [] {
      assert a + b == b;
    } else {
      assert (a + b)[1..] == a[1..] + b;
      ItemCountConcat(a[1..], b, path);
    }
  }

  lemma {:induction false} ResultCountConcat(a: seq<WorkResult>, b: seq<WorkResult>, path: Path)
    ensures ResultCount(a + b, path) == ResultCount(a, path) + ResultCount(b, path)
  {
    if a == [] {
      assert a + b == b;
    } else {
      assert (a + b)[1..] == a[1..] + b;
      ResultCountConcat(a[1..], b, path);
    }
  }

  lemma ItemCountWithout(items: seq<WorkItem>, i: nat, path: Path)
    requires i < |items|
    ensures ItemCount(items, path) == ItemCount(Without(items, i), path) + if items[i].path == path then 1 else 0
  {
    assert items == items[..i] + ([items[i]] + items[i + 1..]);
    ItemCountConcat(items[..i], [items[i]] + items[i + 1..], path);
    ItemCountConcat([items[i]], items[i + 1..], path);
    ItemCountConcat(items[..i], items[i + 1..], path);
  }

  lemma HandIsFresh(s: State)
    requires s.collector.hand.Some? && FlowAt(s, s.collector.hand.value.path)
    ensures var path := s.collector.hand.value.path;
            path in s.walker.seen && path !in s.log.verdict && path !in s.log.dropped
  {
  }

  lemma VisitKeepsFlowAt(cfg: Config, s: State, path: Path)
    requires cfg.Valid() && WalkInv(cfg, s.walker, s.result.filesScanned, s.cancelled)
    requires FlowAt(s, path) && WalkerEnabled(cfg, s, Visiting)
    ensures FlowAt(ApplyWalker(cfg, s, Visiting), path)
  {
    if cfg.walk[s.walker.cursor].Found? {
      NotYetSeen(cfg.walk, s.walker.cursor);
    }
  }

  lemma WalkerKeepsFlowAt(cfg: Config, s: State, w: WalkerStep, path: Path)
    requires cfg.Valid() && WalkInv(cfg, s.walker, s.result.filesScanned, s.cancelled)
    requires FlowAt(s, path) && WalkerEnabled(cfg, s, w)
    ensures FlowAt(ApplyWalker(cfg, s, w), path)
  {
    if w.Visiting? {
      VisitKeepsFlowAt(cfg, s, path);
    } else if w.Send? {
      ItemCountConcat(s.chans.work, [s.walker.pending.value], path);
    }
  }

  lemma WorkerKeepsFlowAt(cfg: Config, s: State, k: WorkerStep, path: Path)
    requires FlowAt(s, path) && WorkerEnabled(cfg, s, k)
    ensures FlowAt(ApplyWorker(cfg, s, k), path)
  {
    if k.Take? {
      ItemCountConcat(s.pool.busy, [s.chans.work[0]], path);
    } else if k.Put? {
      ItemCountWithout(s.pool.busy, k.i, path);
      ResultCountConcat(s.chans.results, [cfg.ResultOf(s.pool.busy[k.i], k.interrupted)], path);
    } else if k.Drop? {
      ItemCountWithout(s.pool.busy, k.i, path);
    }
  }

  lemma CollectorKeepsFlowAt(cfg: Config, s: State, c: CollectorStep, path: Path)
    requires FlowAt(s, path) && CollectorEnabled(cfg, s, c)
    ensures FlowAt(ApplyCollector(cfg, s, c), path)
  {
  }

  lemma WalkerKeepsFlow(cfg: Config, s: State, w: WalkerStep)
    requires cfg.Valid() && WalkInv(cfg, s.walker, s.result.filesScanned, s.cancelled)
    requires Flow(s) && WalkerEnabled(cfg, s, w)
    ensures Flow(ApplyWalker(cfg, s, w))
  {
    forall path ensures FlowAt(ApplyWalker(cfg, s, w), path) {
      WalkerKeepsFlowAt(cfg, s, w, path);
    }
  }

  lemma WorkerKeepsFlow(cfg: Config, s: State, k: WorkerStep)
    requires Flow(s) && WorkerEnabled(cfg, s, k)
    ensures Flow(ApplyWorker(cfg, s, k))
  {
    forall path ensures FlowAt(ApplyWorker(cfg, s, k), path) {
      WorkerKeepsFlowAt(cfg, s, k, path);
    }
  }

  lemma CollectorKeepsFlow(cfg: Config, s: State, c: CollectorStep)
    requires Flow(s) && CollectorEnabled(cfg, s, c)
    ensures Flow(ApplyCollector(cfg, s, c))
  {
    forall path ensures FlowAt(ApplyCollector(cfg, s, c), path) {
      CollectorKeepsFlowAt(cfg, s, c, path);
    }
  }

  // ---------- what travels through the channels ----------

  ghost predicate GoodItem(cfg: Config, seen: map<Path, Stat>, item: WorkItem)
  {
    item.path in seen && item == cfg.ItemFor(item.path, seen[item.path])
  }

  ghost predicate GoodResult(cfg: Config, seen: map<Path, Stat>, cancelled: bool, r: WorkResult)
  {
    r.path in seen &&
    var item := cfg.ItemFor(r.path, seen[r.path]);
    r == cfg.ResultOf(item, false) || (cancelled && r == cfg.ResultOf(item, true))
  }

  ghost predicate GoodItems(cfg: Config, seen: map<Path, Stat>, items: seq<WorkItem>)
  {
    forall i :: 0 <= i < |items| ==> GoodItem(cfg, seen, items[i])
  }

  ghost predicate GoodResults(cfg: Config, seen: map<Path, Stat>, cancelled: bool, results: seq<WorkResult>)
  {
    forall i :: 0 <= i < |results| ==> GoodResult(cfg, seen, cancelled, results[i])
  }

  ghost predicate ItemsInv(cfg: Config, seen: map<Path, Stat>, cancelled: bool, pending: Option<WorkItem>,
                           chans: Channels, busy: seq<WorkItem>, hand: Option<WorkResult>)
  {
    && (pending.Some? ==> GoodItem(cfg, seen, pending.value))
    && GoodItems(cfg, seen, chans.work)
    && GoodItems(cfg, seen, busy)
    && GoodResults(cfg, seen, cancelled, chans.results)
    && (hand.Some? ==> GoodResult(cfg, seen, cancelled, hand.value))
  }

  ghost predicate Items(cfg: Config, s: State)
  {
    ItemsInv(cfg, s.walker.seen, s.cancelled, s.walker.pending, s.chans, s.pool.busy, s.collector.hand)
  }

  lemma WalkerKeepsItems(cfg: Config, s: State, w: WalkerStep)
    requires cfg.Valid() && WalkInv(cfg, s.walker, s.result.filesScanned, s.cancelled)
    requires Items(cfg, s) && WalkerEnabled(cfg, s, w)
    ensures Items(cfg, ApplyWalker(cfg, s, w))
  {
    WalkerOnlyAdds(cfg, s, w);
  }

  // ---------- verdicts ----------

  /** What a verdict means, given what the walk has seen so far. */
  ghost predicate Justified(cfg: Config, seen: map<Path, Stat>, cancelled: bool, path: Path, v: Verdict)
  {
    path in seen &&
    var stat := seen[path];
    (v.Unreadable? || cfg.ItemFor(path, stat).knownHash != "" || path in cfg.content) &&
    match v
    case Unreadable => cfg.ItemFor(path, stat).knownHash == "" && (path !in cfg.content || cancelled)
    case Unchanged => cfg.SameStat(path, stat)
    case Modified => path in cfg.stored && !cfg.SameStat(path, stat)
    case MovedFrom(source) => path !in cfg.stored && cfg.Matches(path, stat, source)
    case Added =>
      path !in cfg.stored && forall source | source in cfg.stored :: cfg.Matches(path, stat, source) ==> source in seen
  }

  ghost predicate VerdictInv(cfg: Config, seen: map<Path, Stat>, cancelled: bool, verdict: map<Path, Verdict>)
  {
    forall path :: path in verdict ==> Justified(cfg, seen, cancelled, path, verdict[path])
  }

  lemma VerdictsExtend(cfg: Config, seen: map<Path, Stat>, after: map<Path, Stat>, cancelled: bool,
                       verdict: map<Path, Verdict>)
    requires VerdictInv(cfg, seen, cancelled, verdict) && Extends(seen, after)
    ensures VerdictInv(cfg, after, cancelled, verdict)
  {
  }

  lemma CollectorKeepsVerdicts(cfg: Config, s: State, c: CollectorStep)
    requires Items(cfg, s) && VerdictInv(cfg, s.walker.seen, s.cancelled, s.log.verdict) && CollectorEnabled(cfg, s, c)
    ensures var t := ApplyCollector(cfg, s, c); VerdictInv(cfg, t.walker.seen, t.cancelled, t.log.verdict)
  {
  }

  // ---------- the table ----------

  /** The digest an existing record ends up with: the stored one if size and modification
      second agree and it is not empty, otherwise the one computed from the content. */
  ghost predicate Settled(cfg: Config, path: Path, stat: Stat, hash: Hash)
  {
    var known := cfg.ItemFor(path, stat).knownHash;
    if known != "" then hash == known else path in cfg.content && hash == cfg.content[path]
  }

  /** `row` carries on the scrub history and, unless it is the epoch second, the added-at time of `prev`. */
  ghost predicate KeepsHistory(prev: Row, row: Row)
  {
    && row.scrubCount == prev.scrubCount
    && row.lastScrubbed == prev.lastScrubbed
    && (prev.addedAt != 0 ==> row.addedAt == prev.addedAt)
  }

  ghost predicate Recorded(cfg: Config, path: Path, stat: Stat, v: Verdict, row: Row)
  {
    && row.fileSize == stat.size
    && row.mtime == Unix(stat.mtime)
    && match v
       case Unreadable => false
       case Unchanged => path in cfg.stored && Settled(cfg, path, stat, row.hash) && KeepsHistory(cfg.stored[path], row)
       case Modified => path in cfg.stored && Settled(cfg, path, stat, row.hash) && KeepsHistory(cfg.stored[path], row)
       case MovedFrom(source) =>
         source in cfg.stored && row.hash == cfg.stored[source].hash && KeepsHistory(cfg.stored[source], row)
       case Added =>
         path in cfg.content && row.hash == cfg.content[path] && row.scrubCount == 0 && row.lastScrubbed == None
  }

  /** The collector upserted this path. */
  ghost predicate Upserted(log: Log, path: Path)
  {
    path in log.verdict && !log.verdict[path].Unreadable? && path !in log.upsertFailed
  }

  ghost predicate SweptAway(seen: map<Path, Stat>, phase: Phase, path: Path)
  {
    path !in seen && (phase.Finished? || (phase.Sweeping? && path !in phase.remaining))
  }

  ghost predicate RowInv(cfg: Config, seen: map<Path, Stat>, phase: Phase, log: Log, rows: Table, path: Path)
  {
    && (Upserted(log, path) ==>
          path in seen && path in rows && Recorded(cfg, path, seen[path], log.verdict[path], rows[path]))
    && (!Upserted(log, path) && path in rows ==> path in cfg.stored && rows[path] == cfg.stored[path])
    && (!Upserted(log, path) && path in cfg.stored ==>
          (path in rows <==> path !in log.claimed && (SweptAway(seen, phase, path) ==> path in log.undeleted)))
    && (path in log.undeleted ==> SweptAway(seen, phase, path))
    && (path in log.upsertFailed ==> path in log.verdict && !log.verdict[path].Unreadable?)
  }

  ghost predicate TableInv(cfg: Config, seen: map<Path, Stat>, phase: Phase, log: Log, rows: Table)
  {
    forall path :: RowInv(cfg, seen, phase, log, rows, path)
  }

  ghost predicate Rows(cfg: Config, s: State)
  {
    TableInv(cfg, s.walker.seen, s.collector.phase, s.log, s.rows)
  }

  lemma WalkerKeepsRows(cfg: Config, s: State, w: WalkerStep)
    requires cfg.Valid() && WalkInv(cfg, s.walker, s.result.filesScanned, s.cancelled)
    requires PhaseInv(cfg, s.walker.done, s.chans, s.collector, s.cancelled)
    requires Rows(cfg, s) && WalkerEnabled(cfg, s, w)
    ensures Rows(cfg, ApplyWalker(cfg, s, w))
  {
    var t := ApplyWalker(cfg, s, w);
    WalkerOnlyAdds(cfg, s, w);
    assert t.collector == s.collector && t.rows == s.rows;
    assert t.log == s.log.(dropped := t.log.dropped);
    forall path ensures RowInv(cfg, t.walker.seen, t.collector.phase, t.log, t.rows, path) {
      assert RowInv(cfg, s.walker.seen, s.collector.phase, s.log, s.rows, path);
    }
  }

  lemma DropKeepsRows(cfg: Config, seen: map<Path, Stat>, phase: Phase, log: Log, rows: Table, dropped: set<Path>)
    requires TableInv(cfg, seen, phase, log, rows)
    ensures TableInv(cfg, seen, phase, log.(dropped := dropped), rows)
  {
    forall path ensures RowInv(cfg, seen, phase, log.(dropped := dropped), rows, path) {
      assert RowInv(cfg, seen, phase, log, rows, path);
    }
  }

  lemma RecordKeepsRow(cfg: Config, s: State, c: CollectorStep, path: Path)
    requires Flow(s) && Items(cfg, s) && RowInv(cfg, s.walker.seen, s.collector.phase, s.log, s.rows, path)
    requires CollectorEnabled(cfg, s, c) && c.Record?
    ensures var t := ApplyCollector(cfg, s, c); RowInv(cfg, t.walker.seen, t.collector.phase, t.log, t.rows, path)
  {
    var t := ApplyCollector(cfg, s, c);
    var r := s.collector.hand.value;
    var v := Classify(cfg, r, c.movedFrom);
    assert FlowAt(s, r.path) && FlowAt(s, path);
    HandIsFresh(s);
    if path != r.path {
      assert Upserted(t.log, path) == Upserted(s.log, path);
      if v == MovedFrom(path) {
        assert path !in s.walker.seen && !Upserted(s.log, path);
      } else {
        assert (path in t.rows) == (path in s.rows) && (path in s.rows ==> t.rows[path] == s.rows[path]);
      }
    }
  }

  lemma CollectorKeepsRows(cfg: Config, s: State, c: CollectorStep)
    requires PhaseInv(cfg, s.walker.done, s.chans, s.collector, s.cancelled)
    requires Flow(s) && Items(cfg, s) && Rows(cfg, s) && CollectorEnabled(cfg, s, c)
    ensures Rows(cfg, ApplyCollector(cfg, s, c))
  {
    var t := ApplyCollector(cfg, s, c);
    if !c.Receive? {
      forall path ensures RowInv(cfg, t.walker.seen, t.collector.phase, t.log, t.rows, path) {
        assert RowInv(cfg, s.walker.seen, s.collector.phase, s.log, s.rows, path);
        if c.Record? {
          RecordKeepsRow(cfg, s, c, path);
        }
      }
    }
  }

  // ---------- claims ----------

  /** Some file was judged to be moved from this path. */
  ghost predicate Claimed(verdict: map<Path, Verdict>, source: Path)
  {
    exists path :: path in verdict && verdict[path] == MovedFrom(source)
  }

  /** Whoever claims a record is walked before the record's file. */
  ghost predicate ClaimInv(cfg: Config, log: Log)
  {
    && (forall path :: path in log.verdict && log.verdict[path].MovedFrom? ==>
          cfg.Ahead(path, log.verdict[path].source))
    && (forall source :: source in log.claimed ==> Claimed(log.verdict, source))
  }

  lemma {:induction false} TreeGrows(walk: seq<Visit>, n: nat, m: nat)
    requires n <= m <= |walk|
    ensures Tree(walk, n).Keys <= Tree(walk, m).Keys
    decreases m
  {
    if n < m {
      TreeGrows(walk, n, m - 1);
    }
  }

  lemma UnseenIsAhead(cfg: Config, n: nat, path: Path, source: Path)
    requires n <= |cfg.walk| && path in Tree(cfg.walk, n) && source !in Tree(cfg.walk, n)
    ensures cfg.Ahead(path, source)
  {
    TreeOrigin(cfg.walk, n, path);
    var i :| 0 <= i < n && cfg.walk[i].Found? && cfg.walk[i].path == path;
    TreeGrows(cfg.walk, i + 1, n);
  }

  lemma RecordKeepsClaims(cfg: Config, s: State, c: CollectorStep)
    requires WalkInv(cfg, s.walker, s.result.filesScanned, s.cancelled)
    requires Flow(s) && Items(cfg, s) && ClaimInv(cfg, s.log)
    requires CollectorEnabled(cfg, s, c) && c.Record?
    ensures ClaimInv(cfg, ApplyCollector(cfg, s, c).log)
  {
    var r := s.collector.hand.value;
    var v := Classify(cfg, r, c.movedFrom);
    var before, after := s.log.verdict, s.log.verdict[r.path := v];
    assert FlowAt(s, r.path);
    HandIsFresh(s);
    if v.MovedFrom? {
      UnseenIsAhead(cfg, s.walker.cursor, r.path, v.source);
      assert after[r.path] == MovedFrom(v.source);
    }
    forall source | source in s.log.claimed ensures Claimed(after, source) {
      var path :| path in before && before[path] == MovedFrom(source);
      assert after[path] == MovedFrom(source);
    }
  }

  // ---------- the counters ----------

  ghost function WalkFailures(walk: seq<Visit>, n: nat): nat
    requires n <= |walk|
  {
    if n == 0 then 0 else WalkFailures(walk, n - 1) + if walk[n - 1].Failed? then 1 else 0
  }

  datatype Kind = UnreadableKind | UnchangedKind | ModifiedKind | MovedKind | AddedKind

  function KindOf(v: Verdict): Kind
  {
    match v
    case Unreadable => UnreadableKind
    case Unchanged => UnchangedKind
    case Modified => ModifiedKind
    case MovedFrom(_) => MovedKind
    case Added => AddedKind
  }

  /** The paths judged to be of one kind. */
  ghost function PathsOf(verdict: map<Path, Verdict>, kind: Kind): set<Path>
  {
    set path | path in verdict && KindOf(verdict[path]) == kind
  }

  ghost predicate CountInv(result: SyncResult, verdict: map<Path, Verdict>)
  {
    && result.filesModified == |PathsOf(verdict, ModifiedKind)|
    && result.filesMoved == |PathsOf(verdict, MovedKind)|
    && result.filesAdded == |PathsOf(verdict, AddedKind)|
  }

  /** One error for every failed visit, for every file that could not be hashed and for every failed upsert. */
  ghost predicate ErrorInv(walk: seq<Visit>, cursor: nat, errors: nat, verdict: map<Path, Verdict>,
                           upsertFailed: set<Path>)
  {
    cursor <= |walk| && errors == WalkFailures(walk, cursor) + |PathsOf(verdict, UnreadableKind)| + |upsertFailed|
  }

  ghost predicate RemovedInv(stored: set<Path>, seen: set<Path>, phase: Phase, removed: nat)
  {
    match phase
    case Sweeping(remaining) => removed == |stored - seen - remaining|
    case Finished => removed == |stored - seen|
    case _ => removed == 0 || phase.Aborted?
  }

  lemma JudgeOne(verdict: map<Path, Verdict>, path: Path, v: Verdict, kind: Kind)
    requires path !in verdict
    ensures |PathsOf(verdict[path := v], kind)| == |PathsOf(verdict, kind)| + if KindOf(v) == kind then 1 else 0
  {
    assert PathsOf(verdict[path := v], kind) == PathsOf(verdict, kind) + if KindOf(v) == kind then {path} else {};
  }

  lemma CollectorFrame(cfg: Config, s: State, c: CollectorStep)
    requires CollectorEnabled(cfg, s, c)
    ensures var t := ApplyCollector(cfg, s, c);
      && t.walker == s.walker && t.pool == s.pool && t.cancelled == s.cancelled
      && t.log.dropped == s.log.dropped && t.result.filesScanned == s.result.filesScanned
      && (!c.Record? ==> t.log.verdict == s.log.verdict && t.log.claimed == s.log.claimed)
  {
  }

  ghost predicate Counters(cfg: Config, s: State)
  {
    && CountInv(s.result, s.log.verdict)
    && ErrorInv(cfg.walk, s.walker.cursor, |s.result.errors|, s.log.verdict, s.log.upsertFailed)
    && RemovedInv(cfg.stored.Keys, s.walker.seen.Keys, s.collector.phase, s.result.filesRemoved)
  }

  lemma WalkerFrame(cfg: Config, s: State, w: WalkerStep)
    requires WalkerEnabled(cfg, s, w)
    ensures var t := ApplyWalker(cfg, s, w);
      && t.collector == s.collector && t.pool == s.pool && t.rows == s.rows && t.cancelled == s.cancelled
      && t.result == s.result.(filesScanned := t.result.filesScanned, errors := t.result.errors)
      && t.log == s.log.(dropped := t.log.dropped) && (t.log.dropped == s.log.dropped || s.cancelled)
  {
  }

  lemma WalkerKeepsCounters(cfg: Config, s: State, w: WalkerStep)
    requires PhaseInv(cfg, s.walker.done, s.chans, s.collector, s.cancelled)
    requires Counters(cfg, s) && WalkerEnabled(cfg, s, w)
    ensures Counters(cfg, ApplyWalker(cfg, s, w))
  {
    WalkerFrame(cfg, s, w);
    assert s.collector.phase.Collecting? || s.collector.phase.Aborted?;
  }

  lemma TallyKeepsCounts(result: SyncResult, verdict: map<Path, Verdict>, path: Path, v: Verdict, upserted: bool)
    requires CountInv(result, verdict) && path !in verdict
    ensures CountInv(Tally(result, path, v, upserted), verdict[path := v])
  {
    JudgeOne(verdict, path, v, ModifiedKind);
    JudgeOne(verdict, path, v, MovedKind);
    JudgeOne(verdict, path, v, AddedKind);
  }

  lemma TallyKeepsErrors(walk: seq<Visit>, cursor: nat, result: SyncResult, log: Log, path: Path, v: Verdict,
                         upserted: bool)
    requires ErrorInv(walk, cursor, |result.errors|, log.verdict, log.upsertFailed)
    requires path !in log.verdict && path !in log.upsertFailed
    ensures var failed := if !v.Unreadable? && !upserted then log.upsertFailed + {path} else log.upsertFailed;
            ErrorInv(walk, cursor, |Tally(result, path, v, upserted).errors|, log.verdict[path := v], failed)
  {
    JudgeOne(log.verdict, path, v, UnreadableKind);
  }

  lemma SweepCounts(stored: set<Path>, seen: set<Path>, remaining: set<Path>, path: Path)
    requires path in remaining && path in stored
    ensures |stored - seen - (remaining - {path})| == |stored - seen - remaining| + if path in seen then 0 else 1
  {
    var before := stored - seen - remaining;
    assert stored - seen - (remaining - {path}) == if path in seen then before else before + {path};
  }

  lemma HandIsUncounted(cfg: Config, s: State)
    requires Flow(s) && Rows(cfg, s) && s.collector.hand.Some?
    ensures var path := s.collector.hand.value.path; path !in s.log.verdict && path !in s.log.upsertFailed
  {
    var path := s.collector.hand.value.path;
    assert FlowAt(s, path);
    HandIsFresh(s);
    assert RowInv(cfg, s.walker.seen, s.collector.phase, s.log, s.rows, path);
  }

  lemma RecordKeepsCounters(cfg: Config, s: State, c: CollectorStep)
    requires Counters(cfg, s) && CollectorEnabled(cfg, s, c) && c.Record?
    requires var path := s.collector.hand.value.path; path !in s.log.verdict && path !in s.log.upsertFailed
    ensures Counters(cfg, ApplyCollector(cfg, s, c))
  {
    var r := s.collector.hand.value;
    var v := Classify(cfg, r, c.movedFrom);
    TallyKeepsCounts(s.result, s.log.verdict, r.path, v, c.upserted);
    TallyKeepsErrors(cfg.walk, s.walker.cursor, s.result, s.log, r.path, v, c.upserted);
  }

  lemma SweepKeepsRemoved(stored: set<Path>, seen: set<Path>, remaining: set<Path>, path: Path, removed: nat)
    requires path in remaining && path in stored
    ensures RemovedInv(stored, seen, Sweeping(remaining), removed) ==>
            RemovedInv(stored, seen, Sweeping(remaining - {path}), if path in seen then removed else removed + 1)
  {
    SweepCounts(stored, seen, remaining, path);
  }

  lemma SweepKeepsCounters(cfg: Config, s: State, c: CollectorStep)
    requires PhaseInv(cfg, s.walker.done, s.chans, s.collector, s.cancelled)
    requires Counters(cfg, s) && CollectorEnabled(cfg, s, c) && c.Sweep?
    ensures Counters(cfg, ApplyCollector(cfg, s, c))
  {
    var t := ApplyCollector(cfg, s, c);
    SweepKeepsRemoved(cfg.stored.Keys, s.walker.seen.Keys, s.collector.phase.remaining,
                      c.path, s.result.filesRemoved);
    assert t.log.verdict == s.log.verdict && t.log.upsertFailed == s.log.upsertFailed && t.walker == s.walker;
  }

  lemma CollectorKeepsCounters(cfg: Config, s: State, c: CollectorStep)
    requires PhaseInv(cfg, s.walker.done, s.chans, s.collector, s.cancelled)
    requires Flow(s) && Rows(cfg, s) && Counters(cfg, s) && CollectorEnabled(cfg, s, c)
    ensures Counters(cfg, ApplyCollector(cfg, s, c))
  {
    if c.Record? {
      HandIsUncounted(cfg, s);
      RecordKeepsCounters(cfg, s, c);
    } else if c.Sweep? {
      SweepKeepsCounters(cfg, s, c);
    }
  }

  // ---------- everything together ----------

  ghost predicate Inv(cfg: Config, s: State)
  {
    && WalkInv(cfg, s.walker, s.result.filesScanned, s.cancelled)
    && PoolInv(cfg, s.walker.done, s.chans, s.pool, s.cancelled)
    && PhaseInv(cfg, s.walker.done, s.chans, s.collector, s.cancelled)
    && Flow(s)
    && Items(cfg, s)
    && VerdictInv(cfg, s.walker.seen, s.cancelled, s.log.verdict)
    && Rows(cfg, s)
    && ClaimInv(cfg, s.log)
    && Counters(cfg, s)
    && (s.log.dropped != {} ==> s.cancelled)
  }

  lemma InitInv(cfg: Config)
    ensures Inv(cfg, Init(cfg))
  {
  }

  lemma WalkerInvariant(cfg: Config, s: State, w: WalkerStep)
    requires cfg.Valid() && Inv(cfg, s) && WalkerEnabled(cfg, s, w)
    ensures Inv(cfg, ApplyWalker(cfg, s, w))
  {
    WalkerFrame(cfg, s, w);
    WalkerKeepsWalk(cfg, s, w);
    WalkerKeepsFlow(cfg, s, w);
    WalkerKeepsItems(cfg, s, w);
    WalkerOnlyAdds(cfg, s, w);
    VerdictsExtend(cfg, s.walker.seen, ApplyWalker(cfg, s, w).walker.seen, s.cancelled, s.log.verdict);
    WalkerKeepsRows(cfg, s, w);
    WalkerKeepsCounters(cfg, s, w);
  }

  lemma WorkerInvariant(cfg: Config, s: State, k: WorkerStep)
    requires cfg.Valid() && Inv(cfg, s) && WorkerEnabled(cfg, s, k)
    ensures Inv(cfg, ApplyWorker(cfg, s, k))
  {
    WorkerKeepsFlow(cfg, s, k);
    DropKeepsRows(cfg, s.walker.seen, s.collector.phase, s.log, s.rows, ApplyWorker(cfg, s, k).log.dropped);
  }

  lemma CollectorInvariant(cfg: Config, s: State, c: CollectorStep)
    requires cfg.Valid() && Inv(cfg, s) && CollectorEnabled(cfg, s, c)
    ensures Inv(cfg, ApplyCollector(cfg, s, c))
  {
    CollectorFrame(cfg, s, c);
    CollectorKeepsPool(cfg, s, c);
    CollectorKeepsFlow(cfg, s, c);
    CollectorKeepsVerdicts(cfg, s, c);
    CollectorKeepsRows(cfg, s, c);
    if c.Record? {
      RecordKeepsClaims(cfg, s, c);
    }
    CollectorKeepsCounters(cfg, s, c);
  }

  lemma CancelInvariant(cfg: Config, s: State)
    requires cfg.Valid() && Inv(cfg, s)
    ensures Inv(cfg, s.(cancelled := true))
  {
    assert forall path :: FlowAt(s, path) ==> FlowAt(s.(cancelled := true), path);
    forall path | path in s.log.verdict ensures Justified(cfg, s.walker.seen, true, path, s.log.verdict[path]) {
      assert Justified(cfg, s.walker.seen, s.cancelled, path, s.log.verdict[path]);
    }
  }

  /** Every step of every goroutine keeps the invariant. */
  lemma Invariant(cfg: Config, s: State, step: Step)
    requires cfg.Valid() && Inv(cfg, s) && Enabled(cfg, s, step)
    ensures Inv(cfg, Apply(cfg, s, step))
  {
    match step {
      case Walk(w) => WalkerInvariant(cfg, s, w);
      case Work(k) => WorkerInvariant(cfg, s, k);
      case Collect(c) => CollectorInvariant(cfg, s, c);
      case Cancel => CancelInvariant(cfg, s);
    }
  }

  lemma {:induction false} RunInvariant(cfg: Config, s: State, steps: seq<Step>)
    requires cfg.Valid() && Inv(cfg, s) && IsRun(cfg, s, steps)
    ensures Inv(cfg, After(cfg, s, steps))
    decreases |steps|
  {
    if steps != [] {
      Invariant(cfg, s, steps[0]);
      RunInvariant(cfg, Apply(cfg, s, steps[0]), steps[1..]);
    }
  }

  lemma {:induction false} OneMoreStep(cfg: Config, s: State, steps: seq<Step>, step: Step)
    requires IsRun(cfg, s, steps) && Enabled(cfg, After(cfg, s, steps), step)
    ensures IsRun(cfg, s, steps + [step]) && After(cfg, s, steps + [step]) == Apply(cfg, After(cfg, s, steps), step)
    decreases |steps|
  {
    if steps == [] {
      assert steps + [step] == [step];
      assert [step][1..] == [];
    } else {
      assert (steps + [step])[1..] == steps[1..] + [step];
      OneMoreStep(cfg, Apply(cfg, s, steps[0]), steps[1..], step);
    }
  }
}
