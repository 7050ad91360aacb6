/** The pipeline cannot block and cannot run forever. */
module SyncProgress {
  import opened Domain
  import opened SyncModel
  import opened SyncInvariant

  /** A match for the file is found by the search over all records, or there is none. */
  lemma MoveSearchAnswers(cfg: Config, seen: map<Path, Stat>, path: Path, stat: Stat) returns (found: Option<Path>)
    ensures MoveSearch(cfg, seen, path, stat, found)
  {
    if source :| source in cfg.stored && cfg.Matches(path, stat, source) && source !in seen {
      found := Some(source);
    } else {
      found := None;
    }
  }

  /** No repository call that the step makes fails. */
  predicate CallsSucceed(step: Step)
  {
    match step
    case Collect(Record(_, _, _, deleted, upserted)) => deleted && upserted
    case Collect(Sweep(_, deleted)) => deleted
    case _ => true
  }

  lemma CollectorCanMove(cfg: Config, s: State) returns (step: Step)
    requires Running(s)
    requires s.collector.phase.Sweeping? || s.collector.hand.Some? || s.chans.results != []
    ensures Enabled(cfg, s, step) && step != Cancel && CallsSucceed(step)
  {
    match s.collector.phase {
      case Sweeping(remaining) =>
        if remaining == {} {
          step := Collect(Finish);
        } else {
          var path :| path in remaining;
          step := Collect(Sweep(path, true));
        }
      case Collecting =>
        if s.collector.hand.Some? {
          var r := s.collector.hand.value;
          var found := None;
          if !(r.err || r.path in cfg.stored) {
            found := MoveSearchAnswers(cfg, s.walker.seen, r.path, Stat(r.size, r.mtime));
          }
          step := Collect(Record(found, 0, 0, true, true));
        } else {
          step := Collect(Receive);
        }
    }
  }

  lemma WalkerCanMove(cfg: Config, s: State) returns (step: Step)
    requires Running(s) && WalkInv(cfg, s.walker, s.result.filesScanned, s.cancelled)
    requires s.walker.done.None? && (|s.chans.work| < WORK_BUFFER_SIZE || s.cancelled)
    ensures Enabled(cfg, s, step) && step != Cancel
  {
    if s.walker.pending.None? {
      step := if s.walker.cursor < |cfg.walk| then Walk(Visiting) else Walk(FinishWalk);
    } else {
      step := if s.cancelled then Walk(AbortWalk) else Walk(Send);
    }
  }

  /** In every reachable state in which the sync has not returned, some goroutine can take a
      step; this needs only a positive buffer and one worker, and holds after a cancellation too. */
  lemma NeverBlocked(cfg: Config, s: State) returns (step: Step)
    requires cfg.Valid() && Inv(cfg, s) && Running(s)
    ensures Enabled(cfg, s, step) && step != Cancel && CallsSucceed(step)
  {
    if s.collector.phase.Sweeping? || s.collector.hand.Some? || s.chans.results != [] {
      step := CollectorCanMove(cfg, s);
    } else if s.pool.busy != [] {
      step := Work(Put(0, false));
    } else if s.pool.idle > 0 && s.chans.work != [] {
      step := Work(Take);
    } else if s.walker.done.None? && (|s.chans.work| < WORK_BUFFER_SIZE || s.cancelled) {
      step := WalkerCanMove(cfg, s);
    } else if s.pool.idle > 0 {
      step := Work(Exit);
    } else if !s.chans.resultsClosed {
      step := Work(CloseResults);
    } else {
      step := Collect(EndLoop);
    }
  }

  // ---------- termination ----------

  function WalkerMeasure(cfg: Config, walker: Walker): int
  {
    7 * (|cfg.walk| - walker.cursor) + (if walker.pending.Some? then 6 else 0) + if walker.done.None? then 1 else 0
  }

  function PoolMeasure(chans: Channels, pool: Pool): nat
  {
    5 * |chans.work| + 4 * |pool.busy| + 3 * |chans.results| + pool.idle + |pool.busy|
    + if chans.resultsClosed then 0 else 1
  }

  function CollectorMeasure(cfg: Config, collector: Collector): nat
  {
    (if collector.hand.Some? then 2 else 0) +
    match collector.phase
    case Collecting => |cfg.stored| + 2
    case Sweeping(remaining) => |remaining| + 1
    case Finished => 0
    case Aborted => 0
  }

  /** How far a file still has to travel, what the workers still have to do, and the records still to sweep. */
  function Measure(cfg: Config, s: State): int
  {
    WalkerMeasure(cfg, s.walker) + PoolMeasure(s.chans, s.pool) + CollectorMeasure(cfg, s.collector)
    + if s.cancelled then 0 else 1
  }

  lemma WalkerDecreases(cfg: Config, s: State, w: WalkerStep)
    requires WalkInv(cfg, s.walker, s.result.filesScanned, s.cancelled) && WalkerEnabled(cfg, s, w)
    ensures var t := ApplyWalker(cfg, s, w);
      && 0 <= WalkerMeasure(cfg, t.walker)
      && WalkerMeasure(cfg, t.walker) + PoolMeasure(t.chans, t.pool)
         < WalkerMeasure(cfg, s.walker) + PoolMeasure(s.chans, s.pool)
      && t.collector == s.collector && t.cancelled == s.cancelled
  {
  }

  lemma WorkerDecreases(cfg: Config, s: State, k: WorkerStep)
    requires WorkerEnabled(cfg, s, k)
    ensures var t := ApplyWorker(cfg, s, k);
      && PoolMeasure(t.chans, t.pool) < PoolMeasure(s.chans, s.pool)
      && t.walker == s.walker && t.collector == s.collector && t.cancelled == s.cancelled
  {
  }

  lemma PhaseDecreases(cfg: Config, s: State, c: CollectorStep)
    requires CollectorEnabled(cfg, s, c) && (c.EndLoop? || c.Sweep? || c.Finish? || c.AbortCollect?)
    ensures var t := ApplyCollector(cfg, s, c);
      && t.chans == s.chans && t.pool == s.pool && t.walker == s.walker && t.cancelled == s.cancelled
      && CollectorMeasure(cfg, t.collector) < CollectorMeasure(cfg, s.collector)
  {
    assert |cfg.stored.Keys| == |cfg.stored|;
    if c.Sweep? {
      var remaining := s.collector.phase.remaining;
      assert |remaining - {c.path}| == |remaining| - 1;
    }
  }

  lemma CollectorDecreases(cfg: Config, s: State, c: CollectorStep)
    requires CollectorEnabled(cfg, s, c)
    ensures var t := ApplyCollector(cfg, s, c);
      && PoolMeasure(t.chans, t.pool) + CollectorMeasure(cfg, t.collector)
         < PoolMeasure(s.chans, s.pool) + CollectorMeasure(cfg, s.collector)
      && t.walker == s.walker && t.cancelled == s.cancelled
  {
    if !c.Receive? && !c.Record? {
      PhaseDecreases(cfg, s, c);
    }
  }

  /** Every step of every goroutine brings the sync closer to its return, so there is no infinite run. */
  lemma StepsDecrease(cfg: Config, s: State, step: Step)
    requires WalkInv(cfg, s.walker, s.result.filesScanned, s.cancelled) && Enabled(cfg, s, step)
    ensures 0 <= Measure(cfg, Apply(cfg, s, step)) < Measure(cfg, s)
    ensures step != Cancel ==> Apply(cfg, s, step).cancelled == s.cancelled
  {
    match step {
      case Walk(w) => WalkerDecreases(cfg, s, w);
      case Work(k) => WorkerDecreases(cfg, s, k);
      case Collect(c) => CollectorDecreases(cfg, s, c);
      case Cancel =>
    }
  }

  /** One more step of a run: still a run, the invariant kept, and closer to the end. */
  lemma Advance(cfg: Config, steps: seq<Step>, s: State, step: Step)
    requires cfg.Valid() && Inv(cfg, s) && IsRun(cfg, Init(cfg), steps) && s == After(cfg, Init(cfg), steps)
    requires Enabled(cfg, s, step)
    ensures IsRun(cfg, Init(cfg), steps + [step]) && Apply(cfg, s, step) == After(cfg, Init(cfg), steps + [step])
    ensures Inv(cfg, Apply(cfg, s, step)) && 0 <= Measure(cfg, Apply(cfg, s, step)) < Measure(cfg, s)
    ensures step != Cancel ==> Apply(cfg, s, step).cancelled == s.cancelled
  {
    StepsDecrease(cfg, s, step);
    Invariant(cfg, s, step);
    OneMoreStep(cfg, Init(cfg), steps, step);
  }

  /** A bound on the length of every run. */
  lemma {:induction false} RunsAreBounded(cfg: Config, s: State, steps: seq<Step>)
    requires cfg.Valid() && Inv(cfg, s) && IsRun(cfg, s, steps)
    ensures |steps| <= Measure(cfg, s)
    decreases |steps|
  {
    if steps != [] {
      StepsDecrease(cfg, s, steps[0]);
      Invariant(cfg, s, steps[0]);
      RunsAreBounded(cfg, Apply(cfg, s, steps[0]), steps[1..]);
    }
  }

  /** From every reachable state the run can be carried on to the return of the sync, without a
      further cancellation; a sync that was not cancelled then returns nil. */
  lemma CanReturn(cfg: Config, s: State) returns (steps: seq<Step>)
    requires cfg.Valid() && Inv(cfg, s)
    ensures IsRun(cfg, s, steps) && !Running(After(cfg, s, steps))
    ensures !s.cancelled ==> After(cfg, s, steps).collector.phase.Finished?
    decreases Measure(cfg, s)
  {
    if !Running(s) {
      steps := [];
    } else {
      var step := NeverBlocked(cfg, s);
      StepsDecrease(cfg, s, step);
      Invariant(cfg, s, step);
      var rest := CanReturn(cfg, Apply(cfg, s, step));
      steps := [step] + rest;
      assert steps[1..] == rest;
    }
  }
}
