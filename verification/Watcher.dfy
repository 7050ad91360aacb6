/** The watcher's event loop itself: the local variables of `Run` as fields and each case of its
    `select` as a method, proved to take exactly one step of the state machine. */
module Watcher {
  import opened Domain
  import opened ScrubSelection
  import W = WatcherModel

  /** What the loop wakes up for. */
  datatype Wakeup = Done | Timer | Event | EventsClosed | Error | ErrorsClosed

  /** What a resync would do: how long it takes, and which files it touches, each with the number
      of the root that it lies in. */
  datatype Resync = Resync(takes: nat, touched: seq<(string, nat)>)

  /** What the world does next: time goes by, the runtime sends a tick that is due, a file changes,
      or the loop wakes up, if what should wake it is ready. */
  datatype Turn = Wait(elapsed: nat) | Tick | Change(notice: W.Notice) | Wake(wakeup: Wakeup, resync: Resync)

  class EventLoop {
    const debounce: int
    var now: int
    var timers: seq<W.Timer>
    var timer: Option<nat>
    var timerC: Option<nat>
    var inbox: seq<W.Notice>
    var pending: set<string>
    var log: seq<W.Entry>
    var stopped: bool
    const touches: set<string>

    function Snapshot(): W.State
      reads this
    {
      W.State(now, timers, timer, timerC, inbox, pending, log, stopped, touches)
    }

    /** A debounce interval below 100 ms is raised to it. */
    constructor (debounce: int, now: int, touches: set<string>)
      ensures this.debounce >= 100 && this.debounce >= debounce
      ensures this.debounce == debounce || (this.debounce == 100 && debounce < 100)
      ensures Snapshot() == W.Init(now, touches)
    {
      this.debounce := if debounce < W.MIN_DEBOUNCE then W.MIN_DEBOUNCE else debounce;
      this.now, timers, timer, timerC := now, [], None, None;
      inbox, pending, log, stopped := [], {}, [], false;
      this.touches := touches;
    }

    method Pass(elapsed: nat)
      requires !stopped
      modifies this
      ensures Snapshot() == W.Apply(debounce, old(Snapshot()), W.Pass(elapsed))
    {
      now := now + elapsed;
    }

    /** The file system reports a change. */
    method Notify(notice: W.Notice)
      requires !stopped
      modifies this
      ensures Snapshot() == W.Apply(debounce, old(Snapshot()), W.Outside(notice))
    {
      inbox := inbox + [notice];
    }

    /** The runtime sends the tick of an expired timer. */
    method Expire(i: nat)
      requires W.Enabled(Snapshot(), W.Expire(i))
      modifies this
      ensures Snapshot() == W.Apply(debounce, old(Snapshot()), W.Expire(i))
    {
      timers := W.WithStatus(timers, i, W.Ticked);
    }

    /** `timer.Stop()`: true if the timer had neither ticked nor been stopped. */
    method StopTimer(i: nat) returns (wasArmed: bool)
      requires i < |timers|
      modifies `timers
      ensures wasArmed <==> old(timers[i].status.Armed?)
      ensures timers == if wasArmed then W.WithStatus(old(timers), i, W.Quiet) else old(timers)
    {
      wasArmed := timers[i].status.Armed?;
      if wasArmed {
        timers := W.WithStatus(timers, i, W.Quiet);
      }
    }

    /** The context is done, or a channel of the file system's watcher is closed. */
    method Stop(cancelled: bool)
      requires !stopped && (timer.Some? ==> timer.value < |timers|)
      modifies this
      ensures Snapshot() == W.Apply(debounce, old(Snapshot()), W.Return(cancelled))
      ensures stopped && (cancelled && timer.Some? ==> !timers[timer.value].status.Armed?)
    {
      if cancelled && timer.Some? {
        var wasArmed := StopTimer(timer.value);
      }
      stopped := true;
    }

    /** The events that a resync of these roots causes. */
    method EchoOf(changed: seq<string>, touched: seq<(string, nat)>) returns (echo: seq<W.Notice>)
      ensures W.CausedBy(echo, changed, touches)
      ensures forall k :: 0 <= k < |touched| && touched[k].0 in touches && touched[k].1 < |changed| ==>
        W.Notice(touched[k].0, changed[touched[k].1]) in echo
    {
      echo := [];
      var i := 0;
      while i < |touched|
        invariant 0 <= i <= |touched| && W.CausedBy(echo, changed, touches)
        invariant forall k :: 0 <= k < i && touched[k].0 in touches && touched[k].1 < |changed| ==>
          W.Notice(touched[k].0, changed[touched[k].1]) in echo
      {
        var (name, k) := touched[i];
        if name in touches && k < |changed| {
          echo := echo + [W.Notice(name, changed[k])];
        }
        i := i + 1;
      }
    }

    /** Collects the pending roots in any order and calls back with them. */
    method OnTimer(resync: Resync) returns (changed: seq<string>, echo: seq<W.Notice>)
      requires timerC.Some? && timerC.value < |timers| && timers[timerC.value].status.Ticked? && !stopped
      modifies this
      ensures W.Enabled(old(Snapshot()), W.Fire(changed, resync.takes, echo))
      ensures Snapshot() == W.Apply(debounce, old(Snapshot()), W.Fire(changed, resync.takes, echo))
    {
      timers := W.WithStatus(timers, timerC.value, W.Quiet);
      changed, echo := [], [];
      if pending != {} {
        var unvisited := pending;
        while unvisited != {}
          invariant unvisited <= pending && W.Enumerates(changed, pending - unvisited)
          decreases unvisited
        {
          var root :| root in unvisited;
          changed := changed + [root];
          unvisited := unvisited - {root};
        }
        pending := {};
        log := log + [W.Fired(changed, now, timerC.value)];
        now := now + resync.takes;
        echo := EchoOf(changed, resync.touched);
        inbox := inbox + echo;
      }
      timerC := None;
    }

    /** Accepts an event, unless it is of the database, the shadow or the canary. */
    method OnEvent()
      requires W.TimerInv(debounce, Snapshot()) && !stopped && inbox != []
      modifies this
      ensures Snapshot() == W.Apply(debounce, old(Snapshot()), W.Receive)
      ensures log == old(log) + if old(inbox[0]).base in {"bitrot.db", "bitrot.db.shadow", ".bitrot-canary"} then []
                                else [W.Accepted(old(inbox[0]).root, now, |old(timers)|)]
    {
      W.ReceivedIsAccepted(debounce, Snapshot());
      var base, root := inbox[0].base, inbox[0].root;
      inbox := inbox[1..];
      if base == "bitrot.db" || base == "bitrot.db.shadow" || base == ".bitrot-canary" {
        return;
      }
      pending := pending + {root};
      if timer.Some? {
        var wasArmed := StopTimer(timer.value);
        if !wasArmed && timers[timer.value].status.Ticked? {
          timers := W.WithStatus(timers, timer.value, W.Quiet);
        }
      }
      log := log + [W.Accepted(root, now, |timers|)];
      timer := Some(|timers|);
      timers := timers + [W.Timer(now + debounce, W.Armed)];
      timerC := timer;
    }
  }

  /** Whether what should wake the loop is ready. */
  ghost predicate IsReady(s: W.State, wakeup: Wakeup)
  {
    match wakeup
    case Timer => s.timerC.Some? && s.timerC.value < |s.timers| && s.timers[s.timerC.value].status.Ticked?
    case Event => s.inbox != []
    case _ => true
  }

  /** What the loop should do when it wakes up for this. */
  ghost predicate AnswersWakeup(wakeup: Wakeup, resync: Resync, step: W.Step)
  {
    match wakeup
    case Done => step == W.Return(true)
    case EventsClosed => step == W.Return(false)
    case ErrorsClosed => step == W.Return(false)
    case Error => step == W.ReceiveError
    case Event => step == W.Receive
    case Timer => step.Fire? && step.took == resync.takes
  }

  /** What the loop does when it wakes up, if what should wake it is ready. */
  method WakeUp(loop: EventLoop, wakeup: Wakeup, resync: Resync) returns (ghost step: Option<W.Step>)
    requires W.Inv(loop.debounce, loop.Snapshot()) && !loop.stopped
    modifies loop
    ensures step.None? ==> loop.Snapshot() == old(loop.Snapshot())
    ensures step.Some? ==>
      && W.Enabled(old(loop.Snapshot()), step.value)
      && loop.Snapshot() == W.Apply(loop.debounce, old(loop.Snapshot()), step.value)
    ensures step.Some? <==> IsReady(old(loop.Snapshot()), wakeup)
    ensures step.Some? ==> AnswersWakeup(wakeup, resync, step.value)
  {
    step := None;
    match wakeup
    case Done =>
      step := Some(W.Return(true));
      loop.Stop(true);
    case EventsClosed | ErrorsClosed =>
      step := Some(W.Return(false));
      loop.Stop(false);
    case Error =>
      step := Some(W.ReceiveError);
    case Event =>
      if loop.inbox != [] {
        step := Some(W.Receive);
        loop.OnEvent();
      }
    case Timer =>
      if loop.timerC.Some? && loop.timers[loop.timerC.value].status.Ticked? {
        var changed, echo := loop.OnTimer(resync);
        step := Some(W.Fire(changed, resync.takes, echo));
      }
  }

  /** Nothing that this turn needs is ready: no timer is due, or what should wake the loop is not there. */
  ghost predicate IsIdle(s: W.State, turn: Turn)
  {
    match turn
    case Tick =>
      !(&& s.timer.Some? && s.timer.value < |s.timers|
        && s.timers[s.timer.value].status.Armed? && s.timers[s.timer.value].deadline <= s.now)
    case Wake(wakeup, _) => !IsReady(s, wakeup)
    case _ => false
  }

  /** What this turn calls for. */
  ghost predicate Answers(s: W.State, turn: Turn, step: W.Step)
  {
    match turn
    case Wait(elapsed) => step == W.Pass(elapsed)
    case Tick => s.timer.Some? && step == W.Expire(s.timer.value)
    case Change(notice) => step == W.Outside(notice)
    case Wake(wakeup, resync) => AnswersWakeup(wakeup, resync, step)
  }

  /** The steps answer the turns one by one, as long as the loop runs; only idle turns go unanswered. */
  ghost predicate AnswersAll(debounce: int, s: W.State, turns: seq<Turn>, steps: seq<W.Step>)
    requires W.IsRun(debounce, s, steps)
    decreases |turns|
  {
    if turns == [] || s.stopped then steps == []
    else if IsIdle(s, turns[0]) then AnswersAll(debounce, s, turns[1..], steps)
    else
      && steps != [] && Answers(s, turns[0], steps[0])
      && AnswersAll(debounce, W.Apply(debounce, s, steps[0]), turns[1..], steps[1..])
  }

  lemma {:induction false} OneMoreTurn(debounce: int, s: W.State, turns: seq<Turn>, steps: seq<W.Step>, turn: Turn,
                                       step: Option<W.Step>)
    requires W.IsRun(debounce, s, steps) && AnswersAll(debounce, s, turns, steps)
    requires var t := W.After(debounce, s, steps);
      && !t.stopped && (step.None? <==> IsIdle(t, turn))
      && (step.Some? ==> W.Enabled(t, step.value) && Answers(t, turn, step.value))
    ensures var more := steps + if step.Some? then [step.value] else [];
      W.IsRun(debounce, s, more) && AnswersAll(debounce, s, turns + [turn], more)
    decreases |turns|
  {
    var more := steps + if step.Some? then [step.value] else [];
    if step.Some? {
      W.OneMoreStep(debounce, s, steps, step.value);
    }
    if turns == [] {
      assert (turns + [turn])[1..] == [];
    } else {
      assert (turns + [turn])[1..] == turns[1..] + [turn];
      if steps != [] {
        assert more[1..] == steps[1..] + if step.Some? then [step.value] else [];
      }
      if s.stopped {
      } else if IsIdle(s, turns[0]) {
        OneMoreTurn(debounce, s, turns[1..], steps, turn, step);
      } else {
        OneMoreTurn(debounce, W.Apply(debounce, s, steps[0]), turns[1..], steps[1..], turn, step);
      }
    }
  }

  /** And the loop's invariant goes on. */
  lemma TurnKeepsRun(debounce: int, start: int, touches: set<string>, turns: seq<Turn>, steps: seq<W.Step>, turn: Turn,
                     step: Option<W.Step>)
    requires W.IsRun(debounce, W.Init(start, touches), steps)
    requires AnswersAll(debounce, W.Init(start, touches), turns, steps)
    requires var t := W.After(debounce, W.Init(start, touches), steps);
      && W.Inv(debounce, t) && !t.stopped && (step.None? <==> IsIdle(t, turn))
      && (step.Some? ==> W.Enabled(t, step.value) && Answers(t, turn, step.value))
    ensures var more := steps + if step.Some? then [step.value] else [];
      && W.IsRun(debounce, W.Init(start, touches), more)
      && AnswersAll(debounce, W.Init(start, touches), turns + [turn], more)
      && W.Inv(debounce, W.After(debounce, W.Init(start, touches), more))
      && var t := W.After(debounce, W.Init(start, touches), steps);
         W.After(debounce, W.Init(start, touches), more) == if step.Some? then W.Apply(debounce, t, step.value) else t
  {
    OneMoreTurn(debounce, W.Init(start, touches), turns, steps, turn, step);
    if step.Some? {
      W.Advance(debounce, start, touches, steps, step.value);
    } else {
      assert steps + [] == steps;
    }
  }

  /** What holds of the log of such a run. */
  lemma RunIsRight(interval: int, start: int, touches: set<string>, turns: seq<Turn>, i: nat, steps: seq<W.Step>)
    requires W.IsRun(interval, W.Init(start, touches), steps) && i <= |turns|
    requires AnswersAll(interval, W.Init(start, touches), turns[..i], steps)
    requires i == |turns| || W.After(interval, W.Init(start, touches), steps).stopped
    ensures AnswersAll(interval, W.Init(start, touches), turns, steps)
    ensures var s := W.After(interval, W.Init(start, touches), steps);
      && W.Debounced(interval, s.log)
      && W.AcceptedInOrder(s.log) == W.RootsBut({"bitrot.db", "bitrot.db.shadow", ".bitrot-canary"},
                                                W.Received(interval, W.Init(start, touches), steps))
      && W.AcceptedRoots(s.log) == W.ReportedRoots(s.log) + s.pending
  {
    StoppedAnswers(interval, W.Init(start, touches), turns, i, steps);
    W.DebounceIsCorrect(interval, start, touches, steps);
    W.NothingIsLost(interval, start, touches, steps);
    W.AcceptsAllButThree(interval, start, touches, steps);
  }

  /** One turn, which is the step of the machine that it calls for, or none if it is idle. */
  method OneTurn(loop: EventLoop, turn: Turn) returns (ghost step: Option<W.Step>)
    requires W.Inv(loop.debounce, loop.Snapshot()) && !loop.stopped
    modifies loop
    ensures step.None? ==> loop.Snapshot() == old(loop.Snapshot())
    ensures step.None? <==> IsIdle(old(loop.Snapshot()), turn)
    ensures step.Some? ==>
      && W.Enabled(old(loop.Snapshot()), step.value) && Answers(old(loop.Snapshot()), turn, step.value)
      && loop.Snapshot() == W.Apply(loop.debounce, old(loop.Snapshot()), step.value)
  {
    step := None;
    match turn
    case Wait(elapsed) =>
      step := Some(W.Pass(elapsed));
      loop.Pass(elapsed);
    case Tick =>
      if loop.timer.Some? && loop.timers[loop.timer.value].status.Armed?
         && loop.timers[loop.timer.value].deadline <= loop.now {
        step := Some(W.Expire(loop.timer.value));
        loop.Expire(loop.timer.value);
      }
    case Change(notice) =>
      step := Some(W.Outside(notice));
      loop.Notify(notice);
    case Wake(wakeup, resync) =>
      step := WakeUp(loop, wakeup, resync);
  }

  /** Runs the loop for as long as the outside world keeps it going. It does what each turn calls for.
      What it has called back with by then is the log of a run of the machine: it has accepted the
      events of all files but three, nothing accepted has been lost, and every callback is right. */
  method Run(debounce: int, start: int, touches: set<string>, turns: seq<Turn>)
    returns (log: seq<W.Entry>, pending: set<string>, stopped: bool,
             ghost steps: seq<W.Step>, ghost s: W.State, ghost interval: int)
    ensures interval >= 100 && (debounce >= 100 ==> interval == debounce) && (debounce < 100 ==> interval == 100)
    ensures W.IsRun(interval, W.Init(start, touches), steps) && s == W.After(interval, W.Init(start, touches), steps)
    ensures log == s.log && pending == s.pending && stopped == s.stopped
    ensures AnswersAll(interval, W.Init(start, touches), turns, steps)
    ensures W.Debounced(interval, log)
    ensures W.AcceptedInOrder(log)
         == W.RootsBut({"bitrot.db", "bitrot.db.shadow", ".bitrot-canary"},
                       W.Received(interval, W.Init(start, touches), steps))
    ensures W.AcceptedRoots(log) == W.ReportedRoots(log) + pending
  {
    var loop := new EventLoop(debounce, start, touches);
    interval := loop.debounce;
    steps, s := [], loop.Snapshot();
    var i := 0;
    while i < |turns| && !loop.stopped
      invariant 0 <= i <= |turns|
      invariant loop.debounce == interval && fresh(loop)
      invariant W.IsRun(interval, W.Init(start, touches), steps)
      invariant s == W.After(interval, W.Init(start, touches), steps)
      invariant loop.Snapshot() == s && W.Inv(interval, s)
      invariant AnswersAll(interval, W.Init(start, touches), turns[..i], steps)
      decreases |turns| - i
    {
      ghost var step := OneTurn(loop, turns[i]);
      TurnKeepsRun(interval, start, touches, turns[..i], steps, turns[i], step);
      assert turns[..i + 1] == turns[..i] + [turns[i]];
      steps := steps + if step.Some? then [step.value] else [];
      s := loop.Snapshot();
      i := i + 1;
    }
    log, pending, stopped := loop.log, loop.pending, loop.stopped;
    RunIsRight(interval, start, touches, turns, i, steps);
  }

  /** A loop that has returned leaves all later turns unanswered. */
  lemma {:induction false} StoppedAnswers(debounce: int, s: W.State, turns: seq<Turn>, i: nat, steps: seq<W.Step>)
    requires W.IsRun(debounce, s, steps) && i <= |turns| && AnswersAll(debounce, s, turns[..i], steps)
    requires i == |turns| || W.After(debounce, s, steps).stopped
    ensures AnswersAll(debounce, s, turns, steps)
    decreases |turns|
  {
    if i == |turns| {
      assert turns[..i] == turns;
    } else if i > 0 && !s.stopped {
      assert turns[..i][1..] == turns[1..][..i - 1];
      if IsIdle(s, turns[0]) {
        StoppedAnswers(debounce, s, turns[1..], i - 1, steps);
      } else {
        StoppedAnswers(debounce, W.Apply(debounce, s, steps[0]), turns[1..], i - 1, steps[1..]);
      }
    }
  }

  /** The state after a turn, and the turns and steps that are left. */
  lemma Next(debounce: int, s: W.State, turn: Turn, rest: seq<Turn>, steps: seq<W.Step>)
    requires W.IsRun(debounce, s, steps) && AnswersAll(debounce, s, [turn] + rest, steps) && !s.stopped
    ensures IsIdle(s, turn) ==> AnswersAll(debounce, s, rest, steps)
    ensures !IsIdle(s, turn) ==>
      && steps != [] && Answers(s, turn, steps[0]) && W.Enabled(s, steps[0])
      && W.IsRun(debounce, W.Apply(debounce, s, steps[0]), steps[1..])
      && AnswersAll(debounce, W.Apply(debounce, s, steps[0]), rest, steps[1..])
      && W.After(debounce, s, steps) == W.After(debounce, W.Apply(debounce, s, steps[0]), steps[1..])
  {
    assert ([turn] + rest)[1..] == rest;
  }

  lemma OnlyOne(root: string, order: seq<string>)
    requires W.Enumerates(order, {root})
    ensures order == [root]
  {
    assert root in order;
    forall i | 0 <= i < |order| ensures order[i] in {root} {
      assert order[i] in order;
    }
    DistinctSize(order, {root});
  }

  /** Nothing more happens to a loop without timers. */
  lemma QuietLoop(debounce: int, s: W.State, resync: Resync, quiet: nat, steps: seq<W.Step>)
    requires W.IsRun(debounce, s, steps) && !s.stopped && s.timers == [] && s.timer.None? && s.timerC.None?
    requires AnswersAll(debounce, s, [Wait(quiet)] + ([Tick] + ([Wake(Timer, resync)] + [])), steps)
    ensures W.After(debounce, s, steps).log == s.log
  {
    Next(debounce, s, Wait(quiet), [Tick] + ([Wake(Timer, resync)] + []), steps);
    var t := W.Apply(debounce, s, steps[0]);
    Next(debounce, t, Tick, [Wake(Timer, resync)] + [], steps[1..]);
    Next(debounce, t, Wake(Timer, resync), [], steps[1..]);
  }

  /** And the timer of a loop that has just accepted its first event goes off. */
  lemma TimerGoesOff(debounce: nat, s: W.State, root: string, resync: Resync, quiet: nat, steps: seq<W.Step>)
    requires W.IsRun(debounce, s, steps) && !s.stopped && quiet >= debounce
    requires s.timers == [W.Timer(s.now + debounce, W.Armed)] && s.timer == s.timerC == Some(0) && s.pending == {root}
    requires AnswersAll(debounce, s, [Wait(quiet)] + ([Tick] + ([Wake(Timer, resync)] + [])), steps)
    ensures W.After(debounce, s, steps).log == s.log + [W.Fired([root], s.now + quiet, 0)]
  {
    Next(debounce, s, Wait(quiet), [Tick] + ([Wake(Timer, resync)] + []), steps);
    var t := W.Apply(debounce, s, steps[0]);
    Next(debounce, t, Tick, [Wake(Timer, resync)] + [], steps[1..]);
    var u := W.Apply(debounce, t, steps[1]);
    Next(debounce, u, Wake(Timer, resync), [], steps[1..][1..]);
    OnlyOne(root, steps[2].changed);
  }

  /** A single change of a file that is none of the three, an interval of quiet, the tick and the wake-up
      give exactly one callback, for its root; a change of one of the three gives none. */
  lemma OneChange(debounce: nat, now: int, touches: set<string>, notice: W.Notice, quiet: nat, resync: Resync,
                  steps: seq<W.Step>)
    requires W.IsRun(debounce, W.Init(now, touches), steps) && quiet >= debounce
    requires AnswersAll(debounce, W.Init(now, touches),
                        [Change(notice), Wake(Event, resync), Wait(quiet), Tick, Wake(Timer, resync)], steps)
    ensures W.After(debounce, W.Init(now, touches), steps).log
         == if notice.base in {"bitrot.db", "bitrot.db.shadow", ".bitrot-canary"} then []
            else [W.Accepted(notice.root, now, 0), W.Fired([notice.root], now + quiet, 0)]
  {
    var s := W.Init(now, touches);
    var later := [Wait(quiet)] + ([Tick] + ([Wake(Timer, resync)] + []));
    assert [Change(notice), Wake(Event, resync), Wait(quiet), Tick, Wake(Timer, resync)]
        == [Change(notice)] + ([Wake(Event, resync)] + later);
    Next(debounce, s, Change(notice), [Wake(Event, resync)] + later, steps);
    var t := W.Apply(debounce, s, steps[0]);
    Next(debounce, t, Wake(Event, resync), later, steps[1..]);
    W.ReceivedIsAccepted(debounce, t);
    W.ThreeAreIgnored(notice.base);
    var u := W.Apply(debounce, t, steps[1]);
    if W.IsIgnored(notice.base) {
      QuietLoop(debounce, u, resync, quiet, steps[1..][1..]);
    } else {
      TimerGoesOff(debounce, u, notice.root, resync, quiet, steps[1..][1..]);
    }
  }
}
