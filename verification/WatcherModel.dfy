/** The watcher's event loop as a state machine: the clock, the runtime's timers, the events that
    wait for the loop, the set of roots that have changed, and a log of what the loop accepted
    and what it called back with. A callback resyncs, which touches files, and so causes events. */
module WatcherModel {
  import opened Domain

  const MIN_DEBOUNCE := 100

  /** What the runtime does with a timer: it will tick at the deadline, its tick waits in its
      channel, or neither, because it was stopped or its tick was taken. */
  datatype TimerStatus = Armed | Ticked | Quiet

  datatype Timer = Timer(deadline: int, status: TimerStatus)

  /** Accepted events, with the timer each has started, and callbacks, with the timer that
      caused each. Times are in milliseconds. */
  datatype Entry =
    | Accepted(root: string, at: int, timer: nat)
    | Fired(changed: seq<string>, at: int, timer: nat)

  /** An event of the file system: the last element of its path, and the root that contains it. */
  datatype Notice = Notice(base: string, root: string)

  /** `timers` are all timers ever made; `timer` is the latest, `timerC` the one listened to; `touches`
      are the names of the files that a resync may touch in a root. */
  datatype State = State(
    now: int,
    timers: seq<Timer>,
    timer: Option<nat>,
    timerC: Option<nat>,
    inbox: seq<Notice>,
    pending: set<string>,
    log: seq<Entry>,
    stopped: bool,
    touches: set<string>)

  function Init(now: int, touches: set<string>): State
  {
    State(now, [], None, None, [], {}, [], false, touches)
  }

  /** `Outside` is an event that no callback has caused; `echo` are the events that one has. */
  datatype Step =
    | Pass(elapsed: nat)
    | Expire(i: nat)
    | Outside(notice: Notice)
    | Receive
    | Fire(changed: seq<string>, took: nat, echo: seq<Notice>)
    | ReceiveError
    | Return(cancelled: bool)

  predicate IsIgnored(base: string)
  {
    base in {"bitrot.db", "bitrot.db.shadow", ".bitrot-canary"}
  }

  ghost predicate Enumerates(s: seq<string>, names: set<string>)
  {
    && (forall name :: name in s <==> name in names)
    && (forall i, j :: 0 <= i < j < |s| ==> s[i] != s[j])
  }

  /** Events of files that a resync of these roots may touch. */
  ghost predicate CausedBy(echo: seq<Notice>, changed: seq<string>, touches: set<string>)
  {
    forall i :: 0 <= i < |echo| ==> echo[i].base in touches && echo[i].root in changed
  }

  ghost predicate Enabled(s: State, step: Step)
  {
    && !s.stopped
    && match step
       case Expire(i) => i < |s.timers| && s.timers[i].status.Armed? && s.timers[i].deadline <= s.now
       case Receive => s.inbox != []
       case Fire(changed, _, echo) =>
         && s.timerC.Some? && s.timerC.value < |s.timers| && s.timers[s.timerC.value].status.Ticked?
         && Enumerates(changed, s.pending)
         && CausedBy(echo, changed, s.touches)
       case _ => true
  }

  function WithStatus(timers: seq<Timer>, i: nat, status: TimerStatus): seq<Timer>
    requires i < |timers|
  {
    timers[i := timers[i].(status := status)]
  }

  /** `timer.Stop()` has an effect only before the tick. */
  function Stop(timers: seq<Timer>, timer: Option<nat>): seq<Timer>
  {
    if timer.Some? && timer.value < |timers| && timers[timer.value].status.Armed?
    then WithStatus(timers, timer.value, Quiet)
    else timers
  }

  /** Stopping the latest timer and emptying its channel leave it quiet, whatever it was. */
  function Silence(timers: seq<Timer>, timer: Option<nat>): seq<Timer>
  {
    if timer.Some? && timer.value < |timers| then WithStatus(timers, timer.value, Quiet) else timers
  }

  /** The old timer is stopped and its channel emptied; a new one is started and listened to. */
  function Accept(debounce: int, s: State, root: string): State
  {
    s.(timers := Silence(s.timers, s.timer) + [Timer(s.now + debounce, Armed)],
       timer := Some(|s.timers|), timerC := Some(|s.timers|),
       pending := s.pending + {root}, log := s.log + [Accepted(root, s.now, |s.timers|)])
  }

  function Apply(debounce: int, s: State, step: Step): State
    requires Enabled(s, step)
  {
    match step
    case Pass(elapsed) => s.(now := s.now + elapsed)
    case Expire(i) => s.(timers := WithStatus(s.timers, i, Ticked))
    case Outside(notice) => s.(inbox := s.inbox + [notice])
    case Receive =>
      var t := s.(inbox := s.inbox[1..]);
      if IsIgnored(s.inbox[0].base) then t else Accept(debounce, t, s.inbox[0].root)
    case Fire(changed, took, echo) =>
      var t := s.(timers := WithStatus(s.timers, s.timerC.value, Quiet), timerC := None);
      if s.pending == {} then t
      else t.(pending := {}, now := s.now + took, inbox := s.inbox + echo,
              log := s.log + [Fired(changed, s.now, s.timerC.value)])
    case ReceiveError => s
    case Return(cancelled) => s.(stopped := true, timers := if cancelled then Stop(s.timers, s.timer) else s.timers)
  }

  ghost predicate IsRun(debounce: int, s: State, steps: seq<Step>)
    decreases |steps|
  {
    steps == [] || (Enabled(s, steps[0]) && IsRun(debounce, Apply(debounce, s, steps[0]), steps[1..]))
  }

  function After(debounce: int, s: State, steps: seq<Step>): State
    requires IsRun(debounce, s, steps)
    decreases |steps|
  {
    if steps == [] then s else After(debounce, Apply(debounce, s, steps[0]), steps[1..])
  }

  lemma {:induction false} OneMoreStep(debounce: int, s: State, steps: seq<Step>, step: Step)
    requires IsRun(debounce, s, steps) && Enabled(After(debounce, s, steps), step)
    ensures IsRun(debounce, s, steps + [step])
    ensures After(debounce, s, steps + [step]) == Apply(debounce, After(debounce, s, steps), step)
    decreases |steps|
  {
    if steps == [] {
      assert (steps + [step])[1..] == [];
    } else {
      assert (steps + [step])[1..] == steps[1..] + [step];
      OneMoreStep(debounce, Apply(debounce, s, steps[0]), steps[1..], step);
    }
  }

  // ---------- what the log promises ----------

  /** The roots accepted since the latest callback. */
  function Since(log: seq<Entry>): set<string>
  {
    if log == [] || log[|log| - 1].Fired? then {}
    else Since(log[..|log| - 1]) + {log[|log| - 1].root}
  }

  /** A callback reports exactly the roots accepted since the callback before it, each once and
      at least one of them; it is caused by the timer that the latest of those events has
      started, a whole debounce interval after that event. */
  ghost predicate IsDebounced(debounce: int, log: seq<Entry>, k: nat)
    requires k < |log| && log[k].Fired?
  {
    && k > 0 && log[k - 1].Accepted?
    && log[k].timer == log[k - 1].timer
    && log[k].at >= log[k - 1].at + debounce
    && Enumerates(log[k].changed, Since(log[..k])) && log[k].changed != []
  }

  ghost predicate Debounced(debounce: int, log: seq<Entry>)
  {
    forall k :: 0 <= k < |log| && log[k].Fired? ==> IsDebounced(debounce, log, k)
  }

  ghost predicate InOrder(log: seq<Entry>, now: int)
  {
    && (forall k :: 0 <= k < |log| ==> log[k].at <= now)
    && (forall i, j :: 0 <= i < j < |log| ==> log[i].at <= log[j].at)
  }

  /** The timer listened to is the latest one, started by the latest event; all others are quiet. */
  ghost predicate TimerInv(debounce: int, s: State)
  {
    && (s.timer.Some? ==> s.timer.value < |s.timers|)
    && (s.timerC.Some? ==>
          && s.timer == s.timerC && s.log != []
          && var last := s.log[|s.log| - 1];
             && last.Accepted? && last.timer == s.timerC.value
             && s.timers[last.timer].deadline == last.at + debounce)
    && (forall i :: 0 <= i < |s.timers| && s.timerC != Some(i) ==> s.timers[i].status.Quiet?)
    && (forall i :: 0 <= i < |s.timers| && s.timers[i].status.Ticked? ==> s.timers[i].deadline <= s.now)
  }

  ghost predicate Inv(debounce: int, s: State)
  {
    && TimerInv(debounce, s)
    && (s.pending != {} <==> s.timerC.Some?)
    && s.pending == Since(s.log)
    && (s.timerC.Some? && !s.stopped ==> !s.timers[s.timerC.value].status.Quiet?)
    && Debounced(debounce, s.log) && InOrder(s.log, s.now)
  }

  lemma Append(debounce: int, log: seq<Entry>, e: Entry)
    requires Debounced(debounce, log)
    requires e.Fired? ==> IsDebounced(debounce, log + [e], |log|)
    ensures Debounced(debounce, log + [e])
  {
    var longer := log + [e];
    forall k | 0 <= k < |longer| && longer[k].Fired?
      ensures IsDebounced(debounce, longer, k)
    {
      if k < |log| {
        assert longer[..k] == log[..k];
        assert IsDebounced(debounce, log, k);
      }
    }
  }

  lemma AcceptedKeepsLog(debounce: int, log: seq<Entry>, now: int, e: Entry)
    requires Debounced(debounce, log) && InOrder(log, now) && e.Accepted? && e.at == now
    ensures Debounced(debounce, log + [e]) && InOrder(log + [e], now) && Since(log + [e]) == Since(log) + {e.root}
  {
    Append(debounce, log, e);
    assert (log + [e])[..|log|] == log;
  }

  lemma AcceptKeepsTimers(debounce: int, s: State, root: string)
    requires TimerInv(debounce, s)
    ensures TimerInv(debounce, Accept(debounce, s, root))
    ensures var t := Accept(debounce, s, root);
            t.timerC.Some? && t.timerC.value < |t.timers| && t.timers[t.timerC.value].status.Armed?
  {
  }

  lemma AcceptKeepsInv(debounce: int, s: State, root: string)
    requires Inv(debounce, s) && !s.stopped
    ensures Inv(debounce, Accept(debounce, s, root))
  {
    AcceptKeepsTimers(debounce, s, root);
    AcceptedKeepsLog(debounce, s.log, s.now, Accepted(root, s.now, |s.timers|));
    assert root in Accept(debounce, s, root).pending;
  }

  lemma FireKeepsInv(debounce: int, s: State, changed: seq<string>, took: nat, echo: seq<Notice>)
    requires Inv(debounce, s) && Enabled(s, Fire(changed, took, echo))
    ensures Inv(debounce, Apply(debounce, s, Fire(changed, took, echo)))
  {
    var root :| root in s.pending;
    assert root in changed;
    var e := Fired(changed, s.now, s.timerC.value);
    assert (s.log + [e])[..|s.log|] == s.log;
    Append(debounce, s.log, e);
  }

  lemma ReceiveKeepsInv(debounce: int, s: State)
    requires Inv(debounce, s) && Enabled(s, Receive)
    ensures Inv(debounce, Apply(debounce, s, Receive))
  {
    AcceptKeepsInv(debounce, s.(inbox := s.inbox[1..]), s.inbox[0].root);
  }

  lemma StepKeepsInv(debounce: int, s: State, step: Step)
    requires Inv(debounce, s) && Enabled(s, step)
    ensures Inv(debounce, Apply(debounce, s, step))
  {
    match step
    case Receive => ReceiveKeepsInv(debounce, s);
    case Fire(changed, took, echo) => FireKeepsInv(debounce, s, changed, took, echo);
    case _ =>
  }

  lemma Advance(debounce: int, now: int, touches: set<string>, steps: seq<Step>, step: Step)
    requires IsRun(debounce, Init(now, touches), steps)
    requires Inv(debounce, After(debounce, Init(now, touches), steps))
    requires Enabled(After(debounce, Init(now, touches), steps), step)
    ensures IsRun(debounce, Init(now, touches), steps + [step])
    ensures After(debounce, Init(now, touches), steps + [step])
         == Apply(debounce, After(debounce, Init(now, touches), steps), step)
    ensures Inv(debounce, After(debounce, Init(now, touches), steps + [step]))
  {
    StepKeepsInv(debounce, After(debounce, Init(now, touches), steps), step);
    OneMoreStep(debounce, Init(now, touches), steps, step);
  }

  lemma {:induction false} RunKeepsInv(debounce: int, s: State, steps: seq<Step>)
    requires Inv(debounce, s) && IsRun(debounce, s, steps)
    ensures Inv(debounce, After(debounce, s, steps))
    decreases |steps|
  {
    if steps != [] {
      StepKeepsInv(debounce, s, steps[0]);
      RunKeepsInv(debounce, Apply(debounce, s, steps[0]), steps[1..]);
    }
  }

  // ---------- the theorems ----------

  /** In every run: something is pending exactly while a timer is armed, it is what was accepted
      since the latest callback, every callback is right, and no superseded timer can tick. */
  lemma DebounceIsCorrect(debounce: int, now: int, touches: set<string>, steps: seq<Step>)
    requires IsRun(debounce, Init(now, touches), steps)
    ensures var s := After(debounce, Init(now, touches), steps);
            && (s.pending != {} <==> s.timerC.Some?)
            && s.pending == Since(s.log)
            && Debounced(debounce, s.log) && InOrder(s.log, s.now)
            && (forall i :: 0 <= i < |s.timers| && s.timerC != Some(i) ==> s.timers[i].status.Quiet?)
  {
    RunKeepsInv(debounce, Init(now, touches), steps);
  }

  function AcceptedRoots(log: seq<Entry>): set<string>
  {
    if log == [] then {}
    else
      var last := log[|log| - 1];
      AcceptedRoots(log[..|log| - 1]) + if last.Accepted? then {last.root} else {}
  }

  function ReportedRoots(log: seq<Entry>): set<string>
  {
    if log == [] then {}
    else
      var last := log[|log| - 1];
      ReportedRoots(log[..|log| - 1]) + if last.Fired? then (set name | name in last.changed) else {}
  }

  lemma PrefixIsDebounced(debounce: int, log: seq<Entry>)
    requires Debounced(debounce, log) && log != []
    ensures Debounced(debounce, log[..|log| - 1])
  {
    var n := |log| - 1;
    forall k | 0 <= k < n && log[k].Fired? ensures IsDebounced(debounce, log[..n], k) {
      assert IsDebounced(debounce, log, k);
      assert log[..n][..k] == log[..k];
    }
  }

  lemma {:induction false} AcceptedAreReported(debounce: int, log: seq<Entry>)
    requires Debounced(debounce, log)
    ensures AcceptedRoots(log) == ReportedRoots(log) + Since(log)
  {
    if log != [] {
      var n := |log| - 1;
      PrefixIsDebounced(debounce, log);
      AcceptedAreReported(debounce, log[..n]);
      assert log[n].Fired? ==> IsDebounced(debounce, log, n);
    }
  }

  /** No change is lost and none is invented: as long as the loop runs, every accepted root has
      been reported or is about to be. */
  lemma NothingIsLost(debounce: int, now: int, touches: set<string>, steps: seq<Step>)
    requires IsRun(debounce, Init(now, touches), steps)
    ensures var s := After(debounce, Init(now, touches), steps);
            AcceptedRoots(s.log) == ReportedRoots(s.log) + s.pending
  {
    DebounceIsCorrect(debounce, now, touches, steps);
    AcceptedAreReported(debounce, After(debounce, Init(now, touches), steps).log);
  }

  /** Two callbacks are at least a debounce interval apart, and each timer causes at most one. */
  lemma CallbacksAreSpaced(debounce: int, now: int, touches: set<string>, steps: seq<Step>, i: nat, j: nat)
    requires IsRun(debounce, Init(now, touches), steps)
    requires i < j < |After(debounce, Init(now, touches), steps).log|
    requires After(debounce, Init(now, touches), steps).log[i].Fired?
    requires After(debounce, Init(now, touches), steps).log[j].Fired?
    ensures var log := After(debounce, Init(now, touches), steps).log; log[j].at >= log[i].at + debounce
  {
    DebounceIsCorrect(debounce, now, touches, steps);
    var log := After(debounce, Init(now, touches), steps).log;
    assert IsDebounced(debounce, log, j);
    assert log[i].at <= log[j - 1].at;
  }

  /** A burst, events less than a debounce interval apart with nothing else between them but
      other such events or callbacks, is never interrupted by a callback. */
  lemma BurstsCoalesce(debounce: int, now: int, touches: set<string>, steps: seq<Step>, i: nat, j: nat)
    requires IsRun(debounce, Init(now, touches), steps)
    requires i < j < |After(debounce, Init(now, touches), steps).log|
    requires var log := After(debounce, Init(now, touches), steps).log;
             log[i].Accepted? && (forall k :: i < k <= j ==> log[k].at < log[k - 1].at + debounce)
    ensures forall k :: i <= k <= j ==> After(debounce, Init(now, touches), steps).log[k].Accepted?
  {
    DebounceIsCorrect(debounce, now, touches, steps);
    var log := After(debounce, Init(now, touches), steps).log;
    forall k | i <= k <= j
      ensures log[k].Accepted?
    {
      assert log[k].Fired? ==> IsDebounced(debounce, log, k);
    }
  }

  /** Once a debounce interval has passed since the latest event, nothing but the runtime's tick
      stands between the pending roots and their callback. */
  lemma QuietMeansCallback(debounce: int, now: int, touches: set<string>, steps: seq<Step>,
                           changed: seq<string>, took: nat, echo: seq<Notice>)
    requires IsRun(debounce, Init(now, touches), steps)
    requires var s := After(debounce, Init(now, touches), steps);
             && !s.stopped && s.pending != {} && Enumerates(changed, s.pending)
             && CausedBy(echo, changed, s.touches)
             && s.log != [] && s.now >= s.log[|s.log| - 1].at + debounce
    ensures var s := After(debounce, Init(now, touches), steps);
            var timer := s.log[|s.log| - 1].timer;
            || Enabled(s, Fire(changed, took, echo))
            || (Enabled(s, Expire(timer)) && Enabled(Apply(debounce, s, Expire(timer)), Fire(changed, took, echo)))
  {
    RunKeepsInv(debounce, Init(now, touches), steps);
  }

  // ---------- what the loop hears ----------

  /** The events that the loop takes from its channel in a run, in order. */
  ghost function Received(debounce: int, s: State, steps: seq<Step>): (notices: seq<Notice>)
    requires IsRun(debounce, s, steps)
    decreases |steps|
  {
    if steps == [] then []
    else
      (if steps[0].Receive? then [s.inbox[0]] else []) + Received(debounce, Apply(debounce, s, steps[0]), steps[1..])
  }

  /** The roots of the events of all files but the ignored ones. */
  function RootsBut(ignored: set<string>, notices: seq<Notice>): (roots: seq<string>)
  {
    if notices == [] then []
    else (if notices[0].base in ignored then [] else [notices[0].root]) + RootsBut(ignored, notices[1..])
  }

  function AcceptedInOrder(log: seq<Entry>): (roots: seq<string>)
  {
    if log == [] then []
    else
      var last := log[|log| - 1];
      AcceptedInOrder(log[..|log| - 1]) + if last.Accepted? then [last.root] else []
  }

  /** A received event is accepted, with its root and time, exactly if it is of none of the three files. */
  lemma ReceivedIsAccepted(debounce: int, s: State)
    requires Enabled(s, Receive)
    ensures Apply(debounce, s, Receive).log
         == s.log + if s.inbox[0].base in {"bitrot.db", "bitrot.db.shadow", ".bitrot-canary"} then []
                    else [Accepted(s.inbox[0].root, s.now, |s.timers|)]
  {
  }

  lemma OneMoreEntry(log: seq<Entry>, e: Entry)
    ensures AcceptedInOrder(log + [e]) == AcceptedInOrder(log) + if e.Accepted? then [e.root] else []
  {
    assert (log + [e])[..|log|] == log;
  }

  lemma StepAccepts(debounce: int, s: State, step: Step)
    requires Enabled(s, step)
    ensures AcceptedInOrder(Apply(debounce, s, step).log)
         == AcceptedInOrder(s.log) + if step.Receive? && !IsIgnored(s.inbox[0].base) then [s.inbox[0].root] else []
  {
    var log := Apply(debounce, s, step).log;
    if log != s.log {
      assert log == s.log + [log[|s.log|]];
      OneMoreEntry(s.log, log[|s.log|]);
    }
  }

  lemma HeardNow(s: State, step: Step)
    requires Enabled(s, step)
    ensures HeardRoots(if step.Receive? then [s.inbox[0]] else [])
         == if step.Receive? && !IsIgnored(s.inbox[0].base) then [s.inbox[0].root] else []
  {
  }

  function HeardRoots(notices: seq<Notice>): (roots: seq<string>)
  {
    if notices == [] then []
    else (if IsIgnored(notices[0].base) then [] else [notices[0].root]) + HeardRoots(notices[1..])
  }

  lemma {:induction false} HeardTogether(a: seq<Notice>, b: seq<Notice>)
    ensures HeardRoots(a + b) == HeardRoots(a) + HeardRoots(b)
    decreases |a|
  {
    if a == [] {
      assert a + b == b;
    } else {
      assert (a + b)[1..] == a[1..] + b;
      HeardTogether(a[1..], b);
    }
  }

  lemma {:induction false} RunAccepts(debounce: int, s: State, steps: seq<Step>)
    requires IsRun(debounce, s, steps)
    ensures AcceptedInOrder(After(debounce, s, steps).log)
         == AcceptedInOrder(s.log) + HeardRoots(Received(debounce, s, steps))
    decreases |steps|
  {
    if steps != [] {
      var t := Apply(debounce, s, steps[0]);
      var now := if steps[0].Receive? then [s.inbox[0]] else [];
      var later := Received(debounce, t, steps[1..]);
      assert Received(debounce, s, steps) == now + later;
      calc {
        AcceptedInOrder(After(debounce, s, steps).log);
        AcceptedInOrder(After(debounce, t, steps[1..]).log);
        { RunAccepts(debounce, t, steps[1..]); }
        AcceptedInOrder(t.log) + HeardRoots(later);
        { StepAccepts(debounce, s, steps[0]); HeardNow(s, steps[0]); }
        AcceptedInOrder(s.log) + HeardRoots(now) + HeardRoots(later);
        { HeardTogether(now, later); }
        AcceptedInOrder(s.log) + HeardRoots(now + later);
      }
    }
  }

  lemma ThreeAreIgnored(base: string)
    ensures IsIgnored(base) <==> base in {"bitrot.db", "bitrot.db.shadow", ".bitrot-canary"}
  {
  }

  lemma {:induction false} HeardAreAllBut(notices: seq<Notice>, ignored: set<string>)
    requires forall i :: 0 <= i < |notices| ==> (IsIgnored(notices[i].base) <==> notices[i].base in ignored)
    ensures HeardRoots(notices) == RootsBut(ignored, notices)
  {
    if notices != [] {
      HeardAreAllBut(notices[1..], ignored);
    }
  }

  /** What a run accepts are the roots of the received events of all files but the three, in order. */
  lemma AcceptsAllButThree(debounce: int, now: int, touches: set<string>, steps: seq<Step>)
    requires IsRun(debounce, Init(now, touches), steps)
    ensures AcceptedInOrder(After(debounce, Init(now, touches), steps).log)
         == RootsBut({"bitrot.db", "bitrot.db.shadow", ".bitrot-canary"}, Received(debounce, Init(now, touches), steps))
  {
    var notices := Received(debounce, Init(now, touches), steps);
    RunAccepts(debounce, Init(now, touches), steps);
    forall i | 0 <= i < |notices|
      ensures IsIgnored(notices[i].base) <==> notices[i].base in {"bitrot.db", "bitrot.db.shadow", ".bitrot-canary"}
    {
      ThreeAreIgnored(notices[i].base);
    }
    HeardAreAllBut(notices, {"bitrot.db", "bitrot.db.shadow", ".bitrot-canary"});
  }

  lemma {:induction false} NoRoots(ignored: set<string>, notices: seq<Notice>)
    ensures RootsBut(ignored, notices) == [] <==> forall notice :: notice in notices ==> notice.base in ignored
  {
    if notices != [] {
      NoRoots(ignored, notices[1..]);
    }
  }

  lemma {:induction false} FirstIsAccepted(log: seq<Entry>)
    requires log != [] && log[0].Accepted?
    ensures AcceptedInOrder(log) != []
  {
    if |log| > 1 {
      FirstIsAccepted(log[..|log| - 1]);
    }
  }

  lemma FirstIsNoCallback(debounce: int, log: seq<Entry>)
    requires Debounced(debounce, log) && log != []
    ensures log[0].Accepted?
  {
  }

  lemma SilentMeansNoneAccepted(debounce: int, log: seq<Entry>)
    requires Debounced(debounce, log)
    ensures log == [] <==> AcceptedInOrder(log) == []
  {
    if log != [] {
      FirstIsNoCallback(debounce, log);
      FirstIsAccepted(log);
    }
  }

  /** The loop stays silent exactly if it hears of no file but the three it ignores. */
  lemma SilentExactly(debounce: int, now: int, touches: set<string>, steps: seq<Step>)
    requires IsRun(debounce, Init(now, touches), steps)
    ensures After(debounce, Init(now, touches), steps).log == []
       <==> forall notice :: notice in Received(debounce, Init(now, touches), steps) ==>
              notice.base in {"bitrot.db", "bitrot.db.shadow", ".bitrot-canary"}
  {
    DebounceIsCorrect(debounce, now, touches, steps);
    SilentMeansNoneAccepted(debounce, After(debounce, Init(now, touches), steps).log);
    AcceptsAllButThree(debounce, now, touches, steps);
    NoRoots({"bitrot.db", "bitrot.db.shadow", ".bitrot-canary"}, Received(debounce, Init(now, touches), steps));
  }

  // ---------- feedback ----------

  function Callbacks(log: seq<Entry>): nat
  {
    if log == [] then 0 else Callbacks(log[..|log| - 1]) + if log[|log| - 1].Fired? then 1 else 0
  }

  /** How many waiting events the loop will accept. */
  function Heard(inbox: seq<Notice>): nat
  {
    if inbox == [] then 0 else Heard(inbox[..|inbox| - 1]) + if IsIgnored(inbox[|inbox| - 1].base) then 0 else 1
  }

  lemma {:induction false} HeardConcat(a: seq<Notice>, b: seq<Notice>)
    ensures Heard(a + b) == Heard(a) + Heard(b)
    decreases |b|
  {
    if b == [] {
      assert a + b == a;
    } else {
      assert (a + b)[..|a + b| - 1] == a + b[..|b| - 1];
      HeardConcat(a, b[..|b| - 1]);
    }
  }

  lemma HeardHead(inbox: seq<Notice>)
    requires inbox != []
    ensures Heard(inbox) == Heard(inbox[1..]) + if IsIgnored(inbox[0].base) then 0 else 1
  {
    assert inbox == [inbox[0]] + inbox[1..];
    HeardConcat([inbox[0]], inbox[1..]);
  }

  lemma {:induction false} HeardNothing(inbox: seq<Notice>)
    requires forall i :: 0 <= i < |inbox| ==> IsIgnored(inbox[i].base)
    ensures Heard(inbox) == 0
    decreases |inbox|
  {
    if inbox != [] {
      HeardNothing(inbox[..|inbox| - 1]);
    }
  }

  ghost predicate AllIgnored(names: set<string>)
  {
    forall name :: name in names ==> IsIgnored(name)
  }

  ghost predicate NoOutside(steps: seq<Step>)
  {
    forall i :: 0 <= i < |steps| ==> !steps[i].Outside?
  }

  /** The callbacks so far and those that are certain to come. */
  function Foreseen(s: State): nat
  {
    Callbacks(s.log) + Heard(s.inbox) + if s.pending != {} then 1 else 0
  }

  lemma ReceiveForesees(debounce: int, s: State)
    requires Enabled(s, Receive)
    ensures Foreseen(Apply(debounce, s, Receive)) <= Foreseen(s)
  {
    HeardHead(s.inbox);
  }

  lemma FireForesees(debounce: int, s: State, changed: seq<string>, took: nat, echo: seq<Notice>)
    requires Enabled(s, Fire(changed, took, echo)) && AllIgnored(s.touches)
    ensures Foreseen(Apply(debounce, s, Fire(changed, took, echo))) <= Foreseen(s)
  {
    HeardConcat(s.inbox, echo);
    HeardNothing(echo);
  }

  lemma {:induction false} RunForesees(debounce: int, s: State, steps: seq<Step>)
    requires IsRun(debounce, s, steps) && NoOutside(steps) && AllIgnored(s.touches)
    ensures Foreseen(After(debounce, s, steps)) <= Foreseen(s)
    decreases |steps|
  {
    if steps != [] {
      var t := Apply(debounce, s, steps[0]);
      if steps[0].Receive? {
        ReceiveForesees(debounce, s);
      } else if steps[0].Fire? {
        FireForesees(debounce, s, steps[0].changed, steps[0].took, steps[0].echo);
      }
      assert forall i :: 0 <= i < |steps[1..]| ==> steps[1..][i] == steps[i + 1];
      RunForesees(debounce, t, steps[1..]);
    }
  }

  /** `t` can be reached from `s` without an event from outside. */
  ghost predicate Alone(debounce: int, s: State, t: State)
  {
    exists steps :: IsRun(debounce, s, steps) && NoOutside(steps) && After(debounce, s, steps) == t
  }

  lemma Then(debounce: int, s: State, t: State, step: Step) returns (u: State)
    requires Alone(debounce, s, t) && Inv(debounce, t) && Enabled(t, step) && !step.Outside?
    ensures u == Apply(debounce, t, step) && Alone(debounce, s, u) && Inv(debounce, u)
  {
    var steps :| IsRun(debounce, s, steps) && NoOutside(steps) && After(debounce, s, steps) == t;
    OneMoreStep(debounce, s, steps, step);
    StepKeepsInv(debounce, t, step);
    u := Apply(debounce, t, step);
  }

  /** The loop receives what waits until it has accepted something. */
  lemma {:induction false} UntilPending(debounce: int, s: State, t: State) returns (u: State)
    requires Alone(debounce, s, t) && Inv(debounce, t) && !t.stopped && (t.pending != {} || Heard(t.inbox) > 0)
    ensures Alone(debounce, s, u) && Inv(debounce, u) && !u.stopped && u.pending != {}
    ensures u.touches == t.touches && Callbacks(u.log) == Callbacks(t.log)
    decreases |t.inbox|
  {
    u := t;
    if t.pending == {} {
      HeardHead(t.inbox);
      u := Then(debounce, s, t, Receive);
      u := UntilPending(debounce, s, u);
    }
  }

  lemma {:induction false} SomeOrder(names: set<string>) returns (order: seq<string>)
    ensures Enumerates(order, names)
  {
    order := [];
    if names != {} {
      var name :| name in names;
      order := SomeOrder(names - {name});
      order := order + [name];
    }
  }

  /** Once something is pending, its callback comes, and touches this file. */
  lemma UntilFired(debounce: nat, s: State, t: State, name: string) returns (u: State)
    requires Alone(debounce, s, t) && Inv(debounce, t) && !t.stopped && t.pending != {}
    requires name in t.touches && !IsIgnored(name)
    ensures Alone(debounce, s, u) && Inv(debounce, u) && !u.stopped && Heard(u.inbox) > 0
    ensures u.touches == t.touches && Callbacks(u.log) == Callbacks(t.log) + 1
  {
    var order := SomeOrder(t.pending);
    assert exists root :: root in t.pending;
    u := Then(debounce, s, t, Pass(debounce));
    if u.timers[u.timerC.value].status.Armed? {
      u := Then(debounce, s, u, Expire(u.timerC.value));
    }
    var echo := [Notice(name, order[0])];
    assert echo[..0] == [];
    HeardConcat(u.inbox, echo);
    u := Then(debounce, s, u, Fire(order, 0, echo));
  }

  /** If a resync touches a file that is not ignored, there are runs with any number of callbacks. */
  lemma {:induction false} Endless(debounce: nat, s: State, name: string, n: nat) returns (t: State)
    requires Inv(debounce, s) && !s.stopped && (s.pending != {} || Heard(s.inbox) > 0)
    requires name in s.touches && !IsIgnored(name)
    ensures Alone(debounce, s, t) && Inv(debounce, t) && !t.stopped && (t.pending != {} || Heard(t.inbox) > 0)
    ensures t.touches == s.touches && Callbacks(t.log) == Callbacks(s.log) + n
  {
    if n == 0 {
      assert IsRun(debounce, s, []) && NoOutside([]) && After(debounce, s, []) == s;
      t := s;
    } else {
      t := Endless(debounce, s, name, n - 1);
      t := UntilPending(debounce, s, t);
      t := UntilFired(debounce, s, t, name);
    }
  }

  ghost predicate FallsSilentWithin(debounce: int, s: State, n: nat)
  {
    forall t :: Alone(debounce, s, t) ==> Callbacks(t.log) <= n
  }

  /** After a change the loop falls silent, unless there are further changes from outside, exactly
      if all files that a resync may touch are among those it ignores. */
  lemma FallsSilentExactly(debounce: nat, s: State)
    requires Inv(debounce, s) && !s.stopped && (s.pending != {} || Heard(s.inbox) > 0)
    ensures (exists n :: FallsSilentWithin(debounce, s, n))
       <==> s.touches <= {"bitrot.db", "bitrot.db.shadow", ".bitrot-canary"}
  {
    assert s.touches <= {"bitrot.db", "bitrot.db.shadow", ".bitrot-canary"} <==> AllIgnored(s.touches);
    if AllIgnored(s.touches) {
      forall t | Alone(debounce, s, t) ensures Callbacks(t.log) <= Foreseen(s) {
        var steps :| IsRun(debounce, s, steps) && NoOutside(steps) && After(debounce, s, steps) == t;
        RunForesees(debounce, s, steps);
      }
      assert FallsSilentWithin(debounce, s, Foreseen(s));
    } else {
      var name :| name in s.touches && !IsIgnored(name);
      forall n: nat ensures !FallsSilentWithin(debounce, s, n) {
        var t := Endless(debounce, s, name, n + 1);
      }
    }
  }

  const JOURNAL := "bitrot.db.shadow-journal"

  /** The shadow's rollback journal, which every transaction of a resync creates and deletes, is not
      among the ignored files: after a single change the loop need never fall silent again. */
  lemma JournalFeedsBack(debounce: nat, s: State, n: nat)
    requires Inv(debounce, s) && !s.stopped && (s.pending != {} || Heard(s.inbox) > 0)
    requires JOURNAL in s.touches
    ensures !FallsSilentWithin(debounce, s, n)
  {
    var t := Endless(debounce, s, JOURNAL, n + 1);
  }
}
