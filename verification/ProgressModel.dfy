/** Live progress as a state machine: operations emit events into a bounded channel, a forwarder
    per operation publishes them under the hub's lock, and every subscriber reads from a
    bounded channel of its own. Both sends drop the event when the channel is full. */
module ProgressModel {
  import opened Domain

  const PROGRESS_BUFFER := 256
  const SUBSCRIBER_BUFFER := 64

  datatype Event = Event(phase: string, drive: string, count: int, total: int, message: string)

  /** An event with the operation it comes from. */
  datatype Tagged = Tagged(op: nat, event: Event)

  datatype OpPhase = Scanning | Reported | Closed

  /** An operation, its channel, and the event its forwarder is publishing. The last three fields
      are history: what was emitted, what the forwarder has taken, how many the channel dropped. */
  datatype Op = Op(phase: OpPhase, channel: seq<Event>, hand: Option<Event>,
                   emitted: seq<Event>, taken: seq<Event>, lost: nat)

  /** `since` is the number of operations started before the subscription; `received` and
      `missed` are history. */
  datatype Subscriber = Subscriber(since: nat, queue: seq<Tagged>, received: seq<Tagged>, missed: seq<Tagged>)

  /** Who holds the hub's mutex to publish, and which subscribers it still has to serve. */
  datatype Lock = Free | Held(op: nat, waiting: set<nat>)

  datatype State = State(running: bool, ops: seq<Op>, subs: seq<Subscriber>, active: set<nat>, lock: Lock)

  function Init(): State
  {
    State(false, [], [], {}, Free)
  }

  datatype Step =
    | Start
    | Emit(k: nat, event: Event)
    | Report(k: nat)
    | Close(k: nat)
    | Take(k: nat)
    | Acquire(k: nat)
    | Offer(k: nat, i: nat)
    | Release(k: nat)
    | Subscribe
    | Unsubscribe(i: nat)
    | Read(i: nat)

  predicate Enabled(s: State, step: Step)
  {
    match step
    case Start => true
    case Emit(k, _) => k < |s.ops| && s.ops[k].phase.Scanning?
    case Report(k) => k < |s.ops| && s.ops[k].phase.Scanning?
    case Close(k) => k < |s.ops| && s.ops[k].phase.Reported?
    case Take(k) => k < |s.ops| && s.ops[k].hand.None? && s.ops[k].channel != []
    case Acquire(k) => k < |s.ops| && s.ops[k].hand.Some? && s.lock.Free?
    case Offer(k, i) =>
      && k < |s.ops| && s.ops[k].hand.Some?
      && s.lock.Held? && s.lock.op == k && i in s.lock.waiting && i < |s.subs|
    case Release(k) => k < |s.ops| && s.lock == Held(k, {})
    case Subscribe => s.lock.Free?
    case Unsubscribe(_) => s.lock.Free?
    case Read(i) => i < |s.subs| && s.subs[i].queue != []
  }

  function Emitted(op: Op, event: Event): Op
  {
    var o := op.(emitted := op.emitted + [event]);
    if |op.channel| < PROGRESS_BUFFER then o.(channel := op.channel + [event]) else o.(lost := op.lost + 1)
  }

  function Taken(op: Op): Op
    requires op.channel != []
  {
    op.(channel := op.channel[1..], hand := Some(op.channel[0]), taken := op.taken + [op.channel[0]])
  }

  function Offered(sub: Subscriber, e: Tagged): Subscriber
  {
    if |sub.queue| < SUBSCRIBER_BUFFER then sub.(queue := sub.queue + [e]) else sub.(missed := sub.missed + [e])
  }

  function Apply(s: State, step: Step): State
    requires Enabled(s, step)
  {
    match step
    case Start =>
      // while an operation is running the request is answered with a conflict
      if s.running then s else s.(running := true, ops := s.ops + [Op(Scanning, [], None, [], [], 0)])
    case Emit(k, event) => s.(ops := s.ops[k := Emitted(s.ops[k], event)])
    case Report(k) => s.(running := false, ops := s.ops[k := s.ops[k].(phase := Reported)])
    case Close(k) => s.(ops := s.ops[k := s.ops[k].(phase := Closed)])
    case Take(k) => s.(ops := s.ops[k := Taken(s.ops[k])])
    case Acquire(k) => s.(lock := Held(k, s.active))
    case Offer(k, i) =>
      s.(subs := s.subs[i := Offered(s.subs[i], Tagged(k, s.ops[k].hand.value))], lock := Held(k, s.lock.waiting - {i}))
    case Release(k) => s.(lock := Free, ops := s.ops[k := s.ops[k].(hand := None)])
    case Subscribe => s.(subs := s.subs + [Subscriber(|s.ops|, [], [], [])], active := s.active + {|s.subs|})
    case Unsubscribe(i) => s.(active := s.active - {i})
    case Read(i) =>
      var sub := s.subs[i];
      s.(subs := s.subs[i := sub.(queue := sub.queue[1..], received := sub.received + [sub.queue[0]])])
  }

  predicate IsRun(s: State, steps: seq<Step>)
    decreases |steps|
  {
    steps == [] || (Enabled(s, steps[0]) && IsRun(Apply(s, steps[0]), steps[1..]))
  }

  function After(s: State, steps: seq<Step>): State
    requires IsRun(s, steps)
    decreases |steps|
  {
    if steps == [] then s else After(Apply(s, steps[0]), steps[1..])
  }

  lemma {:induction false} OneMoreStep(s: State, steps: seq<Step>, step: Step)
    requires IsRun(s, steps) && Enabled(After(s, steps), step)
    ensures IsRun(s, steps + [step]) && After(s, steps + [step]) == Apply(After(s, steps), step)
    decreases |steps|
  {
    if steps == [] {
      assert (steps + [step])[1..] == [];
    } else {
      assert (steps + [step])[1..] == steps[1..] + [step];
      OneMoreStep(Apply(s, steps[0]), steps[1..], step);
    }
  }

  // ---------- subsequences ----------

  /** `a` is what is left of `b` when some of its elements are dropped. */
  predicate Subsequence<T(==)>(a: seq<T>, b: seq<T>)
    decreases |b|
  {
    a == [] ||
    (b != [] && (|| (a[|a| - 1] == b[|b| - 1] && Subsequence(a[..|a| - 1], b[..|b| - 1]))
                 || Subsequence(a, b[..|b| - 1])))
  }

  lemma SubsequenceSnoc<T>(a: seq<T>, b: seq<T>, x: T)
    requires Subsequence(a, b)
    ensures Subsequence(a, b + [x]) && Subsequence(a + [x], b + [x])
  {
  }

  lemma {:induction false} SubsequenceLength<T>(a: seq<T>, b: seq<T>)
    requires Subsequence(a, b)
    ensures |a| <= |b| && (|a| == |b| ==> a == b)
    decreases |b|
  {
    if a != [] {
      var shorter := b[..|b| - 1];
      if a[|a| - 1] == b[|b| - 1] && Subsequence(a[..|a| - 1], shorter) {
        SubsequenceLength(a[..|a| - 1], shorter);
        if |a| == |b| {
          assert a == a[..|a| - 1] + [a[|a| - 1]];
          assert b == shorter + [b[|b| - 1]];
        }
      } else {
        SubsequenceLength(a, shorter);
      }
    }
  }

  lemma {:induction false} SubsequenceTransitive<T>(a: seq<T>, b: seq<T>, c: seq<T>)
    requires Subsequence(a, b) && Subsequence(b, c)
    ensures Subsequence(a, c)
    decreases |c|
  {
    if a != [] {
      if Subsequence(b, c[..|c| - 1]) {
        SubsequenceTransitive(a, b, c[..|c| - 1]);
      } else if Subsequence(a, b[..|b| - 1]) {
        SubsequenceTransitive(a, b[..|b| - 1], c[..|c| - 1]);
      } else {
        SubsequenceTransitive(a[..|a| - 1], b[..|b| - 1], c[..|c| - 1]);
      }
    }
  }

  lemma {:induction false} PrefixIsSubsequence<T>(a: seq<T>, b: seq<T>)
    ensures Subsequence(a, a + b)
    decreases |b|, |a|
  {
    if b != [] {
      PrefixIsSubsequence(a, b[..|b| - 1]);
      assert (a + b)[..|a + b| - 1] == a + b[..|b| - 1];
    } else if a != [] {
      PrefixIsSubsequence(a[..|a| - 1], b);
      assert (a + b)[..|a| - 1] == a[..|a| - 1] + b;
    }
  }

  /** The events of one operation. */
  function OfOp(s: seq<Tagged>, k: nat): seq<Event>
  {
    if s == [] then []
    else
      var last := s[|s| - 1];
      OfOp(s[..|s| - 1], k) + if last.op == k then [last.event] else []
  }

  lemma {:induction false} OfOpConcat(s: seq<Tagged>, t: seq<Tagged>, k: nat)
    ensures OfOp(s + t, k) == OfOp(s, k) + OfOp(t, k)
    decreases |t|
  {
    if t == [] {
      assert s + t == s;
    } else {
      assert (s + t)[..|s + t| - 1] == s + t[..|t| - 1];
      OfOpConcat(s, t[..|t| - 1], k);
    }
  }

  // ---------- the invariant ----------

  /** At most one operation scans, it is the latest, and the flag says whether there is one. */
  ghost predicate SingleFlight(s: State)
  {
    && (forall k :: 0 <= k < |s.ops| && s.ops[k].phase.Scanning? ==> k == |s.ops| - 1)
    && (s.running <==> s.ops != [] && s.ops[|s.ops| - 1].phase.Scanning?)
  }

  /** What the forwarder has taken and what waits for it come, in order, from what was emitted. */
  ghost predicate PipeInv(op: Op)
  {
    && Subsequence(op.taken + op.channel, op.emitted)
    && |op.emitted| == |op.taken| + |op.channel| + op.lost
    && |op.channel| <= PROGRESS_BUFFER
    && (op.hand.Some? ==> op.taken != [] && op.taken[|op.taken| - 1] == op.hand.value)
  }

  ghost predicate Pipes(s: State)
  {
    forall k :: 0 <= k < |s.ops| ==> PipeInv(s.ops[k])
  }

  ghost predicate LockInv(s: State)
  {
    && (s.lock.Held? ==> s.lock.op < |s.ops| && s.ops[s.lock.op].hand.Some? && s.lock.waiting <= s.active)
    && (forall i :: i in s.active ==> i < |s.subs|)
  }

  function Delivered(sub: Subscriber): seq<Tagged>
  {
    sub.received + sub.queue
  }

  /** Subscriber `i` has been passed by, or served, in the forwarding of the event in hand. */
  predicate Served(lock: Lock, k: nat, i: nat)
  {
    lock.Held? && lock.op == k && i !in lock.waiting
  }

  /** The events of an operation that subscriber `i` had its chance of. */
  function Passed(op: Op, served: bool): seq<Event>
  {
    if op.hand.Some? && !served && op.taken != [] then op.taken[..|op.taken| - 1] else op.taken
  }

  /** What one subscriber has of one operation: a subsequence of what has passed, and, if it was
      there from the start and still is, all of it but the events it missed. */
  ghost predicate DeliveryInv(sub: Subscriber, k: nat, passed: seq<Event>, throughout: bool)
  {
    && Subsequence(OfOp(Delivered(sub), k), passed)
    && (throughout ==> |passed| == |OfOp(Delivered(sub), k)| + |OfOp(sub.missed, k)|)
  }

  ghost predicate DeliveryAt(s: State, i: nat, k: nat)
    requires i < |s.subs| && k < |s.ops|
  {
    DeliveryInv(s.subs[i], k, Passed(s.ops[k], Served(s.lock, k, i)), i in s.active && s.subs[i].since <= k)
  }

  ghost predicate Deliveries(s: State)
  {
    forall i, k :: 0 <= i < |s.subs| && 0 <= k < |s.ops| ==> DeliveryAt(s, i, k)
  }

  ghost predicate KnownOps(n: nat, events: seq<Tagged>)
  {
    forall j :: 0 <= j < |events| ==> events[j].op < n
  }

  ghost predicate SubInv(n: nat, sub: Subscriber)
  {
    |sub.queue| <= SUBSCRIBER_BUFFER && sub.since <= n && KnownOps(n, Delivered(sub)) && KnownOps(n, sub.missed)
  }

  ghost predicate Subs(s: State)
  {
    forall i :: 0 <= i < |s.subs| ==> SubInv(|s.ops|, s.subs[i])
  }

  ghost predicate Inv(s: State)
  {
    SingleFlight(s) && Pipes(s) && LockInv(s) && Subs(s) && Deliveries(s)
  }

  lemma {:induction false} UnknownOp(n: nat, events: seq<Tagged>, k: nat)
    requires KnownOps(n, events) && k >= n
    ensures OfOp(events, k) == []
    decreases |events|
  {
    if events != [] {
      UnknownOp(n, events[..|events| - 1], k);
    }
  }

  lemma EmitKeepsPipe(op: Op, event: Event)
    requires PipeInv(op)
    ensures PipeInv(Emitted(op, event))
  {
    var sent := op.taken + op.channel;
    SubsequenceSnoc(sent, op.emitted, event);
    if |op.channel| < PROGRESS_BUFFER {
      assert op.taken + (op.channel + [event]) == sent + [event];
    }
  }

  lemma TakeKeepsPipe(op: Op)
    requires PipeInv(op) && op.channel != []
    ensures PipeInv(Taken(op))
  {
    assert op.taken + [op.channel[0]] + op.channel[1..] == op.taken + op.channel;
  }

  /** What an operation does by itself leaves its subscribers' chances as they are. */
  lemma OpChangeKeepsInv(s: State, k: nat, op: Op, running: bool)
    requires Inv(s) && k < |s.ops| && PipeInv(op)
    requires forall served :: Passed(op, served) == Passed(s.ops[k], served) || (served && s.ops[k].hand.None?)
    requires op.phase == s.ops[k].phase || !op.phase.Scanning?
    requires running == (s.running && (op.phase.Scanning? || !s.ops[k].phase.Scanning?))
    requires s.ops[k].hand.Some? ==> op.hand.Some?
    ensures Inv(s.(running := running, ops := s.ops[k := op]))
  {
    var t := s.(running := running, ops := s.ops[k := op]);
    forall i, j | 0 <= i < |t.subs| && 0 <= j < |t.ops|
      ensures DeliveryAt(t, i, j)
    {
      assert DeliveryAt(s, i, j);
    }
  }

  lemma StartKeepsInv(s: State)
    requires Inv(s) && !s.running
    ensures Inv(Apply(s, Start))
  {
    var t := Apply(s, Start);
    forall i | 0 <= i < |t.subs|
      ensures SubInv(|t.ops|, t.subs[i])
    {
      assert SubInv(|s.ops|, s.subs[i]);
    }
    forall i, k | 0 <= i < |t.subs| && 0 <= k < |t.ops|
      ensures DeliveryAt(t, i, k)
    {
      assert SubInv(|s.ops|, s.subs[i]);
      if k == |s.ops| {
        UnknownOp(|s.ops|, Delivered(s.subs[i]), k);
        UnknownOp(|s.ops|, s.subs[i].missed, k);
      } else {
        assert DeliveryAt(s, i, k);
      }
    }
  }

  lemma AcquireKeepsInv(s: State, k: nat)
    requires Inv(s) && Enabled(s, Acquire(k))
    ensures Inv(Apply(s, Acquire(k)))
  {
    var t := Apply(s, Acquire(k));
    assert PipeInv(s.ops[k]);
    forall i, j | 0 <= i < |t.subs| && 0 <= j < |t.ops|
      ensures DeliveryAt(t, i, j)
    {
      assert DeliveryAt(s, i, j);
    }
  }

  lemma OfferDelivers(sub: Subscriber, k: nat, passed: seq<Event>, event: Event, throughout: bool)
    requires DeliveryInv(sub, k, passed, throughout)
    ensures DeliveryInv(Offered(sub, Tagged(k, event)), k, passed + [event], throughout)
  {
    var e := Tagged(k, event);
    SubsequenceSnoc(OfOp(Delivered(sub), k), passed, event);
    if |sub.queue| < SUBSCRIBER_BUFFER {
      assert Delivered(Offered(sub, e)) == Delivered(sub) + [e];
    }
  }

  lemma OfferToOther(sub: Subscriber, e: Tagged, k: nat, passed: seq<Event>, throughout: bool)
    requires DeliveryInv(sub, k, passed, throughout) && e.op != k
    ensures DeliveryInv(Offered(sub, e), k, passed, throughout)
  {
    assert sub.received + (sub.queue + [e]) == Delivered(sub) + [e];
    assert OfOp(Delivered(Offered(sub, e)), k) == OfOp(Delivered(sub), k);
  }

  lemma OfferKeepsSub(n: nat, sub: Subscriber, e: Tagged)
    requires SubInv(n, sub) && e.op < n
    ensures SubInv(n, Offered(sub, e))
  {
    assert sub.received + (sub.queue + [e]) == Delivered(sub) + [e];
  }

  /** The subscriber that is offered the event, for any operation. */
  lemma OfferKeepsDelivery(s: State, k: nat, i: nat, m: nat)
    requires Inv(s) && Enabled(s, Offer(k, i)) && m < |s.ops|
    ensures DeliveryAt(Apply(s, Offer(k, i)), i, m)
  {
    var op, throughout := s.ops[k], i in s.active && s.subs[i].since <= m;
    assert PipeInv(op) && DeliveryAt(s, i, m);
    if m == k {
      var passed := op.taken[..|op.taken| - 1];
      assert passed + [op.hand.value] == op.taken;
      OfferDelivers(s.subs[i], k, passed, op.hand.value, throughout);
    } else {
      OfferToOther(s.subs[i], Tagged(k, op.hand.value), m, Passed(s.ops[m], Served(s.lock, m, i)), throughout);
    }
  }

  lemma OfferKeepsInv(s: State, k: nat, i: nat)
    requires Inv(s) && Enabled(s, Offer(k, i))
    ensures Inv(Apply(s, Offer(k, i)))
  {
    var t := Apply(s, Offer(k, i));
    assert SubInv(|s.ops|, s.subs[i]);
    OfferKeepsSub(|s.ops|, s.subs[i], Tagged(k, s.ops[k].hand.value));
    forall j, m | 0 <= j < |t.subs| && 0 <= m < |t.ops|
      ensures DeliveryAt(t, j, m)
    {
      if j == i {
        OfferKeepsDelivery(s, k, i, m);
      } else {
        assert DeliveryAt(s, j, m);
      }
    }
  }

  lemma ReleaseKeepsInv(s: State, k: nat)
    requires Inv(s) && Enabled(s, Release(k))
    ensures Inv(Apply(s, Release(k)))
  {
    var t := Apply(s, Release(k));
    assert PipeInv(s.ops[k]);
    forall i, j | 0 <= i < |t.subs| && 0 <= j < |t.ops|
      ensures DeliveryAt(t, i, j)
    {
      assert DeliveryAt(s, i, j);
    }
  }

  lemma SubscribeKeepsInv(s: State)
    requires Inv(s) && s.lock.Free?
    ensures Inv(Apply(s, Subscribe))
  {
    var t := Apply(s, Subscribe);
    forall i, k | 0 <= i < |t.subs| && 0 <= k < |t.ops|
      ensures DeliveryAt(t, i, k)
    {
      if i < |s.subs| {
        assert DeliveryAt(s, i, k);
      }
    }
  }

  lemma UnsubscribeKeepsInv(s: State, i: nat)
    requires Inv(s) && s.lock.Free?
    ensures Inv(Apply(s, Unsubscribe(i)))
  {
    var t := Apply(s, Unsubscribe(i));
    forall j, k | 0 <= j < |t.subs| && 0 <= k < |t.ops|
      ensures DeliveryAt(t, j, k)
    {
      assert DeliveryAt(s, j, k);
    }
  }

  lemma ReadKeepsInv(s: State, i: nat)
    requires Inv(s) && Enabled(s, Read(i))
    ensures Inv(Apply(s, Read(i)))
  {
    var t := Apply(s, Read(i));
    assert SubInv(|s.ops|, s.subs[i]);
    assert Delivered(t.subs[i]) == Delivered(s.subs[i]) by {
      assert [s.subs[i].queue[0]] + s.subs[i].queue[1..] == s.subs[i].queue;
    }
    forall j, k | 0 <= j < |t.subs| && 0 <= k < |t.ops|
      ensures DeliveryAt(t, j, k)
    {
      assert DeliveryAt(s, j, k);
    }
  }

  lemma StepKeepsInv(s: State, step: Step)
    requires Inv(s) && Enabled(s, step)
    ensures Inv(Apply(s, step))
  {
    match step
    case Start => if !s.running { StartKeepsInv(s); }
    case Emit(k, event) =>
      EmitKeepsPipe(s.ops[k], event);
      OpChangeKeepsInv(s, k, Emitted(s.ops[k], event), s.running);
    case Report(k) => OpChangeKeepsInv(s, k, s.ops[k].(phase := Reported), false);
    case Close(k) => OpChangeKeepsInv(s, k, s.ops[k].(phase := Closed), s.running);
    case Take(k) =>
      TakeKeepsPipe(s.ops[k]);
      OpChangeKeepsInv(s, k, Taken(s.ops[k]), s.running);
    case Acquire(k) => AcquireKeepsInv(s, k);
    case Offer(k, i) => OfferKeepsInv(s, k, i);
    case Release(k) => ReleaseKeepsInv(s, k);
    case Subscribe => SubscribeKeepsInv(s);
    case Unsubscribe(i) => UnsubscribeKeepsInv(s, i);
    case Read(i) => ReadKeepsInv(s, i);
  }

  lemma {:induction false} RunKeepsInv(s: State, steps: seq<Step>)
    requires Inv(s) && IsRun(s, steps)
    ensures Inv(After(s, steps))
    decreases |steps|
  {
    if steps != [] {
      StepKeepsInv(s, steps[0]);
      RunKeepsInv(Apply(s, steps[0]), steps[1..]);
    }
  }

  // ---------- the theorems ----------

  lemma AtMostOneOperation(steps: seq<Step>)
    requires IsRun(Init(), steps)
    ensures SingleFlight(After(Init(), steps))
  {
    RunKeepsInv(Init(), steps);
  }

  lemma PassedWasEmitted(op: Op, served: bool)
    requires PipeInv(op)
    ensures Subsequence(Passed(op, served), op.emitted)
  {
    var passed := Passed(op, served);
    var rest := op.taken[|passed|..] + op.channel;
    assert passed + rest == op.taken + op.channel;
    PrefixIsSubsequence(passed, rest);
    SubsequenceTransitive(passed, passed + rest, op.emitted);
  }

  lemma ReceivedHasPassed(sub: Subscriber, k: nat, passed: seq<Event>)
    requires Subsequence(OfOp(Delivered(sub), k), passed)
    ensures Subsequence(OfOp(sub.received, k), passed)
  {
    OfOpConcat(sub.received, sub.queue, k);
    PrefixIsSubsequence(OfOp(sub.received, k), OfOp(sub.queue, k));
    SubsequenceTransitive(OfOp(sub.received, k), OfOp(Delivered(sub), k), passed);
  }

  lemma InvAt(s: State, i: nat, k: nat)
    requires Inv(s) && i < |s.subs| && k < |s.ops|
    ensures DeliveryAt(s, i, k) && PipeInv(s.ops[k])
  {
  }

  /** Whatever is dropped, each subscriber reads the events of each operation in the order in
      which they were emitted, and none twice. */
  lemma ProgressStaysOrdered(steps: seq<Step>, i: nat, k: nat)
    requires IsRun(Init(), steps)
    requires i < |After(Init(), steps).subs| && k < |After(Init(), steps).ops|
    ensures var s := After(Init(), steps); Subsequence(OfOp(s.subs[i].received, k), s.ops[k].emitted)
  {
    RunKeepsInv(Init(), steps);
    var s := After(Init(), steps);
    var served := Served(s.lock, k, i);
    InvAt(s, i, k);
    PassedWasEmitted(s.ops[k], served);
    ReceivedHasPassed(s.subs[i], k, Passed(s.ops[k], served));
    SubsequenceTransitive(OfOp(s.subs[i].received, k), Passed(s.ops[k], served), s.ops[k].emitted);
  }

  /** For a subscriber that was there throughout, an operation whose forwarder is done accounts
      for every event: delivered, lost at the first stage, or missed at the second. So the
      subscriber gets everything exactly if nothing was dropped. */
  lemma EveryEventIsAccountedFor(steps: seq<Step>, i: nat, k: nat)
    requires IsRun(Init(), steps)
    requires var s := After(Init(), steps);
             && i in s.active && i < |s.subs| && k < |s.ops| && s.subs[i].since <= k
             && s.ops[k].channel == [] && s.ops[k].hand.None?
    ensures var s := After(Init(), steps);
            var got := OfOp(Delivered(s.subs[i]), k);
            && |s.ops[k].emitted| == |got| + s.ops[k].lost + |OfOp(s.subs[i].missed, k)|
            && (got == s.ops[k].emitted <==> s.ops[k].lost == 0 && OfOp(s.subs[i].missed, k) == [])
  {
    RunKeepsInv(Init(), steps);
    var s := After(Init(), steps);
    var op, sub := s.ops[k], s.subs[i];
    InvAt(s, i, k);
    PassedWasEmitted(op, Served(s.lock, k, i));
    SubsequenceTransitive(OfOp(Delivered(sub), k), op.taken, op.emitted);
    SubsequenceLength(OfOp(Delivered(sub), k), op.emitted);
  }

  // ---------- what is certain to arrive ----------

  /** An operation's first 256 events reach its forwarder, in order, however slow that is. */
  ghost predicate FirstGetThrough(op: Op)
  {
    var through, n := op.taken + op.channel, if |op.emitted| < 256 then |op.emitted| else 256;
    n <= |through| && through[..n] == op.emitted[..n]
  }

  /** A subscriber misses nothing before it has got 64 events. */
  ghost predicate FirstAreGot(sub: Subscriber)
  {
    sub.missed == [] || |Delivered(sub)| >= 64
  }

  ghost predicate Certain(s: State)
  {
    && (forall k :: 0 <= k < |s.ops| ==> FirstGetThrough(s.ops[k]))
    && (forall i :: 0 <= i < |s.subs| ==> FirstAreGot(s.subs[i]))
  }

  lemma EmitKeepsFirst(op: Op, event: Event)
    requires PipeInv(op) && FirstGetThrough(op)
    ensures FirstGetThrough(Emitted(op, event))
  {
    var through := op.taken + op.channel;
    var o := Emitted(op, event);
    SubsequenceLength(through, op.emitted);
    if |op.channel| < 256 {
      assert o.taken + o.channel == through + [event];
      assert |op.emitted| < 256 ==> through == op.emitted;
    } else {
      assert o.taken + o.channel == through;
      assert o.emitted[..256] == op.emitted[..256];
    }
  }

  lemma DeliveredAfterOffer(sub: Subscriber, e: Tagged)
    ensures Delivered(Offered(sub, e)) == Delivered(sub) || Delivered(Offered(sub, e)) == Delivered(sub) + [e]
  {
    assert sub.received + (sub.queue + [e]) == Delivered(sub) + [e];
  }

  lemma StepKeepsCertain(s: State, step: Step)
    requires Inv(s) && Certain(s) && Enabled(s, step)
    ensures Certain(Apply(s, step))
  {
    match step
    case Emit(k, event) =>
      InvOfOp(s, k);
      EmitKeepsFirst(s.ops[k], event);
    case Take(k) =>
      assert s.ops[k].taken + [s.ops[k].channel[0]] + s.ops[k].channel[1..] == s.ops[k].taken + s.ops[k].channel;
    case Offer(k, i) =>
      DeliveredAfterOffer(s.subs[i], Tagged(k, s.ops[k].hand.value));
    case Read(i) =>
      assert [s.subs[i].queue[0]] + s.subs[i].queue[1..] == s.subs[i].queue;
    case _ =>
  }

  lemma InvOfOp(s: State, k: nat)
    requires Inv(s) && k < |s.ops|
    ensures PipeInv(s.ops[k])
  {
  }

  lemma {:induction false} RunKeepsCertain(s: State, steps: seq<Step>)
    requires Inv(s) && Certain(s) && IsRun(s, steps)
    ensures Certain(After(s, steps))
    decreases |steps|
  {
    if steps != [] {
      StepKeepsInv(s, steps[0]);
      StepKeepsCertain(s, steps[0]);
      RunKeepsCertain(Apply(s, steps[0]), steps[1..]);
    }
  }

  /** Whatever the schedule is: an operation's first 256 events are never lost on the way to its
      forwarder; a subscriber that reads nothing has exactly the first 64 events published to it, or
      all if there were fewer; and one that was there throughout and got events of no other operation
      gets a whole operation of up to 64 events. */
  lemma CertainToArrive(steps: seq<Step>, i: nat, k: nat)
    requires IsRun(Init(), steps)
    requires i < |After(Init(), steps).subs| && k < |After(Init(), steps).ops|
    ensures var op := After(Init(), steps).ops[k];
      FirstGetThrough(op) && (|op.emitted| <= 256 ==> op.lost == 0)
    ensures var sub := After(Init(), steps).subs[i];
      sub.received == [] ==> |sub.queue| == if |sub.queue| + |sub.missed| < 64 then |sub.queue| + |sub.missed| else 64
    ensures var s := After(Init(), steps);
      var op, sub := s.ops[k], s.subs[i];
      && i in s.active && sub.since <= k && op.channel == [] && op.hand.None? && |op.emitted| <= 64
      && (forall j :: 0 <= j < |Delivered(sub)| ==> Delivered(sub)[j].op == k)
      ==> OfOp(Delivered(sub), k) == op.emitted
  {
    RunKeepsInv(Init(), steps);
    RunKeepsCertain(Init(), steps);
    var s := After(Init(), steps);
    var op, sub := s.ops[k], s.subs[i];
    InvAt(s, i, k);
    assert SubInv(|s.ops|, sub);
    SubsequenceLength(op.taken + op.channel, op.emitted);
    if && i in s.active && sub.since <= k && op.channel == [] && op.hand.None? && |op.emitted| <= 64
       && (forall j :: 0 <= j < |Delivered(sub)| ==> Delivered(sub)[j].op == k) {
      EveryEventIsAccountedFor(steps, i, k);
      AllOfOp(Delivered(sub), k);
      OfOpIsPart(sub.missed, k);
    }
  }

  lemma {:induction false} AllOfOp(events: seq<Tagged>, k: nat)
    requires forall j :: 0 <= j < |events| ==> events[j].op == k
    ensures |OfOp(events, k)| == |events|
    decreases |events|
  {
    if events != [] {
      AllOfOp(events[..|events| - 1], k);
    }
  }

  lemma {:induction false} OfOpIsPart(events: seq<Tagged>, k: nat)
    ensures events == [] ==> OfOp(events, k) == []
    ensures |OfOp(events, k)| <= |events|
    decreases |events|
  {
    if events != [] {
      OfOpIsPart(events[..|events| - 1], k);
    }
  }

  // ---------- the order across operations ----------

  /** An operation has an event left that no forwarder holding the lock is about to deliver. */
  predicate Undelivered(op: Op, lock: Lock, j: nat)
  {
    op.channel != [] || (op.hand.Some? && !(lock.Held? && lock.op == j))
  }

  ghost predicate Drained(s: State, n: nat)
    requires n <= |s.ops|
  {
    forall j :: 0 <= j < n ==> !Undelivered(s.ops[j], s.lock, j)
  }

  /** No operation starts while an earlier one has an event left. */
  ghost predicate DrainedStarts(s: State, steps: seq<Step>)
    requires IsRun(s, steps)
    decreases |steps|
  {
    steps == [] || (&& (steps[0].Start? && !s.running ==> Drained(s, |s.ops|))
                    && DrainedStarts(Apply(s, steps[0]), steps[1..]))
  }

  /** The events come operation by operation. */
  ghost predicate ByOperation(events: seq<Tagged>)
  {
    forall a, b :: 0 <= a < b < |events| ==> events[a].op <= events[b].op
  }

  ghost predicate UpTo(k: nat, events: seq<Tagged>)
  {
    forall a :: 0 <= a < |events| ==> events[a].op <= k
  }

  ghost predicate OrderInv(s: State)
  {
    && (s.ops != [] ==> Drained(s, |s.ops| - 1))
    && (forall i :: 0 <= i < |s.subs| ==> ByOperation(Delivered(s.subs[i])))
    && (s.lock.Held? ==> forall i :: 0 <= i < |s.subs| ==> UpTo(s.lock.op, Delivered(s.subs[i])))
  }

  lemma OfferKeepsOrder(s: State, k: nat, i: nat)
    requires Inv(s) && OrderInv(s) && Enabled(s, Offer(k, i))
    ensures OrderInv(Apply(s, Offer(k, i)))
  {
    DeliveredAfterOffer(s.subs[i], Tagged(k, s.ops[k].hand.value));
    var t := Apply(s, Offer(k, i));
    assert ByOperation(Delivered(s.subs[i])) && UpTo(k, Delivered(s.subs[i]));
    forall j | 0 <= j < |t.subs| && j != i ensures t.subs[j] == s.subs[j] {
    }
  }

  lemma ReadKeepsOrder(s: State, i: nat)
    requires OrderInv(s) && Enabled(s, Read(i))
    ensures OrderInv(Apply(s, Read(i)))
  {
    var t := Apply(s, Read(i));
    assert Delivered(t.subs[i]) == Delivered(s.subs[i]) by {
      assert [s.subs[i].queue[0]] + s.subs[i].queue[1..] == s.subs[i].queue;
    }
  }

  lemma StepKeepsOrder(s: State, step: Step)
    requires Inv(s) && OrderInv(s) && Enabled(s, step)
    requires step.Start? && !s.running ==> Drained(s, |s.ops|)
    ensures OrderInv(Apply(s, step))
  {
    match step
    case Take(k) =>
    case Acquire(k) =>
    case Offer(k, i) => OfferKeepsOrder(s, k, i);
    case Read(i) => ReadKeepsOrder(s, i);
    case _ =>
  }

  lemma {:induction false} RunKeepsOrder(s: State, steps: seq<Step>)
    requires Inv(s) && OrderInv(s) && IsRun(s, steps) && DrainedStarts(s, steps)
    ensures OrderInv(After(s, steps))
    decreases |steps|
  {
    if steps != [] {
      StepKeepsInv(s, steps[0]);
      StepKeepsOrder(s, steps[0]);
      RunKeepsOrder(Apply(s, steps[0]), steps[1..]);
    }
  }

  /** If no operation starts before the events of the earlier ones are delivered, every subscriber
      gets the operations' events one operation after the other. */
  lemma OperationsInOrder(steps: seq<Step>, i: nat)
    requires IsRun(Init(), steps) && DrainedStarts(Init(), steps) && i < |After(Init(), steps).subs|
    ensures ByOperation(Delivered(After(Init(), steps).subs[i]))
  {
    RunKeepsOrder(Init(), steps);
  }

  // ---------- and when it is broken ----------

  /** `t` can be reached from `s`, and any further start finds everything delivered. */
  ghost predicate Reaches(s: State, t: State)
  {
    exists steps :: IsRun(s, steps) && DrainedStarts(s, steps) && After(s, steps) == t
  }

  lemma {:induction false} OneMoreDrained(s: State, steps: seq<Step>, step: Step)
    requires IsRun(s, steps) && DrainedStarts(s, steps) && Enabled(After(s, steps), step) && !step.Start?
    ensures IsRun(s, steps + [step]) && DrainedStarts(s, steps + [step])
    decreases |steps|
  {
    OneMoreStep(s, steps, step);
    if steps == [] {
      assert (steps + [step])[1..] == [];
    } else {
      assert (steps + [step])[1..] == steps[1..] + [step];
      OneMoreDrained(Apply(s, steps[0]), steps[1..], step);
    }
  }

  lemma Then(s: State, t: State, step: Step) returns (u: State)
    requires Reaches(s, t) && Inv(t) && Enabled(t, step) && !step.Start?
    ensures u == Apply(t, step) && Reaches(s, u) && Inv(u)
  {
    var steps :| IsRun(s, steps) && DrainedStarts(s, steps) && After(s, steps) == t;
    OneMoreStep(s, steps, step);
    OneMoreDrained(s, steps, step);
    StepKeepsInv(t, step);
    u := Apply(t, step);
  }

  /** The publication under way reaches its end; `i` has been served, if there was room. */
  lemma {:induction false} FinishPublishing(s: State, t: State, i: nat) returns (u: State)
    requires Reaches(s, t) && Inv(t) && t.lock.Held? && i < |t.subs|
    ensures Reaches(s, u) && Inv(u) && u.lock.Free? && u.active == t.active && |u.subs| == |t.subs|
    ensures u.ops == t.ops[t.lock.op := t.ops[t.lock.op].(hand := None)]
    ensures u.subs[i] == if i in t.lock.waiting then Offered(t.subs[i], Tagged(t.lock.op, t.ops[t.lock.op].hand.value))
                         else t.subs[i]
    decreases t.lock.waiting
  {
    var k := t.lock.op;
    if t.lock.waiting == {} {
      u := Then(s, t, Release(k));
    } else {
      var j :| j in t.lock.waiting;
      u := Then(s, t, Offer(k, j));
      u := FinishPublishing(s, u, i);
    }
  }

  /** The event in the forwarder's hand is published, and `i` is served, if there is room. */
  lemma PublishHand(s: State, t: State, k: nat, i: nat) returns (u: State)
    requires Reaches(s, t) && Inv(t) && t.lock.Free? && i in t.active && i < |t.subs|
    requires k < |t.ops| && t.ops[k].hand.Some?
    ensures Reaches(s, u) && Inv(u) && u.lock.Free? && u.active == t.active && |u.subs| == |t.subs|
    ensures u.ops == t.ops[k := t.ops[k].(hand := None)]
    ensures u.subs[i] == Offered(t.subs[i], Tagged(k, t.ops[k].hand.value))
  {
    u := Then(s, t, Acquire(k));
    u := FinishPublishing(s, u, i);
  }

  /** The next event of an operation is published. */
  lemma PublishNext(s: State, t: State, k: nat, i: nat) returns (u: State, e: Event)
    requires Reaches(s, t) && Inv(t) && t.lock.Free? && i in t.active && i < |t.subs|
    requires k < |t.ops| && (t.ops[k].hand.Some? || t.ops[k].channel != [])
    ensures Reaches(s, u) && Inv(u) && u.lock.Free? && u.active == t.active && |u.subs| == |t.subs|
    ensures |u.ops| == |t.ops| && forall j :: 0 <= j < |t.ops| && j != k ==> u.ops[j] == t.ops[j]
    ensures u.subs[i] == Offered(t.subs[i], Tagged(k, e))
  {
    u := t;
    if t.ops[k].hand.None? {
      u := Then(s, t, Take(k));
    }
    e := u.ops[k].hand.value;
    u := PublishHand(s, u, k, i);
  }

  /** No publication is under way, and there is a subscriber that has received nothing yet. */
  lemma NewSubscriber(s: State, t: State) returns (u: State, i: nat)
    requires Reaches(s, t) && Inv(t)
    ensures Reaches(s, u) && Inv(u) && u.lock.Free? && i < |u.subs| && i in u.active
    ensures u.subs[i].queue == [] && u.subs[i].received == []
    ensures |u.ops| == |t.ops| && forall j :: 0 <= j < |t.ops| ==>
              u.ops[j] == t.ops[j] || (t.lock.Held? && t.lock.op == j && u.ops[j] == t.ops[j].(hand := None))
  {
    u := t;
    if t.lock.Held? && t.subs == [] {
      u := Then(s, t, Release(t.lock.op));
    } else if t.lock.Held? {
      u := FinishPublishing(s, t, 0);
    }
    i := |u.subs|;
    u := Then(s, u, Subscribe);
  }

  ghost predicate CanOvertake(s: State)
  {
    exists t: State, i: nat :: Reaches(Apply(s, Start), t) && i < |t.subs| && !ByOperation(Delivered(t.subs[i]))
  }

  lemma TwoOffers(sub: Subscriber, a: Tagged, b: Tagged)
    requires sub.queue == [] && sub.received == [] && a.op > b.op
    ensures !ByOperation(Delivered(Offered(Offered(sub, a), b)))
  {
    var got := Delivered(Offered(Offered(sub, a), b));
    assert got[0] == a && got[1] == b;
  }

  /** A new operation has emitted an event, and a new subscriber waits for it. */
  lemma NewOperation(s: State, j: nat) returns (t: State, i: nat)
    requires Inv(s) && !s.running && j < |s.ops| && Undelivered(s.ops[j], s.lock, j)
    ensures Reaches(Apply(s, Start), t) && Inv(t) && t.lock.Free? && i < |t.subs| && i in t.active
    ensures t.subs[i].queue == [] && t.subs[i].received == []
    ensures |t.ops| == |s.ops| + 1 && t.ops[|s.ops|].channel != []
    ensures t.ops[j].hand.Some? || t.ops[j].channel != []
  {
    var k, s0 := |s.ops|, Apply(s, Start);
    StepKeepsInv(s, Start);
    assert IsRun(s0, []) && DrainedStarts(s0, []) && After(s0, []) == s0;
    t, i := NewSubscriber(s0, s0);
    assert t.ops[k] == s0.ops[k];
    t := Then(s0, t, Emit(k, Event("", "", 0, 0, "")));
  }

  lemma Overtake(s: State, j: nat)
    requires Inv(s) && !s.running && j < |s.ops| && Undelivered(s.ops[j], s.lock, j)
    ensures CanOvertake(s)
  {
    var k, s0 := |s.ops|, Apply(s, Start);
    var t, i := NewOperation(s, j);
    var u, f := PublishNext(s0, t, k, i);
    var v, e := PublishNext(s0, u, j, i);
    TwoOffers(t.subs[i], Tagged(k, f), Tagged(j, e));
  }

  /** A start lets the new operation's events overtake earlier ones exactly if it finds an event of
      an earlier operation undelivered. This is possible since the flag is lowered before the
      channel is closed and drained. */
  lemma OvertakesExactly(s: State)
    requires Inv(s) && OrderInv(s) && !s.running
    ensures CanOvertake(s) <==> !Drained(s, |s.ops|)
  {
    if Drained(s, |s.ops|) {
      StepKeepsInv(s, Start);
      StepKeepsOrder(s, Start);
      forall t: State, i: nat | Reaches(Apply(s, Start), t) && i < |t.subs| ensures ByOperation(Delivered(t.subs[i])) {
        var steps :| IsRun(Apply(s, Start), steps) && DrainedStarts(Apply(s, Start), steps)
                     && After(Apply(s, Start), steps) == t;
        RunKeepsOrder(Apply(s, Start), steps);
      }
    } else {
      var j :| 0 <= j < |s.ops| && Undelivered(s.ops[j], s.lock, j);
      Overtake(s, j);
    }
  }

  // ---------- a run in which it happens ----------

  lemma Go(steps: seq<Step>, s: State, step: Step) returns (more: seq<Step>, t: State)
    requires IsRun(Init(), steps) && After(Init(), steps) == s && Enabled(s, step)
    ensures IsRun(Init(), more) && After(Init(), more) == t == Apply(s, step)
  {
    OneMoreStep(Init(), steps, step);
    more, t := steps + [step], Apply(s, step);
  }

  /** The forwarder of an operation publishes one event to the one subscriber there is. */
  lemma PublishOne(steps: seq<Step>, s: State, k: nat) returns (more: seq<Step>, t: State)
    requires IsRun(Init(), steps) && After(Init(), steps) == s && k < |s.ops| && s.ops[k].channel != []
    requires s.ops[k].hand.None? && s.lock.Free?
    requires s.active == {0} && |s.subs| == 1 && |s.subs[0].queue| < SUBSCRIBER_BUFFER
    ensures IsRun(Init(), more) && After(Init(), more) == t
    ensures t == s.(ops := s.ops[k := Taken(s.ops[k]).(hand := None)],
                    subs := [Offered(s.subs[0], Tagged(k, s.ops[k].channel[0]))])
  {
    more, t := Go(steps, s, Take(k));
    more, t := Go(more, t, Acquire(k));
    more, t := Go(more, t, Offer(k, 0));
    assert {0} - {0} == {};
    more, t := Go(more, t, Release(k));
  }

  /** The order is kept for each operation, not across operations: the flag is lowered before
      the channel is closed and drained, so the next operation can overtake the last events of
      the one before it. */
  lemma OperationsOverlap(e: Event, f: Event) returns (steps: seq<Step>)
    ensures IsRun(Init(), steps)
    ensures var s := After(Init(), steps);
            && |s.subs| == 1 && s.subs[0].queue == [Tagged(1, f), Tagged(0, e)]
            && |s.ops| == 2 && s.ops[0].emitted == [e] && s.ops[1].emitted == [f]
  {
    var s;
    steps, s := Go([], Init(), Subscribe);
    steps, s := Go(steps, s, Start);
    steps, s := Go(steps, s, Emit(0, e));
    steps, s := Go(steps, s, Report(0));
    steps, s := Go(steps, s, Start);
    steps, s := Go(steps, s, Emit(1, f));
    steps, s := PublishOne(steps, s, 1);
    steps, s := PublishOne(steps, s, 0);
  }
}
