/** The API server's operations and its progress hub: `running` and `subs` are the fields the
    two mutexes protect, `ops` the channels of the operations started so far. Every method is
    proved to take exactly the steps of the state machine that its comment names. */
module Progress {
  import opened Domain
  import P = ProgressModel

  class Server {
    var running: bool
    var ops: seq<P.Op>
    var subs: seq<P.Subscriber>
    var active: set<nat>
    var lock: P.Lock

    function Snapshot(): P.State
      reads this
    {
      P.State(running, ops, subs, active, lock)
    }

    constructor ()
      ensures Snapshot() == P.Init() && P.Inv(Snapshot())
    {
      running, ops, subs, active, lock := false, [], [], {}, P.Free;
    }

    /** Refuses a second operation while one is running. */
    method StartOperation() returns (accepted: bool)
      requires P.Inv(Snapshot())
      modifies this
      ensures P.Inv(Snapshot()) && Snapshot() == P.Apply(old(Snapshot()), P.Start)
      ensures accepted <==> !old(running)
      ensures running && (accepted ==> |ops| == |old(ops)| + 1)
      ensures accepted ==> forall k :: 0 <= k < |ops| ==> (ops[k].phase.Scanning? <==> k == |old(ops)|)
    {
      P.StepKeepsInv(Snapshot(), P.Start);
      accepted := !running;
      if accepted {
        running := true;
        ops := ops + [P.Op(P.Scanning, [], None, [], [], 0)];
      }
    }

    /** Sends without blocking; a full channel, one with 256 events, drops the event. */
    method EmitProgress(k: nat, event: P.Event)
      requires P.Inv(Snapshot()) && P.Enabled(Snapshot(), P.Emit(k, event))
      modifies this
      ensures P.Inv(Snapshot()) && Snapshot() == P.Apply(old(Snapshot()), P.Emit(k, event))
      ensures ops[k].channel == old(ops[k].channel) + if |old(ops[k].channel)| < 256 then [event] else []
    {
      P.StepKeepsInv(Snapshot(), P.Emit(k, event));
      var op := ops[k];
      if |op.channel| < P.PROGRESS_BUFFER {
        op := op.(channel := op.channel + [event]);
      } else {
        op := op.(lost := op.lost + 1);
      }
      ops := ops[k := op.(emitted := op.emitted + [event])];
    }

    /** The end of an operation: the status first ... */
    method Report(k: nat)
      requires P.Inv(Snapshot()) && P.Enabled(Snapshot(), P.Report(k))
      modifies this
      ensures P.Inv(Snapshot()) && Snapshot() == P.Apply(old(Snapshot()), P.Report(k))
      ensures !running && forall j :: 0 <= j < |ops| ==> !ops[j].phase.Scanning?
    {
      P.StepKeepsInv(Snapshot(), P.Report(k));
      running := false;
      ops := ops[k := ops[k].(phase := P.Reported)];
    }

    /** ... and then the channel. */
    method CloseChannel(k: nat)
      requires P.Inv(Snapshot()) && P.Enabled(Snapshot(), P.Close(k))
      modifies this
      ensures P.Inv(Snapshot()) && Snapshot() == P.Apply(old(Snapshot()), P.Close(k))
      ensures ops[k] == old(ops[k]).(phase := P.Closed)
    {
      P.StepKeepsInv(Snapshot(), P.Close(k));
      ops := ops[k := ops[k].(phase := P.Closed)];
    }

    /** A forwarder receives the next event of its operation. */
    method TakeOne(k: nat)
      requires P.Inv(Snapshot()) && P.Enabled(Snapshot(), P.Take(k))
      modifies this
      ensures P.Inv(Snapshot()) && Snapshot() == P.Apply(old(Snapshot()), P.Take(k))
      ensures ops[k].hand == Some(old(ops[k].channel)[0]) && ops[k].channel == old(ops[k].channel)[1..]
    {
      P.StepKeepsInv(Snapshot(), P.Take(k));
      var op := ops[k];
      var event := op.channel[0];
      ops := ops[k := op.(channel := op.channel[1..], hand := Some(event), taken := op.taken + [event])];
    }

    method Subscribe() returns (i: nat)
      requires P.Inv(Snapshot()) && lock.Free?
      modifies this
      ensures P.Inv(Snapshot()) && Snapshot() == P.Apply(old(Snapshot()), P.Subscribe)
      ensures i == |old(subs)| && active == old(active) + {i} && subs[i].queue == []
    {
      P.StepKeepsInv(Snapshot(), P.Subscribe);
      i := |subs|;
      subs := subs + [P.Subscriber(|ops|, [], [], [])];
      active := active + {i};
    }

    method Unsubscribe(i: nat)
      requires P.Inv(Snapshot()) && lock.Free?
      modifies this
      ensures P.Inv(Snapshot()) && Snapshot() == P.Apply(old(Snapshot()), P.Unsubscribe(i))
      ensures active == old(active) - {i}
    {
      P.StepKeepsInv(Snapshot(), P.Unsubscribe(i));
      active := active - {i};
    }

    /** A subscriber's own loop receives one event, which it can do at any time. */
    method ReadOne(i: nat) returns (e: P.Tagged)
      requires P.Inv(Snapshot()) && P.Enabled(Snapshot(), P.Read(i))
      modifies this
      ensures P.Inv(Snapshot()) && Snapshot() == P.Apply(old(Snapshot()), P.Read(i))
      ensures [e] + subs[i].queue == old(subs[i].queue) && active == old(active)
    {
      P.StepKeepsInv(Snapshot(), P.Read(i));
      var sub := subs[i];
      e := sub.queue[0];
      subs := subs[i := sub.(queue := sub.queue[1..], received := sub.received + [e])];
    }

    /** The attempt to send the event in hand to one subscriber, which fails if 64 wait for it. */
    method OfferOne(k: nat, i: nat)
      requires P.Inv(Snapshot()) && P.Enabled(Snapshot(), P.Offer(k, i))
      modifies this
      ensures P.Inv(Snapshot()) && Snapshot() == P.Apply(old(Snapshot()), P.Offer(k, i))
      ensures subs[i].queue
           == old(subs[i].queue) + if |old(subs[i].queue)| < 64 then [P.Tagged(k, old(ops[k].hand.value))] else []
    {
      P.StepKeepsInv(Snapshot(), P.Offer(k, i));
      var e := P.Tagged(k, ops[k].hand.value);
      var sub := subs[i];
      if |sub.queue| < P.SUBSCRIBER_BUFFER {
        sub := sub.(queue := sub.queue + [e]);
      } else {
        sub := sub.(missed := sub.missed + [e]);
      }
      subs := subs[i := sub];
      lock := P.Held(k, lock.waiting - {i});
    }
  }

  /** What the publication of `e` has done to a subscriber that it had to serve. */
  ghost predicate Served(before: P.Subscriber, after: P.Subscriber, e: P.Tagged)
  {
    || (P.Delivered(after) == P.Delivered(before) + [e] && after.missed == before.missed)
    || (P.Delivered(after) == P.Delivered(before) && after.missed == before.missed + [e]
        && |before.queue| >= P.SUBSCRIBER_BUFFER)
  }

  /** A subscriber that has at most read from its channel. */
  ghost predicate OnlyRead(before: P.Subscriber, after: P.Subscriber)
  {
    P.Delivered(after) == P.Delivered(before) && after.missed == before.missed && |after.queue| <= |before.queue|
  }

  ghost predicate Progressed(before: seq<P.Subscriber>, after: seq<P.Subscriber>, served: set<nat>, e: P.Tagged)
  {
    && |after| == |before|
    && (forall i :: 0 <= i < |after| ==>
          if i in served then Served(before[i], after[i], e) else OnlyRead(before[i], after[i]))
  }

  /** An operation that has at most emitted events and come to its end. */
  ghost predicate OnlyEmitted(before: P.Op, after: P.Op)
  {
    && after.hand == before.hand && after.taken == before.taken
    && before.channel <= after.channel && before.emitted <= after.emitted && before.lost <= after.lost
  }

  /** What the other goroutines leave alone while operation `k` publishes. */
  twostate predicate Meanwhile(server: Server, k: nat)
    reads server
  {
    && server.lock == old(server.lock) && server.active == old(server.active)
    && k < |old(server.ops)| <= |server.ops| && OnlyEmitted(old(server.ops[k]), server.ops[k])
  }

  /** What a goroutine may do while the hub publishes to others: a subscriber reads, an operation
      starts, emits, ends, or closes its channel, or another forwarder receives an event. */
  datatype Act =
    | Reads(i: nat)
    | Starts
    | Emits(j: nat, event: P.Event)
    | Reports(j: nat)
    | Closes(j: nat)
    | Takes(j: nat)

  method MaybeRead(server: Server, k: nat, i: nat,
                   ghost before: seq<P.Subscriber>, ghost served: set<nat>, ghost e: P.Tagged)
    requires P.Inv(server.Snapshot()) && Progressed(before, server.subs, served, e) && k < |server.ops|
    modifies server
    ensures P.Inv(server.Snapshot()) && Progressed(before, server.subs, served, e) && Meanwhile(server, k)
  {
    if i < |server.subs| && server.subs[i].queue != [] {
      ghost var sub := server.subs[i];
      var read := server.ReadOne(i);
      assert P.Delivered(server.subs[i]) == P.Delivered(sub) by {
        assert sub.queue == [sub.queue[0]] + sub.queue[1..];
      }
    }
  }

  method MaybeAct(server: Server, k: nat, act: Act,
                  ghost before: seq<P.Subscriber>, ghost served: set<nat>, ghost e: P.Tagged)
    requires P.Inv(server.Snapshot()) && Progressed(before, server.subs, served, e)
    requires k < |server.ops| && server.ops[k].hand.Some?
    modifies server
    ensures P.Inv(server.Snapshot()) && Progressed(before, server.subs, served, e) && Meanwhile(server, k)
  {
    match act
    case Reads(i) =>
      MaybeRead(server, k, i, before, served, e);
    case Starts =>
      var accepted := server.StartOperation();
    case Emits(j, event) =>
      if j < |server.ops| && server.ops[j].phase.Scanning? {
        server.EmitProgress(j, event);
      }
    case Reports(j) =>
      if j < |server.ops| && server.ops[j].phase.Scanning? {
        server.Report(j);
      }
    case Closes(j) =>
      if j < |server.ops| && server.ops[j].phase.Reported? {
        server.CloseChannel(j);
      }
    case Takes(j) =>
      if j < |server.ops| && server.ops[j].hand.None? && server.ops[j].channel != [] {
        server.TakeOne(j);
      }
  }

  /** Any number of such acts. */
  method ActAll(server: Server, k: nat, acts: seq<Act>,
                ghost before: seq<P.Subscriber>, ghost served: set<nat>, ghost e: P.Tagged)
    requires P.Inv(server.Snapshot()) && Progressed(before, server.subs, served, e)
    requires k < |server.ops| && server.ops[k].hand.Some?
    modifies server
    ensures P.Inv(server.Snapshot()) && Progressed(before, server.subs, served, e) && Meanwhile(server, k)
  {
    var a := 0;
    while a < |acts|
      invariant 0 <= a <= |acts|
      invariant P.Inv(server.Snapshot()) && Progressed(before, server.subs, served, e)
      invariant server.lock == old(server.lock) && server.active == old(server.active)
      invariant k < |old(server.ops)| <= |server.ops| && OnlyEmitted(old(server.ops[k]), server.ops[k])
    {
      MaybeAct(server, k, acts[a], before, served, e);
      a := a + 1;
    }
  }

  /** The body of the loop over the subscribers. */
  method ServeOne(server: Server, k: nat, acts: seq<Act>, ghost before: seq<P.Subscriber>, ghost e: P.Tagged)
    requires P.Inv(server.Snapshot()) && server.lock.Held? && server.lock.op == k && server.lock.waiting != {}
    requires e == P.Tagged(k, server.ops[k].hand.value)
    requires Progressed(before, server.subs, server.active - server.lock.waiting, e)
    modifies server
    ensures P.Inv(server.Snapshot()) && server.active == old(server.active)
    ensures |old(server.ops)| <= |server.ops| && OnlyEmitted(old(server.ops[k]), server.ops[k])
    ensures server.lock.Held? && server.lock.op == k && server.lock.waiting < old(server.lock.waiting)
    ensures Progressed(before, server.subs, server.active - server.lock.waiting, e)
  {
    ActAll(server, k, acts, before, server.active - server.lock.waiting, e);
    var i :| i in server.lock.waiting;
    assert OnlyRead(before[i], server.subs[i]);
    ghost var sub := server.subs[i];
    server.OfferOne(k, i);
    assert P.Delivered(server.subs[i])
        == if |sub.queue| < P.SUBSCRIBER_BUFFER then P.Delivered(sub) + [e] else P.Delivered(sub);
  }

  /** Publishes the event that the forwarder of operation `k` has in hand: every subscriber gets
      it, in any order, unless its channel is full, while the other goroutines go on. Holding the
      lock, the loop never waits for a subscriber. */
  method Publish(server: Server, k: nat, acts: seq<seq<Act>>)
    requires P.Inv(server.Snapshot()) && P.Enabled(server.Snapshot(), P.Acquire(k))
    modifies server
    ensures P.Inv(server.Snapshot()) && server.lock.Free? && server.active == old(server.active)
    ensures |old(server.ops)| <= |server.ops|
    ensures OnlyEmitted(old(server.ops[k]).(hand := None), server.ops[k])
    ensures Progressed(old(server.subs), server.subs, old(server.active), P.Tagged(k, old(server.ops[k].hand.value)))
  {
    ghost var before, e := server.subs, P.Tagged(k, server.ops[k].hand.value);
    P.StepKeepsInv(server.Snapshot(), P.Acquire(k));
    server.lock := P.Held(k, server.active);
    var turn := 0;
    while server.lock.waiting != {}
      invariant P.Inv(server.Snapshot()) && |old(server.ops)| <= |server.ops|
      invariant OnlyEmitted(old(server.ops[k]), server.ops[k])
      invariant server.active == old(server.active)
      invariant server.lock.Held? && server.lock.op == k && server.lock.waiting <= server.active
      invariant Progressed(before, server.subs, server.active - server.lock.waiting, e)
      invariant turn >= 0
      decreases server.lock.waiting
    {
      ServeOne(server, k, if turn < |acts| then acts[turn] else [], before, e);
      turn := turn + 1;
    }
    P.StepKeepsInv(server.Snapshot(), P.Release(k));
    server.ops := server.ops[k := server.ops[k].(hand := None)];
    server.lock := P.Free;
  }

  /** One turn of the forwarder of operation `k`. */
  method ForwardOne(server: Server, k: nat, acts: seq<seq<Act>>)
    requires P.Inv(server.Snapshot()) && server.lock.Free? && P.Enabled(server.Snapshot(), P.Take(k))
    modifies server
    ensures P.Inv(server.Snapshot()) && server.lock.Free? && server.active == old(server.active)
    ensures Progressed(old(server.subs), server.subs, old(server.active), P.Tagged(k, old(server.ops[k].channel[0])))
    ensures |old(server.ops)| <= |server.ops|
    ensures OnlyEmitted(P.Taken(old(server.ops[k])).(hand := None), server.ops[k])
  {
    server.TakeOne(k);
    Publish(server, k, acts);
  }
}
