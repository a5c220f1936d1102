/** What the client protocol guarantees over whole runs, and that every run can be completed. */
module ClientRuns {
  import opened Common
  import opened RateLimiting
  import opened ClientProtocol

  /** Every action is one the environment may take when its turn comes. */
  ghost predicate Legal(c: Client, acts: seq<Action>)
    decreases |acts|
  {
    acts == [] ||
    (Enabled(c, acts[0]) && (Step(c, acts[0]).Next? ==> Legal(Step(c, acts[0]).client, acts[1..])))
  }

  function Exec(c: Client, acts: seq<Action>): Outcome
    requires Legal(c, acts)
    decreases |acts|
  {
    if acts == [] then Next(c)
    else
      match Step(c, acts[0])
      case AssertionFailed => AssertionFailed
      case Next(c') => Exec(c', acts[1..])
  }

  lemma {:induction false} ExecKeepsInv(c: Client, acts: seq<Action>)
    requires Inv(c) && Legal(c, acts)
    ensures Exec(c, acts).Next? && Inv(Exec(c, acts).client)
    decreases |acts|
  {
    if acts != [] {
      StepKeepsInv(c, acts[0]);
      ExecKeepsInv(Step(c, acts[0]).client, acts[1..]);
    }
  }

  lemma NewClientInv(maxBacklog: nat)
    requires maxBacklog > 0
    ensures Inv(NewClient(maxBacklog))
  {
    var v := Seen(NewClient(maxBacklog));
    assert Outstanding(v) == {} && Pumping(v) == {};
    forall id: nat
      ensures PumpedOnce(v, id)
    {
    }
  }

  /**
    Over every interleaving: no assertion fails, in particular done() is never called with
    nothing running and the limiter never runs the job of a destroyed request; the limiter's
    count is the number of sent and unfinished requests plus pending pumps; and done() has
    been called once for each request that was sent, never for one that was not.
   */
  lemma PumpedExactlyOnce(maxBacklog: nat, acts: seq<Action>)
    requires maxBacklog > 0 && Legal(NewClient(maxBacklog), acts)
    ensures Exec(NewClient(maxBacklog), acts).Next?
    ensures var c := Exec(NewClient(maxBacklog), acts).client;
            && c.limiter.running == |Outstanding(Seen(c))| + |Pumping(Seen(c))|
            && (forall id: nat :: c.pumped[id] <= c.sent[id] <= 1)
            && (forall id: nat :: c.pumped[id] < c.sent[id] <==>
                  id in Outstanding(Seen(c)) || id in Pumping(Seen(c)))
            && (forall id :: id in c.requests && c.requests[id].cancelledWhileWaiting ==> c.sent[id] == 0)
            && (forall id :: id in c.requests && c.requests[id].cancelled ==> !c.requests[id].valid)
  {
    NewClientInv(maxBacklog);
    ExecKeepsInv(NewClient(maxBacklog), acts);
    var c := Exec(NewClient(maxBacklog), acts).client;
    var v := Seen(c);
    forall id: nat
      ensures c.pumped[id] <= c.sent[id] <= 1
      ensures c.pumped[id] < c.sent[id] <==> id in Outstanding(v) || id in Pumping(v)
    {
      assert PumpedOnce(v, id);
    }
    forall id | id in c.requests
      ensures c.requests[id].cancelledWhileWaiting ==> c.sent[id] == 0
      ensures c.requests[id].cancelled ==> !c.requests[id].valid
    {
      assert RequestOk(v, id);
    }
  }

  // ---- What one step does to the requests ----

  /** A pump changes no request except for sending one that was waiting. */
  lemma PumpFrame(c: Client, id: nat)
    requires PumpFor(c, id).Next?
    ensures var c' := PumpFor(c, id).client;
            && c'.requests.Keys == c.requests.Keys && c'.events == c.events && c'.ever == c.ever
            && (forall i :: i in c.requests ==>
                  c'.requests[i] == c.requests[i].(watcher := c'.requests[i].watcher))
            && (forall i: nat :: DoneStarts(c.limiter) != Some(i) ==> c'.sent[i] == c.sent[i])
  {
  }

  /** Completion finishes the request it is for, and no other. */
  lemma CompletionFrame(c: Client, id: nat, ok: bool)
    requires DbusCallFinished(c, id, ok).Next?
    ensures var c' := DbusCallFinished(c, id, ok).client;
            && id in c.requests && !c.requests[id].finished
            && c'.requests.Keys == c.requests.Keys && c'.events == c.events && c'.ever == c.ever
            && c'.requests[id].finished && c'.requests[id].valid == (ok && !c.requests[id].cancelled)
            && c'.requests[id].cancelledWhileWaiting == c.requests[id].cancelledWhileWaiting
            && (forall i :: i in c.requests && i != id ==>
                  c'.requests[i] == c.requests[i].(watcher := c'.requests[i].watcher))
            && (forall i: nat :: DoneStarts(c.limiter) != Some(i) ==> c'.sent[i] == c.sent[i])
  {
    var r := c.requests[id];
    if !r.cancelled || !r.cancelledWhileWaiting {
      PumpFrame(c, id);
    }
  }

  /** waitForFinished returns with the request finished, unless it had been cancelled. */
  lemma WaitFinishes(c: Client, id: nat, ok: bool)
    requires Inv(c) && id in c.requests
    ensures Step(c, Wait(id, ok)).Next?
    ensures var r := Step(c, Wait(id, ok)).client.requests;
            && id in r && (r[id].finished || r[id].cancelled)
            && (!c.requests[id].finished && !c.requests[id].cancelled ==> r[id].finished && r[id].valid == ok)
  {
    StepKeepsInv(c, Wait(id, ok));
    if !c.requests[id].finished && !c.requests[id].cancelled {
      var u := Unqueue(c, id);
      if id !in Jobs(c.limiter.queue) {
        CompletionFrame(u, id, ok);
      } else {
        CompletionFrame(Send(u.(limiter := ScheduleNow(u.limiter)), id).client, id, ok);
      }
    }
  }

  // ---- Requests that are over are never sent ----

  /** Destroyed, cancelled before it was sent, or finished. */
  predicate Dropped(c: Client, id: nat) {
    id in c.ever && (id in c.requests ==> c.requests[id].cancelledWhileWaiting || c.requests[id].finished)
  }

  lemma DroppedNotStarted(c: Client, id: nat)
    requires Inv(c) && Dropped(c, id) && c.limiter.running > 0
    ensures DoneStarts(c.limiter) != Some(id)
  {
    DoneSets(c.limiter);
    if id in c.requests {
      assert RequestOk(Seen(c), id);
    }
  }

  lemma StepKeepsDropped(c: Client, a: Action, id: nat)
    requires Inv(c) && Enabled(c, a) && Dropped(c, id)
    ensures Step(c, a).Next?
    ensures Dropped(Step(c, a).client, id) && Step(c, a).client.sent[id] == c.sent[id]
  {
    hide DbusCallFinished, PumpFor, WaitForFinished, Inv;
    match a {
      case Create(i, validSize) => CreateKeepsDropped(c, i, validSize, id);
      case Reply(i, ok) => ReplyKeepsDropped(c, i, ok, id);
      case EndEmit(i) =>
      case RunFake(i) => FakeKeepsDropped(c, i, id);
      case RunPump(i) => PumpKeepsDropped(c, i, id);
      case Cancel(i) => CancelKeepsDropped(c, i, id);
      case Wait(i, ok) => WaitKeepsDropped(c, i, ok, id);
      case Destroy(i) =>
    }
  }

  lemma CreateKeepsDropped(c: Client, i: nat, validSize: bool, id: nat)
    requires Inv(c) && i !in c.ever && Dropped(c, id)
    ensures var o := CreateRequest(c, i, validSize);
            o.Next? && Dropped(o.client, id) && o.client.sent[id] == c.sent[id]
  {
    hide Inv;
    StepKeepsInv(c, Create(i, validSize));
  }

  lemma ReplyKeepsDropped(c: Client, i: nat, ok: bool, id: nat)
    requires Inv(c) && Enabled(c, Reply(i, ok)) && Dropped(c, id)
    ensures var o := DbusCallFinished(c, i, ok);
            o.Next? && Dropped(o.client, id) && o.client.sent[id] == c.sent[id]
  {
    hide DbusCallFinished;
    StepKeepsInv(c, Reply(i, ok));
    CompletionFrame(c, i, ok);
    SentIsRunning(c, i);
    DroppedNotStarted(c, id);
    hide Inv;
  }

  /** A sent and unfinished request is among those that the limiter counts. */
  lemma SentIsRunning(c: Client, i: nat)
    requires Inv(c) && i in c.requests && c.requests[i].watcher && !c.requests[i].finished
    ensures c.limiter.running > 0
  {
    assert i in Outstanding(Seen(c));
  }

  lemma FakeKeepsDropped(c: Client, i: nat, id: nat)
    requires Inv(c) && Enabled(c, RunFake(i)) && Dropped(c, id)
    ensures var o := DbusCallFinished(c.(events := c.events - multiset{Fake(i)}), i, false);
            o.Next? && Dropped(o.client, id) && o.client.sent[id] == c.sent[id]
  {
    StepKeepsInv(c, RunFake(i));
    assert RequestOk(Seen(c), i);
    hide Inv;
    CompletionFrame(c.(events := c.events - multiset{Fake(i)}), i, false);
  }

  lemma PumpKeepsDropped(c: Client, i: nat, id: nat)
    requires Inv(c) && Enabled(c, RunPump(i)) && Dropped(c, id)
    ensures var o := PumpFor(c.(events := c.events - multiset{Pump(i)}), i);
            o.Next? && Dropped(o.client, id) && o.client.sent[id] == c.sent[id]
  {
    hide PumpFor;
    StepKeepsInv(c, RunPump(i));
    PendingIsRunning(c, i);
    PumpFrame(c.(events := c.events - multiset{Pump(i)}), i);
    DroppedNotStarted(c, id);
    hide Inv;
  }

  lemma PendingIsRunning(c: Client, i: nat)
    requires Inv(c) && Pump(i) in c.events
    ensures c.limiter.running > 0
  {
    assert i in Pumping(Seen(c));
  }

  lemma CancelKeepsDropped(c: Client, i: nat, id: nat)
    requires Inv(c) && i in c.requests && Dropped(c, id)
    ensures Dropped(CancelRequest(c, i), id) && CancelRequest(c, i).sent[id] == c.sent[id]
  {
    assert id in c.requests ==> RequestOk(Seen(c), id);
    hide Inv, Jobs;
  }

  lemma WaitKeepsDropped(c: Client, i: nat, ok: bool, id: nat)
    requires Inv(c) && i in c.requests && Dropped(c, id)
    ensures Step(c, Wait(i, ok)).Next?
    ensures Dropped(Step(c, Wait(i, ok)).client, id) && Step(c, Wait(i, ok)).client.sent[id] == c.sent[id]
  {
    assert Valid(c.limiter);
    assert id in c.requests ==> c.requests[id].cancelled || c.requests[id].finished by {
      assert id in c.requests ==> RequestOk(Seen(c), id);
    }
    hide DbusCallFinished, Inv, Valid;
    StepKeepsInv(c, Wait(i, ok));
    if !c.requests[i].finished && !c.requests[i].cancelled {
      DroppedNotWaiting(c, id);
      CancelSets(c.limiter, i);
      hide Step;
      if i !in Jobs(c.limiter.queue) {
        CompletionKeepsDropped(Unqueue(c, i), i, ok, id);
      } else {
        BypassKeepsDropped(c, i, ok, id);
      }
    }
  }

  lemma BypassKeepsDropped(c: Client, i: nat, ok: bool, id: nat)
    requires i in c.requests && i in Jobs(c.limiter.queue) && !c.requests[i].finished && !c.requests[i].cancelled
    requires Dropped(c, id) && i != id && id !in Waiting(c.limiter.queue) && Valid(Unqueue(c, i).limiter)
    requires Waiting(Unqueue(c, i).limiter.queue) == Waiting(c.limiter.queue) - {i}
    requires WaitForFinished(c, i, ok).Next?
    ensures Dropped(WaitForFinished(c, i, ok).client, id) && WaitForFinished(c, i, ok).client.sent[id] == c.sent[id]
  {
    hide DbusCallFinished;
    var u := Unqueue(c, i);
    CompletionKeepsDropped(Send(u.(limiter := ScheduleNow(u.limiter)), i).client, i, ok, id);
  }

  lemma CompletionKeepsDropped(c: Client, i: nat, ok: bool, id: nat)
    requires Valid(c.limiter) && id !in Waiting(c.limiter.queue) && Dropped(c, id) && i != id
    requires i in c.requests && !c.requests[i].cancelled && DbusCallFinished(c, i, ok).Next?
    ensures var c' := DbusCallFinished(c, i, ok).client;
            Dropped(c', id) && c'.sent[id] == c.sent[id]
  {
    CompletionFrame(c, i, ok);
    CompletionStartsWaiting(c, i, ok, id);
  }

  lemma DroppedNotWaiting(c: Client, id: nat)
    requires Inv(c) && Dropped(c, id)
    ensures id !in Waiting(c.limiter.queue)
  {
    if id in c.requests {
      assert RequestOk(Seen(c), id);
    }
  }

  lemma CompletionStartsWaiting(c: Client, i: nat, ok: bool, id: nat)
    requires Valid(c.limiter) && id !in Waiting(c.limiter.queue)
    requires i in c.requests && !c.requests[i].cancelled && DbusCallFinished(c, i, ok).Next?
    ensures DoneStarts(c.limiter) != Some(id)
  {
    DoneSets(c.limiter);
  }

  /** A request that is destroyed, finished, or cancelled while it was queued is never sent afterwards. */
  lemma {:induction false} DroppedNeverSent(c: Client, acts: seq<Action>, id: nat)
    requires Inv(c) && Legal(c, acts) && Dropped(c, id)
    ensures Exec(c, acts).Next? && Exec(c, acts).client.sent[id] == c.sent[id]
    decreases |acts|
  {
    if acts != [] {
      StepKeepsInv(c, acts[0]);
      StepKeepsDropped(c, acts[0], id);
      DroppedNeverSent(Step(c, acts[0]).client, acts[1..], id);
    }
  }

  // ---- How many requests are sent at a time ----

  function Load(c: Client): nat {
    Max(c.limiter.running, c.limiter.concurrency)
  }

  /** waitForFinished on a request that is still queued: it is sent past the queue. */
  predicate BypassesQueue(c: Client, a: Action) {
    && a.Wait? && a.id in c.requests && !c.requests[a.id].finished && !c.requests[a.id].cancelled
    && a.id in Jobs(c.limiter.queue)
  }

  function Bypassing(c: Client, acts: seq<Action>): nat
    requires Legal(c, acts)
    decreases |acts|
  {
    if acts == [] then 0
    else
      (if BypassesQueue(c, acts[0]) then 1 else 0)
      + (if Step(c, acts[0]).Next? then Bypassing(Step(c, acts[0]).client, acts[1..]) else 0)
  }

  lemma PumpLoad(c: Client, id: nat)
    requires PumpFor(c, id).Next?
    ensures var l := PumpFor(c, id).client.limiter;
            l.concurrency == c.limiter.concurrency && l.running <= c.limiter.running
  {
  }

  lemma CompletionLoad(c: Client, id: nat, ok: bool)
    requires DbusCallFinished(c, id, ok).Next?
    ensures var l := DbusCallFinished(c, id, ok).client.limiter;
            l.concurrency == c.limiter.concurrency && l.running <= c.limiter.running
  {
    if !c.requests[id].cancelled || !c.requests[id].cancelledWhileWaiting {
      PumpLoad(c, id);
    }
    hide PumpFor;
  }

  lemma StepLoad(c: Client, a: Action)
    requires Enabled(c, a) && Step(c, a).Next?
    ensures Step(c, a).client.limiter.concurrency == c.limiter.concurrency
    ensures Load(Step(c, a).client) <= Load(c) + (if BypassesQueue(c, a) then 1 else 0)
  {
    hide DbusCallFinished, PumpFor, Jobs;
    match a
    case Create(_, _) =>
    case Reply(i, ok) => CompletionLoad(c, i, ok);
    case EndEmit(_) =>
    case RunFake(i) => CompletionLoad(c.(events := c.events - multiset{Fake(i)}), i, false);
    case RunPump(i) => PumpLoad(c.(events := c.events - multiset{Pump(i)}), i);
    case Cancel(_) =>
    case Wait(i, ok) =>
      if !c.requests[i].finished && !c.requests[i].cancelled {
        CompletionLoad(SendOutOfOrder(c, i).client, i, ok);
      }
    case Destroy(_) =>
  }

  lemma {:induction false} RunLoad(c: Client, acts: seq<Action>)
    requires Inv(c) && Legal(c, acts)
    ensures Exec(c, acts).Next?
    ensures Exec(c, acts).client.limiter.concurrency == c.limiter.concurrency
    ensures Load(Exec(c, acts).client) <= Load(c) + Bypassing(c, acts)
    decreases |acts|
  {
    hide Step, Inv, Enabled, Load, BypassesQueue;
    if acts != [] {
      StepKeepsInv(c, acts[0]);
      StepLoad(c, acts[0]);
      RunLoad(Step(c, acts[0]).client, acts[1..]);
    }
  }

  /**
    The number of requests that are sent and not accounted for exceeds max_backlog by at most
    the number of calls to waitForFinished that sent a queued request out of order.
   */
  lemma BacklogIsLimited(maxBacklog: nat, acts: seq<Action>)
    requires maxBacklog > 0 && Legal(NewClient(maxBacklog), acts)
    ensures Exec(NewClient(maxBacklog), acts).Next?
    ensures var c := Exec(NewClient(maxBacklog), acts).client;
            && |Outstanding(Seen(c))| <= c.limiter.running <= maxBacklog + Bypassing(NewClient(maxBacklog), acts)
            && (c.limiter.queue != [] ==> c.limiter.running >= maxBacklog)
  {
    NewClientInv(maxBacklog);
    RunLoad(NewClient(maxBacklog), acts);
    PumpedExactlyOnce(maxBacklog, acts);
    ExecKeepsInv(NewClient(maxBacklog), acts);
    hide Exec, Bypassing, Consistent;
  }

  // ---- Every run can be completed ----

  /** The environment delivering something, as opposed to a call by the application. */
  predicate Delivery(a: Action) {
    a.Reply? || a.EndEmit? || a.RunFake? || a.RunPump?
  }

  ghost predicate Quiescent(c: Client) {
    forall a :: Delivery(a) ==> !Enabled(c, a)
  }

  function Unfinished(c: Client): set<nat> {
    set id | id in c.requests && !c.requests[id].finished
  }

  function Emitting(c: Client): set<nat> {
    set id | id in c.requests && c.requests[id].emitting
  }

  /** A bound on the number of deliveries still possible. */
  function Pending(c: Client): nat {
    2 * |Unfinished(c)| + |Emitting(c)| + |c.events|
  }

  lemma FinishedOne(c: Client, c': Client, id: nat)
    requires id in c.requests && !c.requests[id].finished && !c.requests[id].emitting
    requires c'.requests.Keys == c.requests.Keys && |c'.events| <= |c.events|
    requires c'.requests[id].finished
    requires forall i :: i in c.requests && i != id ==>
               c'.requests[i].finished == c.requests[i].finished && c'.requests[i].emitting == c.requests[i].emitting
    ensures Pending(c') < Pending(c)
  {
    assert Unfinished(c') == Unfinished(c) - {id};
    assert Emitting(c') <= Emitting(c) + {id};
    SubsetSize(Emitting(c'), Emitting(c) + {id});
  }

  lemma SameFinished(c: Client, c': Client)
    requires c'.requests.Keys == c.requests.Keys && |c'.events| < |c.events|
    requires forall i :: i in c.requests ==>
               c'.requests[i].finished == c.requests[i].finished && c'.requests[i].emitting == c.requests[i].emitting
    ensures Pending(c') < Pending(c)
  {
    assert Unfinished(c') == Unfinished(c) && Emitting(c') == Emitting(c);
  }

  lemma EmittedOne(c: Client, id: nat)
    requires id in c.requests && c.requests[id].emitting
    ensures Pending(Update(c, id, c.requests[id].(watcher := false, emitting := false))) < Pending(c)
  {
    var c' := Update(c, id, c.requests[id].(watcher := false, emitting := false));
    assert Unfinished(c') == Unfinished(c);
    assert Emitting(c') == Emitting(c) - {id};
  }

  lemma DeliveryProgress(c: Client, a: Action)
    requires Inv(c) && Enabled(c, a) && Delivery(a)
    ensures Step(c, a).Next? && Pending(Step(c, a).client) < Pending(c)
  {
    StepKeepsInv(c, a);
    match a {
      case Reply(id, ok) =>
        assert RequestOk(Seen(c), id);
        CompletionFrame(c, id, ok);
        FinishedOne(c, Step(c, a).client, id);
      case EndEmit(id) =>
        EmittedOne(c, id);
      case RunFake(id) =>
        assert RequestOk(Seen(c), id);
        CompletionFrame(c.(events := c.events - multiset{Fake(id)}), id, false);
        FinishedOne(c, Step(c, a).client, id);
      case RunPump(id) =>
        PumpFrame(c.(events := c.events - multiset{Pump(id)}), id);
        SameFinished(c, Step(c, a).client);
    }
  }

  /** Once the application stops calling, the deliveries come to an end. */
  lemma {:induction false} DeliveriesEnd(c: Client, acts: seq<Action>)
    requires Inv(c) && Legal(c, acts)
    requires forall a :: a in acts ==> Delivery(a)
    ensures |acts| <= Pending(c)
    decreases |acts|
  {
    if acts != [] {
      assert acts[0] in acts;
      DeliveryProgress(c, acts[0]);
      StepKeepsInv(c, acts[0]);
      forall a | a in acts[1..]
        ensures Delivery(a)
      {
        assert a in acts;
      }
      DeliveriesEnd(Step(c, acts[0]).client, acts[1..]);
    }
  }

  /**
    When nothing is left to deliver, every request has finished, the limiter is idle with an
    empty queue, and done() has been called exactly as often as requests were sent.
   */
  lemma QuiescentIsComplete(c: Client)
    requires Inv(c) && Quiescent(c)
    ensures forall id :: id in c.requests ==> c.requests[id].finished
    ensures c.limiter == Limiter(c.limiter.concurrency, 0, [])
    ensures c.pumped == c.sent
  {
    var v := Seen(c);
    forall id | id in c.requests
      ensures !(c.requests[id].watcher && !c.requests[id].finished)
    {
      assert !Enabled(c, Reply(id, true));
    }
    assert Outstanding(v) == {};
    forall id: nat
      ensures Fake(id) !in c.events && Pump(id) !in c.events
    {
      assert !Enabled(c, RunFake(id)) && !Enabled(c, RunPump(id));
    }
    assert Pumping(v) == {};
    assert c.limiter.running == 0;
    assert Waiting(c.limiter.queue) == {};
    forall id | id in c.requests
      ensures c.requests[id].finished
    {
      assert RequestOk(v, id);
    }
    forall id: nat
      ensures c.pumped[id] == c.sent[id]
    {
      assert PumpedOnce(v, id);
    }
  }
}
