/**
  What each call of the application and each delivery changes, stated on the requests, the
  queue and the posted events themselves; and what that makes of a request over whole runs.
 */
module ClientEffects {
  import opened Common
  import opened RateLimiting
  import opened ClientProtocol
  import opened ClientRuns

  /** The queue entry of `id` is cleared, if there is one; every other entry keeps its place. */
  predicate Cleared(q: seq<Entry>, q': seq<Entry>, id: nat) {
    && |q'| == |q|
    && forall k :: 0 <= k < |q| ==> q'[k].job == q[k].job && q'[k].live == (q[k].live && q[k].job != id)
  }

  /** No request but `id` is changed, nor what was posted on its behalf, nor how often it was sent or pumped for. */
  ghost predicate OthersKept(c: Client, c': Client, id: nat) {
    && c'.requests.Keys + {id} == c.requests.Keys + {id}
    && (forall i :: i in c.requests && i != id ==> c'.requests[i] == c.requests[i])
    && (forall e: Event :: e.id != id ==> c'.events[e] == c.events[e])
    && (forall i: nat :: i != id ==> c'.sent[i] == c.sent[i] && c'.pumped[i] == c.pumped[i])
  }

  lemma ClearedQueue(c: Client, id: nat)
    ensures Cleared(c.limiter.queue, Unqueue(c, id).limiter.queue, id)
  {
    forall k | 0 <= k < |c.limiter.queue|
      ensures Clear(c.limiter.queue, id)[k] ==
              if c.limiter.queue[k].job == id then c.limiter.queue[k].(live := false) else c.limiter.queue[k]
    {
      ClearAt(c.limiter.queue, id, k);
    }
  }

  /** In the queue means not sent yet: what the cancel function returns agrees with the watcher. */
  lemma QueuedIsUnsent(c: Client, id: nat)
    requires Inv(c) && id in c.requests && !c.requests[id].finished && !c.requests[id].cancelled
    ensures id in Jobs(c.limiter.queue) <==> !c.requests[id].watcher
    ensures id in Jobs(c.limiter.queue) <==> c.sent[id] == 0
    ensures id in Jobs(c.limiter.queue) <==> Entry(id, true) in c.limiter.queue
  {
    assert RequestOk(Seen(c), id) && PumpedOnce(Seen(c), id);
    WaitingAre(c.limiter.queue);
  }

  /**
    cancel() marks a request that is neither finished nor cancelled. If it has not been sent,
    its queue entry is cleared and the faked completion is posted; if it has, the reply is
    left to arrive. Otherwise cancel() does nothing.
   */
  lemma CancelEffect(c: Client, id: nat)
    requires Inv(c) && id in c.requests
    ensures Step(c, Cancel(id)).Next?
    ensures var c', r := Step(c, Cancel(id)).client, c.requests[id];
            if r.finished || r.cancelled then c' == c
            else
              var waiting := c.sent[id] == 0;
              && id in c'.requests && c'.requests[id] == r.(cancelled := true, cancelledWhileWaiting := waiting)
              && OthersKept(c, c', id) && c'.ever == c.ever && c'.sent == c.sent && c'.pumped == c.pumped
              && c'.limiter == c.limiter.(queue := c'.limiter.queue)
              && Cleared(c.limiter.queue, c'.limiter.queue, id)
              && Entry(id, true) !in c'.limiter.queue
              && (waiting ==> Dropped(c', id) && c'.events == c.events + multiset{Fake(id)} && c'.events[Fake(id)] == 1)
              && (!waiting ==> c'.events == c.events && r.watcher)
  {
    hide Inv, Jobs, Unqueue, Cleared, OthersKept;
    if !c.requests[id].finished && !c.requests[id].cancelled {
      QueuedIsUnsent(c, id);
      ClearedQueue(c, id);
      UncancelledHasNoFake(c, id);
      CancelMarks(c, id);
      hide CancelRequest;
    }
  }

  lemma CancelMarks(c: Client, id: nat)
    requires id in c.requests && !c.requests[id].finished && !c.requests[id].cancelled
    requires id in Jobs(c.limiter.queue) <==> c.sent[id] == 0
    requires Cleared(c.limiter.queue, Unqueue(c, id).limiter.queue, id)
    ensures var c', waiting := CancelRequest(c, id), c.sent[id] == 0;
            && id in c'.requests
            && c'.requests[id] == c.requests[id].(cancelled := true, cancelledWhileWaiting := waiting)
            && OthersKept(c, c', id) && c'.ever == c.ever && c'.sent == c.sent && c'.pumped == c.pumped
            && c'.limiter == c.limiter.(queue := c'.limiter.queue)
            && Cleared(c.limiter.queue, c'.limiter.queue, id) && Entry(id, true) !in c'.limiter.queue
            && c'.events == (if waiting then c.events + multiset{Fake(id)} else c.events)
  {
    hide Jobs;
  }

  lemma UncancelledHasNoFake(c: Client, id: nat)
    requires Inv(c) && id in c.requests && !c.requests[id].cancelled
    ensures c.events[Fake(id)] == 0 && id in c.ever
    ensures !c.requests[id].watcher && !c.requests[id].finished ==> c.sent[id] == 0
    ensures c.requests[id].watcher && !c.requests[id].finished ==> c.sent[id] == 1
  {
    assert RequestOk(Seen(c), id) && PumpedOnce(Seen(c), id);
  }

  /**
    A request with a valid size is sent at once while fewer than max_backlog requests are
    running, and otherwise becomes the newest entry of the queue. A request with an invalid
    size is born finished and without an image, and the limiter never hears of it.
   */
  lemma CreateEffect(c: Client, id: nat, validSize: bool)
    requires Inv(c) && id !in c.ever
    ensures Step(c, Create(id, validSize)).Next?
    ensures var c' := Step(c, Create(id, validSize)).client;
            && id in c'.requests && OthersKept(c, c', id) && c'.events == c.events && c'.pumped == c.pumped
            && c'.ever == c.ever + {id}
            && var r, now := c'.requests[id], c.limiter.running < c.limiter.concurrency;
               && !r.valid && !r.cancelled && !r.cancelledWhileWaiting && !r.emitting && r.finished == !validSize
               && r.watcher == (validSize && now)
               && c'.sent[id] == (if validSize && now then 1 else 0)
               && c'.limiter == c.limiter.(running := c'.limiter.running, queue := c'.limiter.queue)
               && c'.limiter.running == c.limiter.running + (if validSize && now then 1 else 0)
               && c'.limiter.queue == c.limiter.queue + (if validSize && !now then [Entry(id, true)] else [])
  {
    assert PumpedOnce(Seen(c), id);
  }

  /**
    The destructor removes the request and its faked completion. Its queue entry is cleared;
    if the reply is still to come, a pump is posted in its place.
   */
  lemma DestroyEffect(c: Client, id: nat)
    requires Inv(c) && id in c.requests && !c.requests[id].emitting
    ensures Step(c, Destroy(id)).Next?
    ensures var c', r := Step(c, Destroy(id)).client, c.requests[id];
            && id !in c'.requests && OthersKept(c, c', id) && Dropped(c', id)
            && c'.ever == c.ever && c'.sent == c.sent && c'.pumped == c.pumped
            && c'.limiter == c.limiter.(queue := c'.limiter.queue)
            && Cleared(c.limiter.queue, c'.limiter.queue, id)
            && c'.events[Fake(id)] == 0
            && c'.events[Pump(id)] == (if c.sent[id] == 1 && !r.finished then 1 else 0)
  {
    assert RequestOk(Seen(c), id) && PumpedOnce(Seen(c), id);
    ClearedQueue(c, id);
    QueuedOrSent(c, id);
  }

  lemma QueuedOrSent(c: Client, id: nat)
    requires Inv(c) && id in c.requests && !c.requests[id].emitting
    ensures c.requests[id].watcher && id !in Jobs(c.limiter.queue) <==> c.sent[id] == 1 && !c.requests[id].finished
  {
    assert RequestOk(Seen(c), id) && PumpedOnce(Seen(c), id);
  }

  /**
    done(), called on behalf of `id`: the newest request still waiting in the queue is sent
    and takes the place of the one that has completed; if none waits, one fewer is running.
   */
  ghost predicate Pumps(c: Client, c': Client, id: nat) {
    var live, q, q' := LiveJobs(c.limiter.queue), c.limiter.queue, c'.limiter.queue;
    && c'.pumped == c.pumped + multiset{id} && c'.ever == c.ever
    && c'.requests.Keys == c.requests.Keys && c'.limiter.concurrency == c.limiter.concurrency
    && (forall i :: i in c.requests && i != id && !(live != [] && i == live[|live| - 1]) ==>
          c'.requests[i] == c.requests[i])
    && if live == [] then
         c'.sent == c.sent && c'.limiter.running == c.limiter.running - 1 && q' == []
       else
         var next := live[|live| - 1];
         && next != id && next in c.requests && c'.requests[next] == c.requests[next].(watcher := true)
         && c'.sent == c.sent + multiset{next} && c'.limiter.running == c.limiter.running
         && |q'| < |q| && q' == q[..|q'|] && q[|q'|] == Entry(next, true)
         && forall k :: |q'| < k < |q| ==> !q[k].live
  }

  /** The request is settled: with an image, whose slots are still running, or with an error. */
  predicate Settled(r: Request, r': Request, withImage: bool) {
    r' == r.(finished := true, valid := withImage, watcher := withImage, emitting := withImage)
  }

  lemma PumpEffect(c: Client, id: nat)
    requires PumpFor(c, id).Next? && DoneStarts(c.limiter) != Some(id)
    ensures Pumps(c, PumpFor(c, id).client, id) && PumpFor(c, id).client.events == c.events
    ensures id in c.requests ==> PumpFor(c, id).client.requests[id] == c.requests[id]
  {
    TakeLiveTakesNewest(c.limiter.queue);
  }

  lemma CompletionEffect(c: Client, id: nat, ok: bool)
    requires DbusCallFinished(c, id, ok).Next? && DoneStarts(c.limiter) != Some(id)
    requires c.requests[id].watcher && !c.requests[id].emitting
    requires !(c.requests[id].cancelled && c.requests[id].cancelledWhileWaiting)
    ensures var c' := DbusCallFinished(c, id, ok).client;
            && Pumps(c, c', id) && c'.events == c.events
            && Settled(c.requests[id], c'.requests[id], ok && !c.requests[id].cancelled)
  {
    PumpEffect(c, id);
    hide PumpFor;
  }

  /** A reply settles its request, with the image unless the request was cancelled, and pumps. */
  lemma ReplyEffect(c: Client, id: nat, ok: bool)
    requires Inv(c) && Enabled(c, Reply(id, ok))
    ensures Step(c, Reply(id, ok)).Next?
    ensures var c' := Step(c, Reply(id, ok)).client;
            && Pumps(c, c', id) && c'.events == c.events
            && Settled(c.requests[id], c'.requests[id], ok && !c.requests[id].cancelled)
  {
    StepKeepsInv(c, Reply(id, ok));
    SentIsRunning(c, id);
    NotItself(c, id);
    CompletionEffect(c, id, ok);
  }

  lemma NotItself(c: Client, id: nat)
    requires Inv(c) && c.limiter.running > 0
    requires id in c.requests ==> c.requests[id].watcher && !c.requests[id].finished
    ensures DoneStarts(c.limiter) != Some(id)
    ensures id in c.requests ==>
              !c.requests[id].emitting && !(c.requests[id].cancelled && c.requests[id].cancelledWhileWaiting)
  {
    DoneSets(c.limiter);
    if id in c.requests {
      assert RequestOk(Seen(c), id);
    }
  }

  /** The faked completion settles its request with an error and does not pump. */
  lemma FakeEffect(c: Client, id: nat)
    requires Inv(c) && Fake(id) in c.events
    ensures Step(c, RunFake(id)).Next? && id in c.requests
    ensures var c' := Step(c, RunFake(id)).client;
            && Settled(c.requests[id], c'.requests[id], false)
            && c' == c.(events := c.events - multiset{Fake(id)}, requests := c.requests[id := c'.requests[id]])
  {
    StepKeepsInv(c, RunFake(id));
    assert RequestOk(Seen(c), id);
    hide Inv;
  }

  /** The deferred pump of a destroyed request. */
  lemma RunPumpEffect(c: Client, id: nat)
    requires Inv(c) && Pump(id) in c.events
    ensures Step(c, RunPump(id)).Next? && id !in c.requests
    ensures var c' := Step(c, RunPump(id)).client;
            Pumps(c, c', id) && c'.events == c.events - multiset{Pump(id)}
  {
    PendingIsRunning(c, id);
    GoneWhenPumping(c, id);
    NotItself(c, id);
    StepKeepsInv(c, RunPump(id));
    hide Inv, PumpFor, Pumps;
    PumpEffect(c.(events := c.events - multiset{Pump(id)}), id);
    EventsDoNotMatter(c, c.(events := c.events - multiset{Pump(id)}), Step(c, RunPump(id)).client, id);
  }

  lemma EventsDoNotMatter(c: Client, d: Client, c': Client, id: nat)
    requires Pumps(d, c', id) && d == c.(events := d.events)
    ensures Pumps(c, c', id)
  {
  }

  lemma GoneWhenPumping(c: Client, id: nat)
    requires Inv(c) && Pump(id) in c.events
    ensures id !in c.requests
  {
  }

  /** Once the slots of a successful finished() have returned, the watcher goes, and nothing else. */
  lemma EndEmitEffect(c: Client, id: nat)
    requires Inv(c) && Enabled(c, EndEmit(id))
    ensures Step(c, EndEmit(id)).Next?
    ensures var c' := Step(c, EndEmit(id)).client;
            && OthersKept(c, c', id) && c' == c.(requests := c'.requests) && id in c'.requests
            && c'.requests[id] == c.requests[id].(watcher := false, emitting := false)
            && c'.requests[id].finished && c'.requests[id].valid
  {
    assert RequestOk(Seen(c), id);
  }

  /** The client once `id` has been sent, past the queue if that is where it was. */
  ghost function Bypassed(c: Client, id: nat): Client {
    var unsent := c.sent[id] == 0;
    c.(limiter := c.limiter.(running := c.limiter.running + (if unsent then 1 else 0), queue := Clear(c.limiter.queue, id)),
       sent := c.sent + (if unsent then multiset{id} else multiset{}))
  }

  /**
    waitForFinished does nothing for a request that is finished or cancelled. For any other it
    returns with the request settled by its reply, sent exactly once and pumped for exactly once.
   */
  lemma WaitEffect(c: Client, id: nat, ok: bool)
    requires Inv(c) && id in c.requests
    ensures Step(c, Wait(id, ok)).Next?
    ensures var c', r := Step(c, Wait(id, ok)).client, c.requests[id];
            if r.finished || r.cancelled then c' == c
            else
              && Pumps(Bypassed(c, id), c', id) && c'.events == c.events
              && Settled(r, c'.requests[id], ok) && c'.sent[id] == 1 && c'.pumped[id] == 1
  {
    StepKeepsInv(c, Wait(id, ok));
    if !c.requests[id].finished && !c.requests[id].cancelled {
      WaitPumps(c, id, ok);
      assert PumpedOnce(Seen(c), id);
      SettledIsSent(Step(c, Wait(id, ok)).client, id);
    }
  }

  lemma SettledIsSent(c: Client, id: nat)
    requires Inv(c) && id in c.requests && c.requests[id].finished && c.pumped[id] > 0
    ensures c.sent[id] == 1 && c.pumped[id] == 1
  {
    assert PumpedOnce(Seen(c), id);
  }

  /** After the first part of waitForFinished the request has been sent, and does not wait in the queue. */
  lemma SentOutOfOrder(c: Client, id: nat)
    requires Inv(c) && id in c.requests && !c.requests[id].finished && !c.requests[id].cancelled
    ensures SendOutOfOrder(c, id).Next?
    ensures var sent := SendOutOfOrder(c, id).client;
            && sent.(requests := c.requests) == Bypassed(c, id) && sent.requests.Keys == c.requests.Keys
            && (forall i :: i in c.requests && i != id ==> sent.requests[i] == c.requests[i])
            && sent.requests[id] == c.requests[id].(watcher := true)
            && !c.requests[id].emitting && DoneStarts(sent.limiter) != Some(id)
  {
    QueuedIsUnsent(c, id);
    NotYetEmitting(c, id);
    ClearedNotStarted(c.limiter, id);
    hide Inv, Jobs, TakeLive;
  }

  lemma NotYetEmitting(c: Client, id: nat)
    requires Inv(c) && id in c.requests && !c.requests[id].finished
    ensures !c.requests[id].emitting && Valid(c.limiter)
  {
    assert RequestOk(Seen(c), id);
  }

  lemma ClearedNotStarted(l: Limiter, id: nat)
    requires Valid(l)
    ensures TakeLive(Clear(l.queue, id)).job != Some(id)
  {
    CancelSets(l, id);
    TakeLiveTakesNewest(Clear(l.queue, id));
    WaitingAre(Clear(l.queue, id));
  }

  lemma WaitPumps(c: Client, id: nat, ok: bool)
    requires Inv(c) && id in c.requests && !c.requests[id].finished && !c.requests[id].cancelled
    requires WaitForFinished(c, id, ok).Next?
    ensures var c' := WaitForFinished(c, id, ok).client;
            && Pumps(Bypassed(c, id), c', id) && c'.events == c.events && Settled(c.requests[id], c'.requests[id], ok)
  {
    SentOutOfOrder(c, id);
    hide Inv, SendOutOfOrder, DbusCallFinished, DoneStarts;
    CompletionEffect(SendOutOfOrder(c, id).client, id, ok);
    SamePumps(SendOutOfOrder(c, id).client, Bypassed(c, id), WaitForFinished(c, id, ok).client, id);
  }

  lemma SamePumps(c: Client, d: Client, c': Client, id: nat)
    requires Pumps(c, c', id) && d == c.(requests := d.requests) && id in c.requests
    requires d.requests.Keys == c.requests.Keys
    requires forall i :: i in c.requests && i != id ==> d.requests[i] == c.requests[i]
    ensures Pumps(d, c', id)
  {
  }

  // ---- What becomes of a request ----

  /** Whether an action is about the outcome of `id`. */
  predicate Speaks(a: Action, id: nat) {
    a.id == id && (a.Reply? || a.Wait? || a.RunFake? || a.Cancel?)
  }

  /** The first call or delivery that is about the outcome of `id`. */
  function FirstWord(acts: seq<Action>, id: nat): Option<Action> {
    if acts == [] then None
    else if Speaks(acts[0], id) then Some(acts[0])
    else FirstWord(acts[1..], id)
  }

  /** The outcome of a request, as its owner sees it. */
  predicate SameOutcome(r: Request, r': Request) {
    r'.finished == r.finished && r'.valid == r.valid && r'.cancelled == r.cancelled
  }

  /** A request keeps its outcome unless it is spoken of, and for good once it has finished. */
  lemma OutcomeKept(c: Client, a: Action, id: nat)
    requires Inv(c) && Enabled(c, a) && id in c.requests && (!Speaks(a, id) || c.requests[id].finished)
    ensures Step(c, a).Next?
    ensures var rs := Step(c, a).client.requests;
            id in rs ==> SameOutcome(c.requests[id], rs[id])
    ensures id !in Step(c, a).client.requests ==> a == Destroy(id)
  {
    hide Step, Inv, Pumps, Bypassed, Cleared, Dropped;
    InvFacts(c, id);
    match a {
      case Create(i, validSize) => CreateEffect(c, i, validSize);
      case Reply(i, ok) =>
        ReplyEffect(c, i, ok);
        PumpsKeep(c, Step(c, a).client, i, id);
      case EndEmit(i) => EndEmitEffect(c, i);
      case RunFake(i) =>
        FakeEffect(c, i);
        FakeIsUnfinished(c, i);
      case RunPump(i) =>
        RunPumpEffect(c, i);
        PumpsKeep(c, Step(c, a).client, i, id);
      case Cancel(i) => CancelEffect(c, i);
      case Wait(i, ok) => WaitKeepsOutcome(c, i, ok, id);
      case Destroy(i) => DestroyEffect(c, i);
    }
  }

  lemma WaitKeepsOutcome(c: Client, i: nat, ok: bool, id: nat)
    requires Inv(c) && i in c.requests && id in c.requests && (i != id || c.requests[id].finished)
    ensures Step(c, Wait(i, ok)).Next?
    ensures var rs := Step(c, Wait(i, ok)).client.requests;
            id in rs && SameOutcome(c.requests[id], rs[id])
  {
    hide Inv, Step, Pumps;
    WaitEffect(c, i, ok);
    if !c.requests[i].finished && !c.requests[i].cancelled {
      PumpsKeep(Bypassed(c, i), Step(c, Wait(i, ok)).client, i, id);
    }
  }

  lemma InvFacts(c: Client, id: nat)
    requires Inv(c) && id in c.requests
    ensures id in c.ever
  {
  }

  lemma FakeIsUnfinished(c: Client, id: nat)
    requires Inv(c) && Fake(id) in c.events
    ensures id in c.requests && !c.requests[id].finished
  {
  }

  lemma PumpsKeep(c: Client, c': Client, i: nat, id: nat)
    requires Pumps(c, c', i) && id in c.requests && i != id
    ensures id in c'.requests && SameOutcome(c.requests[id], c'.requests[id])
  {
  }

  lemma Excluded(c: Client, id: nat)
    requires Inv(c) && id in c.requests
    ensures c.requests[id].cancelled ==> !c.requests[id].valid
    ensures c.requests[id].valid ==> c.requests[id].finished
    ensures Fake(id) in c.events ==> c.requests[id].cancelled
  {
    assert RequestOk(Seen(c), id);
  }

  /** A cancelled request stays cancelled, and so never gets an image. */
  lemma {:induction false} CancelledForGood(c: Client, acts: seq<Action>, id: nat)
    requires Inv(c) && Legal(c, acts) && id in c.ever
    requires id in c.requests ==> c.requests[id].cancelled
    ensures Exec(c, acts).Next?
    ensures var rs := Exec(c, acts).client.requests;
            id in rs ==> id in c.requests && rs[id].cancelled && !rs[id].valid
    decreases |acts|
  {
    hide Inv, Step, Enabled;
    if id in c.requests {
      Excluded(c, id);
    }
    if acts != [] {
      StepKeepsInv(c, acts[0]);
      StepKeepsCancelled(c, acts[0], id);
      CancelledForGood(Step(c, acts[0]).client, acts[1..], id);
    }
  }

  lemma StepKeepsCancelled(c: Client, a: Action, id: nat)
    requires Inv(c) && Enabled(c, a) && id in c.ever && (id in c.requests ==> c.requests[id].cancelled)
    ensures Step(c, a).Next? && id in Step(c, a).client.ever
    ensures var rs := Step(c, a).client.requests;
            id in rs ==> id in c.requests && rs[id].cancelled
  {
    hide Inv, Step, Pumps, Cleared, Dropped, OthersKept;
    if id !in c.requests {
      GoneForGood(c, a, id);
    } else if !Speaks(a, id) || c.requests[id].finished {
      OutcomeKept(c, a, id);
      StepKeepsEver(c, a, id);
    } else {
      InvFacts(c, id);
      match a
      case Reply(_, ok) => ReplyEffect(c, id, ok); PumpsEver(c, Step(c, a).client, id);
      case Wait(_, ok) => WaitEffect(c, id, ok);
      case RunFake(_) => FakeEffect(c, id);
      case Cancel(_) => CancelEffect(c, id);
    }
  }

  lemma PumpsEver(c: Client, c': Client, id: nat)
    requires Pumps(c, c', id)
    ensures c'.ever == c.ever && c'.requests.Keys == c.requests.Keys
  {
  }

  lemma StepKeepsEver(c: Client, a: Action, id: nat)
    requires Inv(c) && Enabled(c, a) && id in c.ever
    ensures Step(c, a).Next? && id in Step(c, a).client.ever
    ensures id in Step(c, a).client.requests ==> id in c.requests
  {
    hide Inv, Step, Pumps, Bypassed, Cleared, Dropped;
    match a {
      case Create(i, validSize) => CreateEffect(c, i, validSize);
      case Reply(i, ok) =>
        ReplyEffect(c, i, ok);
        PumpsEver(c, Step(c, a).client, i);
      case EndEmit(i) => EndEmitEffect(c, i);
      case RunFake(i) => FakeEffect(c, i);
      case RunPump(i) =>
        RunPumpEffect(c, i);
        PumpsEver(c, Step(c, a).client, i);
      case Cancel(i) => CancelEffect(c, i);
      case Wait(i, ok) => WaitKeepsEver(c, i, ok, id);
      case Destroy(i) => DestroyEffect(c, i);
    }
  }

  lemma WaitKeepsEver(c: Client, i: nat, ok: bool, id: nat)
    requires Inv(c) && i in c.requests && id in c.ever
    ensures Step(c, Wait(i, ok)).Next? && id in Step(c, Wait(i, ok)).client.ever
    ensures id in Step(c, Wait(i, ok)).client.requests ==> id in c.requests
  {
    hide Inv, Step, Pumps;
    WaitEffect(c, i, ok);
    if !c.requests[i].finished && !c.requests[i].cancelled {
      PumpsEver(Bypassed(c, i), Step(c, Wait(i, ok)).client, i);
    }
  }

  lemma GoneForGood(c: Client, a: Action, id: nat)
    requires Inv(c) && Enabled(c, a) && id in c.ever && id !in c.requests
    ensures Step(c, a).Next? && id in Step(c, a).client.ever && id !in Step(c, a).client.requests
  {
    hide Inv, Step;
    StepKeepsEver(c, a, id);
  }

  /**
    cancel() on an unfinished request is final: whatever happens afterwards, the request never
    gets an image; and if its call had not been made yet, it never is.
   */
  lemma CancelIsFinal(c: Client, id: nat, acts: seq<Action>)
    requires Inv(c) && id in c.requests && !c.requests[id].finished
    requires Legal(c, [Cancel(id)] + acts)
    ensures Exec(c, [Cancel(id)] + acts).Next?
    ensures var c' := Exec(c, [Cancel(id)] + acts).client;
            && (id in c'.requests ==> c'.requests[id].cancelled && !c'.requests[id].valid)
            && (c.sent[id] == 0 ==> c'.sent[id] == 0)
  {
    hide Inv, Step, Cleared, OthersKept;
    var all := [Cancel(id)] + acts;
    assert all[0] == Cancel(id) && all[1..] == acts;
    StepKeepsInv(c, Cancel(id));
    CancelEffect(c, id);
    InvFacts(c, id);
    var c' := Step(c, Cancel(id)).client;
    CancelledForGood(c', acts, id);
    if c.sent[id] == 0 {
      CancelledUnsent(c, id);
      DroppedNeverSent(c', acts, id);
    }
  }

  lemma CancelledUnsent(c: Client, id: nat)
    requires Inv(c) && id in c.requests && !c.requests[id].finished && c.sent[id] == 0
    ensures Step(c, Cancel(id)).Next? && Dropped(Step(c, Cancel(id)).client, id)
    ensures Step(c, Cancel(id)).client.sent[id] == 0
  {
    CancelEffect(c, id);
    if c.requests[id].cancelled {
      assert RequestOk(Seen(c), id) && PumpedOnce(Seen(c), id);
    }
  }

  /** A request with an invalid size is never sent, and never gets an image. */
  lemma RefusedForGood(c: Client, id: nat, acts: seq<Action>)
    requires Inv(c) && Legal(c, [Create(id, false)] + acts)
    ensures Exec(c, [Create(id, false)] + acts).Next?
    ensures var c' := Exec(c, [Create(id, false)] + acts).client;
            c'.sent[id] == 0 && (id in c'.requests ==> c'.requests[id].finished && !c'.requests[id].valid)
  {
    var all := [Create(id, false)] + acts;
    assert all[0] == Create(id, false) && all[1..] == acts;
    assert Enabled(c, Create(id, false));
    hide Inv, Step, OthersKept;
    StepKeepsInv(c, Create(id, false));
    CreateEffect(c, id, false);
    var c' := Step(c, Create(id, false)).client;
    DroppedNeverSent(c', acts, id);
    FinishedForGood(c', acts, id);
  }

  /** Once a request has finished, its outcome does not change any more. */
  lemma {:induction false} FinishedForGood(c: Client, acts: seq<Action>, id: nat)
    requires Inv(c) && Legal(c, acts) && id in c.requests && c.requests[id].finished
    ensures Exec(c, acts).Next?
    ensures var rs := Exec(c, acts).client.requests;
            id in rs ==> SameOutcome(c.requests[id], rs[id])
    decreases |acts|
  {
    hide Inv, Step, Enabled;
    if acts != [] {
      StepKeepsInv(c, acts[0]);
      OutcomeKept(c, acts[0], id);
      var c' := Step(c, acts[0]).client;
      if id in c'.requests {
        FinishedForGood(c', acts[1..], id);
      } else {
        NeverBack(c, acts, id);
      }
    }
  }

  lemma NeverBack(c: Client, acts: seq<Action>, id: nat)
    requires Inv(c) && Legal(c, acts) && acts != [] && id in c.requests
    requires Step(c, acts[0]).Next? && id !in Step(c, acts[0]).client.requests
    ensures Exec(c, acts).Next? && id !in Exec(c, acts).client.requests
  {
    hide Inv, Step, Enabled;
    InvFacts(c, id);
    StepKeepsInv(c, acts[0]);
    StepKeepsEver(c, acts[0], id);
    CancelledForGood(Step(c, acts[0]).client, acts[1..], id);
  }

  /**
    What a request comes to is decided by the first thing said about it. If that is cancel(),
    the request is cancelled and stays without an image. If it is a reply, the request is
    finished for good, with an image exactly if the reply carried one. Until then it is open.
   */
  lemma {:induction false} FirstWordDecides(c: Client, acts: seq<Action>, id: nat)
    requires Inv(c) && Legal(c, acts)
    requires id in c.requests && !c.requests[id].finished && !c.requests[id].cancelled
    ensures Exec(c, acts).Next?
    ensures var rs := Exec(c, acts).client.requests;
            id in rs ==>
              match FirstWord(acts, id)
              case None => !rs[id].finished && !rs[id].cancelled && !rs[id].valid
              case Some(Cancel(_)) => rs[id].cancelled && !rs[id].valid
              case Some(Reply(_, ok)) => rs[id].finished && !rs[id].cancelled && rs[id].valid == ok
              case Some(Wait(_, ok)) => rs[id].finished && !rs[id].cancelled && rs[id].valid == ok
              case Some(_) => false
    decreases |acts|
  {
    hide Inv, Step, Enabled, Pumps, Bypassed, Cleared, OthersKept, Dropped;
    Excluded(c, id);
    if acts != [] {
      var a := acts[0];
      StepKeepsInv(c, a);
      var c' := Step(c, a).client;
      if !Speaks(a, id) {
        OutcomeKept(c, a, id);
        if id in c'.requests {
          FirstWordDecides(c', acts[1..], id);
        } else {
          NeverBack(c, acts, id);
        }
      } else {
        SpokenOf(c, a, id);
        if a.Cancel? {
          CancelledForGood(c', acts[1..], id);
        } else {
          FinishedForGood(c', acts[1..], id);
        }
      }
    }
  }

  lemma SpokenOf(c: Client, a: Action, id: nat)
    requires Inv(c) && Enabled(c, a) && Speaks(a, id)
    requires id in c.requests && !c.requests[id].finished && !c.requests[id].cancelled
    ensures Step(c, a).Next? && id in Step(c, a).client.requests && id in Step(c, a).client.ever
    ensures var r := Step(c, a).client.requests[id];
            match a
            case Cancel(_) => r.cancelled
            case Reply(_, ok) => r.finished && !r.cancelled && r.valid == ok
            case Wait(_, ok) => r.finished && !r.cancelled && r.valid == ok
            case _ => false
  {
    InvFacts(c, id);
    Excluded(c, id);
    assert a.RunFake? ==> Fake(id) in c.events;
    hide Inv, Step, Cleared, OthersKept, Dropped;
    StepKeepsEver(c, a, id);
    match a
    case Reply(_, ok) =>
      ReplyEffect(c, id, ok);
      PumpsEver(c, Step(c, a).client, id);
    case Wait(_, ok) =>
      WaitEffect(c, id, ok);
      PumpsEver(Bypassed(c, id), Step(c, a).client, id);
    case RunFake(_) =>
      assert false;
    case Cancel(_) => CancelEffect(c, id);
  }
}
