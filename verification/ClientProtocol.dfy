/**
  The client side of src/libthumbnailer-qt/libthumbnailer-qt.cpp: any number of requests
  drive one rate limiter, while replies, faked completions and deferred pumps arrive in
  any order. The source's assertions are explicit: an action that would fail one yields
  `AssertionFailed`, and the main theorem says that no run ever does.
 */
module ClientProtocol {
  import opened Common
  import opened RateLimiting

  /** The fields of a RequestImpl. */
  datatype Request = Request(
    watcher: bool,                 // watcher_ is not null
    finished: bool,
    valid: bool,
    cancelled: bool,
    cancelledWhileWaiting: bool,
    emitting: bool)                // a success handler is inside the emission of finished()

  /** Calls posted to the event loop. A pump is tagged with the destroyed request that posted it. */
  datatype Event = Fake(id: nat) | Pump(id: nat)

  datatype Client = Client(
    limiter: Limiter,
    requests: map<nat, Request>,   // the requests that exist; its own name is a request's job name
    events: multiset<Event>,
    ever: set<nat>,                // all requests ever created
    sent: multiset<nat>,           // how often the D-Bus call of a request was made
    pumped: multiset<nat>)         // how often done() was called on behalf of a request

  datatype Action =
    | Create(id: nat, validSize: bool)
    | Reply(id: nat, ok: bool)     // the D-Bus reply of a sent request arrives
    | EndEmit(id: nat)             // the slots connected to a successful finished() return
    | RunFake(id: nat)             // the event loop delivers the faked completion
    | RunPump(id: nat)             // the event loop delivers pump_limiter
    | Cancel(id: nat)
    | Wait(id: nat, ok: bool)      // waitForFinished; delivers this request's reply before it returns
    | Destroy(id: nat)

  datatype Outcome = Next(client: Client) | AssertionFailed

  const FRESH := Request(false, false, false, false, false, false)

  function NewClient(maxBacklog: nat): Client {
    Client(Limiter(maxBacklog, 0, []), map[], multiset{}, {}, multiset{}, multiset{})
  }

  /** What the environment may do. Destroying a request from its own finished() slot is excluded. */
  predicate Enabled(c: Client, a: Action) {
    match a
    case Create(id, _) => id !in c.ever
    case Reply(id, _) => id in c.requests && c.requests[id].watcher && !c.requests[id].finished
    case EndEmit(id) => id in c.requests && c.requests[id].emitting
    case RunFake(id) => Fake(id) in c.events
    case RunPump(id) => Pump(id) in c.events
    case Cancel(id) => id in c.requests
    case Wait(id, _) => id in c.requests
    case Destroy(id) => id in c.requests && !c.requests[id].emitting
  }

  /** send_request_: fails if the request the job belongs to is gone or has already been sent. */
  function Send(c: Client, id: nat): Outcome {
    if id !in c.requests || c.requests[id].watcher then AssertionFailed
    else Next(c.(requests := c.requests[id := c.requests[id].(watcher := true)], sent := c.sent + multiset{id}))
  }

  /** limiter().done(), called on behalf of request `id`. */
  function PumpFor(c: Client, id: nat): Outcome {
    if c.limiter.running == 0 then AssertionFailed
    else
      var c' := c.(limiter := Done(c.limiter), pumped := c.pumped + multiset{id});
      match DoneStarts(c.limiter)
      case None => Next(c')
      case Some(next) => Send(c', next)
  }

  function Update(c: Client, id: nat, r: Request): Client {
    c.(requests := c.requests[id := r])
  }

  function DbusCallFinished(c: Client, id: nat, ok: bool): Outcome {
    if id !in c.requests || c.requests[id].finished then AssertionFailed
    else
      var r := c.requests[id];
      var pump := if !r.cancelled || !r.cancelledWhileWaiting then PumpFor(c, id) else Next(c);
      if pump.AssertionFailed? || id !in pump.client.requests then AssertionFailed
      else
        var c' := pump.client;
        var r' := c'.requests[id];
        if r'.cancelled then Next(Update(c', id, FinishWithError(r')))
        else if !r'.watcher || r'.finished then AssertionFailed
        else if !ok then Next(Update(c', id, FinishWithError(r')))
        else Next(Update(c', id, r'.(finished := true, valid := true, emitting := true)))
  }

  function FinishWithError(r: Request): Request {
    r.(finished := true, valid := false, watcher := false)
  }

  /** The cancel function of `id` clears its queue entry; it returns true iff the entry was queued. */
  function Unqueue(c: Client, id: nat): Client {
    c.(limiter := RateLimiting.Cancel(c.limiter, id))
  }

  function CreateRequest(c: Client, id: nat, validSize: bool): Outcome {
    var c' := c.(ever := c.ever + {id});
    if !validSize then Next(Update(c', id, FRESH.(finished := true)))
    else
      var c'' := Update(c', id, FRESH).(limiter := Schedule(c.limiter, id));
      if StartsNow(c.limiter) then Send(c'', id) else Next(c'')
  }

  function CancelRequest(c: Client, id: nat): Client
    requires id in c.requests
  {
    var r := c.requests[id];
    if r.finished || r.cancelled then c
    else
      var waiting := id in Jobs(c.limiter.queue);
      var c' := Update(Unqueue(c, id), id, r.(cancelled := true, cancelledWhileWaiting := waiting));
      if waiting then c'.(events := c'.events + multiset{Fake(id)}) else c'
  }

  /** The first part of waitForFinished: make sure that the request has been sent. */
  function SendOutOfOrder(c: Client, id: nat): Outcome {
    if id in Jobs(c.limiter.queue) then Send(Unqueue(c, id).(limiter := ScheduleNow(Unqueue(c, id).limiter)), id)
    else Next(Unqueue(c, id))
  }

  function WaitForFinished(c: Client, id: nat, ok: bool): Outcome
    requires id in c.requests
  {
    var r := c.requests[id];
    if r.finished || r.cancelled then Next(c)
    else
      var sent := SendOutOfOrder(c, id);
      if sent.AssertionFailed? || id !in sent.client.requests || !sent.client.requests[id].watcher then AssertionFailed
      else DbusCallFinished(sent.client, id, ok)
  }

  function DestroyRequest(c: Client, id: nat): Client
    requires id in c.requests
  {
    var alreadySent := id !in Jobs(c.limiter.queue);
    var c' := Unqueue(c, id).(requests := c.requests - {id}, events := c.events[Fake(id) := 0]);
    if c.requests[id].watcher && alreadySent then c'.(events := c'.events + multiset{Pump(id)}) else c'
  }

  function Step(c: Client, a: Action): Outcome
    requires Enabled(c, a)
  {
    match a
    case Create(id, validSize) => CreateRequest(c, id, validSize)
    case Reply(id, ok) => DbusCallFinished(c, id, ok)
    case EndEmit(id) => Next(Update(c, id, c.requests[id].(watcher := false, emitting := false)))
    case RunFake(id) => DbusCallFinished(c.(events := c.events - multiset{Fake(id)}), id, false)
    case RunPump(id) => PumpFor(c.(events := c.events - multiset{Pump(id)}), id)
    case Cancel(id) => Next(CancelRequest(c, id))
    case Wait(id, ok) => WaitForFinished(c, id, ok)
    case Destroy(id) => Next(DestroyRequest(c, id))
  }

  // ---- The invariant ----

  /** What the invariant sees of a client: the limiter's queue matters only as two sets of names. */
  datatype View = View(
    running: nat,
    queued: set<nat>,              // names in the queue, cleared or not
    waiting: set<nat>,             // names in the queue that are still to run
    requests: map<nat, Request>,
    events: multiset<Event>,
    ever: set<nat>,
    sent: multiset<nat>,
    pumped: multiset<nat>)

  function Seen(c: Client): View {
    View(c.limiter.running, Jobs(c.limiter.queue), Waiting(c.limiter.queue),
         c.requests, c.events, c.ever, c.sent, c.pumped)
  }

  /** Requests that have been sent and have not finished. */
  function Outstanding(v: View): set<nat> {
    set id | id in v.requests && v.requests[id].watcher && !v.requests[id].finished
  }

  /** Destroyed requests whose deferred pump has not run yet. */
  function Pumping(v: View): set<nat> {
    set id | id in v.ever && Pump(id) in v.events
  }

  ghost predicate RequestOk(v: View, id: nat)
    requires id in v.requests
  {
    var r := v.requests[id];
    && (r.watcher && !r.finished ==> id !in v.queued && !(r.cancelled && r.cancelledWhileWaiting))
    && (!r.watcher && !r.finished && !r.cancelled ==> id in v.waiting)
    && (r.cancelled && r.cancelledWhileWaiting && !r.finished ==> Fake(id) in v.events && !r.watcher)
    && (r.cancelled && !r.cancelledWhileWaiting && !r.finished ==> r.watcher)
    && (r.cancelledWhileWaiting ==> r.cancelled && v.sent[id] == 0)
    && (r.emitting <==> r.finished && r.watcher)
    && (!r.watcher && !r.finished ==> v.sent[id] == 0)
    && (r.valid ==> r.finished && !r.cancelled)
    && (r.emitting ==> r.valid)
  }

  ghost predicate QueueOk(v: View) {
    && v.waiting <= v.queued <= v.ever
    && v.requests.Keys <= v.ever
    && forall id :: id in v.waiting ==>
         && id in v.requests
         && !v.requests[id].watcher && !v.requests[id].finished && !v.requests[id].cancelled
  }

  ghost predicate EventsOk(v: View) {
    && (forall e :: v.events[e] <= 1)
    && (forall id: nat :: Fake(id) in v.events ==>
          id in v.requests && v.requests[id].cancelledWhileWaiting && !v.requests[id].finished)
    && (forall id: nat :: Pump(id) in v.events ==> id in v.ever && id !in v.requests)
  }

  /** A pump is still to come on behalf of `id`. */
  predicate Unpumped(v: View, id: nat) {
    || (id in v.requests && v.requests[id].watcher && !v.requests[id].finished)
    || (id in v.ever && Pump(id) in v.events)
  }

  /** The limiter has been pumped once for each request that was sent, except while that is still to come. */
  ghost predicate PumpedOnce(v: View, id: nat) {
    && v.sent[id] <= 1
    && v.pumped[id] == (if Unpumped(v, id) then 0 else v.sent[id])
    && (Unpumped(v, id) ==> v.sent[id] == 1)
    && (id !in v.ever ==> v.sent[id] == 0)
  }

  ghost predicate Consistent(v: View) {
    && QueueOk(v)
    && EventsOk(v)
    && (forall id :: id in v.requests ==> RequestOk(v, id))
    && (forall id: nat :: PumpedOnce(v, id))
    && v.running == |Outstanding(v)| + |Pumping(v)|
  }

  ghost predicate Inv(c: Client) {
    Valid(c.limiter) && Consistent(Seen(c))
  }

  /** Consistent, except that one call to done() on behalf of `id` is still owed. */
  ghost predicate OwesPump(v: View, id: nat) {
    && QueueOk(v) && id in v.ever
    && EventsOk(v)
    && (forall i :: i in v.requests ==> RequestOk(v, i))
    && !Unpumped(v, id) && v.sent[id] == 1 && v.pumped[id] == 0
    && (forall i: nat :: i != id ==> PumpedOnce(v, i))
    && v.running == |Outstanding(v)| + |Pumping(v)| + 1
  }

  // ---- Every kind of change keeps the invariant ----

  lemma PumpNothing(v: View, id: nat, queued: set<nat>)
    requires OwesPump(v, id) && v.waiting == {} && queued <= v.queued
    ensures Consistent(v.(running := v.running - 1, queued := queued, pumped := v.pumped + multiset{id}))
  {
    var v' := v.(running := v.running - 1, queued := queued, pumped := v.pumped + multiset{id});
    assert Outstanding(v') == Outstanding(v) && Pumping(v') == Pumping(v);
    forall i | i in v'.requests
      ensures RequestOk(v', i)
    {
      assert RequestOk(v, i);
    }
    forall i: nat
      ensures PumpedOnce(v', i)
    {
      assert i != id ==> PumpedOnce(v, i);
    }
  }

  lemma PumpStarts(v: View, id: nat, queued: set<nat>, j: nat)
    requires OwesPump(v, id) && j in v.waiting && queued <= v.queued && j !in queued && v.waiting - {j} <= queued
    requires j in v.requests
    ensures Consistent(v.(queued := queued, waiting := v.waiting - {j}, pumped := v.pumped + multiset{id},
                          requests := v.requests[j := v.requests[j].(watcher := true)],
                          sent := v.sent + multiset{j}))
  {
    var v' := v.(queued := queued, waiting := v.waiting - {j}, pumped := v.pumped + multiset{id},
                 requests := v.requests[j := v.requests[j].(watcher := true)],
                 sent := v.sent + multiset{j});
    assert RequestOk(v, j);
    assert Outstanding(v') == Outstanding(v) + {j};
    assert Pumping(v') == Pumping(v);
    forall i | i in v'.requests
      ensures RequestOk(v', i)
    {
      assert RequestOk(v, i);
    }
    forall i: nat
      ensures PumpedOnce(v', i)
    {
      assert i != id ==> PumpedOnce(v, i);
    }
  }

  lemma PumpRestores(c: Client, id: nat)
    requires Valid(c.limiter) && OwesPump(Seen(c), id)
    ensures PumpFor(c, id).Next? && Inv(PumpFor(c, id).client)
    ensures id in c.requests ==> id in PumpFor(c, id).client.requests
  {
    DoneSets(c.limiter);
    var v, queued := Seen(c), Jobs(Done(c.limiter).queue);
    WaitingAre(Done(c.limiter).queue);
    match DoneStarts(c.limiter) {
      case None => PumpNothing(v, id, queued);
      case Some(j) => PumpStarts(v, id, queued, j);
    }
  }

  /** A real completion: settling the request's own fields commutes with the pump. */
  lemma CompletionCommutes(c: Client, id: nat, ok: bool)
    requires id in c.requests && c.requests[id].watcher && !c.requests[id].finished
    requires !(c.requests[id].cancelled && c.requests[id].cancelledWhileWaiting)
    requires DoneStarts(c.limiter) != Some(id)
    requires PumpFor(Update(c, id, Completed(c.requests[id], ok)), id).Next?
    ensures DbusCallFinished(c, id, ok) == PumpFor(Update(c, id, Completed(c.requests[id], ok)), id)
  {
    var r := Completed(c.requests[id], ok);
    match DoneStarts(c.limiter) {
      case None =>
      case Some(j) =>
        var sent := c.requests[j].(watcher := true);
        assert c.requests[j := sent][id := r] == c.requests[id := r][j := sent];
    }
  }

  function Completed(r: Request, ok: bool): Request {
    if r.cancelled || !ok then FinishWithError(r) else r.(finished := true, valid := true, emitting := true)
  }

  lemma CompletionRestores(c: Client, id: nat, ok: bool)
    requires id in c.requests && c.requests[id].watcher && !c.requests[id].finished
    requires !(c.requests[id].cancelled && c.requests[id].cancelledWhileWaiting)
    requires Valid(c.limiter) && OwesPump(Seen(Update(c, id, Completed(c.requests[id], ok))), id)
    requires id !in Waiting(c.limiter.queue)
    ensures DbusCallFinished(c, id, ok).Next? && Inv(DbusCallFinished(c, id, ok).client)
  {
    PumpRestores(Update(c, id, Completed(c.requests[id], ok)), id);
    DoneSets(c.limiter);
    CompletionCommutes(c, id, ok);
  }

  lemma ReplyOwesPump(v: View, id: nat, ok: bool)
    requires Consistent(v) && id in v.requests && v.requests[id].watcher && !v.requests[id].finished
    ensures OwesPump(v.(requests := v.requests[id := Completed(v.requests[id], ok)]), id)
    ensures !(v.requests[id].cancelled && v.requests[id].cancelledWhileWaiting)
  {
    var v' := v.(requests := v.requests[id := Completed(v.requests[id], ok)]);
    assert RequestOk(v, id);
    assert Outstanding(v') == Outstanding(v) - {id};
    assert Pumping(v') == Pumping(v);
    assert PumpedOnce(v, id);
    KeepOthers(v, v', id);
  }

  lemma RunPumpOwesPump(v: View, id: nat)
    requires Consistent(v) && Pump(id) in v.events
    ensures OwesPump(v.(events := v.events - multiset{Pump(id)}), id)
  {
    var v' := v.(events := v.events - multiset{Pump(id)});
    assert Outstanding(v') == Outstanding(v);
    assert Pumping(v') == Pumping(v) - {id};
    assert PumpedOnce(v, id);
    KeepOthers(v, v', id);
  }

  lemma FakeConsistent(v: View, id: nat)
    requires Consistent(v) && Fake(id) in v.events && id in v.requests
    ensures v.requests[id].cancelled && v.requests[id].cancelledWhileWaiting && !v.requests[id].finished
    ensures Consistent(v.(events := v.events - multiset{Fake(id)},
                          requests := v.requests[id := FinishWithError(v.requests[id])]))
  {
    var v' := v.(events := v.events - multiset{Fake(id)},
                 requests := v.requests[id := FinishWithError(v.requests[id])]);
    assert RequestOk(v, id) && PumpedOnce(v, id);
    FakeSets(v, v', id);
    KeepOthers(v, v', id);
    hide Outstanding, Pumping;
  }

  lemma FakeSets(v: View, v': View, id: nat)
    requires id in v.requests && !v.requests[id].finished && !v.requests[id].watcher
    requires v'.requests == v.requests[id := FinishWithError(v.requests[id])] && v'.ever == v.ever
    requires v'.events == v.events - multiset{Fake(id)}
    ensures Outstanding(v') == Outstanding(v) && Pumping(v') == Pumping(v)
  {
  }

  lemma CreateRefused(v: View, id: nat)
    requires Consistent(v) && id !in v.ever
    ensures Consistent(v.(requests := v.requests[id := FRESH.(finished := true)], ever := v.ever + {id}))
  {
    var v' := v.(requests := v.requests[id := FRESH.(finished := true)], ever := v.ever + {id});
    assert Pumping(v') == Pumping(v) && Outstanding(v') == Outstanding(v);
    assert PumpedOnce(v, id);
    KeepOthers(v, v', id);
  }

  lemma CreateSent(v: View, id: nat)
    requires Consistent(v) && id !in v.ever
    ensures Consistent(v.(requests := v.requests[id := FRESH.(watcher := true)], ever := v.ever + {id},
                          running := v.running + 1, sent := v.sent + multiset{id}))
  {
    var v' := v.(requests := v.requests[id := FRESH.(watcher := true)], ever := v.ever + {id},
                 running := v.running + 1, sent := v.sent + multiset{id});
    SentConsistent(v, v', id);
  }

  lemma SentConsistent(v: View, v': View, id: nat)
    requires Consistent(v) && id !in v.ever && v'.ever == v.ever + {id}
    requires v'.requests == v.requests[id := FRESH.(watcher := true)]
    requires v'.queued == v.queued && v'.waiting == v.waiting && v'.events == v.events && v'.pumped == v.pumped
    requires v'.running == v.running + 1 && v'.sent == v.sent + multiset{id}
    ensures Consistent(v')
  {
    assert QueueOk(v) && EventsOk(v) && v.running == |Outstanding(v)| + |Pumping(v)|;
    SentOnce(v, v', id);
    SentOthers(v, v', id);
    hide RequestOk, PumpedOnce;
    SentRest(v, v', id);
    SentCount(v, v', id);
    hide Outstanding, Pumping, QueueOk, EventsOk;
  }

  lemma SentCount(v: View, v': View, id: nat)
    requires v.requests.Keys <= v.ever && id !in v.ever && v'.ever == v.ever + {id} && v'.events == v.events
    requires v'.requests == v.requests[id := FRESH.(watcher := true)] && EventsOk(v)
    ensures |Outstanding(v')| + |Pumping(v')| == |Outstanding(v)| + |Pumping(v)| + 1
  {
    SentSets(v, v', id);
    hide Outstanding, Pumping;
  }

  lemma SentOthers(v: View, v': View, id: nat)
    requires Consistent(v) && id !in v.ever && v'.ever == v.ever + {id}
    requires v'.requests == v.requests[id := FRESH.(watcher := true)]
    requires v'.queued == v.queued && v'.waiting == v.waiting && v'.events == v.events && v'.pumped == v.pumped
    requires v'.sent == v.sent + multiset{id}
    ensures forall i :: i in v'.requests && i != id ==> RequestOk(v', i)
    ensures forall i: nat :: i != id ==> PumpedOnce(v', i)
  {
    hide Consistent, RequestOk, PumpedOnce;
    KeepOthers(v, v', id);
  }

  lemma SentOnce(v: View, v': View, id: nat)
    requires Consistent(v) && id !in v.ever && v'.ever == v.ever + {id}
    requires v'.requests == v.requests[id := FRESH.(watcher := true)]
    requires v'.queued == v.queued && v'.events == v.events && v'.pumped == v.pumped && v'.sent == v.sent + multiset{id}
    ensures PumpedOnce(v', id) && RequestOk(v', id)
  {
    assert PumpedOnce(v, id);
  }

  lemma SentRest(v: View, v': View, id: nat)
    requires QueueOk(v) && EventsOk(v) && id !in v.ever && v'.ever == v.ever + {id} && v'.events == v.events
    requires v'.requests == v.requests[id := FRESH.(watcher := true)] && v'.queued == v.queued && v'.waiting == v.waiting
    ensures QueueOk(v') && EventsOk(v')
  {
  }

  lemma SentSets(v: View, v': View, id: nat)
    requires v.requests.Keys <= v.ever && id !in v.ever && v'.ever == v.ever + {id} && v'.events == v.events
    requires v'.requests == v.requests[id := FRESH.(watcher := true)] && Pump(id) !in v.events
    ensures Pumping(v') == Pumping(v)
    ensures id !in Outstanding(v) && Outstanding(v') == Outstanding(v) + {id}
  {
  }

  lemma CreateQueued(v: View, id: nat)
    requires Consistent(v) && id !in v.ever
    ensures Consistent(v.(requests := v.requests[id := FRESH], ever := v.ever + {id},
                          queued := v.queued + {id}, waiting := v.waiting + {id}))
  {
    var v' := v.(requests := v.requests[id := FRESH], ever := v.ever + {id},
                 queued := v.queued + {id}, waiting := v.waiting + {id});
    assert Pumping(v') == Pumping(v) && Outstanding(v') == Outstanding(v);
    assert PumpedOnce(v, id);
    KeepOthers(v, v', id);
  }

  /** A change that concerns only `id` leaves the other requests and their accounts in order. */
  lemma KeepOthers(v: View, v': View, id: nat)
    requires Consistent(v)
    requires v'.requests.Keys - {id} <= v.requests.Keys
    requires v'.waiting - {id} == v.waiting - {id} && v'.queued - {id} == v.queued - {id}
    requires v'.ever == v.ever + {id}
    requires forall i :: i in v'.requests && i != id ==> v'.requests[i] == v.requests[i]
    requires forall i :: i in v.requests && i != id ==> i in v'.requests
    requires forall i: nat :: i != id ==>
               && v'.sent[i] == v.sent[i] && v'.pumped[i] == v.pumped[i]
               && v'.events[Fake(i)] == v.events[Fake(i)] && v'.events[Pump(i)] == v.events[Pump(i)]
    ensures forall i :: i in v'.requests && i != id ==> RequestOk(v', i)
    ensures forall i: nat :: i != id ==> PumpedOnce(v', i)
  {
    forall i | i in v'.requests && i != id
      ensures RequestOk(v', i)
    {
      assert RequestOk(v, i);
      assert i in v'.waiting - {id} <==> i in v.waiting - {id};
      assert i in v'.queued - {id} <==> i in v.queued - {id};
    }
    forall i: nat | i != id
      ensures PumpedOnce(v', i)
    {
      assert PumpedOnce(v, i);
    }
  }

  lemma EndEmitConsistent(v: View, id: nat)
    requires Consistent(v) && id in v.requests && v.requests[id].emitting
    ensures Consistent(v.(requests := v.requests[id := v.requests[id].(watcher := false, emitting := false)]))
  {
    var v' := v.(requests := v.requests[id := v.requests[id].(watcher := false, emitting := false)]);
    assert RequestOk(v, id);
    assert Outstanding(v') == Outstanding(v);
    assert Pumping(v') == Pumping(v);
    assert PumpedOnce(v, id);
    KeepOthers(v, v', id);
  }

  lemma CancelQueued(v: View, id: nat)
    requires Consistent(v) && id in v.requests && !v.requests[id].finished && !v.requests[id].cancelled
    requires id in v.queued
    ensures Consistent(v.(waiting := v.waiting - {id},
                          requests := v.requests[id := v.requests[id].(cancelled := true, cancelledWhileWaiting := true)],
                          events := v.events + multiset{Fake(id)}))
  {
    var v' := v.(waiting := v.waiting - {id},
                 requests := v.requests[id := v.requests[id].(cancelled := true, cancelledWhileWaiting := true)],
                 events := v.events + multiset{Fake(id)});
    assert RequestOk(v, id);
    assert EventsOk(v');
    assert Outstanding(v') == Outstanding(v);
    assert Pumping(v') == Pumping(v);
    assert PumpedOnce(v, id);
    KeepOthers(v, v', id);
  }

  lemma CancelSent(v: View, id: nat)
    requires Consistent(v) && id in v.requests && !v.requests[id].finished && !v.requests[id].cancelled
    requires id !in v.queued
    ensures Consistent(v.(waiting := v.waiting - {id},
                          requests := v.requests[id := v.requests[id].(cancelled := true, cancelledWhileWaiting := false)]))
  {
    var v' := v.(waiting := v.waiting - {id},
                 requests := v.requests[id := v.requests[id].(cancelled := true, cancelledWhileWaiting := false)]);
    assert RequestOk(v, id);
    assert Outstanding(v') == Outstanding(v);
    assert Pumping(v') == Pumping(v);
    assert PumpedOnce(v, id);
    KeepOthers(v, v', id);
  }

  lemma DestroyUnsent(v: View, id: nat)
    requires Consistent(v) && id in v.requests && !v.requests[id].emitting
    requires !(v.requests[id].watcher && id !in v.queued)
    ensures Consistent(v.(waiting := v.waiting - {id}, requests := v.requests - {id}, events := v.events[Fake(id) := 0]))
  {
    var v' := v.(waiting := v.waiting - {id}, requests := v.requests - {id}, events := v.events[Fake(id) := 0]);
    assert RequestOk(v, id);
    assert EventsOk(v');
    assert Outstanding(v') == Outstanding(v);
    assert Pumping(v') == Pumping(v);
    assert PumpedOnce(v, id);
    KeepOthers(v, v', id);
  }

  function DestroyedSent(v: View, id: nat): View {
    v.(waiting := v.waiting - {id}, requests := v.requests - {id},
       events := v.events[Fake(id) := 0] + multiset{Pump(id)})
  }

  lemma DestroySentMoves(v: View, id: nat)
    requires QueueOk(v) && EventsOk(v) && id in v.requests && v.requests[id].watcher && !v.requests[id].finished
    ensures Outstanding(DestroyedSent(v, id)) == Outstanding(v) - {id}
    ensures Pumping(DestroyedSent(v, id)) == Pumping(v) + {id}
    ensures id in Outstanding(v) && id !in Pumping(v)
  {
    var v' := DestroyedSent(v, id);
    assert v'.events[Pump(id)] == v.events[Pump(id)] + 1;
    assert forall i: nat :: i != id ==> v'.events[Pump(i)] == v.events[Pump(i)];
  }

  lemma DestroySent(v: View, id: nat)
    requires Consistent(v) && id in v.requests && !v.requests[id].emitting
    requires v.requests[id].watcher && id !in v.queued
    ensures Consistent(DestroyedSent(v, id))
  {
    var v' := DestroyedSent(v, id);
    assert PumpedOnce(v, id) && RequestOk(v, id);
    DestroySentMoves(v, id);
    KeepOthers(v, v', id);
    assert QueueOk(v') && EventsOk(v');
    assert PumpedOnce(v', id);
  }

  /** waitForFinished on a request that is still queued sends it past the queue. */
  lemma WaitOwesPump(v: View, id: nat, ok: bool)
    requires Consistent(v) && id in v.requests && !v.requests[id].finished && !v.requests[id].cancelled
    requires id in v.queued
    ensures !v.requests[id].watcher
    ensures OwesPump(v.(running := v.running + 1, waiting := v.waiting - {id}, sent := v.sent + multiset{id},
                        requests := v.requests[id := Completed(v.requests[id].(watcher := true), ok)]), id)
  {
    var v' := v.(running := v.running + 1, waiting := v.waiting - {id}, sent := v.sent + multiset{id},
                 requests := v.requests[id := Completed(v.requests[id].(watcher := true), ok)]);
    assert RequestOk(v, id);
    assert Outstanding(v') == Outstanding(v);
    assert Pumping(v') == Pumping(v);
    assert PumpedOnce(v, id);
    KeepOthers(v, v', id);
  }

  // ---- Every step keeps the invariant ----

  lemma CreateKeepsInv(c: Client, id: nat, validSize: bool)
    requires Inv(c) && Enabled(c, Create(id, validSize))
    ensures Step(c, Create(id, validSize)).Next? && Inv(Step(c, Create(id, validSize)).client)
  {
    ScheduleSets(c.limiter, id);
    hide Valid;
    if !validSize {
      CreateRefused(Seen(c), id);
    } else if StartsNow(c.limiter) {
      CreateSent(Seen(c), id);
      assert c.requests[id := FRESH][id := FRESH.(watcher := true)] == c.requests[id := FRESH.(watcher := true)];
    } else {
      CreateQueued(Seen(c), id);
    }
  }

  lemma WaitQueued(c: Client, id: nat, ok: bool)
    requires Inv(c) && id in c.requests && !c.requests[id].finished && !c.requests[id].cancelled
    requires id in Jobs(c.limiter.queue)
    ensures var bypass := Send(Unqueue(c, id).(limiter := ScheduleNow(Unqueue(c, id).limiter)), id);
            && bypass.Next? && id in bypass.client.requests && bypass.client.requests[id].watcher
            && DbusCallFinished(bypass.client, id, ok).Next?
            && Inv(DbusCallFinished(bypass.client, id, ok).client)
  {
    var r := c.requests[id];
    CancelSets(c.limiter, id);
    WaitOwesPump(Seen(c), id, ok);
    var sent := Send(Unqueue(c, id).(limiter := ScheduleNow(Unqueue(c, id).limiter)), id).client;
    var settled := Update(sent, id, Completed(sent.requests[id], ok));
    assert settled.requests == c.requests[id := Completed(r.(watcher := true), ok)];
    CompletionRestores(sent, id, ok);
  }

  lemma WaitSent(c: Client, id: nat, ok: bool)
    requires Inv(c) && id in c.requests && !c.requests[id].finished && !c.requests[id].cancelled
    requires id !in Jobs(c.limiter.queue)
    ensures c.requests[id].watcher
    ensures DbusCallFinished(Unqueue(c, id), id, ok).Next?
    ensures Inv(DbusCallFinished(Unqueue(c, id), id, ok).client)
  {
    assert RequestOk(Seen(c), id);
    CancelSets(c.limiter, id);
    WaitingAre(c.limiter.queue);
    ReplyOwesPump(Seen(c), id, ok);
    assert Waiting(Unqueue(c, id).limiter.queue) == Waiting(c.limiter.queue);
    CompletionRestores(Unqueue(c, id), id, ok);
  }

  lemma WaitKeepsInv(c: Client, id: nat, ok: bool)
    requires Inv(c) && Enabled(c, Wait(id, ok))
    ensures Step(c, Wait(id, ok)).Next? && Inv(Step(c, Wait(id, ok)).client)
  {
    var r := c.requests[id];
    if !r.finished && !r.cancelled {
      if id in Jobs(c.limiter.queue) {
        WaitQueued(c, id, ok);
      } else {
        WaitSent(c, id, ok);
      }
    }
  }

  /** No enabled action fails an assertion, and each keeps the invariant. */
  lemma StepKeepsInv(c: Client, a: Action)
    requires Inv(c) && Enabled(c, a)
    ensures Step(c, a).Next? && Inv(Step(c, a).client)
  {
    match a
    case Create(id, validSize) => CreateKeepsInv(c, id, validSize);
    case Reply(id, ok) =>
      ReplyOwesPump(Seen(c), id, ok);
      assert RequestOk(Seen(c), id);
      WaitingAre(c.limiter.queue);
      CompletionRestores(c, id, ok);
    case EndEmit(id) => EndEmitConsistent(Seen(c), id);
    case RunFake(id) => FakeConsistent(Seen(c), id);
    case RunPump(id) =>
      RunPumpOwesPump(Seen(c), id);
      PumpRestores(c.(events := c.events - multiset{Pump(id)}), id);
    case Cancel(id) =>
      CancelSets(c.limiter, id);
      if !c.requests[id].finished && !c.requests[id].cancelled {
        if id in Jobs(c.limiter.queue) {
          CancelQueued(Seen(c), id);
        } else {
          CancelSent(Seen(c), id);
        }
      }
    case Wait(id, ok) => WaitKeepsInv(c, id, ok);
    case Destroy(id) =>
      CancelSets(c.limiter, id);
      if c.requests[id].watcher && id !in Jobs(c.limiter.queue) {
        DestroySent(Seen(c), id);
      } else {
        DestroyUnsent(Seen(c), id);
      }
  }
}
