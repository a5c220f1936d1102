/**
  The client as objects: RequestImpl and ThumbnailerImpl update their fields in place and
  share the rate limiter. Each method is proved to perform the step of `ClientProtocol`
  that carries its name, on the whole client state.
 */
module ClientObjects {
  import opened Common
  import L = RateLimiting
  import opened RateLimiterObject
  import P = ClientProtocol

  class RequestImpl {
    const id: nat
    var cancelFunc: Slot?          // what cancel_func_ points to; null if it can only return false
    var watcher: bool
    var finished: bool
    var valid: bool
    var cancelled: bool
    var cancelledWhileWaiting: bool
    var emitting: bool

    ghost function Model(): P.Request
      reads this
    {
      P.Request(watcher, finished, valid, cancelled, cancelledWhileWaiting, emitting)
    }

    /** The constructor up to the point where the job is handed to the limiter. */
    constructor (id: nat, validSize: bool)
      ensures this.id == id && cancelFunc == null
      ensures Model() == P.FRESH.(finished := !validSize)
    {
      this.id := id;
      cancelFunc := null;
      watcher, finished, valid, cancelled, cancelledWhileWaiting, emitting := false, !validSize, false, false, false, false;
    }

    /** send_request_. */
    method SendRequest()
      requires !watcher
      modifies this`watcher
      ensures Model() == old(Model()).(watcher := true)
    {
      watcher := true;
    }

    /** The part of dbusCallFinished after the pump. */
    method Settle(ok: bool)
      requires !cancelled ==> watcher && !finished
      modifies this`finished, this`valid, this`watcher, this`emitting
      ensures Model() == P.Completed(old(Model()), ok)
    {
      if cancelled {
        FinishWithError();
        return;
      }
      if !ok {
        FinishWithError();
        return;
      }
      finished := true;
      valid := true;
      emitting := true;
    }

    method FinishWithError()
      modifies this`finished, this`valid, this`watcher
      ensures Model() == P.FinishWithError(old(Model()))
    {
      finished := true;
      valid := false;
      watcher := false;
    }
  }

  class ThumbnailerImpl {
    const limiter: RateLimiter
    var requests: map<nat, RequestImpl>  // stands for the `this` captured by each queued job
    var posted: multiset<P.Event>
    ghost var ever: set<nat>
    ghost var sent: multiset<nat>
    ghost var pumped: multiset<nat>

    ghost function Models(): map<nat, P.Request>
      reads this, requests.Values
    {
      map id | id in requests :: requests[id].Model()
    }

    ghost function State(): P.Client
      reads this, limiter, limiter.list, requests.Values
    {
      P.Client(limiter.State(), Models(), posted, ever, sent, pumped)
    }

    ghost predicate Valid()
      reads this, limiter, limiter.list, requests.Values
    {
      && L.Valid(limiter.State())
      && forall id :: id in requests ==>
           requests[id].id == id && Points(requests[id].cancelFunc, id, limiter.list)
    }

    constructor (maxBacklog: nat)
      requires maxBacklog > 0
      ensures Valid() && State() == P.NewClient(maxBacklog)
    {
      limiter := new RateLimiter(maxBacklog);
      requests := map[];
      posted := multiset{};
      ever, sent, pumped := {}, multiset{}, multiset{};
    }

    /** Runs a request's job, outside the limiter's own bookkeeping. */
    method RunJob(r: RequestImpl)
      requires Valid() && r.id in requests && requests[r.id] == r && P.Send(State(), r.id).Next?
      modifies this`sent, r`watcher
      ensures Valid() && State() == P.Send(old(State()), r.id).client
    {
      r.SendRequest();
      sent := sent + multiset{r.id};
      OneModelChanged(r);
    }

    lemma TrackedAfterDone(before: seq<Slot>)
      requires |limiter.list| <= |before| && limiter.list == before[..|limiter.list|]
      requires DistinctSlots(before)
      requires forall i :: i in requests ==> Points(requests[i].cancelFunc, i, before)
      ensures forall i :: i in requests ==> Points(requests[i].cancelFunc, i, limiter.list)
    {
      forall i | i in requests
        ensures Points(requests[i].cancelFunc, i, limiter.list)
      {
        PointsShrunk(requests[i].cancelFunc, i, before, |limiter.list|);
      }
    }

    /** limiter().done(), which may run the job of another request. */
    method Pump(ghost id: nat)
      requires Valid() && P.PumpFor(State(), id).Next?
      modifies this`sent, this`pumped, limiter, requests.Values
      ensures Valid() && State() == P.PumpFor(old(State()), id).client
      ensures forall i :: i in requests ==> requests[i].cancelFunc == old(requests[i].cancelFunc)
    {
      ghost var before := limiter.list;
      DistinctEntries(before);
      hide Entries;
      var started := limiter.Done();
      pumped := pumped + multiset{id};
      TrackedAfterDone(before);
      assert Models() == old(Models());
      match started {
        case None =>
        case Some(next) => RunJob(requests[next]);
      }
    }

    /** RequestImpl::dbusCallFinished; `ok` says whether the reply carries an image. */
    method DbusCallFinished(r: RequestImpl, ok: bool)
      requires Valid() && r.id in requests && requests[r.id] == r
      requires P.DbusCallFinished(State(), r.id, ok).Next?
      modifies this`sent, this`pumped, limiter, requests.Values
      ensures Valid() && State() == P.DbusCallFinished(old(State()), r.id, ok).client
    {
      if !r.cancelled || !r.cancelledWhileWaiting {
        Pump(r.id);
      }
      assert r.Model() == Models()[r.id];
      FinishCompletion(r, ok);
    }

    method FinishCompletion(r: RequestImpl, ok: bool)
      requires Valid() && r.id in requests && requests[r.id] == r
      requires !r.cancelled ==> r.watcher && !r.finished
      modifies r`finished, r`valid, r`watcher, r`emitting
      ensures Valid()
      ensures State() == P.Update(old(State()), r.id, P.Completed(old(State()).requests[r.id], ok))
    {
      r.Settle(ok);
      OneModelChanged(r);
    }

    /** Changing one request object changes the one entry of the abstract map. */
    twostate lemma OneModelChanged(r: RequestImpl)
      requires requests == old(requests) && r.id in requests && requests[r.id] == r
      requires forall i :: i in requests ==> requests[i].id == i && old(allocated(requests[i]))
      requires forall i :: i in requests && requests[i] != r ==> requests[i].Model() == old(requests[i].Model())
      ensures Models() == old(Models())[r.id := r.Model()]
    {
    }

    /** The slots connected to a successful finished() have returned; the watcher is dropped. */
    method EndEmit(r: RequestImpl)
      requires Valid() && r.id in requests && requests[r.id] == r
      modifies r`watcher, r`emitting
      ensures Valid() && State() == P.Step(old(State()), P.EndEmit(r.id)).client
      requires P.Enabled(State(), P.EndEmit(r.id))
    {
      r.watcher := false;
      r.emitting := false;
      OneModelChanged(r);
    }

    /** Changes the calls posted to the event loop, and nothing else. */
    method SetPosted(events: multiset<P.Event>)
      requires Valid()
      modifies this`posted
      ensures Valid() && State() == old(State()).(events := events) && posted == events
    {
      posted := events;
      assert Models() == old(Models());
    }

    /** cancel_func_(): true iff the request's job was still in the limiter's queue. */
    method CallCancelFunc(r: RequestImpl) returns (waiting: bool)
      requires Valid() && r.id in requests && requests[r.id] == r
      modifies if r.cancelFunc == null then {} else {r.cancelFunc}
      ensures Valid() && State() == P.Unqueue(old(State()), r.id)
      ensures waiting <==> r.id in L.Jobs(old(State()).limiter.queue)
    {
      waiting := limiter.CallCancel(r.cancelFunc, r.id);
      assert Models() == old(Models());
    }

    method MarkCancelled(r: RequestImpl, waiting: bool)
      requires Valid() && r.id in requests && requests[r.id] == r
      modifies r`cancelled, r`cancelledWhileWaiting
      ensures Valid()
      ensures State() == P.Update(old(State()), r.id,
                                  old(State()).requests[r.id].(cancelled := true, cancelledWhileWaiting := waiting))
    {
      r.cancelled := true;
      r.cancelledWhileWaiting := waiting;
      OneModelChanged(r);
    }

    /** RequestImpl::cancel. */
    method Cancel(r: RequestImpl)
      requires Valid() && r.id in requests && requests[r.id] == r
      modifies this`posted, r`cancelled, r`cancelledWhileWaiting
      modifies if r.cancelFunc == null then {} else {r.cancelFunc}
      ensures Valid() && State() == P.CancelRequest(old(State()), r.id)
      ensures r.cancelled == (old(r.cancelled) || !r.finished)
      ensures !old(r.cancelled) && !r.finished ==>
                && r.cancelledWhileWaiting == (r.id in L.Jobs(old(Entries(limiter.list))))
                && posted == old(posted) + (if r.cancelledWhileWaiting then multiset{P.Fake(r.id)} else multiset{})
    {
      ghost var before := State();
      assert before.events == posted && before.requests[r.id] == r.Model();
      assert before.limiter.queue == Entries(limiter.list);
      hide L.Jobs, P.Unqueue, P.CancelRequest, State, Valid, Entries;
      if r.finished || r.cancelled {
        CancelIgnored(before, r.id);
        return;
      }
      var waiting := CallCancelFunc(r);
      MarkCancelled(r, waiting);
      if waiting {
        SetPosted(posted + multiset{P.Fake(r.id)});
      }
      CancelledClient(before, r.id, waiting);
    }

    static lemma CancelIgnored(c: P.Client, id: nat)
      requires id in c.requests && (c.requests[id].finished || c.requests[id].cancelled)
      ensures P.CancelRequest(c, id) == c
    {
    }

    /** What cancel() leaves, given what the cancel function returned. */
    static lemma CancelledClient(c: P.Client, id: nat, waiting: bool)
      requires id in c.requests && !c.requests[id].finished && !c.requests[id].cancelled
      requires waiting <==> id in L.Jobs(c.limiter.queue)
      ensures P.CancelRequest(c, id) ==
              var c' := P.Update(P.Unqueue(c, id), id, c.requests[id].(cancelled := true, cancelledWhileWaiting := waiting));
              c'.(events := c.events + (if waiting then multiset{P.Fake(id)} else multiset{}))
    {
      hide L.Cancel, L.Jobs;
    }

    /** The object is gone, and calls posted to it with it. */
    method Discard(r: RequestImpl, events: multiset<P.Event>)
      requires Valid() && r.id in requests && requests[r.id] == r
      modifies this`requests, this`posted
      ensures Valid() && State() == old(State()).(requests := old(State()).requests - {r.id}, events := events)
    {
      requests := requests - {r.id};
      assert Models() == old(Models()) - {r.id};
      SetPosted(events);
    }

    /** The destructor; the request's faked completion, if still posted, is discarded with it. */
    method Destroy(r: RequestImpl)
      requires Valid() && r.id in requests && requests[r.id] == r
      modifies this`posted, this`requests
      modifies if r.cancelFunc == null then {} else {r.cancelFunc}
      ensures Valid() && State() == P.DestroyRequest(old(State()), r.id)
    {
      ghost var before := State();
      assert before.events == posted && before.requests[r.id].watcher == r.watcher;
      hide L.Jobs, P.Unqueue, P.DestroyRequest, State, Valid;
      var sent := r.watcher;
      var events := posted[P.Fake(r.id) := 0];
      var waiting := CallCancelFunc(r);
      if sent && !waiting {
        events := events + multiset{P.Pump(r.id)};
      }
      DestroyedClient(before, r.id, waiting, events);
      Discard(r, events);
    }

    /** What the destructor leaves, given what the cancel function returned. */
    static lemma DestroyedClient(c: P.Client, id: nat, waiting: bool, events: multiset<P.Event>)
      requires id in c.requests && (waiting <==> id in L.Jobs(c.limiter.queue))
      requires events == c.events[P.Fake(id) := 0] +
                         (if c.requests[id].watcher && !waiting then multiset{P.Pump(id)} else multiset{})
      ensures P.DestroyRequest(c, id) == P.Unqueue(c, id).(requests := P.Unqueue(c, id).requests - {id}, events := events)
    {
      hide L.Cancel, L.Jobs;
    }

    /** Creates a request object and hands its job to the limiter, unless the size is invalid. */
    method CreateRequest(id: nat, validSize: bool) returns (r: RequestImpl)
      requires Valid() && id !in requests && id !in L.Jobs(Entries(limiter.list))
      modifies this, limiter
      ensures Valid() && fresh(r) && r.id == id && requests == old(requests)[id := r]
      ensures P.CreateRequest(old(State()), id, validSize) == P.Next(State())
      ensures r.finished == !validSize && !r.valid && !r.cancelled
      ensures r.watcher == (validSize && old(limiter.running) < limiter.concurrency)
    {
      r := Register(id, validSize);
      if validSize {
        Submit(r);
      }
    }

    method Register(id: nat, validSize: bool) returns (r: RequestImpl)
      requires Valid() && id !in requests && id !in L.Jobs(Entries(limiter.list))
      modifies this`ever, this`requests
      ensures Valid() && fresh(r) && r.id == id && requests == old(requests)[id := r]
      ensures State() == P.Update(old(State()), id, P.FRESH.(finished := !validSize)).(ever := old(ever) + {id})
      ensures r.Model() == P.FRESH.(finished := !validSize)
    {
      JobsAre(limiter.list, id);
      r := new RequestImpl(id, validSize);
      ever := ever + {id};
      requests := requests[id := r];
      assert Models() == old(Models())[id := r.Model()];
    }

    method Submit(r: RequestImpl)
      requires Valid() && r.id in requests && requests[r.id] == r && r.Model() == P.FRESH
      requires r.id !in L.Jobs(Entries(limiter.list))
      modifies this`sent, limiter, r`cancelFunc, r`watcher
      ensures Valid()
      ensures var c := old(State()).(limiter := L.Schedule(old(limiter.State()), r.id));
              P.Next(State()) == if L.StartsNow(old(limiter.State())) then P.Send(c, r.id) else P.Next(c)
      ensures r.watcher == (old(limiter.running) < limiter.concurrency)
    {
      ghost var before := limiter.list;
      r.cancelFunc := limiter.Schedule(r.id);
      assert Models() == old(Models());
      forall i | i in requests
        ensures Points(requests[i].cancelFunc, i, limiter.list)
      {
        if i != r.id && r.cancelFunc != null {
          PointsGrown(requests[i].cancelFunc, i, before, r.cancelFunc);
        }
      }
      if r.cancelFunc == null {
        RunJob(r);
      }
    }

    /** RequestImpl::waitForFinished; the reply is delivered before it returns. */
    method WaitForFinished(r: RequestImpl, ok: bool)
      requires Valid() && r.id in requests && requests[r.id] == r
      requires P.WaitForFinished(State(), r.id, ok).Next?
      modifies this`sent, this`pumped, limiter, requests.Values
      modifies if r.cancelFunc == null then {} else {r.cancelFunc}
      ensures Valid() && P.WaitForFinished(old(State()), r.id, ok) == P.Next(State())
    {
      if r.finished || r.cancelled {
        return;
      }
      SendOutOfOrder(r);
      assert r.Model() == Models()[r.id];
      assert r.watcher;
      DbusCallFinished(r, ok);
    }

    method SendOutOfOrder(r: RequestImpl)
      requires Valid() && r.id in requests && requests[r.id] == r
      requires P.SendOutOfOrder(State(), r.id).Next?
      modifies this`sent, limiter`running, r`watcher
      modifies if r.cancelFunc == null then {} else {r.cancelFunc}
      ensures Valid() && P.SendOutOfOrder(old(State()), r.id) == P.Next(State())
    {
      hide L.Jobs;
      var waiting := CallCancelFunc(r);
      if waiting {
        ScheduleNow();
        RunJob(r);
      }
    }

    method ScheduleNow()
      requires Valid()
      modifies limiter`running
      ensures Valid() && State() == old(State()).(limiter := L.ScheduleNow(old(State()).limiter))
    {
      limiter.ScheduleNow();
      assert Models() == old(Models());
    }

    /** The event loop delivers the faked completion of a cancelled request. */
    method RunFake(r: RequestImpl)
      requires Valid() && r.id in requests && requests[r.id] == r
      requires P.Fake(r.id) in posted && P.Step(State(), P.RunFake(r.id)).Next?
      modifies this`posted, this`sent, this`pumped, limiter, requests.Values
      ensures Valid() && P.Step(old(State()), P.RunFake(r.id)) == P.Next(State())
    {
      SetPosted(posted - multiset{P.Fake(r.id)});
      DbusCallFinished(r, false);
    }

    /** The event loop delivers pump_limiter on behalf of the destroyed request `id`. */
    method RunPump(id: nat)
      requires Valid()
      requires P.Pump(id) in posted && P.Step(State(), P.RunPump(id)).Next?
      modifies this`posted, this`sent, this`pumped, limiter, requests.Values
      ensures Valid() && P.Step(old(State()), P.RunPump(id)) == P.Next(State())
    {
      SetPosted(posted - multiset{P.Pump(id)});
      Pump(id);
    }
  }
}
