/**
  The service's objects: handlers, the table of chains and the inactivity timer. What their
  methods do is stated in the terms of ServiceProtocol and KeyChains, where it is put together.
 */
module ServiceObjects {
  import opened Common
  import C = CredentialsCaching
  import Cache = CredentialsObject
  import K = KeyChains
  import Limiting = RateLimiterObject
  import L = RateLimiting
  import Spec = ServiceProtocol

  /** src/service/inactivityhandler.cpp. The service exits when the timer expires. */
  class InactivityHandler {
    var numActiveRequests: int
    var timerRunning: bool

    /** The timer never runs while somebody is being served. */
    predicate Valid()
      reads this
    {
      numActiveRequests >= 0 && (timerRunning ==> numActiveRequests == 0)
    }

    constructor ()
      ensures Valid() && numActiveRequests == 0 && !timerRunning
    {
      numActiveRequests, timerRunning := 0, false;
    }

    method RequestStarted()
      requires Valid()
      modifies this
      ensures Valid() && numActiveRequests == old(numActiveRequests) + 1 && !timerRunning
    {
      if numActiveRequests == 0 {
        timerRunning := false;
      }
      numActiveRequests := numActiveRequests + 1;
    }

    method RequestCompleted()
      requires Valid() && numActiveRequests > 0
      modifies this
      ensures Valid() && numActiveRequests == old(numActiveRequests) - 1
      ensures timerRunning <==> numActiveRequests == 0
    {
      numActiveRequests := numActiveRequests - 1;
      if numActiveRequests == 0 {
        timerRunning := true;
      }
    }
  }

  /**
    src/service/handler.cpp. A method whose call makes another object's slot run returns what
    that slot is run with, and its caller runs it before doing anything else.
   */
  class Handler {
    const id: nat
    const key: string
    const peer: nat
    const pool: Spec.Pool
    const allows: C.Credentials -> bool
    var stage: Spec.Stage
    var replies: seq<Spec.Reply>
    var emitted: nat
    var cancelFunc: Limiting.Slot?

    ghost function Value(): Spec.Handler
      reads this
    {
      Spec.Handler(key, peer, pool, allows, stage, replies, emitted)
    }

    constructor (id: nat, key: string, peer: nat, pool: Spec.Pool, allows: C.Credentials -> bool, inactivity: InactivityHandler)
      requires inactivity.Valid()
      modifies inactivity
      ensures Value() == Spec.Handler(key, peer, pool, allows, Spec.Waiting, [], 0)
      ensures this.id == id && cancelFunc == null
      ensures inactivity.Valid() && inactivity.numActiveRequests == old(inactivity.numActiveRequests) + 1
    {
      this.id, this.key, this.peer, this.pool, this.allows := id, key, peer, pool, allows;
      stage, replies, emitted, cancelFunc := Spec.Waiting, [], 0, null;
      new;
      inactivity.RequestStarted();
    }

    /** An answer means that the cache calls gotCredentials before this returns. */
    method Begin(creds: Cache.CredentialsCache) returns (answer: Option<C.Credentials>)
      modifies this, creds
      ensures creds.State() == C.Get(old(creds.State()), peer, id)
      ensures answer == C.Answer(old(creds.State()), peer)
      ensures Value() == old(Value()).(stage := Spec.AwaitingCredentials)
    {
      stage := Spec.AwaitingCredentials;
      var asked;
      answer, asked := creds.Get(peer, id);
    }

    /** Returns whether finished() was emitted. */
    method GotCredentials(credentials: C.Credentials) returns (finished: bool)
      modifies this
      ensures finished <==> !(credentials.valid && old(Value()).allows(credentials))
      ensures Value() == if finished then Done(old(Value()), Spec.Error) else old(Value()).(stage := Spec.Checking)
      ensures cancelFunc == old(cancelFunc)
    {
      if !credentials.valid {
        SendError();
        return true;
      }
      if !allows(credentials) {
        SendError();
        return true;
      }
      stage := Spec.Checking;
      finished := false;
    }

    /** Returns whether finished() was emitted; otherwise the download is started or queued. */
    method CheckFinished(result: Spec.CheckResult, limiter: Limiting.RateLimiter) returns (finished: bool)
      requires L.Valid(limiter.State()) && id !in L.Jobs(limiter.State().queue)
      modifies this, limiter
      ensures finished <==> result != Spec.NeedsDownload
      ensures finished ==>
                Value() == Done(old(Value()), if result == Spec.Found then Spec.Thumbnail else Spec.Error)
                && limiter.State() == old(limiter.State())
      ensures !finished ==>
                && limiter.State() == L.Schedule(old(limiter.State()), id)
                && Value() == old(Value()).(stage :=
                     if L.StartsNow(old(limiter.State())) then Spec.Downloading else Spec.Scheduled)
                && Limiting.Points(cancelFunc, id, limiter.list)
    {
      match result
      case Found =>
        SendThumbnail();
        finished := true;
      case NeedsDownload =>
        cancelFunc := limiter.Schedule(id);
        stage := if cancelFunc == null then Spec.Downloading else Spec.Scheduled;
        finished := false;
      case _ =>
        SendError();
        finished := true;
    }

    /** Returns the handler whose download the limiter starts, if any. */
    method DownloadFinished(limiter: Limiting.RateLimiter) returns (next: Option<nat>)
      requires L.Valid(limiter.State()) && limiter.running > 0
      modifies this, limiter
      ensures limiter.State() == L.Done(old(limiter.State())) && next == L.DoneStarts(old(limiter.State()))
      ensures Value() == old(Value()).(stage := Spec.Creating)
    {
      next := limiter.Done();
      stage := Spec.Creating;
    }

    /** The job that the limiter runs. */
    method Download()
      modifies this
      ensures Value() == old(Value()).(stage := Spec.Downloading)
    {
      stage := Spec.Downloading;
    }

    method CreateFinished(ok: bool)
      modifies this
      ensures Value() == Done(old(Value()), if ok then Spec.Thumbnail else Spec.Error)
    {
      if !ok {
        SendError();
        return;
      }
      SendThumbnail();
    }

    method SendThumbnail()
      modifies this
      ensures Value() == Done(old(Value()), Spec.Thumbnail)
      ensures cancelFunc == old(cancelFunc)
    {
      replies := replies + [Spec.Thumbnail];
      emitted := emitted + 1;
      stage := Spec.Finished;
    }

    method SendError()
      modifies this
      ensures Value() == Done(old(Value()), Spec.Error)
      ensures cancelFunc == old(cancelFunc)
    {
      replies := replies + [Spec.Error];
      emitted := emitted + 1;
      stage := Spec.Finished;
    }

    /** The destructor: the queued download, if there is one, is cancelled. */
    method Destroy(limiter: Limiting.RateLimiter, inactivity: InactivityHandler)
      requires L.Valid(limiter.State()) && Limiting.Points(cancelFunc, id, limiter.list)
      requires inactivity.Valid() && inactivity.numActiveRequests > 0
      modifies if cancelFunc == null then {} else {cancelFunc}, inactivity
      ensures limiter.State() == L.Cancel(old(limiter.State()), id)
      ensures inactivity.Valid() && inactivity.numActiveRequests == old(inactivity.numActiveRequests) - 1
    {
      var ok := limiter.CallCancel(cancelFunc, id);
      inactivity.RequestCompleted();
    }
  }

  function Done(h: Spec.Handler, reply: Spec.Reply): Spec.Handler {
    h.(stage := Spec.Finished, replies := h.replies + [reply], emitted := h.emitted + 1)
  }

  /** The loop inside std::remove. */
  method Removed(chain: seq<nat>, id: nat) returns (kept: seq<nat>)
    ensures kept == K.Without(chain, id)
  {
    var i := 0;
    kept := [];
    while i < |chain|
      invariant 0 <= i <= |chain|
      invariant K.Without(chain, id) == kept + K.Without(chain[i..], id)
    {
      if chain[i] != id {
        kept := kept + [chain[i]];
      }
      assert chain[i..][1..] == chain[i + 1..];
      i := i + 1;
    }
  }

  /** src/service/dbusinterface.cpp: the table of requests and the chains. */
  class DBusInterface {
    var requests: set<nat>
    var requestKeys: map<string, seq<nat>>
    var links: map<nat, nat>            // Qt connections from finished() to the next begin()

    ghost predicate Holds(q: K.Queues)
      reads this
    {
      requests == q.requests && requestKeys == q.chains && links == q.links
    }

    constructor ()
      ensures Holds(K.NO_QUEUES)
    {
      requests, requestKeys, links := {}, map[], map[];
    }

    /**
      The handler joins its chain, and begins if it is the first. False is returned when it has
      finished and erased the chain by the time it is to be appended there.
     */
    method QueueRequest(handler: Handler, creds: Cache.CredentialsCache) returns (ok: bool)
      requires forall key :: key in requestKeys ==> requestKeys[key] != []
      modifies this, handler, creds
      ensures ok <==> !(K.At(old(requestKeys), handler.key) == []
                        && match C.Answer(old(creds.State()), handler.peer)
                           case None => false
                           case Some(c) => !c.valid || !old(handler.Value()).allows(c))
      ensures ok ==> forall q :: old(Holds(q)) ==> Holds(K.Arrive(q, handler.id, handler.key))
      ensures K.At(old(requestKeys), handler.key) == [] ==> creds.State() == C.Get(old(creds.State()), handler.peer, handler.id)
      ensures ok ==> handler.Value() == old(handler.Value()).(stage :=
                if K.At(old(requestKeys), handler.key) != [] then old(handler.Value()).stage
                else if C.Answer(old(creds.State()), handler.peer).Some? then Spec.Checking
                else Spec.AwaitingCredentials)
    {
      requests := requests + {handler.id};
      if handler.key !in requestKeys {
        requestKeys := requestKeys[handler.key := []];
      }
      var chain := requestKeys[handler.key];
      if |chain| == 0 {
        var answer := handler.Begin(creds);
        if answer.Some? {
          var finished := handler.GotCredentials(answer.value);
          if finished {
            RequestFinished(handler.id, handler.key);
          }
        }
      } else {
        links := links[chain[|chain| - 1] := handler.id];
      }
      ok := handler.key in requestKeys;
      if ok {
        requestKeys := requestKeys[handler.key := requestKeys[handler.key] + [handler.id]];
        assert requestKeys == old(requestKeys)[handler.key := K.At(old(requestKeys), handler.key) + [handler.id]];
      }
    }

    /** The slot of finished(): `erase(remove(...))`, and an empty chain is dropped. */
    method RequestFinished(id: nat, key: string)
      modifies this
      ensures forall q: K.Queues :: old(Holds(q)) && id in q.keys && q.keys[id] == key ==> Holds(K.Finish(q, id))
      ensures K.Without(K.At(old(requestKeys), key), id) == [] ==> key !in requestKeys
    {
      requests := requests - {id};
      var before := if key in requestKeys then requestKeys[key] else [];
      var kept := Removed(before, id);
      requestKeys := requestKeys[key := kept];
      if |kept| == 0 {
        requestKeys := requestKeys - {key};
        assert requestKeys == old(requestKeys) - {key};
      }
    }
  }
}
