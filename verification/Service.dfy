/**
  The service side: requests for the same key are chained (src/service/dbusinterface.cpp),
  every handler goes through its stages (src/service/handler.cpp), shares a credentials cache
  and a rate limiter with others, and is counted by the inactivity handler.

  Calls that Qt makes synchronously while another call is still running - begin() from a
  finished() signal, gotCredentials() from a reply - are kept in `calls`, innermost first, and
  are executed one at a time; other events are delivered only when no such call is left.
 */
module ServiceProtocol {
  import opened Common
  import C = CredentialsCaching
  import K = KeyChains
  import L = RateLimiting
  import P = DownloadPools
  import W = CredentialWaits

  datatype Stage = Waiting | AwaitingCredentials | Checking | Scheduled | Downloading | Creating | Finished

  datatype Reply = Thumbnail | Error

  datatype Pool = Downloads | Extractions

  datatype Handler = Handler(
    key: string,
    peer: nat,
    pool: Pool,
    allows: C.Credentials -> bool,  // check_client_credentials does not throw
    stage: Stage,
    replies: seq<Reply>,            // D-Bus replies sent
    emitted: nat)                   // emissions of finished()

  datatype Call = Begin(id: nat) | Got(id: nat, credentials: C.Credentials)

  datatype Service = Service(
    creds: C.Cache,
    limiters: map<Pool, L.Limiter>,
    handlers: map<nat, Handler>,    // handler objects that exist
    requests: set<nat>,             // requests_
    chains: map<string, seq<nat>>,  // request_keys_
    links: map<nat, nat>,           // finished() of one handler is connected to begin() of another
    calls: seq<Call>,
    active: int,                    // num_active_requests_
    admins: nat,                    // admin calls in progress
    ever: set<nat>,
    arrived: map<string, seq<nat>>, // handlers by key, in order of arrival
    departed: map<string, seq<nat>>) // handlers by key, in order of finishing

  datatype CheckResult = Failed | Found | NeedsDownload | NoArtwork

  datatype Action =
    | Request(id: nat, handler: Handler)
    | CredentialsReply(peer: nat, credentials: C.Credentials)
    | CheckDone(id: nat, result: CheckResult)
    | DownloadDone(id: nat)
    | CreateDone(id: nat, ok: bool)
    | Delete(id: nat)               // the event loop runs the destructor of a finished handler
    | AdminBegin
    | AdminEnd
    | RunCall                       // the innermost synchronous call is executed

  datatype Outcome = Next(service: Service) | Fault

  function NewService(maxDownloads: nat, maxExtractions: nat): Service {
    Service(C.EMPTY,
            map[Downloads := L.Limiter(maxDownloads, 0, []), Extractions := L.Limiter(maxExtractions, 0, [])],
            map[], {}, map[], map[], [], 0, 0, {}, map[], map[])
  }

  predicate InStage(s: Service, id: nat, stage: Stage) {
    id in s.handlers && s.handlers[id].stage == stage
  }

  /** What can happen next. A new handler is Waiting and has sent nothing. */
  predicate Enabled(s: Service, a: Action) {
    if a.RunCall? then s.calls != []
    else
      && s.calls == []
      && match a
         case Request(id, h) => id !in s.ever && h.stage == Waiting && h.replies == [] && h.emitted == 0
         case CredentialsReply(peer, _) => peer in s.creds.pending
         case CheckDone(id, _) => InStage(s, id, Checking)
         case DownloadDone(id) => InStage(s, id, Downloading)
         case CreateDone(id, _) => InStage(s, id, Creating)
         case Delete(id) => InStage(s, id, Finished)
         case AdminBegin => true
         case AdminEnd => s.admins > 0
  }

  function SetStage(s: Service, id: nat, stage: Stage): Service
    requires id in s.handlers
  {
    s.(handlers := s.handlers[id := s.handlers[id].(stage := stage)])
  }

  predicate Accepts(h: Handler, credentials: C.Credentials) {
    credentials.valid && h.allows(credentials)
  }

  /** Handler::begin. */
  function BeginHandler(s: Service, id: nat): Service
    requires id in s.handlers
  {
    var peer := s.handlers[id].peer;
    var s' := SetStage(s.(creds := C.Get(s.creds, peer, id)), id, AwaitingCredentials);
    match C.Answer(s.creds, peer)
    case None => s'
    case Some(c) => s'.(calls := [Got(id, c)] + s'.calls)
  }

  /** Handler::gotCredentials. */
  function GotCredentials(s: Service, id: nat, credentials: C.Credentials): Service
    requires id in s.handlers
  {
    if Accepts(s.handlers[id], credentials) then SetStage(s, id, Checking) else Finish(s, id, Error)
  }

  /** sendThumbnail or sendError, and DBusInterface::requestFinished, the first slot of finished(). */
  function Finish(s: Service, id: nat, reply: Reply): Service
    requires id in s.handlers
  {
    var h := s.handlers[id];
    var rest := K.Without(K.At(s.chains, h.key), id);
    s.(handlers := s.handlers[id := h.(stage := Finished, replies := h.replies + [reply], emitted := h.emitted + 1)],
       requests := s.requests - {id},
       chains := if rest == [] then s.chains - {h.key} else s.chains[h.key := rest],
       calls := if id in s.links && s.links[id] in s.handlers then [Begin(s.links[id])] + s.calls else s.calls,
       departed := s.departed[h.key := K.At(s.departed, h.key) + [id]])
  }

  /** DBusInterface::queueRequest; push_back comes last, on the chain that was looked up first. */
  function QueueRequest(s: Service, id: nat, h: Handler): Outcome {
    var s1 := s.(handlers := s.handlers[id := h], requests := s.requests + {id}, active := s.active + 1,
                 ever := s.ever + {id}, arrived := s.arrived[h.key := K.At(s.arrived, h.key) + [id]]);
    var chain := K.At(s.chains, h.key);
    if chain == [] then
      var s2 := BeginHandler(s1.(chains := s.chains[h.key := []]), id);
      var s3 := if s2.calls != [] && s2.calls[0].Got? then
                  GotCredentials(s2.(calls := s2.calls[1..]), id, s2.calls[0].credentials)
                else s2;
      if h.key in s3.chains then Next(s3.(chains := s3.chains[h.key := s3.chains[h.key] + [id]])) else Fault
    else
      Next(s1.(chains := s.chains[h.key := chain + [id]], links := s.links[chain[|chain| - 1] := id]))
  }

  function Gots(callbacks: seq<nat>, credentials: C.Credentials): seq<Call> {
    seq(|callbacks|, i requires 0 <= i < |callbacks| => Got(callbacks[i], credentials))
  }

  function Step(s: Service, a: Action): Outcome
    requires Enabled(s, a)
  {
    match a
    case Request(id, h) => QueueRequest(s, id, h)
    case CredentialsReply(peer, credentials) =>
      Next(s.(creds := C.Received(s.creds, peer, credentials),
              calls := Gots(s.creds.pending[peer], credentials)))
    case CheckDone(id, result) =>
      (match result
      case Found => Next(Finish(s, id, Thumbnail))
      case NeedsDownload => StartDownload(s, id)
      case _ => Next(Finish(s, id, Error)))
    case DownloadDone(id) => DownloadFinished(s, id)
    case CreateDone(id, ok) => Next(Finish(s, id, if ok then Thumbnail else Error))
    case Delete(id) =>
      if s.active <= 0 || s.handlers[id].pool !in s.limiters then Fault else Next(DeleteHandler(s, id))
    case AdminBegin => Next(s.(active := s.active + 1, admins := s.admins + 1))
    case AdminEnd => if s.active <= 0 then Fault else Next(s.(active := s.active - 1, admins := s.admins - 1))
    case RunCall => RunNext(s)
  }

  /** The destructor of a handler. */
  function DeleteHandler(s: Service, id: nat): Service
    requires id in s.handlers && s.handlers[id].pool in s.limiters
  {
    var pool := s.handlers[id].pool;
    s.(handlers := s.handlers - {id}, active := s.active - 1,
       limiters := s.limiters[pool := L.Cancel(s.limiters[pool], id)])
  }

  function RunNext(s: Service): Outcome
    requires s.calls != []
  {
    var s' := s.(calls := s.calls[1..]);
    if s.calls[0].id !in s.handlers then Fault
    else
      match s.calls[0]
      case Begin(id) => Next(BeginHandler(s', id))
      case Got(id, credentials) => Next(GotCredentials(s', id, credentials))
  }

  /** The end of Handler::checkFinished: the download is scheduled with the handler's limiter. */
  function StartDownload(s: Service, id: nat): Outcome
    requires id in s.handlers
  {
    var pool := s.handlers[id].pool;
    if pool !in s.limiters then Fault
    else
      var l := s.limiters[pool];
      Next(SetStage(s, id, if L.StartsNow(l) then Downloading else Scheduled)
           .(limiters := s.limiters[pool := L.Schedule(l, id)]))
  }

  /** Handler::downloadFinished; done() may start the download of another handler. */
  function DownloadFinished(s: Service, id: nat): Outcome
    requires id in s.handlers
  {
    var pool := s.handlers[id].pool;
    if pool !in s.limiters || s.limiters[pool].running == 0 then Fault
    else
      var l := s.limiters[pool];
      var s1 := SetStage(s, id, Creating).(limiters := s.limiters[pool := L.Done(l)]);
      match L.DoneStarts(l)
      case None => Next(s1)
      case Some(next) => if next !in s.handlers then Fault else Next(SetStage(s1, next, Downloading))
  }

  // ---- The parts of the state, as the modules about them see it ----

  function PhaseOf(stage: Stage): K.Phase {
    match stage
    case Waiting => K.NotBegun
    case Finished => K.Over
    case _ => K.AtWork
  }

  function Due(calls: seq<Call>): Option<nat> {
    if calls != [] && calls[0].Begin? then Some(calls[0].id) else None
  }

  function Answered(calls: seq<Call>): seq<nat> {
    if calls == [] then [] else (if calls[0].Got? then [calls[0].id] else []) + Answered(calls[1..])
  }

  function KeysOf(m: map<nat, Handler>): map<nat, string> {
    map id | id in m :: m[id].key
  }

  function PhasesOf(m: map<nat, Handler>): map<nat, K.Phase> {
    map id | id in m :: PhaseOf(m[id].stage)
  }

  function ChainView(s: Service): K.Queues {
    K.Queues(KeysOf(s.handlers), PhasesOf(s.handlers),
             s.requests, s.chains, s.links, Due(s.calls), s.ever, s.arrived, s.departed)
  }

  function WaitView(s: Service): W.Waits {
    W.Waits(map id | id in s.handlers && s.handlers[id].stage == AwaitingCredentials :: s.handlers[id].peer,
            s.creds.pending, Answered(s.calls))
  }

  predicate Uses(s: Service, id: nat, pool: Pool, stage: Stage) {
    InStage(s, id, stage) && s.handlers[id].pool == pool
  }

  function PoolView(s: Service, pool: Pool): P.Pool
    requires pool in s.limiters
  {
    P.Pool(s.limiters[pool],
           set id | id in s.handlers && Uses(s, id, pool, Scheduled),
           set id | id in s.handlers && Uses(s, id, pool, Downloading))
  }

  // ---- The invariant ----

  predicate RepliedOnce(h: Handler) {
    |h.replies| == h.emitted == if h.stage == Finished then 1 else 0
  }

  ghost predicate CountsOk(s: Service) {
    && s.active == |s.handlers.Keys| + s.admins
    && (forall id :: id in s.handlers ==> RepliedOnce(s.handlers[id]))
  }

  ghost predicate CallsOk(s: Service) {
    forall i :: 1 <= i < |s.calls| ==> s.calls[i].Got?
  }

  ghost predicate PoolsOk(s: Service) {
    forall pool: Pool :: pool in s.limiters && P.Ok(PoolView(s, pool))
  }

  ghost predicate Inv(s: Service) {
    K.Ok(ChainView(s)) && W.Ok(WaitView(s)) && PoolsOk(s) && CountsOk(s) && CallsOk(s)
  }

  /** The one thing that goes wrong: queueRequest calls begin() and the handler finishes inside the call. */
  predicate FinishesAtOnce(s: Service, a: Action) {
    && a.Request?
    && K.At(s.chains, a.handler.key) == []
    && match C.Answer(s.creds, a.handler.peer)
       case None => false
       case Some(c) => !c.valid || !a.handler.allows(c)
  }

  // ---- Frames ----

  /** As seen by the chains, a handler only waits, works or is over. */
  lemma ChainFrame(s: Service, s': Service)
    requires s'.handlers.Keys == s.handlers.Keys
    requires forall id :: id in s.handlers ==>
               s'.handlers[id].key == s.handlers[id].key && PhaseOf(s'.handlers[id].stage) == PhaseOf(s.handlers[id].stage)
    requires s'.requests == s.requests && s'.chains == s.chains && s'.links == s.links && s'.ever == s.ever
    requires s'.arrived == s.arrived && s'.departed == s.departed && Due(s'.calls) == Due(s.calls)
    ensures ChainView(s') == ChainView(s)
  {
  }

  lemma WaitFrame(s: Service, s': Service)
    requires forall id :: InStage(s', id, AwaitingCredentials) <==> InStage(s, id, AwaitingCredentials)
    requires forall id :: InStage(s, id, AwaitingCredentials) && id in s'.handlers ==> s'.handlers[id].peer == s.handlers[id].peer
    requires s'.creds.pending == s.creds.pending && Answered(s'.calls) == Answered(s.calls)
    ensures WaitView(s') == WaitView(s)
  {
    var p, p' := WaitView(s).peers, WaitView(s').peers;
    forall id
      ensures (id in p <==> id in p') && (id in p ==> p[id] == p'[id])
    {
      assert InStage(s', id, AwaitingCredentials) <==> InStage(s, id, AwaitingCredentials);
    }
  }

  lemma PoolFrame(s: Service, s': Service)
    requires PoolsOk(s) && s'.limiters == s.limiters
    requires forall id, pool :: Uses(s', id, pool, Scheduled) <==> Uses(s, id, pool, Scheduled)
    requires forall id, pool :: Uses(s', id, pool, Downloading) <==> Uses(s, id, pool, Downloading)
    ensures PoolsOk(s')
  {
    forall pool: Pool
      ensures pool in s'.limiters && P.Ok(PoolView(s', pool))
    {
      assert pool in s.limiters && P.Ok(PoolView(s, pool));
      assert PoolView(s', pool).scheduled == PoolView(s, pool).scheduled;
      assert PoolView(s', pool).downloading == PoolView(s, pool).downloading;
    }
  }

  lemma AnsweredTail(calls: seq<Call>)
    requires calls != []
    ensures calls[0].Begin? ==> Answered(calls[1..]) == Answered(calls)
    ensures calls[0].Got? ==>
              Answered(calls) != [] && Answered(calls)[0] == calls[0].id && Answered(calls[1..]) == Answered(calls)[1..]
  {
  }

  lemma AnsweredCons(c: Call, calls: seq<Call>)
    ensures Answered([c] + calls) == (if c.Got? then [c.id] else []) + Answered(calls)
  {
    assert ([c] + calls)[1..] == calls;
  }

  lemma {:induction false} AnsweredGots(callbacks: seq<nat>, credentials: C.Credentials)
    ensures Answered(Gots(callbacks, credentials)) == callbacks
  {
    if callbacks != [] {
      AnsweredGots(callbacks[1..], credentials);
      assert Gots(callbacks, credentials)[1..] == Gots(callbacks[1..], credentials);
    }
  }

  lemma OneHandlerView(m: map<nat, Handler>, m': map<nat, Handler>, id: nat)
    requires id in m && id in m' && m' == m[id := m'[id]] && m'[id].key == m[id].key
    ensures KeysOf(m') == KeysOf(m)
    ensures PhasesOf(m') == PhasesOf(m)[id := PhaseOf(m'[id].stage)]
  {
  }

  // ---- Finishing ----

  /** A handler that has begun is a current request, the first of its chain. */
  lemma WorkerIsRequest(s: Service, id: nat)
    requires K.Ok(ChainView(s)) && id in s.handlers && PhaseOf(s.handlers[id].stage) == K.AtWork
    ensures id in s.requests && id in s.ever
  {
    assert K.HandlerOk(ChainView(s), id);
  }

  lemma FinishChains(s: Service, id: nat, reply: Reply)
    requires K.Ok(ChainView(s)) && id in s.handlers && PhaseOf(s.handlers[id].stage) == K.AtWork && Due(s.calls).None?
    ensures K.Ok(ChainView(Finish(s, id, reply)))
  {
    WorkerIsRequest(s, id);
    hide K.Ok;
    FinishView(s, id, reply);
    K.FinishKeepsOk(ChainView(s), id);
  }

  lemma FinishView(s: Service, id: nat, reply: Reply)
    requires id in s.handlers && Due(s.calls).None?
    ensures ChainView(Finish(s, id, reply)) == K.Finish(ChainView(s), id)
  {
    assert s.handlers[id].key == ChainView(s).keys[id];
    hide K.Without, PhasesOf, KeysOf;
    OneHandlerView(s.handlers, Finish(s, id, reply).handlers, id);
  }

  lemma FinishRest(s: Service, id: nat, reply: Reply)
    requires PoolsOk(s) && CountsOk(s) && CallsOk(s) && Due(s.calls).None?
    requires id in s.handlers && PhaseOf(s.handlers[id].stage) == K.AtWork
    requires s.handlers[id].stage != Scheduled && s.handlers[id].stage != Downloading
    ensures var s' := Finish(s, id, reply); PoolsOk(s') && CountsOk(s') && CallsOk(s')
  {
    var s' := Finish(s, id, reply);
    PoolFrame(s, s');
    assert s'.handlers.Keys == s.handlers.Keys;
    assert RepliedOnce(s.handlers[id]);
  }

  lemma FinishAnswered(s: Service, id: nat, reply: Reply)
    requires id in s.handlers
    ensures Answered(Finish(s, id, reply).calls) == Answered(s.calls)
  {
    if id in s.links {
      AnsweredCons(Begin(s.links[id]), s.calls);
    }
  }

  lemma FinishKeepsInv(s: Service, id: nat, reply: Reply)
    requires Inv(s) && (InStage(s, id, Checking) || InStage(s, id, Creating)) && Due(s.calls).None?
    ensures Inv(Finish(s, id, reply))
  {
    FinishChains(s, id, reply);
    FinishRest(s, id, reply);
    FinishWaits(s, id, reply);
    hide Finish, K.Ok, W.Ok, PoolsOk, CountsOk, CallsOk;
  }

  lemma FinishWaits(s: Service, id: nat, reply: Reply)
    requires id in s.handlers && s.handlers[id].stage != AwaitingCredentials
    ensures WaitView(Finish(s, id, reply)) == WaitView(s)
  {
    hide K.Without;
    FinishAnswered(s, id, reply);
    WaitFrame(s, Finish(s, id, reply));
  }

  // ---- Beginning ----

  /** What begin() changes: the handler's stage, the cache and, if that answers, the calls. */
  ghost predicate Begun(s: Service, s': Service, id: nat) {
    && id in s.handlers
    && s'.handlers == s.handlers[id := s.handlers[id].(stage := AwaitingCredentials)]
    && s'.creds == C.Get(s.creds, s.handlers[id].peer, id)
    && s'.calls == (match C.Answer(s.creds, s.handlers[id].peer)
                    case None => s.calls
                    case Some(c) => [Got(id, c)] + s.calls)
    && SameElse(s, s')
  }

  /** Handlers, calls, cache and limiters aside, nothing differs. */
  ghost predicate SameElse(s: Service, s': Service) {
    && s'.requests == s.requests && s'.chains == s.chains && s'.links == s.links && s'.ever == s.ever
    && s'.arrived == s.arrived && s'.departed == s.departed
    && s'.active == s.active && s'.admins == s.admins && s'.limiters == s.limiters
  }

  lemma BegunBy(s: Service, id: nat)
    requires id in s.handlers
    ensures Begun(s, BeginHandler(s, id), id)
  {
  }

  lemma BeginView(s: Service, s0: Service, s': Service, id: nat)
    requires InStage(s, id, Waiting) && s.calls != [] && s.calls[0] == Begin(id) && CallsOk(s)
    requires s0 == s.(calls := s.calls[1..]) && Begun(s0, s', id)
    ensures ChainView(s') == K.BeginDue(ChainView(s))
  {
    hide PhasesOf, KeysOf;
    OneHandlerView(s.handlers, s'.handlers, id);
    assert Due(s'.calls).None?;
  }

  lemma GetView(c: C.Cache, peer: nat, id: nat)
    ensures C.Answer(c, peer).Some? ==> C.Get(c, peer, id).pending == c.pending
    ensures C.Answer(c, peer).None? ==>
              C.Get(c, peer, id).pending == c.pending[peer := (if peer in c.pending then c.pending[peer] else []) + [id]]
  {
    assert [id] == [] + [id];
  }

  lemma BeginWaits(s: Service, s': Service, id: nat)
    requires InStage(s, id, Waiting) && W.Ok(WaitView(s)) && Begun(s, s', id)
    ensures W.Ok(WaitView(s'))
  {
    var w, w', peer := WaitView(s), WaitView(s'), s.handlers[id].peer;
    hide W.Ok;
    GetView(s.creds, peer, id);
    BeginPeers(s, s', id);
    if C.Answer(s.creds, peer).Some? {
      AnsweredCons(Got(id, C.Answer(s.creds, peer).value), s.calls);
      assert w' == W.Hit(w, id, peer);
      W.HitKeepsOk(w, id, peer);
    } else {
      assert w' == W.Ask(w, id, peer);
      W.AskKeepsOk(w, id, peer);
    }
  }

  lemma BeginPeers(s: Service, s': Service, id: nat)
    requires InStage(s, id, Waiting)
    requires s'.handlers == s.handlers[id := s.handlers[id].(stage := AwaitingCredentials)]
    ensures id !in WaitView(s).peers
    ensures WaitView(s').peers == WaitView(s).peers[id := s.handlers[id].peer]
  {
  }

  lemma BeginRest(s: Service, s': Service, id: nat)
    requires InStage(s, id, Waiting) && PoolsOk(s) && CountsOk(s) && (forall i :: 0 <= i < |s.calls| ==> s.calls[i].Got?)
    requires Begun(s, s', id)
    ensures PoolsOk(s') && CountsOk(s') && CallsOk(s')
  {
    PoolFrame(s, s');
    hide PoolsOk;
    assert s'.handlers.Keys == s.handlers.Keys;
    assert RepliedOnce(s.handlers[id]);
  }

  lemma DueIsWaiting(s: Service)
    requires K.Ok(ChainView(s)) && s.calls != [] && s.calls[0].Begin?
    ensures InStage(s, s.calls[0].id, Waiting)
    ensures K.Ok(K.BeginDue(ChainView(s)))
  {
    K.DueIsFirst(ChainView(s));
    assert K.IsIn(ChainView(s), s.calls[0].id, K.NotBegun);
    K.BeginKeepsOk(ChainView(s));
  }

  lemma BeginStep(s: Service)
    requires Inv(s) && s.calls != [] && s.calls[0].Begin?
    ensures RunNext(s).Next? && Inv(RunNext(s).service)
  {
    var id, s0 := s.calls[0].id, s.(calls := s.calls[1..]);
    DueIsWaiting(s);
    hide K.Ok, W.Ok, CountsOk, PoolsOk;
    var s' := BeginHandler(s0, id);
    assert RunNext(s) == Next(s');
    BegunBy(s0, id);
    AfterBegin(s, s0, s', id);
  }

  lemma AfterBegin(s: Service, s0: Service, s': Service, id: nat)
    requires Inv(s) && s.calls != [] && s.calls[0] == Begin(id) && InStage(s, id, Waiting)
    requires K.Ok(K.BeginDue(ChainView(s)))
    requires s0 == s.(calls := s.calls[1..]) && Begun(s0, s', id)
    ensures Inv(s')
  {
    hide K.Ok, W.Ok, PoolsOk, CountsOk;
    PoppedBegin(s, s0);
    BeginView(s, s0, s', id);
    hide Begun;
    BeginWaits(s0, s', id);
    BeginRest(s0, s', id);
  }

  lemma PoppedBegin(s: Service, s0: Service)
    requires PoolsOk(s) && CountsOk(s) && s.calls != [] && s.calls[0].Begin? && s0 == s.(calls := s.calls[1..])
    ensures WaitView(s0) == WaitView(s) && PoolsOk(s0) && CountsOk(s0)
  {
    AnsweredTail(s.calls);
    PoolFrame(s, s0);
  }

  // ---- Credentials arriving ----

  lemma GotStep(s: Service)
    requires Inv(s) && s.calls != [] && s.calls[0].Got?
    ensures RunNext(s).Next? && Inv(RunNext(s).service)
  {
    var id, cr, s0 := s.calls[0].id, s.calls[0].credentials, s.(calls := s.calls[1..]);
    GotIsAwaiting(s);
    hide K.Ok, W.Ok, CountsOk, PoolsOk, Inv;
    assert RunNext(s) == Next(GotCredentials(s0, id, cr));
    hide RunNext, K.Without;
    if Accepts(s.handlers[id], cr) {
      GotAccepted(s, id);
    } else {
      GotRefused(s, id);
    }
  }

  lemma GotIsAwaiting(s: Service)
    requires W.Ok(WaitView(s)) && s.calls != [] && s.calls[0].Got?
    ensures InStage(s, s.calls[0].id, AwaitingCredentials)
    ensures W.Ok(W.Release(WaitView(s)))
  {
    AnsweredTail(s.calls);
    assert WaitView(s).answered[0] in WaitView(s).peers;
    W.ReleaseKeepsOk(WaitView(s));
  }

  /** Once a callback has run, its handler no longer waits. */
  lemma ReleasedView(s: Service, s': Service, id: nat)
    requires s.calls != [] && s.calls[0].Got? && s.calls[0].id == id && s'.creds == s.creds
    requires Answered(s'.calls) == Answered(s.calls[1..])
    requires id in s'.handlers && s'.handlers[id].stage != AwaitingCredentials
    requires s'.handlers == s.handlers[id := s'.handlers[id]]
    ensures Answered(s.calls) != [] && WaitView(s') == W.Release(WaitView(s))
  {
    AnsweredTail(s.calls);
    assert WaitView(s').peers == WaitView(s).peers - {id};
  }

  lemma GotAccepted(s: Service, id: nat)
    requires Inv(s) && s.calls != [] && s.calls[0].Got? && s.calls[0].id == id
    requires InStage(s, id, AwaitingCredentials) && W.Ok(W.Release(WaitView(s)))
    ensures Inv(SetStage(s.(calls := s.calls[1..]), id, Checking))
  {
    AfterAccepting(s, SetStage(s.(calls := s.calls[1..]), id, Checking), id);
  }

  lemma AfterAccepting(s: Service, s': Service, id: nat)
    requires Inv(s) && s.calls != [] && s.calls[0].Got? && s.calls[0].id == id && s'.calls == s.calls[1..]
    requires InStage(s, id, AwaitingCredentials) && W.Ok(W.Release(WaitView(s)))
    requires s'.handlers == s.handlers[id := s.handlers[id].(stage := Checking)] && s'.creds == s.creds && SameElse(s, s')
    ensures Inv(s')
  {
    hide K.Ok, W.Ok, PoolsOk, CountsOk;
    ChainFrame(s, s');
    ReleasedView(s, s', id);
    AcceptedRest(s, s', id);
  }

  lemma AcceptedRest(s: Service, s': Service, id: nat)
    requires PoolsOk(s) && CountsOk(s) && InStage(s, id, AwaitingCredentials)
    requires s'.handlers == s.handlers[id := s.handlers[id].(stage := Checking)]
    requires s'.limiters == s.limiters && s'.active == s.active && s'.admins == s.admins
    ensures PoolsOk(s') && CountsOk(s')
  {
    PoolFrame(s, s');
    hide PoolsOk;
    assert s'.handlers.Keys == s.handlers.Keys;
    assert RepliedOnce(s.handlers[id]);
  }

  lemma GotRefused(s: Service, id: nat)
    requires Inv(s) && s.calls != [] && s.calls[0].Got? && s.calls[0].id == id
    requires InStage(s, id, AwaitingCredentials) && W.Ok(W.Release(WaitView(s)))
    ensures Inv(Finish(s.(calls := s.calls[1..]), id, Error))
  {
    var s0 := s.(calls := s.calls[1..]);
    Popped(s, s0);
    hide K.Ok, W.Ok, CountsOk, PoolsOk;
    FinishChains(s0, id, Error);
    FinishRest(s0, id, Error);
    RefusedWaits(s, s0, id);
    hide Finish;
  }

  lemma Popped(s: Service, s0: Service)
    requires Inv(s) && s.calls != [] && s.calls[0].Got? && s0 == s.(calls := s.calls[1..])
    ensures K.Ok(ChainView(s0)) && PoolsOk(s0) && CountsOk(s0) && CallsOk(s0) && Due(s0.calls).None?
  {
    hide K.Ok, W.Ok;
    ChainFrame(s, s0);
    PoolFrame(s, s0);
  }

  lemma RefusedWaits(s: Service, s0: Service, id: nat)
    requires s.calls != [] && s.calls[0].Got? && s.calls[0].id == id && id in s.handlers
    requires s0 == s.(calls := s.calls[1..])
    ensures Answered(s.calls) != [] && WaitView(Finish(s0, id, Error)) == W.Release(WaitView(s))
  {
    FinishAnswered(s0, id, Error);
    hide K.Without;
    ReleasedView(s, Finish(s0, id, Error), id);
  }

  lemma CredentialsReplyStep(s: Service, peer: nat, credentials: C.Credentials)
    requires Inv(s) && Enabled(s, CredentialsReply(peer, credentials))
    ensures Inv(Step(s, CredentialsReply(peer, credentials)).service)
  {
    var s' := Step(s, CredentialsReply(peer, credentials)).service;
    hide K.Ok, W.Ok;
    AnsweredGots(s.creds.pending[peer], credentials);
    W.ReplyKeepsOk(WaitView(s), peer);
    assert WaitView(s').peers == WaitView(s).peers;
    assert WaitView(s') == W.Reply(WaitView(s), peer);
    ChainFrame(s, s');
    PoolFrame(s, s');
  }

  // ---- Downloading ----

  /** A handler moves between two stages of work, and the limiters with it. */
  ghost predicate Moved(s: Service, s': Service, id: nat) {
    && id in s.handlers && id in s'.handlers
    && s'.handlers == s.handlers[id := s.handlers[id].(stage := s'.handlers[id].stage)]
    && PhaseOf(s.handlers[id].stage) == K.AtWork && PhaseOf(s'.handlers[id].stage) == K.AtWork
    && s.handlers[id].stage != AwaitingCredentials && s'.handlers[id].stage != AwaitingCredentials
    && SameElse(s.(limiters := s'.limiters), s') && s'.creds == s.creds && s'.calls == s.calls
  }

  lemma MovedKeeps(s: Service, s': Service, id: nat)
    requires K.Ok(ChainView(s)) && W.Ok(WaitView(s)) && CountsOk(s) && CallsOk(s) && Moved(s, s', id)
    ensures K.Ok(ChainView(s')) && W.Ok(WaitView(s')) && CountsOk(s') && CallsOk(s')
  {
    hide K.Ok, W.Ok;
    ChainFrame(s, s');
    WaitFrame(s, s');
    assert s'.handlers.Keys == s.handlers.Keys;
    assert RepliedOnce(s.handlers[id]);
  }

  /** A pool none of whose handlers starts or ends a download is as before. */
  lemma OnePoolFrame(s: Service, s': Service, pool: Pool)
    requires pool in s.limiters && pool in s'.limiters && s'.limiters[pool] == s.limiters[pool]
    requires forall id :: Uses(s', id, pool, Scheduled) <==> Uses(s, id, pool, Scheduled)
    requires forall id :: Uses(s', id, pool, Downloading) <==> Uses(s, id, pool, Downloading)
    ensures PoolView(s', pool) == PoolView(s, pool)
  {
    assert PoolView(s', pool).scheduled == PoolView(s, pool).scheduled;
    assert PoolView(s', pool).downloading == PoolView(s, pool).downloading;
  }

  lemma OnePool(s: Service, pool: Pool)
    requires PoolsOk(s)
    ensures pool in s.limiters && P.Ok(PoolView(s, pool))
  {
  }

  ghost predicate DownloadStarted(s: Service, s': Service, id: nat) {
    && Moved(s, s', id) && s.handlers[id].stage == Checking
    && var pool := s.handlers[id].pool;
       && pool in s.limiters
       && s'.limiters == s.limiters[pool := L.Schedule(s.limiters[pool], id)]
       && s'.handlers[id].stage == if L.StartsNow(s.limiters[pool]) then Downloading else Scheduled
  }

  lemma StartedBy(s: Service, id: nat)
    requires InStage(s, id, Checking) && s.handlers[id].pool in s.limiters
    ensures StartDownload(s, id).Next? && DownloadStarted(s, StartDownload(s, id).service, id)
  {
    hide L.Schedule;
  }

  lemma StartStep(s: Service, id: nat)
    requires Inv(s) && InStage(s, id, Checking)
    ensures StartDownload(s, id).Next? && Inv(StartDownload(s, id).service)
  {
    hide K.Ok, W.Ok, CountsOk, PoolsOk, CallsOk;
    OnePool(s, s.handlers[id].pool);
    StartedBy(s, id);
    AfterStart(s, StartDownload(s, id).service, id);
  }

  lemma AfterStart(s: Service, s': Service, id: nat)
    requires Inv(s) && DownloadStarted(s, s', id)
    ensures Inv(s')
  {
    hide K.Ok, W.Ok, CountsOk, PoolsOk, CallsOk;
    MovedKeeps(s, s', id);
    forall p: Pool
      ensures p in s'.limiters && P.Ok(PoolView(s', p))
    {
      StartedPool(s, s', id, p);
    }
    assert PoolsOk(s') by {
      PoolsAre(s');
    }
  }

  lemma PoolsAre(s: Service)
    requires forall pool: Pool :: pool in s.limiters && P.Ok(PoolView(s, pool))
    ensures PoolsOk(s)
  {
  }

  lemma StartedPool(s: Service, s': Service, id: nat, pool: Pool)
    requires PoolsOk(s) && DownloadStarted(s, s', id)
    ensures pool in s'.limiters && P.Ok(PoolView(s', pool))
  {
    OnePool(s, pool);
    hide PoolsOk, P.Ok;
    if pool == s.handlers[id].pool {
      P.StartKeepsOk(PoolView(s, pool), id);
      SamePoolStarted(s, s', id);
    } else {
      hide L.Schedule;
      OnePoolFrame(s, s', pool);
    }
  }

  lemma SamePoolStarted(s: Service, s': Service, id: nat)
    requires DownloadStarted(s, s', id)
    ensures var pool := s.handlers[id].pool; pool in s'.limiters && PoolView(s', pool) == P.Start(PoolView(s, pool), id)
  {
    hide L.Schedule;
    var pool := s.handlers[id].pool;
    var p, p' := PoolView(s, pool), PoolView(s', pool);
    var now := L.StartsNow(p.limiter);
    assert p'.scheduled == if now then p.scheduled else p.scheduled + {id};
    assert p'.downloading == if now then p.downloading + {id} else p.downloading;
  }

  /** downloadFinished of `id`: it goes on to create, and another handler may start. */
  ghost predicate DownloadEnded(s: Service, s1: Service, s': Service, id: nat) {
    && Moved(s, s1, id) && s.handlers[id].stage == Downloading && s1.handlers[id].stage == Creating
    && var pool := s.handlers[id].pool;
       && pool in s.limiters && s.limiters[pool].running > 0
       && s1.limiters == s.limiters[pool := L.Done(s.limiters[pool])]
       && match L.DoneStarts(s.limiters[pool])
          case None => s' == s1
          case Some(next) =>
            && Uses(s, next, pool, Scheduled) && Moved(s1, s', next)
            && s'.limiters == s1.limiters && s'.handlers[next].stage == Downloading
  }

  lemma EndedBy(s: Service, id: nat)
    requires InStage(s, id, Downloading) && s.handlers[id].pool in s.limiters
    requires var l := s.limiters[s.handlers[id].pool];
             l.running > 0 && (L.DoneStarts(l).Some? ==> Uses(s, L.DoneStarts(l).value, s.handlers[id].pool, Scheduled))
    ensures DownloadFinished(s, id).Next?
    ensures DownloadEnded(s, SetStage(s, id, Creating)
                             .(limiters := s.limiters[s.handlers[id].pool := L.Done(s.limiters[s.handlers[id].pool])]),
                          DownloadFinished(s, id).service, id)
  {
    hide L.Done, L.DoneStarts;
  }

  lemma NextIsScheduled(s: Service, id: nat)
    requires InStage(s, id, Downloading) && PoolsOk(s)
    ensures s.handlers[id].pool in s.limiters
    ensures var l := s.limiters[s.handlers[id].pool];
            l.running > 0 && (L.DoneStarts(l).Some? ==> Uses(s, L.DoneStarts(l).value, s.handlers[id].pool, Scheduled))
  {
    OnePool(s, s.handlers[id].pool);
    hide P.Ok, PoolsOk;
    P.CompleteKeepsOk(PoolView(s, s.handlers[id].pool), id);
  }

  lemma DownloadStep(s: Service, id: nat)
    requires Inv(s) && InStage(s, id, Downloading)
    ensures DownloadFinished(s, id).Next? && Inv(DownloadFinished(s, id).service)
  {
    hide K.Ok, W.Ok, CountsOk, PoolsOk, CallsOk, P.Ok;
    NextIsScheduled(s, id);
    EndedBy(s, id);
    hide DownloadFinished, DownloadEnded, L.Done;
    AfterEnd(s, SetStage(s, id, Creating)
                .(limiters := s.limiters[s.handlers[id].pool := L.Done(s.limiters[s.handlers[id].pool])]),
             DownloadFinished(s, id).service, id);
  }

  lemma AfterEnd(s: Service, s1: Service, s': Service, id: nat)
    requires Inv(s) && DownloadEnded(s, s1, s', id)
    ensures Inv(s')
  {
    hide K.Ok, W.Ok, CountsOk, PoolsOk, CallsOk, L.DoneStarts, L.Done;
    MovedKeeps(s, s1, id);
    if L.DoneStarts(s.limiters[s.handlers[id].pool]).Some? {
      MovedKeeps(s1, s', L.DoneStarts(s.limiters[s.handlers[id].pool]).value);
    }
    hide Moved;
    forall p: Pool
      ensures p in s'.limiters && P.Ok(PoolView(s', p))
    {
      EndedPool(s, s1, s', id, p);
    }
    assert PoolsOk(s') by {
      PoolsAre(s');
    }
  }

  lemma EndedPool(s: Service, s1: Service, s': Service, id: nat, pool: Pool)
    requires PoolsOk(s) && DownloadEnded(s, s1, s', id)
    ensures pool in s'.limiters && P.Ok(PoolView(s', pool))
  {
    hide PoolsOk, P.Ok, DownloadEnded;
    OnePool(s, pool);
    if pool == EndedIn(s, s1, s', id) {
      SamePoolEnded(s, s1, s', id);
      DownloaderIsCounted(s, s1, s', id);
      P.CompleteKeepsOk(PoolView(s, pool), id);
    } else {
      OtherPoolEnded(s, s1, s', id, pool);
    }
  }

  ghost function EndedIn(s: Service, s1: Service, s': Service, id: nat): Pool
    requires DownloadEnded(s, s1, s', id)
  {
    s.handlers[id].pool
  }

  lemma DownloaderIsCounted(s: Service, s1: Service, s': Service, id: nat)
    requires DownloadEnded(s, s1, s', id)
    ensures id in PoolView(s, EndedIn(s, s1, s', id)).downloading
  {
    hide L.Done, L.DoneStarts;
  }

  lemma OtherPoolEnded(s: Service, s1: Service, s': Service, id: nat, pool: Pool)
    requires DownloadEnded(s, s1, s', id) && pool != EndedIn(s, s1, s', id) && pool in s.limiters
    ensures pool in s'.limiters && PoolView(s', pool) == PoolView(s, pool)
  {
    hide L.Done, L.DoneStarts;
    OnePoolFrame(s, s', pool);
  }

  lemma SamePoolEnded(s: Service, s1: Service, s': Service, id: nat)
    requires DownloadEnded(s, s1, s', id)
    ensures var pool := EndedIn(s, s1, s', id);
            && pool in s.limiters && s.limiters[pool].running > 0 && pool in s'.limiters
            && PoolView(s', pool) == P.Complete(PoolView(s, pool), id)
  {
    hide L.Done, L.DoneStarts;
    var pool := s.handlers[id].pool;
    var p, p' := PoolView(s, pool), PoolView(s', pool);
    var next := L.DoneStarts(p.limiter);
    assert p'.scheduled == if next.Some? then p.scheduled - {next.value} else p.scheduled;
    assert p'.downloading == if next.Some? then p.downloading - {id} + {next.value} else p.downloading - {id};
  }

  // ---- Deletion and admin calls ----

  lemma DeleteStep(s: Service, id: nat)
    requires Inv(s) && InStage(s, id, Finished) && s.calls == []
    ensures s.active > 0 && s.handlers[id].pool in s.limiters && Inv(DeleteHandler(s, id))
  {
    hide K.Ok, W.Ok, PoolsOk;
    CancelsNothing(s, id);
    AfterDelete(s, DeleteHandler(s, id), id);
  }

  /** A finished handler is not in its limiter's queue. */
  lemma CancelsNothing(s: Service, id: nat)
    requires PoolsOk(s) && InStage(s, id, Finished)
    ensures s.handlers[id].pool in s.limiters && DeleteHandler(s, id).limiters == s.limiters
  {
    var pool := s.handlers[id].pool;
    OnePool(s, pool);
    hide PoolsOk;
    P.CancelAbsent(s.limiters[pool].queue, id);
  }

  lemma AfterDelete(s: Service, s': Service, id: nat)
    requires Inv(s) && InStage(s, id, Finished) && s.calls == []
    requires s' == s.(handlers := s.handlers - {id}, active := s.active - 1)
    ensures s.active > 0 && Inv(s')
  {
    hide K.Ok, W.Ok, PoolsOk, CountsOk;
    DeletedView(s, s', id);
    DeletedRest(s, s', id);
    DeletedCounts(s, s', id);
  }

  lemma DeletedRest(s: Service, s': Service, id: nat)
    requires PoolsOk(s) && InStage(s, id, Finished)
    requires s'.handlers == s.handlers - {id} && s'.calls == s.calls && s'.creds == s.creds && s'.limiters == s.limiters
    ensures PoolsOk(s') && WaitView(s') == WaitView(s)
  {
    hide PoolsOk;
    WaitFrame(s, s');
    PoolFrame(s, s');
  }

  lemma DeletedCounts(s: Service, s': Service, id: nat)
    requires CountsOk(s) && id in s.handlers
    requires s'.handlers == s.handlers - {id} && s'.active == s.active - 1 && s'.admins == s.admins
    ensures s.active > 0 && CountsOk(s')
  {
    assert s'.handlers.Keys == s.handlers.Keys - {id};
    assert |s'.handlers.Keys| == |s.handlers.Keys| - 1;
  }

  lemma DeletedView(s: Service, s': Service, id: nat)
    requires K.Ok(ChainView(s)) && InStage(s, id, Finished) && s.calls == [] == s'.calls
    requires s'.handlers == s.handlers - {id} && SameElse(s, s'.(active := s.active))
    ensures K.Ok(ChainView(s'))
  {
    hide K.Ok;
    K.DeleteKeepsOk(ChainView(s), id);
    assert ChainView(s').keys == ChainView(s).keys - {id};
    assert ChainView(s').phases == ChainView(s).phases - {id};
  }

  lemma AdminStep(s: Service, s': Service)
    requires Inv(s) && s'.active - s'.admins == s.active - s.admins
    requires s' == s.(active := s'.active, admins := s'.admins)
    ensures Inv(s')
  {
    hide K.Ok, W.Ok;
    ChainFrame(s, s');
    PoolFrame(s, s');
  }

  // ---- New requests ----

  /** A request for a key that is being worked on only joins the chain. */
  lemma ChainedStep(s: Service, id: nat, h: Handler)
    requires Inv(s) && Enabled(s, Request(id, h)) && K.At(s.chains, h.key) != []
    ensures QueueRequest(s, id, h).Next? && Inv(QueueRequest(s, id, h).service)
  {
    var s' := QueueRequest(s, id, h).service;
    hide K.Ok, W.Ok, PoolsOk, CountsOk;
    NewId(s, id);
    ArrivedView(s, s', id, h);
    K.ArriveKeepsOk(ChainView(s), id, h.key);
    ArrivedRest(s, s', id, h);
  }

  lemma NewId(s: Service, id: nat)
    requires K.Ok(ChainView(s)) && id !in s.ever
    ensures id !in s.handlers
  {
    assert id in s.handlers ==> K.HandlerOk(ChainView(s), id);
  }

  lemma ArrivedView(s: Service, s': Service, id: nat, h: Handler)
    requires s.calls == [] && Due(s'.calls).None?
    requires id in s'.handlers && s'.handlers == s.handlers[id := s'.handlers[id]] && s'.handlers[id].key == h.key
    requires var chain := K.At(s.chains, h.key);
             && PhaseOf(s'.handlers[id].stage) == (if chain == [] then K.AtWork else K.NotBegun)
             && s'.chains == s.chains[h.key := chain + [id]]
             && s'.links == if chain == [] then s.links else s.links[chain[|chain| - 1] := id]
    requires s'.requests == s.requests + {id} && s'.ever == s.ever + {id} && s'.departed == s.departed
    requires s'.arrived == s.arrived[h.key := K.At(s.arrived, h.key) + [id]]
    ensures ChainView(s') == K.Arrive(ChainView(s), id, h.key)
  {
    var q, q' := ChainView(s), ChainView(s');
    assert q'.keys == q.keys[id := h.key];
    assert q'.phases == q.phases[id := PhaseOf(s'.handlers[id].stage)];
  }

  /** A new handler that is neither waiting for credentials nor downloading, and one more is active. */
  lemma ArrivedRest(s: Service, s': Service, id: nat, h: Handler)
    requires PoolsOk(s) && CountsOk(s) && id !in s.handlers && s'.calls == s.calls == []
    requires id in s'.handlers && s'.handlers == s.handlers[id := s'.handlers[id]] && RepliedOnce(s'.handlers[id])
    requires s'.handlers[id].stage in {Waiting, AwaitingCredentials, Checking}
    requires s'.active == s.active + 1 && s'.admins == s.admins && s'.limiters == s.limiters
    ensures PoolsOk(s') && CountsOk(s') && CallsOk(s')
    ensures s'.handlers[id].stage != AwaitingCredentials && s'.creds.pending == s.creds.pending ==> WaitView(s') == WaitView(s)
  {
    hide PoolsOk;
    PoolFrame(s, s');
    ArrivedCounts(s, s', id);
    hide CountsOk;
    if s'.handlers[id].stage != AwaitingCredentials && s'.creds.pending == s.creds.pending {
      WaitFrame(s, s');
    }
  }

  lemma ArrivedCounts(s: Service, s': Service, id: nat)
    requires CountsOk(s) && id !in s.handlers && id in s'.handlers && RepliedOnce(s'.handlers[id])
    requires s'.handlers == s.handlers[id := s'.handlers[id]]
    requires s'.active == s.active + 1 && s'.admins == s.admins
    ensures CountsOk(s')
  {
    assert s'.handlers.Keys == s.handlers.Keys + {id};
  }

  /** What the first request for a key leaves, when it does not finish at once. */
  ghost predicate FirstQueued(s: Service, s': Service, id: nat, h: Handler) {
    var answer := C.Answer(s.creds, h.peer);
    && s'.handlers == s.handlers[id := h.(stage := if answer.Some? then Checking else AwaitingCredentials)]
    && s'.creds == C.Get(s.creds, h.peer, id)
    && s'.chains == s.chains[h.key := [id]] && s'.links == s.links && s'.calls == s.calls
    && s'.requests == s.requests + {id} && s'.ever == s.ever + {id} && s'.departed == s.departed
    && s'.arrived == s.arrived[h.key := K.At(s.arrived, h.key) + [id]]
    && s'.active == s.active + 1 && s'.admins == s.admins && s'.limiters == s.limiters
  }

  /** It goes wrong exactly if the handler finishes inside begin(). */
  lemma FirstBy(s: Service, id: nat, h: Handler)
    requires Enabled(s, Request(id, h)) && K.At(s.chains, h.key) == []
    ensures QueueRequest(s, id, h).Next? <==> !FinishesAtOnce(s, Request(id, h))
    ensures QueueRequest(s, id, h).Next? ==> FirstQueued(s, QueueRequest(s, id, h).service, id, h)
  {
    hide C.Get;
    match C.Answer(s.creds, h.peer)
    case None => FirstAsks(s, id, h);
    case Some(c) =>
      if Accepts(h, c) {
        FirstAccepted(s, id, h, c);
      } else {
        FirstRefused(s, id, h, c);
      }
  }

  lemma FirstAsks(s: Service, id: nat, h: Handler)
    requires Enabled(s, Request(id, h)) && K.At(s.chains, h.key) == [] && C.Answer(s.creds, h.peer).None?
    ensures QueueRequest(s, id, h).Next? && FirstQueued(s, QueueRequest(s, id, h).service, id, h)
  {
    hide C.Get, C.Answer;
    var s' := QueueRequest(s, id, h).service;
    assert [] + [id] == [id];
    assert s'.chains == s.chains[h.key := [id]];
    assert s'.handlers == s.handlers[id := h.(stage := AwaitingCredentials)];
  }

  lemma FirstAccepted(s: Service, id: nat, h: Handler, c: C.Credentials)
    requires Enabled(s, Request(id, h)) && K.At(s.chains, h.key) == [] && C.Answer(s.creds, h.peer) == Some(c) && Accepts(h, c)
    ensures QueueRequest(s, id, h).Next? && FirstQueued(s, QueueRequest(s, id, h).service, id, h)
  {
    hide C.Get, C.Answer;
    var s' := QueueRequest(s, id, h).service;
    assert [] + [id] == [id];
    assert ([Got(id, c)] + s.calls)[1..] == s.calls;
    assert s'.chains == s.chains[h.key := [id]];
    assert s'.handlers == s.handlers[id := h.(stage := Checking)];
  }

  lemma FirstRefused(s: Service, id: nat, h: Handler, c: C.Credentials)
    requires Enabled(s, Request(id, h)) && K.At(s.chains, h.key) == [] && C.Answer(s.creds, h.peer) == Some(c) && !Accepts(h, c)
    ensures QueueRequest(s, id, h).Fault?
  {
    hide C.Get, C.Answer;
  }

  lemma FirstStep(s: Service, id: nat, h: Handler)
    requires Inv(s) && Enabled(s, Request(id, h)) && K.At(s.chains, h.key) == [] && !FinishesAtOnce(s, Request(id, h))
    ensures QueueRequest(s, id, h).Next? && Inv(QueueRequest(s, id, h).service)
  {
    FirstBy(s, id, h);
    hide K.Ok, W.Ok, PoolsOk, CountsOk, QueueRequest, FirstQueued;
    AfterFirst(s, QueueRequest(s, id, h).service, id, h);
  }

  lemma AfterFirst(s: Service, s': Service, id: nat, h: Handler)
    requires Inv(s) && Enabled(s, Request(id, h)) && K.At(s.chains, h.key) == [] && FirstQueued(s, s', id, h)
    ensures Inv(s')
  {
    hide K.Ok, W.Ok, PoolsOk, CountsOk, C.Get;
    NewId(s, id);
    assert [] + [id] == [id];
    ArrivedView(s, s', id, h);
    K.ArriveKeepsOk(ChainView(s), id, h.key);
    GetView(s.creds, h.peer, id);
    ArrivedRest(s, s', id, h);
    if C.Answer(s.creds, h.peer).None? {
      AskedView(s, s', id, h);
      W.AskKeepsOk(WaitView(s), id, h.peer);
    }
  }

  lemma AskedView(s: Service, s': Service, id: nat, h: Handler)
    requires id !in s.handlers && s'.handlers == s.handlers[id := h.(stage := AwaitingCredentials)] && s'.calls == s.calls
    requires s'.creds.pending == s.creds.pending[h.peer := W.Held(WaitView(s), h.peer) + [id]]
    ensures WaitView(s') == W.Ask(WaitView(s), id, h.peer)
  {
    assert WaitView(s').peers == WaitView(s).peers[id := h.peer];
  }

  // ---- Every step, and every run ----

  lemma RequestStep(s: Service, id: nat, h: Handler)
    requires Inv(s) && Enabled(s, Request(id, h))
    ensures QueueRequest(s, id, h).Next? <==> !FinishesAtOnce(s, Request(id, h))
    ensures QueueRequest(s, id, h).Next? ==> Inv(QueueRequest(s, id, h).service)
  {
    if K.At(s.chains, h.key) != [] {
      hide QueueRequest, Inv;
      ChainedStep(s, id, h);
    } else {
      hide QueueRequest, FinishesAtOnce, Inv;
      FirstBy(s, id, h);
      if !FinishesAtOnce(s, Request(id, h)) {
        FirstStep(s, id, h);
      }
    }
  }

  lemma CheckStep(s: Service, id: nat, result: CheckResult)
    requires Inv(s) && Enabled(s, CheckDone(id, result))
    ensures Step(s, CheckDone(id, result)).Next? && Inv(Step(s, CheckDone(id, result)).service)
  {
    hide StartDownload, Finish, Inv;
    if result == NeedsDownload {
      StartStep(s, id);
    } else {
      FinishKeepsInv(s, id, if result == Found then Thumbnail else Error);
    }
  }

  lemma AdminsStep(s: Service, a: Action)
    requires Inv(s) && Enabled(s, a) && (a.AdminBegin? || a.AdminEnd?)
    ensures Step(s, a).Next? && Inv(Step(s, a).service)
  {
    hide K.Ok, W.Ok, PoolsOk;
    var n := if a.AdminBegin? then 1 else -1;
    AdminStep(s, s.(active := s.active + n, admins := s.admins + n));
  }

  lemma RunStep(s: Service)
    requires Inv(s) && s.calls != []
    ensures RunNext(s).Next? && Inv(RunNext(s).service)
  {
    hide Inv, RunNext;
    if s.calls[0].Begin? {
      BeginStep(s);
    } else {
      GotStep(s);
    }
  }

  /** Exactly one thing can go wrong, and until it does the invariant is kept. */
  lemma StepKeepsInv(s: Service, a: Action)
    requires Inv(s) && Enabled(s, a)
    ensures Step(s, a).Fault? <==> FinishesAtOnce(s, a)
    ensures Step(s, a).Next? ==> Inv(Step(s, a).service)
  {
    hide Inv, QueueRequest, StartDownload, DownloadFinished, Finish, DeleteHandler, RunNext;
    match a
    case Request(id, h) => RequestStep(s, id, h);
    case CredentialsReply(peer, credentials) => CredentialsReplyStep(s, peer, credentials);
    case CheckDone(id, result) => CheckStep(s, id, result);
    case DownloadDone(id) => DownloadStep(s, id);
    case CreateDone(id, ok) => FinishKeepsInv(s, id, if ok then Thumbnail else Error);
    case Delete(id) => DeleteStep(s, id);
    case AdminBegin => AdminsStep(s, a);
    case AdminEnd => AdminsStep(s, a);
    case RunCall => RunStep(s);
  }

  /** Every action is possible when it happens, and none makes a new handler finish inside queueRequest. */
  ghost predicate Orderly(s: Service, actions: seq<Action>)
    decreases |actions|
  {
    actions == [] ||
    (Enabled(s, actions[0]) && !FinishesAtOnce(s, actions[0])
     && (Step(s, actions[0]).Next? ==> Orderly(Step(s, actions[0]).service, actions[1..])))
  }

  ghost function Run(s: Service, actions: seq<Action>): Outcome
    requires Orderly(s, actions)
    decreases |actions|
  {
    if actions == [] then Next(s)
    else
      match Step(s, actions[0])
      case Fault => Fault
      case Next(s') => Run(s', actions[1..])
  }

  lemma {:induction false} RunKeepsInv(s: Service, actions: seq<Action>)
    requires Inv(s) && Orderly(s, actions)
    ensures Run(s, actions).Next? && Inv(Run(s, actions).service)
    decreases |actions|
  {
    hide Inv, Step, Enabled, FinishesAtOnce;
    if actions != [] {
      StepKeepsInv(s, actions[0]);
      RunKeepsInv(Step(s, actions[0]).service, actions[1..]);
    }
  }

  lemma NewServiceInv(maxDownloads: nat, maxExtractions: nat)
    requires maxDownloads > 0 && maxExtractions > 0
    ensures Inv(NewService(maxDownloads, maxExtractions))
  {
    NewServicePools(maxDownloads, maxExtractions);
    hide PoolsOk;
  }

  lemma NewServicePools(maxDownloads: nat, maxExtractions: nat)
    requires maxDownloads > 0 && maxExtractions > 0
    ensures PoolsOk(NewService(maxDownloads, maxExtractions))
  {
    var s := NewService(maxDownloads, maxExtractions);
    forall pool: Pool
      ensures pool in s.limiters && P.Ok(PoolView(s, pool))
    {
      assert pool == Downloads || pool == Extractions;
      assert PoolView(s, pool).scheduled == {} == PoolView(s, pool).downloading;
    }
  }

  /** A state that the service can reach. */
  ghost predicate Reachable(s: Service) {
    exists maxDownloads: nat, maxExtractions: nat, actions: seq<Action> ::
      && maxDownloads > 0 && maxExtractions > 0
      && Orderly(NewService(maxDownloads, maxExtractions), actions)
      && Run(NewService(maxDownloads, maxExtractions), actions) == Next(s)
  }

  lemma ReachableInv(s: Service)
    requires Reachable(s)
    ensures Inv(s)
  {
    var maxDownloads: nat, maxExtractions: nat, actions: seq<Action> :|
      && maxDownloads > 0 && maxExtractions > 0
      && Orderly(NewService(maxDownloads, maxExtractions), actions)
      && Run(NewService(maxDownloads, maxExtractions), actions) == Next(s);
    NewServiceInv(maxDownloads, maxExtractions);
    RunKeepsInv(NewService(maxDownloads, maxExtractions), actions);
  }

  // ---- What that means ----

  /**
    In every reachable state a step goes wrong if and only if it queues the first request for a
    key whose peer is cached and refused; no other assertion fails and no handler is missing.
   */
  lemma FaultIff(s: Service, a: Action)
    requires Reachable(s) && Enabled(s, a)
    ensures Step(s, a).Fault? <==> FinishesAtOnce(s, a)
  {
    ReachableInv(s);
    StepKeepsInv(s, a);
  }

  lemma {:induction false} RunSnoc(s: Service, actions: seq<Action>, a: Action)
    requires Orderly(s, actions) && Run(s, actions).Next?
    requires Enabled(Run(s, actions).service, a) && !FinishesAtOnce(Run(s, actions).service, a)
    ensures Orderly(s, actions + [a]) && Run(s, actions + [a]) == Step(Run(s, actions).service, a)
    decreases |actions|
  {
    hide Step, Enabled, FinishesAtOnce;
    if actions == [] {
      assert ([] + [a])[1..] == [];
    } else {
      RunSnoc(Step(s, actions[0]).service, actions[1..], a);
      assert (actions + [a])[1..] == actions[1..] + [a];
    }
  }

  lemma ReachableStep(s: Service, a: Action)
    requires Reachable(s) && Enabled(s, a) && !FinishesAtOnce(s, a)
    ensures Step(s, a).Next? && Reachable(Step(s, a).service)
  {
    hide Inv, Step, Enabled, FinishesAtOnce, NewService;
    ReachableInv(s);
    StepKeepsInv(s, a);
    var maxDownloads: nat, maxExtractions: nat, actions: seq<Action> :|
      && maxDownloads > 0 && maxExtractions > 0
      && Orderly(NewService(maxDownloads, maxExtractions), actions)
      && Run(NewService(maxDownloads, maxExtractions), actions) == Next(s);
    RunSnoc(NewService(maxDownloads, maxExtractions), actions, a);
  }

  lemma NewServiceReachable(maxDownloads: nat, maxExtractions: nat)
    requires maxDownloads > 0 && maxExtractions > 0
    ensures Reachable(NewService(maxDownloads, maxExtractions))
  {
    assert Run(NewService(maxDownloads, maxExtractions), []) == Next(NewService(maxDownloads, maxExtractions));
  }

  function NewHandler(key: string, allows: C.Credentials -> bool): Handler {
    Handler(key, 1, Downloads, allows, Waiting, [], 0)
  }

  /**
    It does go wrong: a client's first request is accepted, which leaves its credentials in the
    cache, and then it asks for something that its profile may not read.
   */
  lemma FaultIsReachable() returns (s: Service, a: Action)
    ensures Reachable(s) && Enabled(s, a) && FinishesAtOnce(s, a) && Step(s, a).Fault?
  {
    var credentials := C.Credentials(true, 0, "app");
    NewServiceReachable(1, 1);
    var asked := AfterRequest(NewService(1, 1), NewHandler("a", c => true));
    var replied := AfterReply(asked, credentials);
    s := AfterCall(replied, credentials);
    a := Request(2, NewHandler("b", c => false));
    FaultIff(s, a);
  }

  lemma AfterRequest(s: Service, h: Handler) returns (s': Service)
    requires s == NewService(1, 1) && Reachable(s) && h == NewHandler("a", h.allows)
    ensures Reachable(s') && s'.calls == [] && s'.creds == C.Cache(map[], map[], map[1 := [1]])
    ensures s'.handlers == map[1 := h.(stage := AwaitingCredentials)] && s'.chains == map["a" := [1]] && s'.ever == {1}
  {
    ReachableStep(s, Request(1, h));
    FirstBy(s, 1, h);
    hide Reachable, Orderly, Run;
    s' := QueueRequest(s, 1, h).service;
    hide QueueRequest;
    assert {} + {1} == {1};
  }

  lemma AfterReply(s: Service, credentials: C.Credentials) returns (s': Service)
    requires Reachable(s) && s.calls == [] && s.creds == C.Cache(map[], map[], map[1 := [1]])
    ensures Reachable(s') && s'.calls == [Got(1, credentials)] && s'.creds.current == map[1 := credentials]
    ensures s'.handlers == s.handlers && s'.chains == s.chains && s'.ever == s.ever
  {
    ReachableStep(s, CredentialsReply(1, credentials));
    hide Reachable, Orderly, Run;
    s' := Step(s, CredentialsReply(1, credentials)).service;
    assert Gots([1], credentials) == [Got(1, credentials)];
  }

  lemma AfterCall(s: Service, credentials: C.Credentials) returns (s': Service)
    requires Reachable(s) && s.calls == [Got(1, credentials)] && s.chains == map["a" := [1]] && s.ever == {1}
    requires 1 in s.handlers && Accepts(s.handlers[1], credentials)
    ensures Reachable(s') && s'.calls == [] && s'.creds == s.creds && s'.chains == s.chains && s'.ever == s.ever
  {
    ReachableStep(s, RunCall);
    hide Reachable, Orderly, Run;
    s' := RunNext(s).service;
  }

  /**
    requests_ is the disjoint union of the chains; only the first handler of a chain has begun;
    a handler is a request until it has finished.
   */
  lemma OneAtATimePerKey(s: Service, id: nat, key: string)
    requires Reachable(s)
    ensures id in K.At(s.chains, key) <==> id in s.requests && id in s.handlers && s.handlers[id].key == key
    ensures key in s.chains ==> s.chains[key] != []
    ensures id in K.At(s.chains, key) && id != s.chains[key][0] ==> InStage(s, id, Waiting)
    ensures s.calls == [] && K.At(s.chains, key) != [] ==> !InStage(s, s.chains[key][0], Waiting)
    ensures id in s.handlers ==> (id in s.requests <==> s.handlers[id].stage != Finished)
  {
    hide K.Ok, Reachable;
    ReachableChains(s);
    K.ChainsPartitionRequests(ChainView(s), id, key);
  }

  lemma ReachableChains(s: Service)
    requires Reachable(s)
    ensures K.Ok(ChainView(s))
  {
    hide K.Ok, W.Ok, PoolsOk, CountsOk, CallsOk, Reachable;
    ReachableInv(s);
  }

  /** The handlers for a key finish in the order in which they arrived, and none is skipped. */
  lemma FirstComeFirstServed(s: Service, key: string)
    requires Reachable(s)
    ensures K.At(s.departed, key) <= K.At(s.arrived, key)
    ensures K.At(s.arrived, key) == K.At(s.departed, key) + K.At(s.chains, key)
  {
    ReachableInv(s);
    assert K.OrderOk(ChainView(s), key);
  }

  function Limit(s: Service, pool: Pool): nat {
    if pool in s.limiters then s.limiters[pool].concurrency else 0
  }

  lemma StepKeepsLimits(s: Service, a: Action, pool: Pool)
    requires Enabled(s, a) && Step(s, a).Next?
    ensures Limit(Step(s, a).service, pool) == Limit(s, pool)
  {
    hide C.Received, Finish, RunNext, QueueRequest, L.Clear, L.TakeLive;
    match a
    case Request(id, h) => RequestKeepsLimits(s, id, h);
    case CredentialsReply(_, _) =>
    case CheckDone(id, result) =>
      if result != NeedsDownload {
        FinishKeepsLimits(s, id, if result == Found then Thumbnail else Error);
      }
    case DownloadDone(_) =>
    case CreateDone(id, ok) => FinishKeepsLimits(s, id, if ok then Thumbnail else Error);
    case Delete(_) =>
    case AdminBegin =>
    case AdminEnd =>
    case RunCall => CallKeepsLimits(s);
  }

  lemma FinishKeepsLimits(s: Service, id: nat, reply: Reply)
    requires id in s.handlers
    ensures Finish(s, id, reply).limiters == s.limiters
  {
  }

  lemma CallKeepsLimits(s: Service)
    requires s.calls != [] && RunNext(s).Next?
    ensures RunNext(s).service.limiters == s.limiters
  {
    hide C.Get, C.Answer, K.Without;
  }

  lemma RequestKeepsLimits(s: Service, id: nat, h: Handler)
    requires Enabled(s, Request(id, h)) && QueueRequest(s, id, h).Next?
    ensures QueueRequest(s, id, h).service.limiters == s.limiters
  {
    if K.At(s.chains, h.key) == [] {
      FirstBy(s, id, h);
      hide QueueRequest, C.Get, C.Answer;
    }
  }

  lemma {:induction false} RunKeepsLimits(s: Service, actions: seq<Action>, pool: Pool)
    requires Orderly(s, actions) && Run(s, actions).Next?
    ensures Limit(Run(s, actions).service, pool) == Limit(s, pool)
    decreases |actions|
  {
    hide Step, Enabled, FinishesAtOnce, Limit;
    if actions != [] {
      StepKeepsLimits(s, actions[0], pool);
      RunKeepsLimits(Step(s, actions[0]).service, actions[1..], pool);
    }
  }

  /**
    Over every run, no more downloads run at a time than configured, and a handler waits for
    its download only while that many are running.
   */
  lemma DownloadsWithinLimit(maxDownloads: nat, maxExtractions: nat, actions: seq<Action>, pool: Pool)
    requires maxDownloads > 0 && maxExtractions > 0 && Orderly(NewService(maxDownloads, maxExtractions), actions)
    ensures Run(NewService(maxDownloads, maxExtractions), actions).Next?
    ensures var s := Run(NewService(maxDownloads, maxExtractions), actions).service;
            var max := if pool == Downloads then maxDownloads else maxExtractions;
            var running := set id | id in s.handlers && Uses(s, id, pool, Downloading);
            && pool in s.limiters && s.limiters[pool].concurrency == max
            && s.limiters[pool].running == |running| <= max
            && ((exists id :: Uses(s, id, pool, Scheduled)) ==> |running| == max)
            && L.Waiting(s.limiters[pool].queue) == set id | id in s.handlers && Uses(s, id, pool, Scheduled)
  {
    var start := NewService(maxDownloads, maxExtractions);
    NewServiceInv(maxDownloads, maxExtractions);
    RunKeepsInv(start, actions);
    RunKeepsLimits(start, actions, pool);
    var s := Run(start, actions).service;
    OnePool(s, pool);
    hide Run, Orderly, K.Ok, W.Ok, PoolsOk, CountsOk, CallsOk;
    if id :| Uses(s, id, pool, Scheduled) {
      assert id in PoolView(s, pool).scheduled;
      assert id in L.Waiting(s.limiters[pool].queue);
    }
  }

  /** Every handler replies once and emits finished() once, and then never again; the counter is right. */
  lemma RepliesAndCount(s: Service, id: nat)
    requires Reachable(s)
    ensures id in s.handlers ==> RepliedOnce(s.handlers[id])
    ensures s.active == |s.handlers.Keys| + s.admins
  {
    ReachableInv(s);
  }

  /** The admin calls that have begun and not ended, going by the actions alone. */
  function AdminCalls(actions: seq<Action>): int {
    if actions == [] then 0
    else (if actions[0].AdminBegin? then 1 else if actions[0].AdminEnd? then -1 else 0) + AdminCalls(actions[1..])
  }

  lemma StepCountsAdmins(s: Service, a: Action)
    requires Enabled(s, a) && Step(s, a).Next?
    ensures Step(s, a).service.admins == s.admins + (if a.AdminBegin? then 1 else if a.AdminEnd? then -1 else 0)
  {
    hide QueueRequest, StartDownload, DownloadFinished, BeginHandler, GotCredentials, L.Cancel, C.Received, K.Without;
    match a
    case Request(i, h) => QueueKeepsAdmins(s, i, h);
    case CheckDone(i, _) => DownloadKeepsAdmins(s, i);
    case DownloadDone(i) => DownloadKeepsAdmins(s, i);
    case RunCall => CallKeepsAdmins(s);
    case _ =>
  }

  lemma QueueKeepsAdmins(s: Service, i: nat, h: Handler)
    requires Enabled(s, Request(i, h)) && QueueRequest(s, i, h).Next?
    ensures QueueRequest(s, i, h).service.admins == s.admins
  {
    if K.At(s.chains, h.key) == [] {
      FirstBy(s, i, h);
      hide QueueRequest, C.Get, C.Answer;
    }
  }

  lemma DownloadKeepsAdmins(s: Service, i: nat)
    requires i in s.handlers
    ensures StartDownload(s, i).Next? ==> StartDownload(s, i).service.admins == s.admins
    ensures DownloadFinished(s, i).Next? ==> DownloadFinished(s, i).service.admins == s.admins
  {
    hide L.Schedule, L.Done;
  }

  lemma CallKeepsAdmins(s: Service)
    requires s.calls != [] && RunNext(s).Next?
    ensures RunNext(s).service.admins == s.admins
  {
    hide C.Get, K.Without;
  }

  lemma {:induction false} RunCountsAdmins(s: Service, actions: seq<Action>)
    requires Inv(s) && Orderly(s, actions)
    ensures Run(s, actions).Next? && Run(s, actions).service.admins == s.admins + AdminCalls(actions)
    decreases |actions|
  {
    hide Inv, Step, Enabled, FinishesAtOnce;
    if actions != [] {
      StepKeepsInv(s, actions[0]);
      StepCountsAdmins(s, actions[0]);
      RunCountsAdmins(Step(s, actions[0]).service, actions[1..]);
    }
  }

  /** In every run, the counter is the number of handlers that exist plus the admin calls in progress. */
  lemma CounterIsRight(maxDownloads: nat, maxExtractions: nat, actions: seq<Action>)
    requires maxDownloads > 0 && maxExtractions > 0 && Orderly(NewService(maxDownloads, maxExtractions), actions)
    ensures Run(NewService(maxDownloads, maxExtractions), actions).Next?
    ensures var s := Run(NewService(maxDownloads, maxExtractions), actions).service;
            s.active == |s.handlers.Keys| + AdminCalls(actions)
  {
    NewServiceInv(maxDownloads, maxExtractions);
    RunKeepsInv(NewService(maxDownloads, maxExtractions), actions);
    RunCountsAdmins(NewService(maxDownloads, maxExtractions), actions);
    hide Run;
  }

  /** What a step sends to a handler's client. */
  function Sent(s: Service, a: Action, id: nat): seq<Reply>
    requires id in s.handlers && Enabled(s, a)
  {
    if a == CheckDone(id, Found) || a == CreateDone(id, true) then [Thumbnail]
    else if a == CheckDone(id, Failed) || a == CheckDone(id, NoArtwork) || a == CreateDone(id, false) then [Error]
    else if a.RunCall? && s.calls[0].Got? && s.calls[0].id == id
            && !(s.calls[0].credentials.valid && s.handlers[id].allows(s.calls[0].credentials)) then [Error]
    else []
  }

  /** Nobody else is answered, and nobody is told anything else. */
  lemma WhoIsAnswered(s: Service, a: Action, id: nat)
    requires Inv(s) && Enabled(s, a) && Step(s, a).Next? && id in s.handlers && a != Delete(id)
    ensures id in Step(s, a).service.handlers
    ensures Step(s, a).service.handlers[id].replies == s.handlers[id].replies + Sent(s, a, id)
  {
    hide Inv, QueueRequest, StartDownload, DownloadFinished, Finish, DeleteHandler, RunNext, C.Received;
    match a
    case Request(i, h) =>
      assert i !in s.handlers by {
        RequestIsNew(s, i);
      }
      RequestAnswersNobody(s, i, h, id);
    case CredentialsReply(_, _) =>
    case CheckDone(i, result) => CheckAnswers(s, i, result, id);
    case DownloadDone(i) => DownloadAnswersNobody(s, i, id);
    case CreateDone(i, ok) => FinishAnswers(s, i, if ok then Thumbnail else Error, id);
    case Delete(i) => DeleteAnswersNobody(s, i, id);
    case AdminBegin =>
    case AdminEnd =>
    case RunCall => RunAnswers(s, id);
  }

  lemma RequestIsNew(s: Service, i: nat)
    requires Inv(s) && i !in s.ever
    ensures i !in s.handlers
  {
    NewId(s, i);
  }

  lemma FinishAnswers(s: Service, i: nat, reply: Reply, id: nat)
    requires i in s.handlers && id in s.handlers
    ensures id in Finish(s, i, reply).handlers
    ensures Finish(s, i, reply).handlers[id].replies == s.handlers[id].replies + (if id == i then [reply] else [])
  {
    hide K.Without;
  }

  lemma CheckAnswers(s: Service, i: nat, result: CheckResult, id: nat)
    requires Enabled(s, CheckDone(i, result)) && id in s.handlers && Step(s, CheckDone(i, result)).Next?
    ensures var a := CheckDone(i, result);
            && id in Step(s, a).service.handlers
            && Step(s, a).service.handlers[id].replies == s.handlers[id].replies + Sent(s, a, id)
  {
    hide Finish, L.Schedule;
    if result != NeedsDownload {
      FinishAnswers(s, i, if result == Found then Thumbnail else Error, id);
    }
  }

  lemma DownloadAnswersNobody(s: Service, i: nat, id: nat)
    requires InStage(s, i, Downloading) && id in s.handlers && DownloadFinished(s, i).Next?
    ensures id in DownloadFinished(s, i).service.handlers
    ensures DownloadFinished(s, i).service.handlers[id].replies == s.handlers[id].replies
  {
    hide L.Done, L.DoneStarts;
  }

  lemma DeleteAnswersNobody(s: Service, i: nat, id: nat)
    requires i in s.handlers && s.handlers[i].pool in s.limiters && id in s.handlers && id != i
    ensures id in DeleteHandler(s, i).handlers && DeleteHandler(s, i).handlers[id] == s.handlers[id]
  {
    hide L.Cancel;
  }

  lemma RunAnswers(s: Service, id: nat)
    requires s.calls != [] && RunNext(s).Next? && id in s.handlers
    ensures id in RunNext(s).service.handlers
    ensures RunNext(s).service.handlers[id].replies == s.handlers[id].replies + Sent(s, RunCall, id)
  {
    hide C.Get, C.Answer, Finish;
    var c := s.calls[0];
    if c.Got? && !Accepts(s.handlers[c.id], c.credentials) {
      FinishAnswers(s.(calls := s.calls[1..]), c.id, Error, id);
    }
  }

  lemma RequestAnswersNobody(s: Service, i: nat, h: Handler, id: nat)
    requires Enabled(s, Request(i, h)) && QueueRequest(s, i, h).Next? && id in s.handlers && i !in s.handlers
    ensures id in QueueRequest(s, i, h).service.handlers
    ensures QueueRequest(s, i, h).service.handlers[id] == s.handlers[id]
  {
    if K.At(s.chains, h.key) == [] {
      FirstBy(s, i, h);
      hide QueueRequest, C.Get, C.Answer;
    }
  }

  /** The daemon's answer goes to exactly the handlers that wait for this peer's credentials. */
  lemma RepliesReachTheirPeer(s: Service, peer: nat, credentials: C.Credentials, id: nat)
    requires Inv(s) && Enabled(s, CredentialsReply(peer, credentials))
    ensures var s' := Step(s, CredentialsReply(peer, credentials)).service;
            && (forall i :: 0 <= i < |s'.calls| ==> s'.calls[i].Got? && s'.calls[i].credentials == credentials)
            && (id in Answered(s'.calls) <==> InStage(s, id, AwaitingCredentials) && s.handlers[id].peer == peer)
  {
    var w := WaitView(s);
    AnsweredGots(s.creds.pending[peer], credentials);
    assert W.HeldOk(w, peer);
    assert id in w.peers ==> id in w.answered || W.IsHeld(w, id);
    hide K.Ok, W.Ok, PoolsOk, CountsOk, C.Received;
  }

  /** If the outside world owes the service nothing more, every handler has finished. */
  lemma QuietMeansDone(s: Service)
    requires Reachable(s) && s.calls == [] && s.creds.pending == map[]
    requires forall id :: !InStage(s, id, Checking) && !InStage(s, id, Downloading) && !InStage(s, id, Creating)
    ensures s.requests == {} && s.chains == map[]
    ensures forall id :: id in s.handlers ==> s.handlers[id].stage == Finished
  {
    ReachableInv(s);
    forall id | id in s.handlers
      ensures s.handlers[id].stage == Finished
    {
      if s.handlers[id].stage == Waiting {
        FirstIsWorking(s, id);
        NoneWorking(s, s.chains[s.handlers[id].key][0]);
      } else {
        NoneWorking(s, id);
      }
    }
    forall id
      ensures id !in s.requests
    {
      OneAtATimePerKey(s, id, "");
      assert id in s.requests ==> K.RequestOk(ChainView(s), id);
    }
    forall key
      ensures key !in s.chains
    {
      if key in s.chains {
        FirstIsRequest(s, key);
      }
    }
  }

  lemma FirstIsRequest(s: Service, key: string)
    requires Reachable(s) && key in s.chains
    ensures s.chains[key] != [] && s.chains[key][0] in s.requests
  {
    OneAtATimePerKey(s, 0, key);
    OneAtATimePerKey(s, s.chains[key][0], key);
  }

  lemma FirstIsWorking(s: Service, id: nat)
    requires Inv(s) && s.calls == [] && InStage(s, id, Waiting)
    ensures s.handlers[id].key in s.chains && s.chains[s.handlers[id].key] != []
    ensures var first := s.chains[s.handlers[id].key][0]; first in s.handlers && PhaseOf(s.handlers[first].stage) == K.AtWork
  {
    var q, key := ChainView(s), s.handlers[id].key;
    assert K.HandlerOk(q, id) && K.RequestOk(q, id);
    K.ChainsPartitionRequests(q, id, key);
  }

  /** Whatever a handler is at work on, somebody outside owes it an answer. */
  lemma NoneWorking(s: Service, id: nat)
    requires Inv(s) && s.calls == [] && s.creds.pending == map[] && id in s.handlers
    requires forall id :: !InStage(s, id, Checking) && !InStage(s, id, Downloading) && !InStage(s, id, Creating)
    ensures PhaseOf(s.handlers[id].stage) != K.AtWork
  {
    hide K.Ok;
    var w, pool := WaitView(s), s.handlers[id].pool;
    assert !InStage(s, id, Checking) && !InStage(s, id, Downloading) && !InStage(s, id, Creating);
    assert id in w.peers ==> id in w.answered || W.IsHeld(w, id);
    OnePool(s, pool);
    hide PoolsOk;
    var p := PoolView(s, pool);
    forall i
      ensures i !in p.downloading
    {
      assert !InStage(s, i, Downloading);
    }
    assert p.downloading == {};
    assert p.scheduled == {};
    assert Uses(s, id, pool, Scheduled) ==> id in p.scheduled;
  }

  // ---- The course of one handler ----

  /** Where a handler that is checking or later can go in a step. */
  ghost predicate Follows(s: Service, a: Action, id: nat, h: Handler)
    requires id in s.handlers
  {
    && h.key == s.handlers[id].key && h.peer == s.handlers[id].peer && h.allows == s.handlers[id].allows
    && match s.handlers[id].stage
       case Checking =>
         if a == CheckDone(id, NeedsDownload) then h.stage == Scheduled || h.stage == Downloading
         else if a.CheckDone? && a.id == id then h.stage == Finished
         else h.stage == Checking
       case Scheduled => h.stage == Scheduled || h.stage == Downloading
       case Downloading => h.stage == if a == DownloadDone(id) then Creating else Downloading
       case Creating => h.stage == if a.CreateDone? && a.id == id then Finished else Creating
       case Finished => h.stage == Finished
       case Waiting => h.stage == Waiting || (a.RunCall? && h.stage == AwaitingCredentials)
       case AwaitingCredentials =>
         h.stage == AwaitingCredentials || (a.RunCall? && (h.stage == Checking || h.stage == Finished))
  }

  lemma StageFollows(s: Service, a: Action, id: nat)
    requires Inv(s) && Enabled(s, a) && Step(s, a).Next? && id in s.handlers && a != Delete(id)
    ensures id in Step(s, a).service.handlers && Follows(s, a, id, Step(s, a).service.handlers[id])
  {
    hide Inv, QueueRequest, StartDownload, DownloadFinished, Finish, DeleteHandler, RunNext, C.Received;
    match a
    case Request(i, h) =>
      RequestIsNew(s, i);
      RequestAnswersNobody(s, i, h, id);
    case CredentialsReply(_, _) =>
    case CheckDone(i, result) => CheckFollows(s, i, result, id);
    case DownloadDone(i) => DownloadFollows(s, i, id);
    case CreateDone(i, ok) => FinishFollows(s, i, if ok then Thumbnail else Error, id);
    case Delete(i) => DeleteAnswersNobody(s, i, id);
    case AdminBegin =>
    case AdminEnd =>
    case RunCall => CallFollows(s, id);
  }

  /** The credentials that a handler is told decide: it goes on to its check, or its client is sent an error. */
  lemma CredentialsDecide(s: Service, id: nat, c: C.Credentials)
    requires Inv(s) && s.calls != [] && s.calls[0] == Got(id, c)
    ensures Step(s, RunCall).Next? && id in s.handlers && id in Step(s, RunCall).service.handlers
    ensures var h, h' := s.handlers[id], Step(s, RunCall).service.handlers[id];
            if c.valid && h.allows(c) then h'.stage == Checking && h'.replies == h.replies
            else h'.stage == Finished && h'.replies == h.replies + [Error]
  {
    hide Inv, FinishesAtOnce, Finish;
    StepKeepsInv(s, RunCall);
    NeverFaultsLater(s);
    FinishFollows(s.(calls := s.calls[1..]), id, Error, id);
    FinishAnswers(s.(calls := s.calls[1..]), id, Error, id);
  }

  lemma NeverFaultsLater(s: Service)
    ensures !FinishesAtOnce(s, RunCall)
  {
  }

  lemma FinishFollows(s: Service, i: nat, reply: Reply, id: nat)
    requires i in s.handlers && id in s.handlers
    ensures id in Finish(s, i, reply).handlers
    ensures var h := Finish(s, i, reply).handlers[id];
            if id == i then h.key == s.handlers[id].key && h.peer == s.handlers[id].peer && h.allows == s.handlers[id].allows
                            && h.stage == Finished
            else h == s.handlers[id]
  {
    hide K.Without;
  }

  lemma CheckFollows(s: Service, i: nat, result: CheckResult, id: nat)
    requires Enabled(s, CheckDone(i, result)) && id in s.handlers && Step(s, CheckDone(i, result)).Next?
    ensures var a := CheckDone(i, result);
            id in Step(s, a).service.handlers && Follows(s, a, id, Step(s, a).service.handlers[id])
  {
    hide Finish, L.Schedule;
    if result != NeedsDownload {
      FinishFollows(s, i, if result == Found then Thumbnail else Error, id);
    }
  }

  lemma DownloadFollows(s: Service, i: nat, id: nat)
    requires Inv(s) && InStage(s, i, Downloading) && id in s.handlers && DownloadFinished(s, i).Next?
    ensures id in DownloadFinished(s, i).service.handlers
    ensures Follows(s, DownloadDone(i), id, DownloadFinished(s, i).service.handlers[id])
  {
    hide K.Ok, W.Ok, CountsOk, PoolsOk, CallsOk, L.Done, L.DoneStarts;
    NextIsScheduled(s, i);
  }

  lemma CallFollows(s: Service, id: nat)
    requires Inv(s) && s.calls != [] && RunNext(s).Next? && id in s.handlers
    ensures id in RunNext(s).service.handlers && Follows(s, RunCall, id, RunNext(s).service.handlers[id])
  {
    hide K.Ok, W.Ok, CountsOk, PoolsOk, CallsOk, RunNext, Follows;
    if s.calls[0].Begin? {
      DueIsWaiting(s);
      BeginFollows(s, id);
    } else {
      GotIsAwaiting(s);
      GotFollows(s, id);
    }
  }

  lemma BeginFollows(s: Service, id: nat)
    requires s.calls != [] && s.calls[0].Begin? && InStage(s, s.calls[0].id, Waiting) && id in s.handlers
    ensures RunNext(s).Next? && id in RunNext(s).service.handlers && Follows(s, RunCall, id, RunNext(s).service.handlers[id])
  {
    BegunBy(s.(calls := s.calls[1..]), s.calls[0].id);
    hide BeginHandler, C.Get;
  }

  lemma GotFollows(s: Service, id: nat)
    requires s.calls != [] && s.calls[0].Got? && InStage(s, s.calls[0].id, AwaitingCredentials) && id in s.handlers
    ensures RunNext(s).Next? && id in RunNext(s).service.handlers && Follows(s, RunCall, id, RunNext(s).service.handlers[id])
  {
    hide Finish;
    var c := s.calls[0];
    if !Accepts(s.handlers[c.id], c.credentials) {
      FinishFollows(s.(calls := s.calls[1..]), c.id, Error, id);
    }
  }

  /** Handlers come from requests only, and have not gone far when they come. */
  lemma NewHandlers(s: Service, a: Action, id: nat)
    requires Inv(s) && Enabled(s, a) && Step(s, a).Next? && id in Step(s, a).service.handlers && id !in s.handlers
    ensures a.Request? && a.id == id
    ensures var h := Step(s, a).service.handlers[id];
            h.key == a.handler.key && h.replies == [] && h.stage in {Waiting, AwaitingCredentials, Checking}
  {
    hide Inv, QueueRequest, StartDownload, DownloadFinished, Finish, DeleteHandler, RunNext, C.Received;
    match a
    case Request(i, h) => RequestAdds(s, i, h);
    case CredentialsReply(_, _) =>
    case CheckDone(i, result) => CheckAddsNone(s, i, result);
    case DownloadDone(i) => DownloadAddsNone(s, i);
    case CreateDone(i, ok) => FinishAddsNone(s, i, if ok then Thumbnail else Error);
    case Delete(i) => DeleteAddsNone(s, i);
    case AdminBegin =>
    case AdminEnd =>
    case RunCall => CallAddsNone(s);
  }

  lemma RequestAdds(s: Service, i: nat, h: Handler)
    requires Enabled(s, Request(i, h)) && QueueRequest(s, i, h).Next?
    ensures var m := QueueRequest(s, i, h).service.handlers;
            && m.Keys == s.handlers.Keys + {i} && m[i].key == h.key && m[i].replies == []
            && m[i].stage in {Waiting, AwaitingCredentials, Checking}
  {
    if K.At(s.chains, h.key) == [] {
      FirstBy(s, i, h);
      hide QueueRequest, C.Get, C.Answer;
    }
  }

  lemma FinishAddsNone(s: Service, i: nat, reply: Reply)
    requires i in s.handlers
    ensures Finish(s, i, reply).handlers.Keys == s.handlers.Keys
  {
    hide K.Without;
  }

  lemma CheckAddsNone(s: Service, i: nat, result: CheckResult)
    requires Enabled(s, CheckDone(i, result)) && Step(s, CheckDone(i, result)).Next?
    ensures Step(s, CheckDone(i, result)).service.handlers.Keys == s.handlers.Keys
  {
    hide Finish, L.Schedule;
    if result != NeedsDownload {
      FinishAddsNone(s, i, if result == Found then Thumbnail else Error);
    }
  }

  lemma DownloadAddsNone(s: Service, i: nat)
    requires i in s.handlers && DownloadFinished(s, i).Next?
    ensures DownloadFinished(s, i).service.handlers.Keys == s.handlers.Keys
  {
    hide L.Done, L.DoneStarts;
  }

  lemma DeleteAddsNone(s: Service, i: nat)
    requires i in s.handlers && s.handlers[i].pool in s.limiters
    ensures DeleteHandler(s, i).handlers.Keys <= s.handlers.Keys
  {
    hide L.Cancel;
  }

  lemma CallAddsNone(s: Service)
    requires s.calls != [] && RunNext(s).Next?
    ensures RunNext(s).service.handlers.Keys == s.handlers.Keys
  {
    hide C.Get, C.Answer, Finish;
    var c := s.calls[0];
    if c.Got? {
      FinishAddsNone(s.(calls := s.calls[1..]), c.id, Error);
    }
  }

  /** No two handlers for a key are at work at the same time. */
  lemma OneWorkerPerKey(s: Service, i: nat, j: nat)
    requires Inv(s) && i in s.handlers && j in s.handlers && s.handlers[i].key == s.handlers[j].key
    requires PhaseOf(s.handlers[i].stage) == K.AtWork && PhaseOf(s.handlers[j].stage) == K.AtWork
    ensures i == j
  {
    hide K.Ok, W.Ok, PoolsOk, CountsOk;
    WorkerIsRequest(s, i);
    WorkerIsRequest(s, j);
    K.WorkingIsFirst(ChainView(s), i);
    K.WorkingIsFirst(ChainView(s), j);
  }

  // ---- Progress ----

  function InStageNow(m: map<nat, Handler>, stage: Stage): set<nat> {
    set id | id in m && m[id].stage == stage
  }

  function Rank(stage: Stage): nat {
    match stage
    case Waiting => 8
    case AwaitingCredentials => 6
    case Checking => 5
    case Scheduled => 4
    case Downloading => 3
    case Creating => 2
    case Finished => 1
  }

  function Count(s: Service, stage: Stage): nat {
    |InStageNow(s.handlers, stage)|
  }

  /** How much can still happen before everything has been answered and deleted. */
  function ToDo(s: Service): nat {
    8 * Count(s, Waiting) + 6 * Count(s, AwaitingCredentials) + 5 * Count(s, Checking) + 4 * Count(s, Scheduled)
    + 3 * Count(s, Downloading) + 2 * Count(s, Creating) + Count(s, Finished) + |s.creds.pending.Keys|
  }

  lemma CountAfter(s: Service, s': Service, id: nat, stage: Stage)
    requires id in s.handlers && id in s'.handlers && s'.handlers == s.handlers[id := s'.handlers[id]]
    requires s.handlers[id].stage != s'.handlers[id].stage
    ensures Count(s', stage) ==
            Count(s, stage) + (if s'.handlers[id].stage == stage then 1 else if s.handlers[id].stage == stage then -1 else 0)
  {
    IdsAfter(s.handlers, s'.handlers, id, stage);
    hide InStageNow;
  }

  lemma IdsAfter(m: map<nat, Handler>, m': map<nat, Handler>, id: nat, stage: Stage)
    requires id in m && id in m' && m' == m[id := m'[id]] && m[id].stage != m'[id].stage
    ensures |InStageNow(m', stage)| ==
            |InStageNow(m, stage)| + (if m'[id].stage == stage then 1 else if m[id].stage == stage then -1 else 0)
  {
    var before, after := InStageNow(m, stage), InStageNow(m', stage);
    forall i
      ensures i in after <==> if i == id then m'[id].stage == stage else i in before
    {
    }
    hide InStageNow;
    if m'[id].stage == stage {
      assert after == before + {id};
    } else if m[id].stage == stage {
      assert after == before - {id};
    } else {
      assert after == before;
    }
  }

  lemma ToDoAfter(s: Service, s': Service, id: nat)
    requires id in s.handlers && id in s'.handlers && s'.handlers == s.handlers[id := s'.handlers[id]]
    requires s.handlers[id].stage != s'.handlers[id].stage
    ensures ToDo(s') - |s'.creds.pending.Keys| ==
            ToDo(s) - |s.creds.pending.Keys| + Rank(s'.handlers[id].stage) - Rank(s.handlers[id].stage)
  {
    hide Count;
    forall stage: Stage
      ensures Count(s', stage) ==
              Count(s, stage) + (if s'.handlers[id].stage == stage then 1 else if s.handlers[id].stage == stage then -1 else 0)
    {
      CountAfter(s, s', id, stage);
    }
  }

  lemma BeginsAdvance(s: Service, s': Service, id: nat)
    requires InStage(s, id, Waiting) && Begun(s, s', id)
    ensures ToDo(s') < ToDo(s)
  {
    ToDoAfter(s, s', id);
    hide ToDo;
    GetView(s.creds, s.handlers[id].peer, id);
    hide C.Get;
    assert s'.creds.pending.Keys <= s.creds.pending.Keys + {s.handlers[id].peer};
    SubsetSize(s'.creds.pending.Keys, s.creds.pending.Keys + {s.handlers[id].peer});
  }

  lemma FinishAdvances(s: Service, id: nat, reply: Reply)
    requires id in s.handlers && s.handlers[id].stage != Finished
    ensures ToDo(Finish(s, id, reply)) < ToDo(s)
  {
    ToDoAfter(s, Finish(s, id, reply), id);
    hide ToDo, K.Without;
  }

  lemma RunAdvances(s: Service)
    requires Inv(s) && s.calls != []
    ensures RunNext(s).Next? && ToDo(RunNext(s).service) < ToDo(s)
  {
    RunStep(s);
    var c, s0 := s.calls[0], s.(calls := s.calls[1..]);
    SameToDo(s, s0);
    if c.Begin? {
      DueIsWaiting(s);
      BegunBy(s0, c.id);
      hide Begun, ToDo, Inv, BeginHandler;
      BeginsAdvance(s0, BeginHandler(s0, c.id), c.id);
    } else {
      GotIsAwaiting(s);
      hide Inv, ToDo;
      GotAdvances(s0, c.id, c.credentials);
    }
  }

  lemma SameToDo(s: Service, s': Service)
    requires s'.handlers == s.handlers
    ensures ToDo(s') - |s'.creds.pending.Keys| == ToDo(s) - |s.creds.pending.Keys|
  {
    forall stage: Stage
      ensures Count(s', stage) == Count(s, stage)
    {
      assert InStageNow(s'.handlers, stage) == InStageNow(s.handlers, stage);
    }
    hide Count;
  }

  lemma GotAdvances(s: Service, id: nat, credentials: C.Credentials)
    requires InStage(s, id, AwaitingCredentials)
    ensures ToDo(GotCredentials(s, id, credentials)) < ToDo(s)
  {
    hide ToDo, Finish;
    if Accepts(s.handlers[id], credentials) {
      ToDoAfter(s, SetStage(s, id, Checking), id);
    } else {
      FinishAdvances(s, id, Error);
    }
  }

  lemma EndAdvances(s: Service, s1: Service, s': Service, id: nat)
    requires DownloadEnded(s, s1, s', id)
    ensures ToDo(s') < ToDo(s)
  {
    hide ToDo, L.DoneStarts, L.Done;
    ToDoAfter(s, s1, id);
    if L.DoneStarts(s.limiters[s.handlers[id].pool]).Some? {
      ToDoAfter(s1, s', L.DoneStarts(s.limiters[s.handlers[id].pool]).value);
    }
  }

  lemma DownloadAdvances(s: Service, id: nat)
    requires Inv(s) && InStage(s, id, Downloading)
    ensures DownloadFinished(s, id).Next? && ToDo(DownloadFinished(s, id).service) < ToDo(s)
  {
    hide K.Ok, W.Ok, CountsOk, PoolsOk, CallsOk, P.Ok, ToDo;
    NextIsScheduled(s, id);
    EndedBy(s, id);
    hide DownloadFinished, DownloadEnded, L.Done;
    EndAdvances(s, SetStage(s, id, Creating)
                   .(limiters := s.limiters[s.handlers[id].pool := L.Done(s.limiters[s.handlers[id].pool])]),
                DownloadFinished(s, id).service, id);
  }

  lemma StartAdvances(s: Service, id: nat)
    requires Inv(s) && InStage(s, id, Checking)
    ensures StartDownload(s, id).Next? && ToDo(StartDownload(s, id).service) < ToDo(s)
  {
    hide K.Ok, W.Ok, CountsOk, PoolsOk, CallsOk, ToDo;
    OnePool(s, s.handlers[id].pool);
    StartedBy(s, id);
    hide StartDownload, L.Schedule;
    ToDoAfter(s, StartDownload(s, id).service, id);
  }

  lemma DeleteAdvances(s: Service, s': Service, id: nat)
    requires InStage(s, id, Finished) && s'.handlers == s.handlers - {id} && s'.creds == s.creds
    ensures ToDo(s') < ToDo(s)
  {
    hide Count;
    forall stage: Stage
      ensures Count(s', stage) == Count(s, stage) - (if stage == Finished then 1 else 0)
    {
      CountWithout(s, s', id, stage);
    }
  }

  lemma CountWithout(s: Service, s': Service, id: nat, stage: Stage)
    requires InStage(s, id, Finished) && s'.handlers == s.handlers - {id}
    ensures Count(s', stage) == Count(s, stage) - (if stage == Finished then 1 else 0)
  {
    if stage == Finished {
      assert InStageNow(s'.handlers, stage) == InStageNow(s.handlers, stage) - {id};
    } else {
      assert InStageNow(s'.handlers, stage) == InStageNow(s.handlers, stage);
    }
  }

  lemma ReplyAdvances(s: Service, s': Service, peer: nat)
    requires s'.handlers == s.handlers && peer in s.creds.pending && s'.creds.pending == s.creds.pending - {peer}
    ensures ToDo(s') < ToDo(s)
  {
    SameToDo(s, s');
    hide ToDo;
    assert s'.creds.pending.Keys == s.creds.pending.Keys - {peer};
  }

  predicate Arrival(a: Action) {
    a.Request? || a.AdminBegin? || a.AdminEnd?
  }

  /** Every step that is not an arrival brings the service closer to having answered everything. */
  lemma StepAdvances(s: Service, a: Action)
    requires Inv(s) && Enabled(s, a) && !Arrival(a)
    ensures Step(s, a).Next? && ToDo(Step(s, a).service) < ToDo(s)
  {
    hide Inv, ToDo, QueueRequest, StartDownload, DownloadFinished, Finish, RunNext, DeleteHandler, C.Received;
    match a
    case CredentialsReply(peer, credentials) => ReplyStepAdvances(s, peer, credentials);
    case CheckDone(id, result) => CheckAdvances(s, id, result);
    case DownloadDone(id) => DownloadAdvances(s, id);
    case CreateDone(id, ok) => FinishAdvances(s, id, if ok then Thumbnail else Error);
    case Delete(id) =>
      DeleteStep(s, id);
      DeleteStepAdvances(s, id);
    case RunCall => RunAdvances(s);
  }

  lemma CheckAdvances(s: Service, id: nat, result: CheckResult)
    requires Inv(s) && Enabled(s, CheckDone(id, result))
    ensures Step(s, CheckDone(id, result)).Next? && ToDo(Step(s, CheckDone(id, result)).service) < ToDo(s)
  {
    hide Inv, ToDo, StartDownload, Finish;
    if result == NeedsDownload {
      StartAdvances(s, id);
    } else {
      FinishAdvances(s, id, if result == Found then Thumbnail else Error);
    }
  }

  lemma ReplyStepAdvances(s: Service, peer: nat, credentials: C.Credentials)
    requires Enabled(s, CredentialsReply(peer, credentials))
    ensures ToDo(Step(s, CredentialsReply(peer, credentials)).service) < ToDo(s)
  {
    hide ToDo;
    ReplyAdvances(s, Step(s, CredentialsReply(peer, credentials)).service, peer);
  }

  lemma DeleteStepAdvances(s: Service, id: nat)
    requires InStage(s, id, Finished) && s.handlers[id].pool in s.limiters
    ensures ToDo(DeleteHandler(s, id)) < ToDo(s)
  {
    hide ToDo;
    DeleteAdvances(s, DeleteHandler(s, id), id);
  }

  /**
    Without new arrivals a run is short; and by QuietMeansDone it can stop only when all have
    finished. So every request is answered if the daemon, the pools and the downloads answer.
   */
  lemma {:induction false} RunsEnd(s: Service, actions: seq<Action>)
    requires Inv(s) && Orderly(s, actions) && forall i :: 0 <= i < |actions| ==> !Arrival(actions[i])
    ensures |actions| <= ToDo(s)
    decreases |actions|
  {
    hide Inv, Step, Enabled, FinishesAtOnce, ToDo;
    if actions != [] {
      StepKeepsInv(s, actions[0]);
      StepAdvances(s, actions[0]);
      RunsEnd(Step(s, actions[0]).service, actions[1..]);
    }
  }
}
