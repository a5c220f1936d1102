/**
  Who is served: a handler gets past its credentials check only with what the bus daemon last
  said about its own peer, and no other handler sends a thumbnail.
 */
module ServiceAccess {
  import opened Common
  import C = CredentialsCaching
  import K = KeyChains
  import L = RateLimiting
  import S = ServiceProtocol
  import W = CredentialWaits

  /** The service, what the daemon last said of each peer, and what it had said when a handler got past its check. */
  datatype World = World(service: S.Service, latest: map<nat, C.Credentials>, granted: map<nat, C.Credentials>)

  function NewWorld(maxDownloads: nat, maxExtractions: nat): World {
    World(S.NewService(maxDownloads, maxExtractions), map[], map[])
  }

  predicate Takes(s: S.Service, a: S.Action) {
    S.Enabled(s, a) && S.Step(s, a).Next?
  }

  function Latest(w: World, a: S.Action): map<nat, C.Credentials> {
    if a.CredentialsReply? then w.latest[a.peer := a.credentials] else w.latest
  }

  /** The handlers that are past their check after a step, and were not before. */
  function Passed(s: S.Service, s': S.Service): set<nat> {
    set id | id in s'.handlers && s'.handlers[id].stage == S.Checking && !S.InStage(s, id, S.Checking)
  }

  /** Whoever gets past its check does so with the last answer about its peer. */
  function Next(w: World, a: S.Action): World
    requires Takes(w.service, a)
  {
    var s', latest := S.Step(w.service, a).service, Latest(w, a);
    World(s', latest,
          w.granted + map id | id in Passed(w.service, s') && s'.handlers[id].peer in latest :: latest[s'.handlers[id].peer])
  }

  // ---- The cache and the callbacks hold the last answers ----

  ghost predicate CacheOk(c: C.Cache, latest: map<nat, C.Credentials>) {
    && c.current.Keys !! c.previous.Keys && c.current.Keys !! c.pending.Keys && c.previous.Keys !! c.pending.Keys
    && (forall p :: p in c.current ==> p in latest && latest[p] == c.current[p])
    && (forall p :: p in c.previous ==> p in latest && latest[p] == c.previous[p])
  }

  /** A callback that is about to run has been given the last answer about the handler's peer. */
  ghost predicate CallOk(s: S.Service, latest: map<nat, C.Credentials>, c: S.Call) {
    c.Got? ==> c.id in s.handlers && s.handlers[c.id].peer in latest && latest[s.handlers[c.id].peer] == c.credentials
  }

  predicate IsPast(h: S.Handler) {
    h.stage in {S.Checking, S.Scheduled, S.Downloading, S.Creating} || S.Thumbnail in h.replies
  }

  ghost predicate HandlerOk(s: S.Service, granted: map<nat, C.Credentials>, id: nat) {
    id in s.handlers && IsPast(s.handlers[id]) ==> id in granted && S.Accepts(s.handlers[id], granted[id])
  }

  ghost predicate Inv(w: World) {
    && S.Inv(w.service)
    && CacheOk(w.service.creds, w.latest)
    && (forall i :: 0 <= i < |w.service.calls| ==> CallOk(w.service, w.latest, w.service.calls[i]))
    && (forall id: nat :: HandlerOk(w.service, w.granted, id))
  }

  lemma GetKeepsCache(c: C.Cache, latest: map<nat, C.Credentials>, peer: nat, callback: nat)
    requires CacheOk(c, latest)
    ensures CacheOk(C.Get(c, peer, callback), latest)
    ensures C.Answer(c, peer).Some? ==> peer in latest && latest[peer] == C.Answer(c, peer).value
  {
  }

  lemma ReceivedKeepsCache(c: C.Cache, latest: map<nat, C.Credentials>, peer: nat, credentials: C.Credentials)
    requires CacheOk(c, latest) && peer in c.pending
    ensures CacheOk(C.Received(c, peer, credentials), latest[peer := credentials])
  {
  }

  /** How the cache changes in a step: not at all, by one get for a handler, or by a reply. */
  ghost predicate CacheStep(s: S.Service, a: S.Action, s': S.Service) {
    match a
    case CredentialsReply(peer, credentials) => peer in s.creds.pending && s'.creds == C.Received(s.creds, peer, credentials)
    case _ => s'.creds == s.creds || exists peer, id :: s'.creds == C.Get(s.creds, peer, id)
  }

  lemma StepsCache(s: S.Service, a: S.Action)
    requires S.Inv(s) && Takes(s, a)
    ensures CacheStep(s, a, S.Step(s, a).service)
  {
    hide S.Inv, S.QueueRequest, S.StartDownload, S.DownloadFinished, S.Finish, S.DeleteHandler, S.RunNext, C.Get, C.Received;
    match a
    case Request(id, h) => RequestCache(s, id, h);
    case CredentialsReply(_, _) =>
    case CheckDone(id, result) => CheckCache(s, id, result);
    case DownloadDone(id) => DownloadCache(s, id);
    case CreateDone(id, ok) => FinishCache(s, id, if ok then S.Thumbnail else S.Error);
    case Delete(id) => DeleteCache(s, id);
    case AdminBegin =>
    case AdminEnd =>
    case RunCall => CallCache(s);
  }

  lemma FinishCache(s: S.Service, id: nat, reply: S.Reply)
    requires id in s.handlers
    ensures S.Finish(s, id, reply).creds == s.creds
  {
    hide K.Without;
  }

  lemma CheckCache(s: S.Service, id: nat, result: S.CheckResult)
    requires Takes(s, S.CheckDone(id, result))
    ensures S.Step(s, S.CheckDone(id, result)).service.creds == s.creds
  {
    hide S.Finish, L.Schedule;
    if result != S.NeedsDownload {
      FinishCache(s, id, if result == S.Found then S.Thumbnail else S.Error);
    }
  }

  lemma DownloadCache(s: S.Service, id: nat)
    requires id in s.handlers && S.DownloadFinished(s, id).Next?
    ensures S.DownloadFinished(s, id).service.creds == s.creds
  {
    hide L.Done, L.DoneStarts;
  }

  lemma DeleteCache(s: S.Service, id: nat)
    requires id in s.handlers && s.handlers[id].pool in s.limiters
    ensures S.DeleteHandler(s, id).creds == s.creds
  {
    hide L.Cancel;
  }

  lemma CallCache(s: S.Service)
    requires s.calls != [] && S.RunNext(s).Next?
    ensures var s' := S.RunNext(s).service; s'.creds == s.creds || exists peer, id :: s'.creds == C.Get(s.creds, peer, id)
  {
    var c, s0 := s.calls[0], s.(calls := s.calls[1..]);
    if c.Begin? {
      S.BegunBy(s0, c.id);
      hide S.BeginHandler, C.Get, C.Answer;
    } else {
      FinishCache(s0, c.id, S.Error);
      hide S.Finish;
    }
  }

  lemma RequestCache(s: S.Service, id: nat, h: S.Handler)
    requires S.Enabled(s, S.Request(id, h)) && S.QueueRequest(s, id, h).Next?
    ensures var s' := S.QueueRequest(s, id, h).service; s'.creds == s.creds || s'.creds == C.Get(s.creds, h.peer, id)
  {
    if K.At(s.chains, h.key) == [] {
      S.FirstBy(s, id, h);
      hide S.QueueRequest, C.Get, C.Answer;
    }
  }

  lemma StepKeepsCache(w: World, a: S.Action)
    requires Inv(w) && Takes(w.service, a)
    ensures CacheOk(S.Step(w.service, a).service.creds, Latest(w, a))
  {
    var s, s' := w.service, S.Step(w.service, a).service;
    hide S.Inv;
    StepsCache(s, a);
    hide S.Step, S.Enabled, C.Get, C.Received;
    if a.CredentialsReply? {
      ReceivedKeepsCache(s.creds, w.latest, a.peer, a.credentials);
    } else if s'.creds != s.creds {
      var peer, id :| s'.creds == C.Get(s.creds, peer, id);
      GetKeepsCache(s.creds, w.latest, peer, id);
    }
  }

  // ---- Callbacks ----

  /** Where a callback that is about to run comes from. */
  ghost predicate CallSource(s: S.Service, a: S.Action, c: S.Call)
    requires c.Got?
  {
    c.id in s.handlers &&
    match a
    case RunCall => c in s.calls || C.Answer(s.creds, s.handlers[c.id].peer) == Some(c.credentials)
    case CredentialsReply(peer, credentials) => s.handlers[c.id].peer == peer && c.credentials == credentials
    case _ => false
  }

  lemma StepCalls(s: S.Service, a: S.Action, i: nat)
    requires S.Inv(s) && Takes(s, a) && i < |S.Step(s, a).service.calls| && S.Step(s, a).service.calls[i].Got?
    ensures CallSource(s, a, S.Step(s, a).service.calls[i])
  {
    hide S.Inv, S.QueueRequest, S.StartDownload, S.DownloadFinished, S.Finish, S.DeleteHandler, S.RunNext, C.Received;
    assert S.Step(s, a).service.calls[i] in S.Step(s, a).service.calls;
    match a
    case Request(id, h) => RequestCalls(s, id, h);
    case CredentialsReply(peer, credentials) =>
      InvWaits(s);
      ReplyCalls(s, peer, credentials, i);
    case CheckDone(id, result) => CheckCalls(s, id, result);
    case DownloadDone(id) => DownloadCalls(s, id);
    case CreateDone(id, ok) => FinishCalls(s, id, if ok then S.Thumbnail else S.Error);
    case Delete(id) => DeleteCalls(s, id);
    case AdminBegin =>
    case AdminEnd =>
    case RunCall => RunCalls(s, i);
  }

  lemma InvWaits(s: S.Service)
    requires S.Inv(s)
    ensures W.Ok(S.WaitView(s))
  {
  }

  lemma FinishCalls(s: S.Service, id: nat, reply: S.Reply)
    requires id in s.handlers && s.calls == []
    ensures forall c :: c in S.Finish(s, id, reply).calls ==> c.Begin?
  {
    hide K.Without;
  }

  lemma CheckCalls(s: S.Service, id: nat, result: S.CheckResult)
    requires Takes(s, S.CheckDone(id, result))
    ensures forall c :: c in S.Step(s, S.CheckDone(id, result)).service.calls ==> c.Begin?
  {
    hide S.Finish, L.Schedule;
    if result != S.NeedsDownload {
      FinishCalls(s, id, if result == S.Found then S.Thumbnail else S.Error);
    }
  }

  lemma DownloadCalls(s: S.Service, id: nat)
    requires id in s.handlers && S.DownloadFinished(s, id).Next?
    ensures S.DownloadFinished(s, id).service.calls == s.calls
  {
    hide L.Done, L.DoneStarts;
  }

  lemma DeleteCalls(s: S.Service, id: nat)
    requires id in s.handlers && s.handlers[id].pool in s.limiters
    ensures S.DeleteHandler(s, id).calls == s.calls
  {
    hide L.Cancel;
  }

  lemma RequestCalls(s: S.Service, id: nat, h: S.Handler)
    requires S.Enabled(s, S.Request(id, h)) && S.QueueRequest(s, id, h).Next?
    ensures S.QueueRequest(s, id, h).service.calls == s.calls == []
  {
    if K.At(s.chains, h.key) == [] {
      S.FirstBy(s, id, h);
      hide S.QueueRequest, C.Get, C.Answer;
    }
  }

  lemma ReplyCalls(s: S.Service, peer: nat, credentials: C.Credentials, i: nat)
    requires W.Ok(S.WaitView(s)) && peer in s.creds.pending && i < |s.creds.pending[peer]|
    ensures var id := s.creds.pending[peer][i]; id in s.handlers && s.handlers[id].peer == peer
  {
    assert W.HeldOk(S.WaitView(s), peer);
    hide W.Ok;
  }

  lemma RunCalls(s: S.Service, i: nat)
    requires S.Inv(s) && s.calls != [] && S.RunNext(s).Next?
    requires i < |S.RunNext(s).service.calls| && S.RunNext(s).service.calls[i].Got?
    ensures CallSource(s, S.RunCall, S.RunNext(s).service.calls[i])
  {
    CallsExist(s);
    hide S.Inv, S.RunNext, C.Answer;
    if s.calls[0].Begin? {
      BeginCalls(s, i);
    } else {
      GotCalls(s, i);
    }
  }

  lemma CallsExist(s: S.Service)
    requires S.Inv(s)
    ensures forall c :: c in s.calls && c.Got? ==> c.id in s.handlers
    ensures s.calls != [] && s.calls[0].Begin? ==> S.InStage(s, s.calls[0].id, S.Waiting)
  {
    assert K.Ok(S.ChainView(s)) && W.Ok(S.WaitView(s));
    hide S.Inv, K.Ok, W.Ok;
    forall c | c in s.calls && c.Got?
      ensures c.id in s.handlers
    {
      CalledExists(s, c);
    }
    if s.calls != [] && s.calls[0].Begin? {
      S.DueIsWaiting(s);
    }
  }

  lemma BeginCalls(s: S.Service, i: nat)
    requires s.calls != [] && s.calls[0].Begin? && S.InStage(s, s.calls[0].id, S.Waiting) && S.RunNext(s).Next?
    requires i < |S.RunNext(s).service.calls|
    ensures var c := S.RunNext(s).service.calls[i];
            c in s.calls || (c.Got? && c.id in s.handlers && C.Answer(s.creds, s.handlers[c.id].peer) == Some(c.credentials))
  {
    S.BegunBy(s.(calls := s.calls[1..]), s.calls[0].id);
    hide S.BeginHandler, C.Get, C.Answer;
    assert forall j :: 1 <= j < |s.calls| ==> s.calls[j] in s.calls;
  }

  lemma GotCalls(s: S.Service, i: nat)
    requires s.calls != [] && s.calls[0].Got? && S.RunNext(s).Next?
    requires i < |S.RunNext(s).service.calls| && S.RunNext(s).service.calls[i].Got?
    ensures S.RunNext(s).service.calls[i] in s.calls
  {
    hide K.Without;
    assert forall j :: 1 <= j < |s.calls| ==> s.calls[j] in s.calls;
  }

  /** A callback that is about to run is for a handler that exists. */
  lemma CalledExists(s: S.Service, c: S.Call)
    requires W.Ok(S.WaitView(s)) && c in s.calls && c.Got?
    ensures c.id in s.handlers
  {
    AnsweredHas(s.calls, c);
    var w := S.WaitView(s);
    var i :| 0 <= i < |w.answered| && w.answered[i] == c.id;
    assert w.answered[i] in w.peers;
  }

  lemma {:induction false} AnsweredHas(calls: seq<S.Call>, c: S.Call)
    requires c in calls && c.Got?
    ensures c.id in S.Answered(calls)
  {
    if calls[0] != c {
      AnsweredHas(calls[1..], c);
    }
  }

  lemma StepKeepsCalls(w: World, a: S.Action, i: nat)
    requires Inv(w) && Takes(w.service, a) && i < |S.Step(w.service, a).service.calls|
    ensures CallOk(S.Step(w.service, a).service, Latest(w, a), S.Step(w.service, a).service.calls[i])
  {
    var s, s' := w.service, S.Step(w.service, a).service;
    var c := s'.calls[i];
    if c.Got? {
      hide S.Inv;
      StepCalls(s, a, i);
      CallIsNoDelete(s, a, c);
      hide S.Step, S.Enabled;
      S.StageFollows(s, a, c.id);
      GetKeepsCache(s.creds, w.latest, s.handlers[c.id].peer, c.id);
      if a.RunCall? && c in s.calls {
        var j :| 0 <= j < |s.calls| && s.calls[j] == c;
        assert CallOk(s, w.latest, s.calls[j]);
      }
    }
  }

  lemma CallIsNoDelete(s: S.Service, a: S.Action, c: S.Call)
    requires c.Got? && CallSource(s, a, c)
    ensures !a.Delete?
  {
  }

  // ---- Passing the check ----

  /** A handler that passes has been accepted with what its callback was given. */
  ghost predicate AcceptedBy(s: S.Service, a: S.Action, id: nat, h: S.Handler) {
    match a
    case RunCall => s.calls != [] && s.calls[0].Got? && s.calls[0].id == id && S.Accepts(h, s.calls[0].credentials)
    case Request(_, _) => C.Answer(s.creds, h.peer).Some? && S.Accepts(h, C.Answer(s.creds, h.peer).value)
    case _ => false
  }

  lemma PassedIsAccepted(s: S.Service, a: S.Action, id: nat)
    requires S.Inv(s) && Takes(s, a) && id in Passed(s, S.Step(s, a).service)
    ensures AcceptedBy(s, a, id, S.Step(s, a).service.handlers[id])
  {
    hide S.Inv;
    if id in s.handlers {
      PassedIsCalled(s, a, id);
    } else {
      hide S.Step;
      S.NewHandlers(s, a, id);
      RequestPasses(s, id, a.handler);
    }
  }

  lemma RequestPasses(s: S.Service, id: nat, h: S.Handler)
    requires Takes(s, S.Request(id, h)) && S.InStage(S.Step(s, S.Request(id, h)).service, id, S.Checking)
    ensures AcceptedBy(s, S.Request(id, h), id, S.Step(s, S.Request(id, h)).service.handlers[id])
  {
    if K.At(s.chains, h.key) == [] {
      S.FirstBy(s, id, h);
      hide S.QueueRequest, C.Get, C.Answer;
    }
  }

  lemma PassedIsCalled(s: S.Service, a: S.Action, id: nat)
    requires S.Inv(s) && Takes(s, a) && id in s.handlers && id in Passed(s, S.Step(s, a).service)
    ensures AcceptedBy(s, a, id, S.Step(s, a).service.handlers[id])
  {
    hide S.Inv, S.Step;
    NotDeleted(s, a, id);
    hide S.Enabled;
    S.StageFollows(s, a, id);
    RunPasses(s, id);
  }

  lemma NotDeleted(s: S.Service, a: S.Action, id: nat)
    requires Takes(s, a) && id in S.Step(s, a).service.handlers
    ensures a != S.Delete(id)
  {
  }

  lemma RunPasses(s: S.Service, id: nat)
    requires Takes(s, S.RunCall) && id in s.handlers && id in Passed(s, S.Step(s, S.RunCall).service)
    ensures AcceptedBy(s, S.RunCall, id, S.Step(s, S.RunCall).service.handlers[id])
  {
    var c, s0 := s.calls[0], s.(calls := s.calls[1..]);
    if c.Begin? {
      S.BegunBy(s0, c.id);
      hide S.BeginHandler, C.Get, C.Answer;
    } else {
      hide S.Finish;
      if !S.Accepts(s.handlers[c.id], c.credentials) {
        S.FinishFollows(s0, c.id, S.Error, id);
      }
    }
  }

  lemma PassedByLatest(w: World, a: S.Action, id: nat)
    requires Inv(w) && Takes(w.service, a) && id in Passed(w.service, S.Step(w.service, a).service)
    ensures var h := S.Step(w.service, a).service.handlers[id];
            h.peer in Latest(w, a) && Latest(w, a)[h.peer].valid && h.allows(Latest(w, a)[h.peer])
  {
    var s, h := w.service, S.Step(w.service, a).service.handlers[id];
    hide S.Inv, C.Get;
    PassedIsAccepted(s, a, id);
    match a
    case Request(_, _) => GetKeepsCache(s.creds, w.latest, h.peer, id);
    case RunCall =>
      assert CallOk(s, w.latest, s.calls[0]);
      hide S.Step, S.Enabled;
      S.StageFollows(s, a, id);
    case _ =>
  }

  /** What a handler that is past its check was before the step. */
  lemma PastBefore(s: S.Service, a: S.Action, id: nat)
    requires S.Inv(s) && Takes(s, a) && id in S.Step(s, a).service.handlers
    requires IsPast(S.Step(s, a).service.handlers[id]) && id !in Passed(s, S.Step(s, a).service)
    ensures id in s.handlers && IsPast(s.handlers[id])
    ensures S.Step(s, a).service.handlers[id].allows == s.handlers[id].allows
  {
    hide S.Inv, S.Step, S.Sent;
    NotDeleted(s, a, id);
    if id in s.handlers {
      SentOnlyWhenPast(s, a, id);
      hide S.Enabled, S.Accepts;
      S.StageFollows(s, a, id);
      S.WhoIsAnswered(s, a, id);
    } else {
      hide S.Enabled;
      S.NewHandlers(s, a, id);
    }
  }

  lemma SentOnlyWhenPast(s: S.Service, a: S.Action, id: nat)
    requires id in s.handlers && S.Enabled(s, a)
    ensures S.Thumbnail in S.Sent(s, a, id) ==> IsPast(s.handlers[id])
  {
  }

  lemma StepKeepsHandler(w: World, a: S.Action, id: nat)
    requires Inv(w) && Takes(w.service, a)
    ensures HandlerOk(Next(w, a).service, Next(w, a).granted, id)
  {
    hide S.Inv, S.Step, S.Enabled;
    var s, w' := w.service, Next(w, a);
    GrantedAfter(w, a, id);
    hide Next, Passed;
    if id in w'.service.handlers && IsPast(w'.service.handlers[id]) {
      if id in Passed(s, w'.service) {
        PassedByLatest(w, a, id);
      } else {
        PastBefore(s, a, id);
        assert HandlerOk(s, w.granted, id);
      }
    }
  }

  lemma GrantedAfter(w: World, a: S.Action, id: nat)
    requires Takes(w.service, a)
    ensures var w' := Next(w, a);
            && w'.service == S.Step(w.service, a).service && w'.latest == Latest(w, a)
            && (if id in Passed(w.service, w'.service) && w'.service.handlers[id].peer in w'.latest then
                  id in w'.granted && w'.granted[id] == w'.latest[w'.service.handlers[id].peer]
                else
                  id in w.granted ==> id in w'.granted && w'.granted[id] == w.granted[id])
  {
    hide S.Step, S.Enabled;
  }

  lemma NextKeepsInv(w: World, a: S.Action)
    requires Inv(w) && Takes(w.service, a)
    ensures Inv(Next(w, a))
  {
    hide S.Inv, S.Step, S.Enabled, CacheOk, CallOk, HandlerOk;
    var w' := Next(w, a);
    GrantedAfter(w, a, 0);
    hide Next;
    S.StepKeepsInv(w.service, a);
    StepKeepsCache(w, a);
    forall i | 0 <= i < |w'.service.calls|
      ensures CallOk(w'.service, w'.latest, w'.service.calls[i])
    {
      StepKeepsCalls(w, a, i);
    }
    forall id: nat
      ensures HandlerOk(w'.service, w'.granted, id)
    {
      StepKeepsHandler(w, a, id);
    }
  }

  // ---- Runs ----

  ghost predicate Runs(w: World, actions: seq<S.Action>)
    decreases |actions|
  {
    actions != [] ==> Takes(w.service, actions[0]) && Runs(Next(w, actions[0]), actions[1..])
  }

  ghost function Run(w: World, actions: seq<S.Action>): World
    requires Runs(w, actions)
    decreases |actions|
  {
    if actions == [] then w else Run(Next(w, actions[0]), actions[1..])
  }

  lemma {:induction false} RunKeepsInv(w: World, actions: seq<S.Action>)
    requires Inv(w) && Runs(w, actions)
    ensures Inv(Run(w, actions))
    decreases |actions|
  {
    hide Inv, Next, Takes;
    if actions != [] {
      NextKeepsInv(w, actions[0]);
      RunKeepsInv(Next(w, actions[0]), actions[1..]);
    }
  }

  /**
    Over every run, a handler that is past its credentials check, or has sent a thumbnail, has
    been accepted with what the daemon had last said about its own peer when it passed; and no
    other credentials are held, in the cache or by a callback about to run, than the last said.
   */
  lemma OnlyTheGrantedAreServed(maxDownloads: nat, maxExtractions: nat, actions: seq<S.Action>, id: nat)
    requires maxDownloads > 0 && maxExtractions > 0 && Runs(NewWorld(maxDownloads, maxExtractions), actions)
    ensures var w := Run(NewWorld(maxDownloads, maxExtractions), actions);
            && (id in w.service.handlers && IsPast(w.service.handlers[id]) ==>
                  id in w.granted && w.granted[id].valid && w.service.handlers[id].allows(w.granted[id]))
            && CacheOk(w.service.creds, w.latest)
            && (forall i :: 0 <= i < |w.service.calls| ==> CallOk(w.service, w.latest, w.service.calls[i]))
  {
    NewWorldInv(maxDownloads, maxExtractions);
    RunKeepsInv(NewWorld(maxDownloads, maxExtractions), actions);
    var w := Run(NewWorld(maxDownloads, maxExtractions), actions);
    hide S.Inv, Run, CacheOk, CallOk, NewWorld;
    assert HandlerOk(w.service, w.granted, id);
  }

  lemma NewWorldInv(maxDownloads: nat, maxExtractions: nat)
    requires maxDownloads > 0 && maxExtractions > 0
    ensures Inv(NewWorld(maxDownloads, maxExtractions))
  {
    S.NewServiceInv(maxDownloads, maxExtractions);
    hide S.Inv;
  }
}
