/**
  The service and the look-up together: check() and create() of a handler are calls of
  thumbnail() in a thread pool, and what they return decides how the handler goes on. A call
  and the delivery of its result are separate events, so calls for any keys interleave with
  everything that the service does.
 */
module ServedLookup {
  import opened Common
  import opened Scaling
  import K = KeyChains
  import Keys = CacheKeys
  import Q = CacheLookup
  import S = ServiceProtocol

  datatype System = System(
    service: S.Service,
    lookup: Q.Lookup,
    sizes: map<nat, Size>,          // the size each handler was asked for
    results: map<nat, Q.Result>)    // what pool threads have returned, not yet delivered

  datatype Event =
    | Request(id: nat, handler: S.Handler, requested: Size)
    | Compute(id: nat, reply: Q.Reply, now: int)  // a pool thread runs check() or create()
    | Deliver(id: nat)                            // checkFinished() or createFinished()
    | Serve(action: S.Action)                     // anything else that the service does
    | Depart(op: Q.Op)                            // entries leave the caches

  function NewSystem(maxDownloads: nat, maxExtractions: nat, lookup: Q.Lookup): System {
    System(S.NewService(maxDownloads, maxExtractions), lookup, map[], map[])
  }

  /** checkFinished(): an empty image means a download or an error. */
  function CheckResultOf(r: Q.Result): S.CheckResult {
    match r
    case Image(_, _) => S.Found
    case Empty(status) => if status == Q.NeedsDownload then S.NeedsDownload else S.NoArtwork
    case Threw => S.Failed
  }

  /** What the delivery of a result is for the service; create() turns an empty image into an error. */
  function Delivery(y: System, id: nat): S.Action
    requires id in y.results
  {
    if S.InStage(y.service, id, S.Checking) then S.CheckDone(id, CheckResultOf(y.results[id]))
    else S.CreateDone(id, y.results[id].Image?)
  }

  /** A check knows nothing of a download; a create comes after one. Reading a local file can fail at either time. */
  predicate ReplyFits(source: Q.Source, stage: S.Stage, reply: Q.Reply) {
    if stage == S.Checking then reply == Q.NotAsked || (reply == Q.Unreadable && (source.LocalImage? || source.LocalAudio?))
    else stage == S.Creating && reply != Q.NotAsked
  }

  predicate Takes(s: S.Service, a: S.Action) {
    S.Enabled(s, a) && S.Step(s, a).Next?
  }

  predicate Can(y: System, sources: string -> Q.Source, e: Event) {
    match e
    case Request(id, h, _) => Takes(y.service, S.Request(id, h))
    case Compute(id, reply, _) =>
      && id in y.service.handlers && id in y.sizes && id !in y.results && y.lookup.maxSize >= 1
      && ReplyFits(sources(y.service.handlers[id].key), y.service.handlers[id].stage, reply)
    case Deliver(id) => id in y.results && Takes(y.service, Delivery(y, id))
    case Serve(a) => !a.Request? && !a.CheckDone? && !a.CreateDone? && Takes(y.service, a)
    case Depart(op) => !op.Call? && y.lookup.maxSize >= 1
  }

  /** The call of thumbnail() that a Compute event is. */
  function Called(y: System, sources: string -> Q.Source, e: Event): (Q.Lookup, Q.Result)
    requires e.Compute? && Can(y, sources, e)
  {
    var key := y.service.handlers[e.id].key;
    Q.Thumbnail(y.lookup, sources(key), key, y.sizes[e.id], e.reply, e.now)
  }

  function Next(y: System, sources: string -> Q.Source, e: Event): System
    requires Can(y, sources, e)
  {
    match e
    case Request(id, h, requested) =>
      y.(service := S.Step(y.service, S.Request(id, h)).service, sizes := y.sizes[id := requested])
    case Compute(id, _, _) =>
      y.(lookup := Called(y, sources, e).0, results := y.results[id := Called(y, sources, e).1])
    case Deliver(id) => y.(service := S.Step(y.service, Delivery(y, id)).service, results := y.results - {id})
    case Serve(a) => y.(service := S.Step(y.service, a).service)
    case Depart(op) => y.(lookup := Q.Apply(y.lookup, sources, op))
  }

  // ---- Invariant ----

  ghost predicate ResultOk(y: System, id: nat) {
    id in y.results ==> S.InStage(y.service, id, S.Checking) || S.InStage(y.service, id, S.Creating)
  }

  ghost predicate Inv(y: System) {
    && S.Inv(y.service)
    && y.lookup.maxSize >= 1
    && (forall id :: id in y.service.handlers ==> id in y.sizes)
    && (forall id: nat :: ResultOk(y, id))
  }

  lemma ServiceKeepsInv(y: System, a: S.Action)
    requires S.Inv(y.service) && Takes(y.service, a)
    ensures S.Inv(S.Step(y.service, a).service)
  {
    S.StepKeepsInv(y.service, a);
  }

  /** A step of the service leaves handlers that have a result where they are, unless it is delivered. */
  lemma ResultsStay(y: System, a: S.Action, id: nat)
    requires Inv(y) && Takes(y.service, a) && id in y.results
    requires !(a.CheckDone? && a.id == id) && !(a.CreateDone? && a.id == id)
    ensures var s' := S.Step(y.service, a).service; S.InStage(s', id, S.Checking) || S.InStage(s', id, S.Creating)
  {
    hide S.Inv, S.Step;
    assert ResultOk(y, id);
    NotDeleted(y.service, a, id);
    hide S.Enabled;
    S.StageFollows(y.service, a, id);
  }

  lemma NotDeleted(s: S.Service, a: S.Action, id: nat)
    requires S.Enabled(s, a) && id in s.handlers && s.handlers[id].stage != S.Finished
    ensures a != S.Delete(id)
  {
  }

  /** A step of the service and what goes with it: a result that is delivered, a size that is noted. */
  ghost predicate Accompanies(y: System, a: S.Action, y': System)
    requires Takes(y.service, a)
  {
    && y'.service == S.Step(y.service, a).service && y'.lookup == y.lookup
    && y'.results == (if a.CheckDone? || a.CreateDone? then y.results - {a.id} else y.results)
    && y'.sizes.Keys == y.sizes.Keys + (if a.Request? then {a.id} else {})
    && (forall id :: id in y.service.handlers && id in y.sizes ==> y'.sizes[id] == y.sizes[id])
    && ((a.CheckDone? || a.CreateDone?) ==> a.id in y.results)
    && (a.CheckDone? ==> a.result == CheckResultOf(y.results[a.id]))
  }

  lemma StepAccompanies(y: System, sources: string -> Q.Source, e: Event) returns (a: S.Action)
    requires Inv(y) && Can(y, sources, e) && (e.Request? || e.Deliver? || e.Serve?)
    ensures Takes(y.service, a) && Accompanies(y, a, Next(y, sources, e))
    ensures e.Serve? ==> a == e.action
  {
    hide S.Inv, S.Step, S.Enabled;
    match e
    case Request(id, h, _) =>
      a := S.Request(id, h);
      RequestIsNew(y.service, id, h);
    case Deliver(id) => a := Delivery(y, id);
    case Serve(action) => a := action;
  }

  lemma RequestIsNew(s: S.Service, id: nat, h: S.Handler)
    requires S.Inv(s) && S.Enabled(s, S.Request(id, h))
    ensures id !in s.handlers
  {
    hide S.Inv;
    S.RequestIsNew(s, id);
  }

  lemma AccompaniedKeepsInv(y: System, a: S.Action, y': System)
    requires Inv(y) && Takes(y.service, a) && Accompanies(y, a, y')
    ensures Inv(y')
  {
    hide S.Inv, S.Step, S.Enabled;
    ServiceKeepsInv(y, a);
    forall id | id in y'.service.handlers
      ensures id in y'.sizes
    {
      if id !in y.service.handlers {
        S.NewHandlers(y.service, a, id);
      }
    }
    forall id: nat
      ensures ResultOk(y', id)
    {
      if id in y'.results {
        ResultsStay(y, a, id);
      }
    }
  }

  lemma ComputeKeepsInv(y: System, sources: string -> Q.Source, e: Event)
    requires Inv(y) && Can(y, sources, e) && e.Compute?
    ensures Inv(Next(y, sources, e))
  {
    var h := y.service.handlers[e.id];
    Q.ThumbnailKeepsSize(y.lookup, sources(h.key), h.key, y.sizes[e.id], e.reply, e.now);
    hide S.Inv, Q.Thumbnail;
    var y' := Next(y, sources, e);
    forall id: nat
      ensures ResultOk(y', id)
    {
      assert ResultOk(y, id);
    }
  }

  lemma NextKeepsInv(y: System, sources: string -> Q.Source, e: Event)
    requires Inv(y) && Can(y, sources, e)
    ensures Inv(Next(y, sources, e))
  {
    hide S.Inv, S.Step, Q.Thumbnail;
    match e
    case Request(_, _, _) =>
      var a := StepAccompanies(y, sources, e);
      AccompaniedKeepsInv(y, a, Next(y, sources, e));
    case Deliver(_) =>
      var a := StepAccompanies(y, sources, e);
      AccompaniedKeepsInv(y, a, Next(y, sources, e));
    case Serve(_) =>
      var a := StepAccompanies(y, sources, e);
      AccompaniedKeepsInv(y, a, Next(y, sources, e));
    case Compute(_, _, _) => ComputeKeepsInv(y, sources, e);
    case Depart(op) =>
      Q.ApplyKeepsSize(y.lookup, sources, op);
      forall id: nat
        ensures ResultOk(Next(y, sources, e), id)
      {
        assert ResultOk(y, id);
      }
  }

  // ---- At most one download for a key ----

  /** The handler has been told to download and has not yet been told what came of it. */
  predicate Fetching(y: System, key: string, id: nat) {
    && id in y.service.handlers && y.service.handlers[id].key == key
    && id in y.sizes && IsValid(y.sizes[id])
    && match y.service.handlers[id].stage
       case Checking => id in y.results && y.results[id] == Q.Empty(Q.NeedsDownload)
       case Scheduled => true
       case Downloading => true
       case Creating => id !in y.results
       case _ => false
  }

  /** It has been told to download, and has not finished. */
  predicate Loading(y: System, key: string, id: nat) {
    && id in y.service.handlers && y.service.handlers[id].key == key
    && match y.service.handlers[id].stage
       case Checking => id in y.results && y.results[id] == Q.Empty(Q.NeedsDownload)
       case Scheduled => true
       case Downloading => true
       case Creating => true
       case _ => false
  }

  /** The thumbnail that the handler is to make is not in the cache. */
  predicate Lacks(y: System, key: string, id: nat) {
    id in y.sizes && Keys.SizedKey(key, TargetSize(y.sizes[id], y.lookup.maxSize)) !in y.lookup.thumbs
  }

  ghost predicate Fetched(y: System, key: string) {
    exists id :: Fetching(y, key, id) && Lacks(y, key, id)
  }

  /** The downloads asked for so far are none or one; and the one is settled, or is still being made. */
  ghost predicate Account(y: System, sources: string -> Q.Source, key: string, downloads: nat) {
    && downloads <= 1
    && (downloads == 0 ==> forall id :: !Loading(y, key, id))
    && (downloads == 1 ==> Q.KeepsFullSize(sources(key)) && (Q.Settled(y.lookup, key) || Fetched(y, key)))
  }

  /** The event is a call of thumbnail() that asks for a download of the key. */
  predicate Asks(y: System, sources: string -> Q.Source, e: Event, key: string)
    requires Can(y, sources, e)
  {
    e.Compute? && y.service.handlers[e.id].key == key && Called(y, sources, e).1 == Q.Empty(Q.NeedsDownload)
  }

  /** The event is the call of create() that ends a download of the key. */
  predicate Ends(y: System, e: Event, key: string) {
    e.Compute? && S.InStage(y.service, e.id, S.Creating) && y.service.handlers[e.id].key == key
  }

  /** What the key stands for is taken out of the full-size or the failure cache, or may be. */
  predicate Forgets(e: Event, key: string) {
    e.Depart? &&
    match e.op
    case Evict(_, fulls, failures) => key in fulls || key in failures
    case Clear(caches) => caches != Q.ThumbnailCache
    case Call(_, _, _, _) => false
  }

  /** A handler that fetches goes on doing so, whatever else the service does. */
  lemma FetchingStays(y: System, a: S.Action, y': System, key: string, id: nat)
    requires Inv(y) && Takes(y.service, a) && Accompanies(y, a, y') && Fetching(y, key, id) && Lacks(y, key, id)
    ensures Fetching(y', key, id) && Lacks(y', key, id)
  {
    hide S.Inv, S.Step;
    assert ResultOk(y, id);
    NotDeleted(y.service, a, id);
    hide S.Enabled;
    S.StageFollows(y.service, a, id);
  }

  /** No handler starts to fetch without having been told to. */
  lemma LoadingWas(y: System, a: S.Action, y': System, key: string, id: nat)
    requires Inv(y) && Takes(y.service, a) && Accompanies(y, a, y') && Loading(y', key, id)
    ensures Loading(y, key, id)
  {
    hide S.Inv, S.Step;
    assert ResultOk(y, id);
    if id in y.service.handlers {
      DeletedIsGone(y, a, id);
      hide S.Enabled;
      S.StageFollows(y.service, a, id);
    } else {
      hide S.Enabled;
      S.NewHandlers(y.service, a, id);
    }
  }

  lemma DeletedIsGone(y: System, a: S.Action, id: nat)
    requires Takes(y.service, a) && id in S.Step(y.service, a).service.handlers
    ensures a != S.Delete(id)
  {
  }

  lemma ServiceKeepsAccount(y: System, sources: string -> Q.Source, a: S.Action, y': System, key: string, downloads: nat)
    requires Inv(y) && Takes(y.service, a) && Accompanies(y, a, y') && Account(y, sources, key, downloads)
    ensures Account(y', sources, key, downloads)
  {
    hide S.Inv, S.Step, S.Enabled;
    assert y'.lookup == y.lookup;
    forall id
      ensures Loading(y', key, id) ==> Loading(y, key, id)
    {
      if Loading(y', key, id) {
        LoadingWas(y, a, y', key, id);
      }
    }
    if id :| Fetching(y, key, id) && Lacks(y, key, id) {
      FetchingStays(y, a, y', key, id);
    }
  }

  lemma OtherComputeKeepsAccount(y: System, sources: string -> Q.Source, e: Event, key: string, downloads: nat)
    requires Inv(y) && Can(y, sources, e) && e.Compute? && Account(y, sources, key, downloads)
    requires y.service.handlers[e.id].key != key
    ensures Account(Next(y, sources, e), sources, key, downloads)
  {
    CallKeepsSettled(y, sources, e, key);
    OthersStay(y, sources, e, key);
    OtherFetches(y, sources, e, key);
    CallerLoadsOther(y, sources, e, key);
    hide Can, Next, Inv, Loading, Q.Settled, Fetched;
  }

  lemma CallerLoadsOther(y: System, sources: string -> Q.Source, e: Event, key: string)
    requires Can(y, sources, e) && e.Compute? && y.service.handlers[e.id].key != key
    ensures !Loading(Next(y, sources, e), key, e.id)
  {
    hide Q.Thumbnail;
  }

  lemma OtherFetches(y: System, sources: string -> Q.Source, e: Event, key: string)
    requires Can(y, sources, e) && e.Compute? && y.service.handlers[e.id].key != key
    ensures Fetched(y, key) ==> Fetched(Next(y, sources, e), key)
  {
    if id :| Fetching(y, key, id) && Lacks(y, key, id) {
      OtherStillFetches(y, sources, e, key, id);
    }
  }

  lemma OtherStillFetches(y: System, sources: string -> Q.Source, e: Event, key: string, id: nat)
    requires Can(y, sources, e) && e.Compute? && y.service.handlers[e.id].key != key
    requires Fetching(y, key, id) && Lacks(y, key, id)
    ensures Fetching(Next(y, sources, e), key, id) && Lacks(Next(y, sources, e), key, id)
  {
    var k := y.service.handlers[e.id].key;
    Q.ThumbnailKeepsSize(y.lookup, sources(k), k, y.sizes[e.id], e.reply, e.now);
    Q.CallAdds(y.lookup, sources(k), k, y.sizes[e.id], e.reply, e.now, key, TargetSize(y.sizes[id], y.lookup.maxSize));
    hide Q.Thumbnail, Keys.SizedKey;
  }

  /** The only handler for the key that is at work is the one that calls. */
  lemma FetcherIsCaller(y: System, e: Event, key: string, id: nat)
    requires Inv(y) && e.Compute? && e.id in y.service.handlers && y.service.handlers[e.id].key == key
    requires S.InStage(y.service, e.id, S.Checking) || S.InStage(y.service, e.id, S.Creating)
    requires Fetching(y, key, id)
    ensures id == e.id
  {
    hide S.Inv;
    S.OneWorkerPerKey(y.service, id, e.id);
  }

  lemma CheckKeepsAccount(y: System, sources: string -> Q.Source, e: Event, key: string, downloads: nat)
    requires Inv(y) && Can(y, sources, e) && e.Compute? && Account(y, sources, key, downloads)
    requires y.service.handlers[e.id].key == key && S.InStage(y.service, e.id, S.Checking)
    ensures Account(Next(y, sources, e), sources, key, downloads + (if Asks(y, sources, e, key) then 1 else 0))
  {
    NobodyElseFetches(y, e, key);
    var y' := Next(y, sources, e);
    OthersStay(y, sources, e, key);
    CallKeepsSettled(y, sources, e, key);
    if Asks(y, sources, e, key) {
      AskerFetches(y, sources, e, key);
    }
    hide Can, Next, Q.Settled, S.Inv, Loading, Fetching, Lacks;
    if Asks(y, sources, e, key) {
      assert Fetched(y', key);
    } else if downloads == 0 {
      forall i
        ensures !Loading(y', key, i)
      {
        NotLoading(y, sources, e, key, i);
      }
    }
  }

  lemma NobodyElseFetches(y: System, e: Event, key: string)
    requires Inv(y) && e.Compute? && e.id in y.service.handlers && y.service.handlers[e.id].key == key
    requires S.InStage(y.service, e.id, S.Checking) && e.id !in y.results
    ensures !Fetched(y, key)
  {
    hide S.Inv;
    if i :| Fetching(y, key, i) && Lacks(y, key, i) {
      FetcherIsCaller(y, e, key, i);
    }
  }

  lemma OthersStay(y: System, sources: string -> Q.Source, e: Event, key: string)
    requires Can(y, sources, e) && e.Compute?
    ensures forall i :: i != e.id ==> (Loading(Next(y, sources, e), key, i) <==> Loading(y, key, i))
  {
    hide Q.Thumbnail;
  }

  lemma NotLoading(y: System, sources: string -> Q.Source, e: Event, key: string, i: nat)
    requires Can(y, sources, e) && e.Compute? && y.service.handlers[e.id].key == key && !Asks(y, sources, e, key)
    requires S.InStage(y.service, e.id, S.Checking) && !Loading(y, key, i)
    ensures !Loading(Next(y, sources, e), key, i)
  {
    hide Q.Thumbnail;
  }

  lemma CallKeepsSettled(y: System, sources: string -> Q.Source, e: Event, key: string)
    requires Can(y, sources, e) && e.Compute?
    ensures Q.Settled(y.lookup, key) ==> Q.Settled(Next(y, sources, e).lookup, key) && !Asks(y, sources, e, key)
  {
    var k := y.service.handlers[e.id].key;
    Q.CallsOnlyAdd(y.lookup, sources(k), k, y.sizes[e.id], e.reply, e.now);
    Q.CallSettles(y.lookup, sources(k), k, y.sizes[e.id], e.reply, e.now);
    hide Q.Thumbnail;
  }

  lemma AskerFetches(y: System, sources: string -> Q.Source, e: Event, key: string)
    requires Can(y, sources, e) && Asks(y, sources, e, key) && S.InStage(y.service, e.id, S.Checking)
    ensures Q.KeepsFullSize(sources(key))
    ensures Fetching(Next(y, sources, e), key, e.id) && Lacks(Next(y, sources, e), key, e.id)
  {
    Q.AskedIsUnknown(y.lookup, sources(key), key, y.sizes[e.id], e.reply, e.now);
    hide Q.Thumbnail, Keys.SizedKey;
  }

  lemma CreateKeepsAccount(y: System, sources: string -> Q.Source, e: Event, key: string, downloads: nat)
    requires Inv(y) && Can(y, sources, e) && Ends(y, e, key) && Account(y, sources, key, downloads)
    requires Q.Settled(y.lookup, key) || Q.Definite(sources(key), e.reply)
    ensures downloads == 1 && !Asks(y, sources, e, key)
    ensures Account(Next(y, sources, e), sources, key, 1) && Q.Settled(Next(y, sources, e).lookup, key)
  {
    var id, size := e.id, y.sizes[e.id];
    assert Loading(y, key, id);
    Q.CallsOnlyAdd(y.lookup, sources(key), key, size, e.reply, e.now);
    Q.CallSettles(y.lookup, sources(key), key, size, e.reply, e.now);
    if !Q.Settled(y.lookup, key) {
      var i :| Fetching(y, key, i) && Lacks(y, key, i);
      FetcherIsCaller(y, e, key, i);
      Q.DefiniteSettles(y.lookup, sources(key), key, size, e.reply, e.now);
    }
    hide Q.Thumbnail, S.Inv, Keys.SizedKey;
  }

  /** Entries leave the caches that they are said to leave, and nothing else happens. */
  lemma DepartEffect(y: System, sources: string -> Q.Source, thumbs: set<string>, fulls: set<string>, failures: set<string>)
    requires y.lookup.maxSize >= 1
    ensures var e := Depart(Q.Evict(thumbs, fulls, failures));
            Can(y, sources, e) &&
            var y' := Next(y, sources, e);
            && y' == y.(lookup := y'.lookup) && y'.lookup.maxSize == y.lookup.maxSize && y'.lookup.backoff == y.lookup.backoff
            && y'.lookup.thumbs.Keys == y.lookup.thumbs.Keys - thumbs
            && y'.lookup.fulls.Keys == y.lookup.fulls.Keys - fulls
            && y'.lookup.failures == y.lookup.failures - failures
            && (forall k :: k in y'.lookup.thumbs ==> y'.lookup.thumbs[k] == y.lookup.thumbs[k])
            && (forall k :: k in y'.lookup.fulls ==> y'.lookup.fulls[k] == y.lookup.fulls[k])
  {
  }

  lemma DepartOnlyTakes(y: System, sources: string -> Q.Source, e: Event, key: string)
    requires Can(y, sources, e) && e.Depart? && !Forgets(e, key)
    ensures var y' := Next(y, sources, e);
            && y' == y.(lookup := y'.lookup) && y'.lookup.maxSize == y.lookup.maxSize
            && (forall k :: k in y'.lookup.thumbs ==> k in y.lookup.thumbs)
            && (Q.Settled(y'.lookup, key) <==> Q.Settled(y.lookup, key))
  {
  }

  lemma DepartKeepsAccount(y: System, sources: string -> Q.Source, e: Event, key: string, downloads: nat)
    requires Inv(y) && Can(y, sources, e) && e.Depart? && !Forgets(e, key) && Account(y, sources, key, downloads)
    ensures Account(Next(y, sources, e), sources, key, downloads)
    ensures Q.Settled(y.lookup, key) ==> Q.Settled(Next(y, sources, e).lookup, key)
  {
    DepartOnlyTakes(y, sources, e, key);
    hide S.Inv, Keys.SizedKey, Next, Can, Q.Settled;
    var y' := Next(y, sources, e);
    if downloads == 0 {
      forall id
        ensures !Loading(y', key, id)
      {
        assert !Loading(y, key, id);
      }
    }
    if id :| Fetching(y, key, id) && Lacks(y, key, id) {
      assert Fetching(y', key, id) && Lacks(y', key, id);
    }
  }

  lemma NextKeepsAccount(y: System, sources: string -> Q.Source, e: Event, key: string, downloads: nat)
    requires Inv(y) && Can(y, sources, e) && !Forgets(e, key) && Account(y, sources, key, downloads)
    requires Ends(y, e, key) ==> Q.Settled(y.lookup, key) || Q.Definite(sources(key), e.reply)
    ensures Account(Next(y, sources, e), sources, key, downloads + (if Asks(y, sources, e, key) then 1 else 0))
    ensures Q.Settled(y.lookup, key) || Ends(y, e, key) ==> Q.Settled(Next(y, sources, e).lookup, key)
  {
    hide S.Inv, S.Step, Q.Thumbnail, Account;
    match e
    case Request(_, _, _) =>
      var a := StepAccompanies(y, sources, e);
      ServiceKeepsAccount(y, sources, a, Next(y, sources, e), key, downloads);
    case Deliver(_) =>
      var a := StepAccompanies(y, sources, e);
      ServiceKeepsAccount(y, sources, a, Next(y, sources, e), key, downloads);
    case Serve(_) =>
      var a := StepAccompanies(y, sources, e);
      ServiceKeepsAccount(y, sources, a, Next(y, sources, e), key, downloads);
    case Compute(id, reply, now) =>
      var k := y.service.handlers[id].key;
      Q.CallsOnlyAdd(y.lookup, sources(k), k, y.sizes[id], reply, now);
      if k != key {
        OtherComputeKeepsAccount(y, sources, e, key, downloads);
      } else if S.InStage(y.service, id, S.Checking) {
        CheckKeepsAccount(y, sources, e, key, downloads);
      } else {
        CreateKeepsAccount(y, sources, e, key, downloads);
      }
    case Depart(_) => DepartKeepsAccount(y, sources, e, key, downloads);
  }

  lemma AccountBound(y: System, sources: string -> Q.Source, key: string, downloads: nat)
    requires Account(y, sources, key, downloads)
    ensures downloads <= 1
  {
  }

  // ---- Runs ----

  ghost predicate Runs(y: System, sources: string -> Q.Source, events: seq<Event>)
    decreases |events|
  {
    events != [] ==> Can(y, sources, events[0]) && Runs(Next(y, sources, events[0]), sources, events[1..])
  }

  /** How often a handler is told to download the key. */
  function Downloads(y: System, sources: string -> Q.Source, events: seq<Event>, key: string): nat
    requires Runs(y, sources, events)
    decreases |events|
  {
    if events == [] then 0
    else
      (if Asks(y, sources, events[0], key) then 1 else 0) + Downloads(Next(y, sources, events[0]), sources, events[1..], key)
  }

  /** The first download of the key that ends does so with an image or a failure that will not go away. */
  ghost predicate FirstEndIsDefinite(y: System, sources: string -> Q.Source, events: seq<Event>, key: string)
    requires Runs(y, sources, events)
    decreases |events|
  {
    events != [] ==>
      if Ends(y, events[0], key) then Q.Definite(sources(key), events[0].reply)
      else FirstEndIsDefinite(Next(y, sources, events[0]), sources, events[1..], key)
  }

  lemma {:induction false} AccountOfRun(y: System, sources: string -> Q.Source, events: seq<Event>, key: string, downloads: nat)
    requires Inv(y) && Runs(y, sources, events) && Account(y, sources, key, downloads)
    requires forall i :: 0 <= i < |events| ==> !Forgets(events[i], key)
    requires Q.Settled(y.lookup, key) || FirstEndIsDefinite(y, sources, events, key)
    ensures downloads + Downloads(y, sources, events, key) <= 1
    decreases |events|
  {
    if events != [] {
      var e := events[0];
      assert !Forgets(e, key);
      hide Inv, Can, Next, Asks, Forgets, Ends, Account, Q.Definite, Q.Settled;
      assert downloads <= 1 by {
        AccountBound(y, sources, key, downloads);
      }
      NextKeepsInv(y, sources, e);
      NextKeepsAccount(y, sources, e, key, downloads);
      AccountOfRun(Next(y, sources, e), sources, events[1..], key, downloads + (if Asks(y, sources, e, key) then 1 else 0));
    }
  }

  function Run(y: System, sources: string -> Q.Source, events: seq<Event>): System
    requires Runs(y, sources, events)
    decreases |events|
  {
    if events == [] then y else Run(Next(y, sources, events[0]), sources, events[1..])
  }

  lemma {:induction false} RunKeepsInv(y: System, sources: string -> Q.Source, events: seq<Event>)
    requires Inv(y) && Runs(y, sources, events)
    ensures Inv(Run(y, sources, events))
    decreases |events|
  {
    hide Inv, Can, Next;
    if events != [] {
      NextKeepsInv(y, sources, events[0]);
      RunKeepsInv(Next(y, sources, events[0]), sources, events[1..]);
    }
  }

  lemma NextKeepsSettled(y: System, sources: string -> Q.Source, e: Event, key: string)
    requires Can(y, sources, e) && Q.Settled(y.lookup, key) && !Forgets(e, key)
    ensures Q.Settled(Next(y, sources, e).lookup, key) && !Asks(y, sources, e, key)
  {
    if e.Compute? {
      hide Next, Can;
      CallKeepsSettled(y, sources, e, key);
    }
  }

  /** Once an image or a failure of the key is cached, and while it stays, no handler is told to download it. */
  lemma {:induction false} NoneOnceSettled(y: System, sources: string -> Q.Source, events: seq<Event>, key: string)
    requires Runs(y, sources, events) && Q.Settled(y.lookup, key)
    requires forall i :: 0 <= i < |events| ==> !Forgets(events[i], key)
    ensures Downloads(y, sources, events, key) == 0
    decreases |events|
  {
    hide Can, Next, Asks, Forgets, Q.Settled;
    if events != [] {
      NextKeepsSettled(y, sources, events[0], key);
      NoneOnceSettled(Next(y, sources, events[0]), sources, events[1..], key);
    }
  }

  lemma NewSystemInv(maxDownloads: nat, maxExtractions: nat, lookup: Q.Lookup)
    requires maxDownloads > 0 && maxExtractions > 0 && lookup.maxSize >= 1
    ensures Inv(NewSystem(maxDownloads, maxExtractions, lookup))
  {
    S.NewServiceInv(maxDownloads, maxExtractions);
    hide S.Inv;
  }

  predicate AtWork(s: S.Service, id: nat) {
    id in s.handlers && S.PhaseOf(s.handlers[id].stage) == K.AtWork
  }

  /** In every run, at most one handler for a key is past waiting and has not finished. */
  lemma HandlersTakeTurns(maxDownloads: nat, maxExtractions: nat, lookup: Q.Lookup, sources: string -> Q.Source,
                          events: seq<Event>, i: nat, j: nat)
    requires maxDownloads > 0 && maxExtractions > 0 && lookup.maxSize >= 1
    requires Runs(NewSystem(maxDownloads, maxExtractions, lookup), sources, events)
    ensures var s := Run(NewSystem(maxDownloads, maxExtractions, lookup), sources, events).service;
            AtWork(s, i) && AtWork(s, j) && s.handlers[i].key == s.handlers[j].key ==> i == j
  {
    NewSystemInv(maxDownloads, maxExtractions, lookup);
    RunKeepsInv(NewSystem(maxDownloads, maxExtractions, lookup), sources, events);
    var s := Run(NewSystem(maxDownloads, maxExtractions, lookup), sources, events).service;
    hide S.Inv, Run, NewSystem;
    if AtWork(s, i) && AtWork(s, j) && s.handlers[i].key == s.handlers[j].key {
      S.OneWorkerPerKey(s, i, j);
    }
  }

  /**
    The service with its look-up, from any contents of the caches: whatever is requested, in any
    interleaving, a key is downloaded at most once if the first download of it that ends does so
    definitely and its image or failure stays in the cache. No serialisation is assumed: that the
    handlers for a key take turns is what the service does.
   */
  lemma OneDownloadPerKey(maxDownloads: nat, maxExtractions: nat, lookup: Q.Lookup, sources: string -> Q.Source,
                          events: seq<Event>, key: string)
    requires maxDownloads > 0 && maxExtractions > 0 && lookup.maxSize >= 1
    requires Runs(NewSystem(maxDownloads, maxExtractions, lookup), sources, events)
    requires FirstEndIsDefinite(NewSystem(maxDownloads, maxExtractions, lookup), sources, events, key)
    requires forall i :: 0 <= i < |events| ==> !Forgets(events[i], key)
    ensures Downloads(NewSystem(maxDownloads, maxExtractions, lookup), sources, events, key) <= 1
  {
    NewSystemInv(maxDownloads, maxExtractions, lookup);
    AccountOfRun(NewSystem(maxDownloads, maxExtractions, lookup), sources, events, key, 0);
  }
}
