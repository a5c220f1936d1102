/**
  What clients are answered: the reply that a handler sends is the one that its own call of
  thumbnail() calls for, and an image that is sent has the size that the source gives.
 */
module ServedReplies {
  import opened Common
  import opened Scaling
  import Q = CacheLookup
  import S = ServiceProtocol
  import opened ServedLookup

  function RepliesOf(y: System, id: nat): seq<S.Reply>
    requires id in y.service.handlers
  {
    y.service.handlers[id].replies
  }

  /** A check that found nothing, but may after a download. */
  predicate MustDownload(y: System, id: nat)
    requires id in y.results
  {
    S.InStage(y.service, id, S.Checking) && y.results[id] == Q.Empty(Q.NeedsDownload)
  }

  /**
    When the result of a handler's call is delivered, the client is sent the thumbnail exactly
    if there is an image, nothing exactly if a check asks for a download, and an error in every
    other case: no artwork, a failure, an exception, or still no image after the download.
   */
  lemma DeliveryAnswers(y: System, sources: string -> Q.Source, id: nat)
    requires Inv(y) && Can(y, sources, Deliver(id))
    ensures var y' := Next(y, sources, Deliver(id));
            && id in y.service.handlers && id in y'.service.handlers && id !in y'.results
            && RepliesOf(y', id) == RepliesOf(y, id) +
                 (if y.results[id].Image? then [S.Thumbnail] else if MustDownload(y, id) then [] else [S.Error])
            && (MustDownload(y, id) <==> y'.service.handlers[id].stage in {S.Scheduled, S.Downloading})
            && (!MustDownload(y, id) <==> y'.service.handlers[id].stage == S.Finished)
  {
    hide S.Inv, S.Step;
    assert ResultOk(y, id);
    S.WhoIsAnswered(y.service, Delivery(y, id), id);
    S.StageFollows(y.service, Delivery(y, id), id);
  }

  /** Nothing else that happens sends a thumbnail to the handler's client. */
  lemma OnlyDeliveryShows(y: System, sources: string -> Q.Source, e: Event, id: nat)
    requires Inv(y) && Can(y, sources, e) && e != Deliver(id)
    ensures var y' := Next(y, sources, e);
            id in y'.service.handlers ==>
              if id in y.service.handlers then
                RepliesOf(y', id) == RepliesOf(y, id) || (e.Serve? && RepliesOf(y', id) == RepliesOf(y, id) + [S.Error])
              else e.Request? && e.id == id && id !in y.service.ever && RepliesOf(y', id) == []
  {
    hide S.Inv, S.Step, Q.Thumbnail;
    match e
    case Request(i, h, _) => ServiceAnswers(y, sources, e, S.Request(i, h), id);
    case Deliver(i) => ServiceAnswers(y, sources, e, Delivery(y, i), id);
    case Serve(a) => ServiceAnswers(y, sources, e, a, id);
    case Compute(_, _, _) =>
    case Depart(_) =>
  }

  lemma ServiceAnswers(y: System, sources: string -> Q.Source, e: Event, a: S.Action, id: nat)
    requires Inv(y) && Can(y, sources, e) && e != Deliver(id) && (e.Request? || e.Deliver? || e.Serve?)
    requires Takes(y.service, a) && (e.Request? ==> a == S.Request(e.id, e.handler))
    requires e.Deliver? ==> a == Delivery(y, e.id)
    requires e.Serve? ==> a == e.action
    requires Next(y, sources, e).service == S.Step(y.service, a).service
    ensures var y' := Next(y, sources, e);
            id in y'.service.handlers ==>
              if id in y.service.handlers then
                RepliesOf(y', id) == RepliesOf(y, id) || (e.Serve? && RepliesOf(y', id) == RepliesOf(y, id) + [S.Error])
              else e.Request? && e.id == id && id !in y.service.ever && RepliesOf(y', id) == []
  {
    hide S.Inv, S.Step, Next;
    if id in S.Step(y.service, a).service.handlers {
      if id in y.service.handlers {
        GoneWhenDeleted(y.service, a, id);
        S.WhoIsAnswered(y.service, a, id);
      } else {
        S.NewHandlers(y.service, a, id);
      }
    }
  }

  lemma GoneWhenDeleted(s: S.Service, a: S.Action, id: nat)
    requires Takes(s, a) && id in S.Step(s, a).service.handlers
    ensures a != S.Delete(id)
  {
  }

  // ---- Over whole runs ----

  /** What the handler's last call returned, if that has not been delivered yet. */
  function Pending(y: System, id: nat): Option<Q.Result> {
    if id in y.results then Some(y.results[id]) else None
  }

  /**
    The image that has been delivered to the handler, if one has: from the calls of thumbnail()
    made for it and the deliveries alone. `pending` is what its last call returned.
   */
  function Delivered(y: System, sources: string -> Q.Source, events: seq<Event>, id: nat, pending: Option<Q.Result>): Option<Size>
    requires Runs(y, sources, events)
    decreases |events|
  {
    if events == [] then None
    else
      var e := events[0];
      var y' := Next(y, sources, e);
      match e
      case Compute(i, _, _) =>
        Delivered(y', sources, events[1..], id, if i == id then Some(Called(y, sources, e).1) else pending)
      case Deliver(i) =>
        if i != id then Delivered(y', sources, events[1..], id, pending)
        else if pending.Some? && pending.value.Image? then Some(pending.value.size)
        else Delivered(y', sources, events[1..], id, None)
      case _ => Delivered(y', sources, events[1..], id, pending)
  }

  /** Whether the handler's client has been sent a thumbnail, if the handler still exists. */
  predicate Shown(y: System, id: nat) {
    id in y.service.handlers && S.Thumbnail in RepliesOf(y, id)
  }

  lemma EverStays(s: S.Service, a: S.Action, id: nat)
    requires Takes(s, a) && id in s.ever
    ensures id in S.Step(s, a).service.ever
  {
    hide S.QueueRequest, S.StartDownload, S.DownloadFinished, S.GotCredentials, S.BeginHandler;
    hide S.L.Cancel, S.C.Received, S.K.Without;
    match a
    case Request(i, h) => QueueEver(s, i, h, id);
    case CheckDone(i, _) => DownloadEver(s, i, id);
    case DownloadDone(i) => DownloadEver(s, i, id);
    case RunCall => CallEver(s, id);
    case _ =>
  }

  lemma QueueEver(s: S.Service, i: nat, h: S.Handler, id: nat)
    requires S.Enabled(s, S.Request(i, h)) && S.QueueRequest(s, i, h).Next? && id in s.ever
    ensures id in S.QueueRequest(s, i, h).service.ever
  {
    if S.K.At(s.chains, h.key) == [] {
      S.FirstBy(s, i, h);
      hide S.QueueRequest, S.C.Get, S.C.Answer;
    }
  }

  lemma DownloadEver(s: S.Service, i: nat, id: nat)
    requires i in s.handlers && id in s.ever
    ensures S.StartDownload(s, i).Next? ==> id in S.StartDownload(s, i).service.ever
    ensures S.DownloadFinished(s, i).Next? ==> id in S.DownloadFinished(s, i).service.ever
  {
    hide S.L.Schedule, S.L.Done;
  }

  lemma CallEver(s: S.Service, id: nat)
    requires s.calls != [] && S.RunNext(s).Next? && id in s.ever
    ensures id in S.RunNext(s).service.ever
  {
    hide S.C.Get, S.K.Without;
  }

  lemma HandlerIsEver(y: System, id: nat)
    requires Inv(y) && id in y.service.handlers
    ensures id in y.service.ever
  {
    hide S.Inv;
    if id !in y.service.ever {
      S.RequestIsNew(y.service, id);
    }
  }

  lemma NextKeepsEver(y: System, sources: string -> Q.Source, e: Event, id: nat)
    requires Can(y, sources, e) && id in y.service.ever
    ensures id in Next(y, sources, e).service.ever
  {
    hide S.Step, Q.Thumbnail;
    match e
    case Request(i, h, _) => EverStays(y.service, S.Request(i, h), id);
    case Deliver(i) => EverStays(y.service, Delivery(y, i), id);
    case Serve(a) => EverStays(y.service, a, id);
    case Compute(_, _, _) =>
    case Depart(_) =>
  }

  /** A handler that is gone does not come back. */
  lemma {:induction false} GoneStays(y: System, sources: string -> Q.Source, events: seq<Event>, id: nat)
    requires Inv(y) && Runs(y, sources, events) && id in y.service.ever && id !in y.service.handlers
    ensures id !in Run(y, sources, events).service.handlers
    decreases |events|
  {
    hide Inv, Can, Next;
    if events != [] {
      var e := events[0];
      NextKeepsInv(y, sources, e);
      NextKeepsEver(y, sources, e, id);
      NotBack(y, sources, e, id);
      GoneStays(Next(y, sources, e), sources, events[1..], id);
    }
  }

  lemma NotBack(y: System, sources: string -> Q.Source, e: Event, id: nat)
    requires Inv(y) && Can(y, sources, e) && id in y.service.ever && id !in y.service.handlers
    ensures id !in Next(y, sources, e).service.handlers
  {
    hide S.Inv, Next;
    assert ResultOk(y, id);
    if e != Deliver(id) {
      OnlyDeliveryShows(y, sources, e, id);
    }
  }

  /** One event: an image that is delivered to the handler is shown, and nothing else is. */
  lemma ShownFollows(y: System, sources: string -> Q.Source, e: Event, id: nat)
    requires Inv(y) && Can(y, sources, e) && id in Next(y, sources, e).service.handlers
    ensures Shown(Next(y, sources, e), id) <==>
              Shown(y, id) || (e == Deliver(id) && Pending(y, id).Some? && Pending(y, id).value.Image?)
  {
    hide S.Inv, Next;
    if e == Deliver(id) {
      assert id in y.results;
      DeliveryAnswers(y, sources, id);
    } else {
      OnlyDeliveryShows(y, sources, e, id);
    }
  }

  /** What is pending after an event: a call's result until it is delivered. */
  lemma PendingFollows(y: System, sources: string -> Q.Source, e: Event, id: nat)
    requires Can(y, sources, e)
    ensures Pending(Next(y, sources, e), id) ==
            match e
            case Compute(i, _, _) => if i == id then Some(Called(y, sources, e).1) else Pending(y, id)
            case Deliver(i) => if i == id then None else Pending(y, id)
            case _ => Pending(y, id)
  {
    hide S.Step, Q.Thumbnail;
  }

  /**
    Over whole runs: a handler's client has been sent a thumbnail exactly if a call of
    thumbnail() made for that handler returned an image that was delivered to it.
   */
  lemma {:induction false} ShownIffDelivered(y: System, sources: string -> Q.Source, events: seq<Event>, id: nat)
    requires Inv(y) && Runs(y, sources, events)
    ensures var y' := Run(y, sources, events);
            id in y'.service.handlers ==>
              (Shown(y', id) <==> Shown(y, id) || Delivered(y, sources, events, id, Pending(y, id)).Some?)
    decreases |events|
  {
    if events != [] {
      var e := events[0];
      hide Inv, Can, Next, Called, Shown;
      NextKeepsInv(y, sources, e);
      PendingFollows(y, sources, e, id);
      var y' := Next(y, sources, e);
      if id in y'.service.handlers {
        ShownFollows(y, sources, e, id);
        ShownIffDelivered(y', sources, events[1..], id);
      } else if id in y'.service.ever {
        GoneStays(y', sources, events[1..], id);
      } else {
        NotYetShown(y, sources, e, id);
        ShownIffDelivered(y', sources, events[1..], id);
      }
    }
  }

  lemma NotYetShown(y: System, sources: string -> Q.Source, e: Event, id: nat)
    requires Inv(y) && Can(y, sources, e) && id !in Next(y, sources, e).service.ever
    ensures !Shown(y, id) && !Shown(Next(y, sources, e), id) && Pending(y, id) == None
  {
    hide S.Inv, Next;
    NextKeepsInv(y, sources, e);
    assert ResultOk(y, id);
    if id in y.service.handlers {
      HandlerIsEver(y, id);
      NextKeepsEver(y, sources, e, id);
    }
    if id in Next(y, sources, e).service.handlers {
      HandlerIsEver(Next(y, sources, e), id);
    }
  }

  // ---- And it is the right image ----

  /** The image, if the call returned one, is what the source gives for the size that was requested. */
  predicate RightFor(y: System, sources: string -> Q.Source, id: nat, r: Q.Result)
    requires id in y.service.handlers && id in y.sizes && y.lookup.maxSize >= 1
  {
    r.Image? ==>
      && IsValid(y.sizes[id])
      && Q.Expected(sources(y.service.handlers[id].key), TargetSize(y.sizes[id], y.lookup.maxSize), y.lookup.maxSize)
         == Some(r.size)
  }

  ghost predicate ResultRight(y: System, sources: string -> Q.Source, id: nat)
    requires Inv(y)
  {
    id in y.results ==> id in y.service.handlers && RightFor(y, sources, id, y.results[id])
  }

  ghost predicate AllRight(y: System, sources: string -> Q.Source) {
    Inv(y) && Q.Inv(y.lookup, sources) && forall id: nat :: ResultRight(y, sources, id)
  }

  /** What was asked of a handler does not change while it exists. */
  lemma RequestStays(y: System, sources: string -> Q.Source, e: Event, id: nat)
    requires Inv(y) && Can(y, sources, e) && id in y.service.handlers && id in Next(y, sources, e).service.handlers
    ensures var y' := Next(y, sources, e);
            && id in y.sizes && id in y'.sizes && y'.sizes[id] == y.sizes[id]
            && y'.service.handlers[id].key == y.service.handlers[id].key
            && y'.lookup.maxSize == y.lookup.maxSize
  {
    hide S.Inv, S.Step, Q.Thumbnail;
    match e
    case Request(i, h, _) =>
      S.RequestIsNew(y.service, i);
      S.StageFollows(y.service, S.Request(i, h), id);
    case Deliver(i) =>
      GoneWhenDeleted(y.service, Delivery(y, i), id);
      S.StageFollows(y.service, Delivery(y, i), id);
    case Serve(a) =>
      GoneWhenDeleted(y.service, a, id);
      S.StageFollows(y.service, a, id);
    case Compute(i, reply, now) =>
      var key := y.service.handlers[i].key;
      Q.ThumbnailKeepsSize(y.lookup, sources(key), key, y.sizes[i], reply, now);
    case Depart(op) => Q.ApplyKeepsSize(y.lookup, sources, op);
  }

  lemma CalledRight(y: System, sources: string -> Q.Source, e: Event)
    requires Inv(y) && Q.Inv(y.lookup, sources) && Can(y, sources, e) && e.Compute?
    ensures RightFor(y, sources, e.id, Called(y, sources, e).1)
  {
    var key := y.service.handlers[e.id].key;
    Q.CallKeepsInv(y.lookup, sources, key, y.sizes[e.id], e.reply, e.now);
    hide Q.Thumbnail, Q.Expected, Q.Inv, S.Inv;
  }

  lemma LookupStaysRight(y: System, sources: string -> Q.Source, e: Event)
    requires Inv(y) && Q.Inv(y.lookup, sources) && Can(y, sources, e)
    ensures Q.Inv(Next(y, sources, e).lookup, sources)
  {
    hide Q.Thumbnail, Q.Inv, S.Inv, S.Step, Q.Apply;
    match e
    case Compute(id, reply, now) =>
      var key := y.service.handlers[id].key;
      Q.CallKeepsInv(y.lookup, sources, key, y.sizes[id], reply, now);
    case Depart(op) => Q.ApplyKeepsInv(y.lookup, sources, op);
    case _ =>
  }

  lemma NextKeepsRight(y: System, sources: string -> Q.Source, e: Event)
    requires AllRight(y, sources) && Can(y, sources, e)
    ensures AllRight(Next(y, sources, e), sources)
  {
    NextKeepsInv(y, sources, e);
    LookupStaysRight(y, sources, e);
    var y' := Next(y, sources, e);
    hide S.Inv, Q.Inv, Next, Q.Expected, Q.Thumbnail;
    forall id: nat
      ensures ResultRight(y', sources, id)
    {
      if id in y'.results {
        assert ResultOk(y', id);
        ResultStaysRight(y, sources, e, id);
      }
    }
  }

  lemma ResultStaysRight(y: System, sources: string -> Q.Source, e: Event, id: nat)
    requires AllRight(y, sources) && Can(y, sources, e) && id in Next(y, sources, e).results
    requires Inv(Next(y, sources, e)) && id in Next(y, sources, e).service.handlers
    ensures ResultRight(Next(y, sources, e), sources, id)
  {
    assert ResultRight(y, sources, id);
    PendingFollows(y, sources, e, id);
    hide S.Inv, Q.Inv, Next, Q.Expected, Called;
    if e.Compute? && e.id == id {
      CalledRight(y, sources, e);
    }
    RequestStays(y, sources, e, id);
  }

  lemma {:induction false} RequestStaysInRun(y: System, sources: string -> Q.Source, events: seq<Event>, id: nat)
    requires Inv(y) && Runs(y, sources, events) && id in y.service.handlers && id in Run(y, sources, events).service.handlers
    ensures var y' := Run(y, sources, events);
            && id in y.sizes && id in y'.sizes && y'.sizes[id] == y.sizes[id]
            && y'.service.handlers[id].key == y.service.handlers[id].key
            && y'.lookup.maxSize == y.lookup.maxSize
    decreases |events|
  {
    if events != [] {
      var e := events[0];
      HandlerIsEver(y, id);
      hide Can, Next;
      NextKeepsInv(y, sources, e);
      NextKeepsEver(y, sources, e, id);
      var y' := Next(y, sources, e);
      if id !in y'.service.handlers {
        GoneStays(y', sources, events[1..], id);
      }
      RequestStays(y, sources, e, id);
      hide Inv;
      RequestStaysInRun(y', sources, events[1..], id);
    }
  }

  /** What the first request with this name asked for: the key and the size. */
  function AskedFor(events: seq<Event>, id: nat): Option<(string, Size)> {
    if events == [] then None
    else if events[0].Request? && events[0].id == id then Some((events[0].handler.key, events[0].requested))
    else AskedFor(events[1..], id)
  }

  lemma RequestIsNoted(y: System, sources: string -> Q.Source, e: Event)
    requires Inv(y) && Can(y, sources, e) && e.Request? && e.id in Next(y, sources, e).service.handlers
    ensures var y' := Next(y, sources, e);
            y'.service.handlers[e.id].key == e.handler.key && e.id in y'.sizes && y'.sizes[e.id] == e.requested
  {
    hide S.Inv, S.Step;
    RequestIsNew(y.service, e.id, e.handler);
    S.NewHandlers(y.service, S.Request(e.id, e.handler), e.id);
  }

  /** A handler that exists works for the key and the size that its request asked for. */
  lemma {:induction false} HandlersAreAsked(y: System, sources: string -> Q.Source, events: seq<Event>, id: nat)
    requires Inv(y) && Runs(y, sources, events) && id !in y.service.handlers
    ensures var y' := Run(y, sources, events);
            id in y'.service.handlers ==>
              id in y'.sizes && AskedFor(events, id) == Some((y'.service.handlers[id].key, y'.sizes[id]))
    decreases |events|
  {
    if events != [] {
      var e := events[0];
      hide Inv, Can, Next;
      NextKeepsInv(y, sources, e);
      var y' := Next(y, sources, e);
      if id in Run(y, sources, events).service.handlers {
        if id in y'.service.handlers {
          NewIsRequested(y, sources, e, id);
          RequestIsNoted(y, sources, e);
          RequestStaysInRun(y', sources, events[1..], id);
        } else if e.Request? && e.id == id {
          RequestedIsEver(y, sources, e);
          GoneStays(y', sources, events[1..], id);
        } else {
          HandlersAreAsked(y', sources, events[1..], id);
        }
      }
    }
  }

  lemma NewIsRequested(y: System, sources: string -> Q.Source, e: Event, id: nat)
    requires Inv(y) && Can(y, sources, e) && id !in y.service.handlers && id in Next(y, sources, e).service.handlers
    ensures e.Request? && e.id == id
  {
    assert ResultOk(y, id);
    hide S.Inv, Next;
    if e != Deliver(id) {
      OnlyDeliveryShows(y, sources, e, id);
    }
  }

  lemma RequestedIsEver(y: System, sources: string -> Q.Source, e: Event)
    requires Can(y, sources, e) && e.Request?
    ensures e.id in Next(y, sources, e).service.ever
  {
    if S.K.At(y.service.chains, e.handler.key) == [] {
      S.FirstBy(y.service, e.id, e.handler);
      hide S.QueueRequest, S.C.Get, S.C.Answer;
    }
  }

  lemma {:induction false} DeliveredIsRight(y: System, sources: string -> Q.Source, events: seq<Event>, id: nat)
    requires AllRight(y, sources) && Runs(y, sources, events) && id in Run(y, sources, events).service.handlers
    ensures Inv(Run(y, sources, events)) && id in Run(y, sources, events).sizes
    ensures var y', image := Run(y, sources, events), Delivered(y, sources, events, id, Pending(y, id));
            image.Some? ==>
              && IsValid(y'.sizes[id])
              && Q.Expected(sources(y'.service.handlers[id].key),
                            TargetSize(y'.sizes[id], y'.lookup.maxSize), y'.lookup.maxSize) == image
    decreases |events|
  {
    RunKeepsInv(y, sources, events);
    if events != [] {
      var e := events[0];
      if e == Deliver(id) && Pending(y, id).Some? && Pending(y, id).value.Image? {
        assert ResultRight(y, sources, id);
        hide S.Inv, Next, Can, Q.Inv, Run;
        RequestStaysInRun(y, sources, events, id);
      } else {
        PendingFollows(y, sources, e, id);
        NextKeepsRight(y, sources, e);
        hide AllRight, Inv, Next, Can, Called, Q.Expected;
        DeliveredIsRight(Next(y, sources, e), sources, events[1..], id);
      }
    }
  }

  /**
    The service from its start, with empty image caches. In every run, a handler that exists
    works for the key and the size that its request asked for, and its client has been sent a
    thumbnail exactly if a call of thumbnail() for that handler returned an image that was
    delivered. The image has the size that the source of that key gives for that size, whatever
    other requests, evictions and clears came between.
   */
  lemma ClientsAreShownTheirImages(maxDownloads: nat, maxExtractions: nat, lookup: Q.Lookup, sources: string -> Q.Source,
                                   events: seq<Event>, id: nat)
    requires maxDownloads > 0 && maxExtractions > 0 && Q.StartOk(lookup)
    requires Runs(NewSystem(maxDownloads, maxExtractions, lookup), sources, events)
    ensures var start := NewSystem(maxDownloads, maxExtractions, lookup);
            var y, image := Run(start, sources, events), Delivered(start, sources, events, id, None);
            id in y.service.handlers ==>
              && AskedFor(events, id).Some? && y.lookup.maxSize == lookup.maxSize
              && (S.Thumbnail in RepliesOf(y, id) <==> image.Some?)
              && var (key, requested) := AskedFor(events, id).value;
                 image.Some? ==>
                   && IsValid(requested)
                   && Q.Expected(sources(key), TargetSize(requested, lookup.maxSize), lookup.maxSize) == image
  {
    var start := NewSystem(maxDownloads, maxExtractions, lookup);
    StartRight(maxDownloads, maxExtractions, lookup, sources, id);
    assert start.lookup == lookup && start.service.handlers == map[];
    hide NewSystem, Inv, AllRight, Q.Expected;
    ShownIffDelivered(start, sources, events, id);
    HandlersAreAsked(start, sources, events, id);
    MaxSizeStays(start, sources, events);
    if id in Run(start, sources, events).service.handlers {
      DeliveredIsRight(start, sources, events, id);
    }
    hide Delivered, Run, AskedFor;
  }

  lemma {:induction false} MaxSizeStays(y: System, sources: string -> Q.Source, events: seq<Event>)
    requires Inv(y) && Runs(y, sources, events)
    ensures Run(y, sources, events).lookup.maxSize == y.lookup.maxSize
    decreases |events|
  {
    if events != [] {
      hide Inv, Can, Next;
      NextKeepsInv(y, sources, events[0]);
      NextKeepsMaxSize(y, sources, events[0]);
      MaxSizeStays(Next(y, sources, events[0]), sources, events[1..]);
    }
  }

  lemma NextKeepsMaxSize(y: System, sources: string -> Q.Source, e: Event)
    requires Can(y, sources, e)
    ensures Next(y, sources, e).lookup.maxSize == y.lookup.maxSize
  {
    hide S.Step, Q.Thumbnail, Q.Apply;
    match e
    case Compute(i, reply, now) =>
      var key := y.service.handlers[i].key;
      Q.ThumbnailKeepsSize(y.lookup, sources(key), key, y.sizes[i], reply, now);
    case Depart(op) => Q.ApplyKeepsSize(y.lookup, sources, op);
    case _ =>
  }

  lemma StartRight(maxDownloads: nat, maxExtractions: nat, lookup: Q.Lookup, sources: string -> Q.Source, id: nat)
    requires maxDownloads > 0 && maxExtractions > 0 && Q.StartOk(lookup)
    ensures var start := NewSystem(maxDownloads, maxExtractions, lookup);
            AllRight(start, sources) && Pending(start, id) == None && !Shown(start, id)
  {
    NewSystemInv(maxDownloads, maxExtractions, lookup);
    hide S.Inv;
  }
}
