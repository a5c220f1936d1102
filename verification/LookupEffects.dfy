/**
  What a download's outcome leaves behind: for a key that no cache knows, each reply with its
  result, its mark on the caches and its mark on the backoff; and the backoff over whole runs.
 */
module LookupEffects {
  import opened Common
  import opened Scaling
  import opened CacheLookup
  import B = BackoffRules
  import Keys = CacheKeys
  import Orientation

  /** No cache answers a call for this key at this size. */
  predicate Unknown(l: Lookup, key: string, requested: Size) {
    IsValid(requested) && !Settled(l, key) && Keys.SizedKey(key, TargetSize(requested, l.maxSize)) !in l.thumbs
  }

  /** The caches are as they were. */
  predicate SameCaches(l: Lookup, l': Lookup) {
    l'.thumbs == l.thumbs && l'.fulls == l.fulls && l'.failures == l.failures && l'.maxSize == l.maxSize
  }

  /** The server has answered: a period that is over is forgotten, and one in force stays. */
  predicate Answered(b: B.Adjuster, b': B.Adjuster, now: int) {
    b' == b.(lastFail := b'.lastFail, period := b'.period) && if B.RetryOk(b, now) then b'.period == 0 else b' == b
  }

  /** The server has failed: a period that is over is doubled up to the limit, and one in force stays. */
  predicate Refrained(b: B.Adjuster, b': B.Adjuster, now: int) {
    if B.RetryOk(b, now) then
      && b'.lastFail == now && b'.min == b.min && b'.max == b.max
      && b'.period == if b.period == 0 then b.min else if 2 * b.period < b.max then 2 * b.period else b.max
    else b' == b
  }

  /**
    The outcome of a download, for a key that no cache knows. Only an image, an authoritative
    absence or a lasting error settles the key. A server that is unavailable or late and a
    network that is down leave the caches as they were, so that the next check of the key asks
    for a download again, exactly if the backoff allows it.
   */
  lemma RemoteOutcome(l: Lookup, picture: ImageSize, key: string, requested: Size, reply: Reply, now: int)
    requires l.maxSize >= 1 && Unknown(l, key, requested)
    ensures var (l', result) := Thumbnail(l, Online(picture), key, requested, reply, now);
            && (Settled(l', key) <==> reply in {Success, Unreadable, Missing, Refused})
            && (key in l'.fulls <==> reply == Success)
            && (reply in {NotAsked, Unavailable, Late, Offline} ==> SameCaches(l, l'))
            && (match reply
                case Success => result.Image? && result.status == Downloaded
                case NotAsked => result == Empty(if B.RetryOk(l.backoff, now) then NeedsDownload else TemporaryError)
                case Missing => result == Empty(NotFound)
                case Unreadable => result == Empty(HardError)
                case Refused => result == Empty(HardError)
                case Unavailable => result == Empty(TemporaryError)
                case Late => result == Empty(Timeout)
                case Offline => result == Empty(NetworkDown))
            && (if reply in {Success, Unreadable, Missing, Refused} then Answered(l.backoff, l'.backoff, now)
                else if reply == Unavailable then Refrained(l.backoff, l'.backoff, now)
                else l'.backoff == l.backoff)
  {
    FetchExpected(Online(picture), TargetSize(requested, l.maxSize), reply, l.maxSize);
    hide Scale, Decode, Keys.SizedKey, Kept, Expected, Load;
  }

  /** And so a key without a definite reply is asked for again, at any size, as soon as the backoff allows it. */
  lemma AskedAgain(l: Lookup, picture: ImageSize, key: string, requested: Size, reply: Reply, now: int,
                   requested': Size, now': int)
    requires l.maxSize >= 1 && Unknown(l, key, requested) && Unknown(l, key, requested')
    ensures var l' := Thumbnail(l, Online(picture), key, requested, reply, now).0;
            && l'.maxSize == l.maxSize
            && (Thumbnail(l', Online(picture), key, requested', NotAsked, now').1 == Empty(NeedsDownload) <==>
                  reply in {NotAsked, Unavailable, Late, Offline} && B.RetryOk(l'.backoff, now'))
  {
    RemoteOutcome(l, picture, key, requested, reply, now);
    ThumbnailKeepsSize(l, Online(picture), key, requested, reply, now);
    var l' := Thumbnail(l, Online(picture), key, requested, reply, now).0;
    CallSettles(l', Online(picture), key, requested', NotAsked, now');
    if !Settled(l', key) {
      DownloadIffAllowed(l', picture, key, requested', now');
    }
    hide Thumbnail, Keys.SizedKey;
  }

  /** The outcome of an extraction from a local video: any failure is lasting, and the backoff is not concerned. */
  lemma VideoOutcome(l: Lookup, frame: ImageSize, key: string, requested: Size, reply: Reply, now: int)
    requires l.maxSize >= 1 && Unknown(l, key, requested)
    ensures var (l', result) := Thumbnail(l, LocalVideo(frame), key, requested, reply, now);
            && (Settled(l', key) <==> reply != NotAsked)
            && (key in l'.fulls <==> reply == Success)
            && (reply == NotAsked ==> l' == l)
            && (result.Image? <==> reply == Success)
            && (reply == Success ==> result.Image? && result.status == Downloaded)
            && (reply == NotAsked ==> result == Empty(NeedsDownload))
            && (reply != Success && reply != NotAsked ==> result == Empty(HardError))
            && l'.backoff == l.backoff
  {
    FetchExpected(LocalVideo(frame), TargetSize(requested, l.maxSize), reply, l.maxSize);
    hide Scale, Decode, Keys.SizedKey, Kept, Expected, Load;
  }

  /**
    The outcome of reading a local file that is no video: an image, no artwork inside an audio
    file or in any other kind of file, or an error. Whatever is no image is recorded; a
    full-size image is not kept, and the backoff is not concerned.
   */
  lemma LocalOutcome(l: Lookup, source: Source, key: string, requested: Size, reply: Reply, now: int)
    requires l.maxSize >= 1 && Unknown(l, key, requested) && !KeepsFullSize(source)
    ensures var target := TargetSize(requested, l.maxSize);
            var (l', result) := Thumbnail(l, source, key, requested, reply, now);
            && l'.fulls == l.fulls && l'.backoff == l.backoff
            && l'.failures == (if result.Image? then l.failures else l.failures + {key})
            && (match source
                case LocalImage(_, _, _) =>
                  if Shows(source, target, reply) then result.Image? && result.status == Downloaded
                  else result == Empty(HardError)
                case LocalAudio(cover) =>
                  if reply == Unreadable then result == Empty(HardError)
                  else if cover.None? then result == Empty(NotFound)
                  else result == Image(Downloaded, Scale(cover.value, target))
                case _ => result == Empty(NotFound))
  {
    var target := TargetSize(requested, l.maxSize);
    FetchExpected(source, target, reply, l.maxSize);
    FetchTells(source, target, reply);
    hide Scale, Decode, Keys.SizedKey, Kept, Expected, Load, Shows;
  }

  /** A call that a cache answers says which one did, and adds to the caches only a thumbnail that it has scaled down. */
  lemma KnownOutcome(l: Lookup, sources: string -> Source, key: string, requested: Size, reply: Reply, now: int)
    requires Inv(l, sources) && IsValid(requested) && !Unknown(l, key, requested)
    ensures var target := TargetSize(requested, l.maxSize);
            var sized := Keys.SizedKey(key, target);
            var (l', result) := Thumbnail(l, sources(key), key, requested, reply, now);
            if sized in l.thumbs then l' == l && result == Image(CacheHit, l.thumbs[sized])
            else if key in l.fulls then
              if Truncates(l.fulls[key], target) then l' == l && result == Threw
              else
                && result == Image(ScaledFromFullsize, Scale(l.fulls[key], target))
                && l' == l.(thumbs := l.thumbs[sized := result.size])
            else l' == l && result == Empty(CachedFailure)
  {
    if key in l.fulls {
      DecodeIsScale(l.fulls[key], TargetSize(requested, l.maxSize));
    }
    hide Scale, Decode, Truncates, Keys.SizedKey, Fetched, Inv;
  }

  /** Exactly when a call throws: for a negative size, or when a cached full-size image truncates at this size. */
  lemma ThrowsIff(l: Lookup, sources: string -> Source, key: string, requested: Size, reply: Reply, now: int)
    requires Inv(l, sources)
    ensures var target := TargetSize(requested, l.maxSize);
            var (l', result) := Thumbnail(l, sources(key), key, requested, reply, now);
            && (result.Threw? ==> l' == l)
            && (result.Threw? <==>
                  || requested.width < 0 || requested.height < 0
                  || (Keys.SizedKey(key, target) !in l.thumbs && key in l.fulls && Truncates(l.fulls[key], target)))
  {
    if IsValid(requested) && !Unknown(l, key, requested) {
      KnownOutcome(l, sources, key, requested, reply, now);
    }
    hide Scale, Truncates, Keys.SizedKey, Decode, Inv, Fetch, Kept;
  }

  /**
    A local image is decoded to a size that already fits once it has been turned upright, whether
    from its Exif thumbnail or from the file itself: thumbnail() does not scale it again.
   */
  lemma LoadedFits(stored: ImageSize, orientation: int, embedded: Option<ImageSize>, target: Size, maxSize: int)
    requires IsImage(target)
    ensures var loaded := Load(stored, orientation, embedded, target);
            && (loaded.Some? ==> Fits(loaded.value, target))
            && Expected(LocalImage(stored, orientation, embedded), target, maxSize) == loaded
  {
    var box := Orientation.UnrotatedRequest(target, orientation);
    Orientation.OrientedFits(stored, target, orientation);
    if embedded.Some? {
      Orientation.OrientedThumbnailFits(embedded.value, target, orientation);
    }
    hide Decode, DecodeThumbnail;
    var loaded := Load(stored, orientation, embedded, target);
    if loaded.Some? {
      ScalePromises(loaded.value, target);
    }
    hide Scale, Orientation.UnrotatedRequest, Orientation.Oriented;
  }

  /** Clearing empties the caches that are named, leaves the others, and with the failures goes the backoff. */
  lemma ClearEffect(l: Lookup, caches: Caches)
    ensures var l' := ClearCaches(l, caches);
            && l'.fulls == (if caches == FullSizeCache || caches == All then map[] else l.fulls)
            && l'.thumbs == (if caches == ThumbnailCache || caches == All then map[] else l.thumbs)
            && l'.failures == (if caches == FailureCache || caches == All then {} else l.failures)
            && l'.maxSize == l.maxSize && l'.backoff.min == l.backoff.min && l'.backoff.max == l.backoff.max
            && (caches == FailureCache || caches == All ==> l'.backoff.period == 0)
            && (caches != FailureCache && caches != All ==> l'.backoff == l.backoff)
  {
  }

  /** The next call for a cleared key asks for a download, if the backoff allows it, and returns nothing old. */
  lemma ClearedIsAskedFor(l: Lookup, picture: ImageSize, key: string, requested: Size, now: int)
    requires l.maxSize >= 1 && IsValid(requested)
    ensures var l' := ClearCaches(l, All);
            l'.maxSize >= 1 && Thumbnail(l', Online(picture), key, requested, NotAsked, now) == (l', Empty(NeedsDownload))
  {
    ClearEffect(l, All);
    DownloadIffAllowed(ClearCaches(l, All), picture, key, requested, now);
    hide Thumbnail, Keys.SizedKey;
  }

  // ---- The backoff over whole runs ----

  /** What the calls, departures and clears so far make of the backoff: only calls that no cache answers count. */
  function BackoffAfter(b: B.Adjuster, sources: string -> Source, maxSize: int, ops: seq<Op>): B.Adjuster
    requires maxSize >= 1
    decreases |ops|
  {
    if ops == [] then b
    else
      var before, op := ops[..|ops| - 1], ops[|ops| - 1];
      var b' := BackoffAfter(b, sources, maxSize, before);
      match op
      case Call(k, requested, reply, now) =>
        if !sources(k).Online? || !Fresh(sources(k), maxSize, before, k, requested) then b'
        else if reply == Unavailable then B.Apply(b', B.Failure(now))
        else if reply in {Success, Unreadable, Missing, Refused} then B.Apply(b', B.Answer(now))
        else b'
      case Evict(_, _, _) => b'
      case Clear(caches) =>
        if caches == FailureCache || caches == All then b'.(lastFail := 0, period := 0) else b'
  }

  lemma CallReports(l: Lookup, source: Source, key: string, requested: Size, reply: Reply, now: int)
    requires l.maxSize >= 1
    ensures Thumbnail(l, source, key, requested, reply, now).0.backoff
            == if !source.Online? || !Unknown(l, key, requested) then l.backoff
               else if reply == Unavailable then B.Apply(l.backoff, B.Failure(now))
               else if reply in {Success, Unreadable, Missing, Refused} then B.Apply(l.backoff, B.Answer(now))
               else l.backoff
  {
    if IsValid(requested) {
      FetchExpected(source, TargetSize(requested, l.maxSize), reply, l.maxSize);
    }
    hide Scale, Decode, Keys.SizedKey, Kept, Expected, Load, B.Reset, B.AdjustRetryLimit;
  }

  /** After any run, the backoff is what the history of calls that reached the server makes of it. */
  lemma {:induction false} BackoffTold(l: Lookup, sources: string -> Source, ops: seq<Op>)
    requires StartOk(l) && l.failures == {}
    ensures Run(l, sources, ops).backoff == BackoffAfter(l.backoff, sources, l.maxSize, ops)
    decreases |ops|
  {
    hide Thumbnail, Held, HasFull, Failed, B.Apply, Keys.SizedKey;
    if ops != [] {
      var before, op := ops[..|ops| - 1], ops[|ops| - 1];
      assert ops == before + [op];
      BackoffTold(l, sources, before);
      RunSnoc(l, sources, before, op);
      if op.Call? {
        HistoryTells(l, sources, before, op.key);
        CallReports(Run(l, sources, before), sources(op.key), op.key, op.requested, op.reply, op.now);
      }
    }
  }

  /**
    After any run, whether a check asks for a download can be told from the calls, departures
    and clears so far: if no cache answers it and, for a remote key, the backoff is over.
   */
  lemma DownloadAskedFor(l: Lookup, sources: string -> Source, ops: seq<Op>, key: string, requested: Size, reply: Reply, now: int)
    requires StartOk(l) && l.failures == {}
    ensures Thumbnail(Run(l, sources, ops), sources(key), key, requested, reply, now).1 == Empty(NeedsDownload) <==>
              && KeepsFullSize(sources(key)) && reply == NotAsked
              && Fresh(sources(key), l.maxSize, ops, key, requested)
              && (sources(key).Online? ==> B.RetryOk(BackoffAfter(l.backoff, sources, l.maxSize, ops), now))
  {
    var r, source := Run(l, sources, ops), sources(key);
    HistoryTells(l, sources, ops, key);
    BackoffTold(l, sources, ops);
    AskedIff(r, source, key, requested, reply, now);
    hide Run, Thumbnail, Held, HasFull, Failed, BackoffAfter, Keys.SizedKey;
  }

  lemma AskedIff(l: Lookup, source: Source, key: string, requested: Size, reply: Reply, now: int)
    requires l.maxSize >= 1
    ensures Thumbnail(l, source, key, requested, reply, now).1 == Empty(NeedsDownload) <==>
              && KeepsFullSize(source) && reply == NotAsked && Unknown(l, key, requested)
              && (source.Online? ==> B.RetryOk(l.backoff, now))
  {
    if Thumbnail(l, source, key, requested, reply, now).1 == Empty(NeedsDownload) {
      AskedIsUnknown(l, source, key, requested, reply, now);
      CallSettles(l, source, key, requested, reply, now);
      CallChangesBackoff(l, source, key, requested, reply, now);
    } else if KeepsFullSize(source) && reply == NotAsked && Unknown(l, key, requested) {
      if source.Online? {
        DownloadIffAllowed(l, source.picture, key, requested, now);
      } else {
        VideoOutcome(l, source.frame, key, requested, reply, now);
      }
    }
    hide Thumbnail, Keys.SizedKey;
  }
}
