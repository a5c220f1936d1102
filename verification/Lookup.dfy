/**
  The look-up of src/thumbnailer.cpp over its three caches. Images are represented by their
  sizes; what is cached is an encoded image, and encoding keeps the size. A key stands for a
  fixed source; what can vary from one call to the next is a parameter of the call.
 */
module CacheLookup {
  import opened Common
  import opened Scaling
  import B = BackoffRules
  import Keys = CacheKeys
  import Orientation

  type ImageSize = s: Size | IsImage(s) witness Size(1, 1)

  datatype Source =
    | LocalImage(stored: ImageSize, orientation: int, embedded: Option<ImageSize>)  // with its Exif thumbnail
    | LocalAudio(cover: Option<ImageSize>)
    | LocalVideo(frame: ImageSize)
    | LocalOther
    | Online(picture: ImageSize)

  /** What is known about the download or extraction, or about reading the local file. */
  datatype Reply = NotAsked | Success | Unreadable | Missing | Unavailable | Refused | Late | Offline

  datatype Status =
    | CacheHit | ScaledFromFullsize | CachedFailure | NeedsDownload | Downloaded
    | NotFound | HardError | TemporaryError | Timeout | NetworkDown

  /** The result of fetch(); there is an image iff the status is Downloaded. */
  datatype ImageData = ImageData(status: Status, keepFullSize: bool, remote: bool, image: Option<ImageSize>)

  datatype Lookup = Lookup(
    thumbs: map<string, ImageSize>,   // thumbnail_cache_, by sized key
    fulls: map<string, ImageSize>,    // full_size_cache_
    failures: set<string>,            // failure_cache_
    backoff: B.Adjuster,
    maxSize: int)

  /** What thumbnail() returns, with status() afterwards; an empty image, or an exception. */
  datatype Result = Image(status: Status, size: ImageSize) | Empty(status: Status) | Threw

  /** Image::load for a file with these Exif data. */
  function Load(stored: ImageSize, orientation: int, embedded: Option<ImageSize>, target: Size): Option<ImageSize>
    requires IsImage(target)
  {
    var box := Orientation.UnrotatedRequest(target, orientation);
    var thumbnail := if embedded.Some? then DecodeThumbnail(embedded.value, box) else None;
    var decoded := if thumbnail.Some? then thumbnail else Decode(stored, box);
    LoadedIsImage(stored, embedded, box);
    if decoded.Some? then Some(Orientation.Oriented(decoded.value, orientation)) else None
  }

  lemma LoadedIsImage(stored: ImageSize, embedded: Option<ImageSize>, box: Size)
    requires IsImage(box)
    ensures embedded.Some? && DecodeThumbnail(embedded.value, box).Some? ==> IsImage(DecodeThumbnail(embedded.value, box).value)
    ensures Decode(stored, box).Some? ==> IsImage(Decode(stored, box).value)
  {
    DecodeIsScale(stored, box);
    if embedded.Some? {
      ThumbnailFits(embedded.value, box);
    }
  }

  /** LocalThumbnailRequest::fetch and common_fetch. */
  function Fetch(source: Source, target: Size, reply: Reply): ImageData
    requires IsImage(target)
  {
    match source
    case LocalImage(stored, orientation, embedded) =>
      var loaded := if reply == Unreadable then None else Load(stored, orientation, embedded, target);
      if loaded.Some? then ImageData(Downloaded, false, false, loaded) else ImageData(HardError, false, false, None)
    case LocalAudio(cover) =>
      if reply == Unreadable then ImageData(HardError, false, false, None)
      else if cover.Some? then ImageData(Downloaded, false, false, cover)
      else ImageData(NotFound, false, false, None)
    case LocalVideo(frame) =>
      if reply == NotAsked then ImageData(NeedsDownload, true, false, None)
      else if reply == Success then ImageData(Downloaded, true, false, Some(frame))
      else ImageData(HardError, true, false, None)
    case LocalOther => ImageData(NotFound, false, false, None)
    case Online(picture) =>
      match reply
      case NotAsked => ImageData(NeedsDownload, true, true, None)
      case Success => ImageData(Downloaded, true, true, Some(picture))
      case Unreadable => ImageData(HardError, true, true, None)
      case Missing => ImageData(NotFound, true, true, None)
      case Unavailable => ImageData(TemporaryError, true, true, None)
      case Refused => ImageData(HardError, true, true, None)
      case Late => ImageData(Timeout, true, true, None)
      case Offline => ImageData(NetworkDown, true, true, None)
  }

  /** What goes into the full-size cache, and is scaled further. */
  function Kept(image: ImageSize, maxSize: int): ImageSize {
    if image.width > maxSize || image.height > maxSize then Scale(image, Size(maxSize, maxSize)) else image
  }

  /** RequestBase::thumbnail. */
  function Thumbnail(l: Lookup, source: Source, key: string, requested: Size, reply: Reply, now: int): (Lookup, Result)
    requires l.maxSize >= 1
  {
    if !IsValid(requested) then (l, Threw)
    else
      var target := TargetSize(requested, l.maxSize);
      var sized := Keys.SizedKey(key, target);
      if sized in l.thumbs then (l, Image(CacheHit, l.thumbs[sized]))
      else if key in l.fulls then
        DecodeIsScale(l.fulls[key], target);
        match Decode(l.fulls[key], target)
        case None => (l, Threw)
        case Some(z) => (l.(thumbs := l.thumbs[sized := z]), Image(ScaledFromFullsize, z))
      else if key in l.failures then (l, Empty(CachedFailure))
      else Fetched(l, Fetch(source, target, reply), key, target, now)
  }

  /** The part of thumbnail() after fetch(). */
  function Fetched(l: Lookup, d: ImageData, key: string, target: Size, now: int): (Lookup, Result)
  {
    var answered := if d.remote then l.(backoff := B.Reset(l.backoff, now)) else l;
    if d.status == Downloaded && d.image.Some? then
      var image := if d.keepFullSize then Kept(d.image.value, l.maxSize) else d.image.value;
      var thumb := Scale(image, target);
      (answered.(fulls := if d.keepFullSize then l.fulls[key := image] else l.fulls,
                 thumbs := l.thumbs[Keys.SizedKey(key, target) := thumb]),
       Image(Downloaded, thumb))
    else
      match d.status
      case NeedsDownload =>
        (l, Empty(if d.remote && !B.RetryOk(l.backoff, now) then TemporaryError else NeedsDownload))
      case NotFound => (answered.(failures := l.failures + {key}), Empty(NotFound))
      case HardError => (answered.(failures := l.failures + {key}), Empty(HardError))
      case TemporaryError => (l.(backoff := B.AdjustRetryLimit(l.backoff, now)), Empty(TemporaryError))
      case _ => (l, Empty(d.status))
  }

  // ---- Runs ----

  datatype Caches = FullSizeCache | ThumbnailCache | FailureCache | All

  /** Entries can leave the caches at any time: they are evicted, or expire, or are invalidated. */
  datatype Op =
    | Call(key: string, requested: Size, reply: Reply, now: int)
    | Evict(thumbs: set<string>, fulls: set<string>, failures: set<string>)
    | Clear(caches: Caches)

  function ClearCaches(l: Lookup, caches: Caches): Lookup {
    match caches
    case FullSizeCache => l.(fulls := map[])
    case ThumbnailCache => l.(thumbs := map[])
    case FailureCache => l.(failures := {}, backoff := l.backoff.(lastFail := 0, period := 0))
    case All => l.(fulls := map[], thumbs := map[], failures := {}, backoff := l.backoff.(lastFail := 0, period := 0))
  }

  function Apply(l: Lookup, sources: string -> Source, op: Op): Lookup
    requires l.maxSize >= 1
  {
    match op
    case Call(key, requested, reply, now) => Thumbnail(l, sources(key), key, requested, reply, now).0
    case Evict(thumbs, fulls, failures) =>
      l.(thumbs := l.thumbs - thumbs, fulls := l.fulls - fulls, failures := l.failures - failures)
    case Clear(caches) => ClearCaches(l, caches)
  }

  lemma ApplyKeepsSize(l: Lookup, sources: string -> Source, op: Op)
    requires l.maxSize >= 1
    ensures Apply(l, sources, op).maxSize == l.maxSize
  {
  }

  function Run(l: Lookup, sources: string -> Source, ops: seq<Op>): (r: Lookup)
    requires l.maxSize >= 1
    ensures r.maxSize == l.maxSize
    decreases |ops|
  {
    if ops == [] then l
    else
      ApplyKeepsSize(l, sources, ops[0]);
      Run(Apply(l, sources, ops[0]), sources, ops[1..])
  }

  predicate StartOk(l: Lookup) {
    l.maxSize >= 1 && l.thumbs == map[] && l.fulls == map[] && B.Valid(l.backoff)
  }

  // ---- Transparency ----

  /** The image that a source gives for a target size, without any cache. */
  function Expected(source: Source, target: Size, maxSize: int): Option<Size>
    requires IsImage(target)
  {
    match source
    case LocalImage(stored, orientation, embedded) =>
      var loaded := Load(stored, orientation, embedded, target);
      if loaded.Some? then Some(Scale(loaded.value, target)) else None
    case LocalAudio(cover) => if cover.Some? then Some(Scale(cover.value, target)) else None
    case LocalVideo(frame) => Some(Scale(Scale(frame, Square(maxSize)), target))
    case LocalOther => None
    case Online(picture) => Some(Scale(Scale(picture, Square(maxSize)), target))
  }

  predicate KeepsFullSize(source: Source) {
    source.LocalVideo? || source.Online?
  }

  function FullSize(source: Source): ImageSize
    requires KeepsFullSize(source)
  {
    if source.LocalVideo? then source.frame else source.picture
  }

  ghost predicate ThumbOk(l: Lookup, sources: string -> Source, key: string, target: Size) {
    Keys.SizedKey(key, target) in l.thumbs && IsImage(target) ==>
      Expected(sources(key), target, l.maxSize) == Some(l.thumbs[Keys.SizedKey(key, target)])
  }

  ghost predicate FullOk(l: Lookup, sources: string -> Source, key: string) {
    key in l.fulls ==> KeepsFullSize(sources(key)) && l.fulls[key] == Scale(FullSize(sources(key)), Square(l.maxSize))
  }

  /** Whatever a cache holds is what the source would give. */
  ghost predicate Inv(l: Lookup, sources: string -> Source) {
    && l.maxSize >= 1
    && B.Valid(l.backoff)
    && (forall key, target :: ThumbOk(l, sources, key, target))
    && (forall key :: FullOk(l, sources, key))
  }

  /** Scaling to the maximum only what exceeds it is scaling everything. */
  lemma KeptIsScaled(image: ImageSize, maxSize: int)
    requires maxSize >= 1
    ensures Kept(image, maxSize) == Scale(image, Square(maxSize))
  {
    hide KeepAspect;
  }

  lemma FetchExpected(source: Source, target: Size, reply: Reply, maxSize: int)
    requires IsImage(target) && maxSize >= 1
    ensures var d := Fetch(source, target, reply);
            && (d.status == Downloaded <==> d.image.Some?)
            && (d.keepFullSize <==> KeepsFullSize(source))
            && (d.remote <==> source.Online?)
            && (d.image.Some? && d.keepFullSize ==> d.image.value == FullSize(source))
            && (d.image.Some? ==>
                  Expected(source, target, maxSize)
                  == Some(Scale(if d.keepFullSize then Kept(d.image.value, maxSize) else d.image.value, target)))
  {
    hide Scale, Load, Kept;
    if KeepsFullSize(source) {
      KeptIsScaled(FullSize(source), maxSize);
    }
  }

  lemma PutThumb(l: Lookup, l': Lookup, sources: string -> Source, key: string, target: Size, z: ImageSize)
    requires Inv(l, sources) && IsImage(target) && Expected(sources(key), target, l.maxSize) == Some(z)
    requires l'.thumbs == l.thumbs[Keys.SizedKey(key, target) := z] && l'.maxSize == l.maxSize
    ensures forall key', target' :: ThumbOk(l', sources, key', target')
  {
    hide Expected, Keys.SizedKey;
    forall key', target'
      ensures ThumbOk(l', sources, key', target')
    {
      assert ThumbOk(l, sources, key', target');
      if Keys.SizedKey(key', target') == Keys.SizedKey(key, target) {
        Keys.SizedKeyIsInjective(key', target', key, target);
      }
    }
  }

  /** A call keeps the caches right, and an image that it returns is what the source gives. */
  lemma CallKeepsInv(l: Lookup, sources: string -> Source, key: string, requested: Size, reply: Reply, now: int)
    requires Inv(l, sources)
    ensures var (l', result) := Thumbnail(l, sources(key), key, requested, reply, now);
            && Inv(l', sources)
            && (result.Image? ==>
                  && IsValid(requested)
                  && Expected(sources(key), TargetSize(requested, l.maxSize), l.maxSize) == Some(result.size))
  {
    if IsValid(requested) {
      var target := TargetSize(requested, l.maxSize);
      assert ThumbOk(l, sources, key, target) && FullOk(l, sources, key);
      if Keys.SizedKey(key, target) in l.thumbs {
      } else if key in l.fulls {
        RescaleKeepsInv(l, sources, key, target);
      } else if key !in l.failures {
        FetchedKeepsInv(l, sources, key, target, reply, now);
      }
    }
  }

  lemma RescaleKeepsInv(l: Lookup, sources: string -> Source, key: string, target: Size)
    requires Inv(l, sources) && key in l.fulls && IsImage(target)
    ensures match Decode(l.fulls[key], target)
            case None => true
            case Some(z) =>
              && IsImage(z)
              && Expected(sources(key), target, l.maxSize) == Some(z)
              && Inv(l.(thumbs := l.thumbs[Keys.SizedKey(key, target) := z]), sources)
  {
    assert FullOk(l, sources, key);
    DecodeIsScale(l.fulls[key], target);
    hide Scale, Decode, Keys.SizedKey;
    if z :| Decode(l.fulls[key], target) == Some(z) {
      var l' := l.(thumbs := l.thumbs[Keys.SizedKey(key, target) := z]);
      PutThumb(l, l', sources, key, target, z);
      SameFulls(l, l', sources);
    }
  }

  lemma SameFulls(l: Lookup, l': Lookup, sources: string -> Source)
    requires Inv(l, sources) && l'.maxSize == l.maxSize && l'.fulls == l.fulls
    ensures forall key :: FullOk(l', sources, key)
  {
    forall key
      ensures FullOk(l', sources, key)
    {
      assert FullOk(l, sources, key);
    }
  }

  lemma SameThumbs(l: Lookup, l': Lookup, sources: string -> Source)
    requires Inv(l, sources) && l'.maxSize == l.maxSize && l'.thumbs == l.thumbs
    ensures forall key, target :: ThumbOk(l', sources, key, target)
  {
    forall key, target
      ensures ThumbOk(l', sources, key, target)
    {
      assert ThumbOk(l, sources, key, target);
    }
  }

  lemma FetchedKeepsInv(l: Lookup, sources: string -> Source, key: string, target: Size, reply: Reply, now: int)
    requires Inv(l, sources) && IsImage(target)
    ensures var (l', result) := Fetched(l, Fetch(sources(key), target, reply), key, target, now);
            && Inv(l', sources)
            && (result.Image? ==> Expected(sources(key), target, l.maxSize) == Some(result.size))
  {
    var d := Fetch(sources(key), target, reply);
    FetchExpected(sources(key), target, reply, l.maxSize);
    var l' := Fetched(l, d, key, target, now).0;
    BackoffStaysValid(l, d, key, target, now);
    hide Fetch, Expected, Keys.SizedKey, Scale;
    if d.image.Some? {
      PutThumb(l, l', sources, key, target, Fetched(l, d, key, target, now).1.size);
      if d.keepFullSize {
        KeptIsScaled(d.image.value, l.maxSize);
      }
      forall k
        ensures FullOk(l', sources, k)
      {
        assert FullOk(l, sources, k);
      }
    } else {
      SameThumbs(l, l', sources);
      SameFulls(l, l', sources);
    }
  }

  lemma BackoffStaysValid(l: Lookup, d: ImageData, key: string, target: Size, now: int)
    requires B.Valid(l.backoff)
    ensures var l' := Fetched(l, d, key, target, now).0;
            && l'.maxSize == l.maxSize
            && (|| l'.backoff == l.backoff
                || l'.backoff == B.Reset(l.backoff, now)
                || l'.backoff == B.AdjustRetryLimit(l.backoff, now))
            && B.Valid(l'.backoff)
  {
    hide Kept, Scale, Keys.SizedKey;
  }

  lemma ApplyKeepsInv(l: Lookup, sources: string -> Source, op: Op)
    requires Inv(l, sources)
    ensures Inv(Apply(l, sources, op), sources)
  {
    hide Thumbnail, Expected, Keys.SizedKey;
    match op
    case Call(key, requested, reply, now) => CallKeepsInv(l, sources, key, requested, reply, now);
    case Evict(thumbs, fulls, failures) => FewerEntries(l, Apply(l, sources, op), sources);
    case Clear(caches) => FewerEntries(l, Apply(l, sources, op), sources);
  }

  lemma FewerEntries(l: Lookup, l': Lookup, sources: string -> Source)
    requires Inv(l, sources) && l'.maxSize == l.maxSize && B.Valid(l'.backoff)
    requires forall k :: k in l'.thumbs ==> k in l.thumbs && l'.thumbs[k] == l.thumbs[k]
    requires forall k :: k in l'.fulls ==> k in l.fulls && l'.fulls[k] == l.fulls[k]
    ensures Inv(l', sources)
  {
    forall key, target
      ensures ThumbOk(l', sources, key, target)
    {
      assert ThumbOk(l, sources, key, target);
    }
    forall key
      ensures FullOk(l', sources, key)
    {
      assert FullOk(l, sources, key);
    }
  }

  lemma {:induction false} RunKeepsInv(l: Lookup, sources: string -> Source, ops: seq<Op>)
    requires Inv(l, sources)
    ensures Inv(Run(l, sources, ops), sources)
    decreases |ops|
  {
    assert l.maxSize >= 1;
    hide Inv, Apply;
    if ops != [] {
      ApplyKeepsInv(l, sources, ops[0]);
      RunKeepsInv(Apply(l, sources, ops[0]), sources, ops[1..]);
    }
  }

  /**
    The caches are transparent: after any two runs over the same sources, with any evictions
    and clears, two calls for the same key and size that both return an image return images of
    the same size, wherever each of them comes from.
   */
  lemma Transparent(l: Lookup, sources: string -> Source, ops: seq<Op>, ops': seq<Op>,
                    key: string, requested: Size, reply: Reply, reply': Reply, now: int, now': int)
    requires StartOk(l)
    ensures var result := Thumbnail(Run(l, sources, ops), sources(key), key, requested, reply, now).1;
            var result' := Thumbnail(Run(l, sources, ops'), sources(key), key, requested, reply', now').1;
            result.Image? && result'.Image? ==> result.size == result'.size
  {
    assert Inv(l, sources);
    hide Thumbnail, Expected;
    RunKeepsInv(l, sources, ops);
    RunKeepsInv(l, sources, ops');
    CallKeepsInv(Run(l, sources, ops), sources, key, requested, reply, now);
    CallKeepsInv(Run(l, sources, ops'), sources, key, requested, reply', now');
  }

  /** No image exceeds the configured maximum or the requested size. */
  lemma WithinLimits(l: Lookup, sources: string -> Source, ops: seq<Op>, key: string, requested: Size, reply: Reply, now: int)
    requires StartOk(l)
    ensures var result := Thumbnail(Run(l, sources, ops), sources(key), key, requested, reply, now).1;
            result.Image? ==>
              && IsImage(result.size)
              && Fits(result.size, Square(l.maxSize))
              && (requested.width > 0 ==> result.size.width <= requested.width)
              && (requested.height > 0 ==> result.size.height <= requested.height)
  {
    assert Inv(l, sources);
    RunKeepsInv(l, sources, ops);
    CallKeepsInv(Run(l, sources, ops), sources, key, requested, reply, now);
    hide Thumbnail;
    if IsValid(requested) {
      ExpectedFits(sources(key), TargetSize(requested, l.maxSize), l.maxSize);
    }
  }

  lemma ExpectedFits(source: Source, target: Size, maxSize: int)
    requires IsImage(target)
    ensures Expected(source, target, maxSize).Some? ==>
              IsImage(Expected(source, target, maxSize).value) && Fits(Expected(source, target, maxSize).value, target)
  {
    hide Load, Scale;
    match source
    case LocalImage(stored, orientation, embedded) =>
      var loaded := Load(stored, orientation, embedded, target);
      if loaded.Some? {
        ScalePromises(loaded.value, target);
      }
    case LocalAudio(cover) =>
      if cover.Some? {
        ScalePromises(cover.value, target);
      }
    case LocalVideo(frame) => ScalePromises(Scale(frame, Square(maxSize)), target);
    case LocalOther =>
    case Online(picture) => ScalePromises(Scale(picture, Square(maxSize)), target);
  }

  // ---- When an image comes at all ----

  /**
    With a full-size image in the cache and no thumbnail, the call returns an image unless a
    dimension truncates to zero, when it throws; a fresh fetch of the same image never does.
   */
  lemma FromFullSize(l: Lookup, sources: string -> Source, key: string, requested: Size, reply: Reply, now: int)
    requires Inv(l, sources) && IsValid(requested) && key in l.fulls
    requires Keys.SizedKey(key, TargetSize(requested, l.maxSize)) !in l.thumbs
    ensures var target := TargetSize(requested, l.maxSize);
            var result := Thumbnail(l, sources(key), key, requested, reply, now).1;
            && (result.Threw? <==> Truncates(l.fulls[key], target))
            && (result.Threw? || result == Image(ScaledFromFullsize, Scale(l.fulls[key], target)))
            && Thumbnail(l.(fulls := l.fulls - {key}, failures := {}), sources(key), key, requested, Success, now).1
               == Image(Downloaded, Scale(l.fulls[key], target))
  {
    var target := TargetSize(requested, l.maxSize);
    assert FullOk(l, sources, key);
    DecodeIsScale(l.fulls[key], target);
    FetchExpected(sources(key), target, Success, l.maxSize);
    KeptIsScaled(FullSize(sources(key)), l.maxSize);
    hide Scale, Decode, Truncates, Keys.SizedKey, Kept, Expected;
  }

  /** For example, a wide strip, shown small, is returned the first time and throws once the thumbnail is evicted. */
  lemma StripThrowsLater(key: string)
    ensures var l := Lookup(map[], map[], {}, B.Adjuster(0, 0, 20, 7200), 1920);
            var strip := Online(Size(1000, 2));
            var (l1, r1) := Thumbnail(l, strip, key, Size(100, 100), Success, 0);
            && r1 == Image(Downloaded, Size(100, 1))
            && Thumbnail(l1.(thumbs := map[]), strip, key, Size(100, 100), Success, 0).1 == Threw
  {
    var target := Size(100, 100);
    assert TargetSize(Size(100, 100), 1920) == target;
    assert Scale(Size(1000, 2), target) == Size(100, 1);
    assert Decode(Size(1000, 2), target) == None;
    hide Scale, Decode, Keys.SizedKey;
  }

  /** What a call for a local image with this reply has: a readable file that decodes to the target size. */
  predicate Shows(source: Source, target: Size, reply: Reply)
    requires source.LocalImage? && IsImage(target)
  {
    var box := Orientation.UnrotatedRequest(target, source.orientation);
    && reply != Unreadable
    && ((source.embedded.Some? && DecodeThumbnail(source.embedded.value, box).Some?) || !Truncates(source.stored, box))
  }

  lemma ShowsIff(source: Source, target: Size, reply: Reply)
    requires source.LocalImage? && IsImage(target)
    ensures Shows(source, target, reply) <==> Fetch(source, target, reply).image.Some?
    ensures var d := Fetch(source, target, reply);
            !d.keepFullSize && !d.remote && d.status == if d.image.Some? then Downloaded else HardError
  {
    DecodeIsScale(source.stored, Orientation.UnrotatedRequest(target, source.orientation));
    hide Decode, DecodeThumbnail, Truncates, Scale;
  }

  /**
    A local image is returned exactly if its thumbnail is cached, or no failure is and the file
    is readable and decodes to the target size, from its Exif thumbnail or without truncating.
    Otherwise a failure is recorded, if none was.
   */
  lemma LocalImageComes(l: Lookup, sources: string -> Source, key: string, requested: Size, reply: Reply, now: int)
    requires Inv(l, sources) && sources(key).LocalImage? && IsValid(requested)
    ensures var target := TargetSize(requested, l.maxSize);
            var held := Keys.SizedKey(key, target) in l.thumbs;
            var (l', result) := Thumbnail(l, sources(key), key, requested, reply, now);
            && (result.Image? <==> held || (key !in l.failures && Shows(sources(key), target, reply)))
            && (result.Image? || result == Empty(CachedFailure) || result == Empty(HardError))
            && (key in l'.failures <==> key in l.failures || (!held && !Shows(sources(key), target, reply)))
  {
    var target := TargetSize(requested, l.maxSize);
    assert FullOk(l, sources, key);
    ShowsIff(sources(key), target, reply);
    hide Scale, Decode, Keys.SizedKey, Kept, Expected, Fetch, Shows;
  }

  /** So one failure withholds the file at every other size, also at those at which it can be shown. */
  lemma FailureSpreads(l: Lookup, sources: string -> Source, key: string, small: Size, large: Size,
                       reply: Reply, reply': Reply, now: int, now': int)
    requires Inv(l, sources) && sources(key).LocalImage? && IsValid(small) && IsValid(large)
    requires Keys.SizedKey(key, TargetSize(small, l.maxSize)) !in l.thumbs
    requires Keys.SizedKey(key, TargetSize(large, l.maxSize)) !in l.thumbs
    requires !Shows(sources(key), TargetSize(small, l.maxSize), reply)
    ensures var (l', result) := Thumbnail(l, sources(key), key, small, reply, now);
            && result.Empty? && l'.maxSize >= 1
            && Thumbnail(l', sources(key), key, large, reply', now').1 == Empty(CachedFailure)
  {
    LocalImageComes(l, sources, key, small, reply, now);
    CallKeepsInv(l, sources, key, small, reply, now);
    CallAdds(l, sources(key), key, small, reply, now, key, TargetSize(large, l.maxSize));
    var l' := Thumbnail(l, sources(key), key, small, reply, now).0;
    FailedIsCached(l, l', sources, key, large, reply', now') by {
      ApplyKeepsSize(l, sources, Call(key, small, reply, now));
    }
  }

  lemma FailedIsCached(l: Lookup, l': Lookup, sources: string -> Source, key: string, requested: Size, reply: Reply, now: int)
    requires Inv(l', sources) && l'.maxSize == l.maxSize && sources(key).LocalImage? && IsValid(requested)
    requires key in l'.failures && Keys.SizedKey(key, TargetSize(requested, l.maxSize)) !in l'.thumbs
    ensures Thumbnail(l', sources(key), key, requested, reply, now).1 == Empty(CachedFailure)
  {
    assert FullOk(l', sources, key);
    hide Keys.SizedKey, Fetched, Decode;
  }

  // ---- What the caches hold over whole runs ----

  /** What a call adds to the caches concerns its own key, and one size. */
  lemma CallAdds(l: Lookup, source: Source, k: string, requested: Size, reply: Reply, now: int, key: string, target: Size)
    requires l.maxSize >= 1
    ensures var (l', result) := Thumbnail(l, source, k, requested, reply, now);
            && (Keys.SizedKey(key, target) in l'.thumbs <==>
                  Keys.SizedKey(key, target) in l.thumbs
                  || (k == key && target == TargetSize(requested, l.maxSize) && result.Image?))
            && (k != key ==> (key in l'.failures <==> key in l.failures) && (key in l'.fulls <==> key in l.fulls))
            && (!IsValid(requested) ==> l' == l)
  {
    var own := TargetSize(requested, l.maxSize);
    if Keys.SizedKey(k, own) == Keys.SizedKey(key, target) {
      Keys.SizedKeyIsInjective(k, own, key, target);
    }
    if IsValid(requested) {
      FetchExpected(source, own, reply, l.maxSize);
    }
    hide Scale, Decode, Keys.SizedKey, Kept, Fetch, Expected, B.Reset, B.AdjustRetryLimit;
  }

  /** An image is there to be had, at this size and with this reply. */
  predicate Obtains(source: Source, target: Size, reply: Reply)
    requires IsImage(target)
  {
    match source
    case LocalImage(_, _, _) => Shows(source, target, reply)
    case LocalAudio(cover) => reply != Unreadable && cover.Some?
    case LocalVideo(_) => reply == Success
    case LocalOther => false
    case Online(_) => reply == Success
  }

  /** There is none, and asking again will not help. */
  predicate Fails(source: Source, target: Size, reply: Reply)
    requires IsImage(target)
  {
    match source
    case LocalImage(_, _, _) => !Shows(source, target, reply)
    case LocalAudio(cover) => reply == Unreadable || cover.None?
    case LocalVideo(_) => reply != Success && reply != NotAsked
    case LocalOther => true
    case Online(_) => reply == Unreadable || reply == Missing || reply == Refused
  }

  /** The full-size cache holds the image scaled to the maximum; at this size, it decodes. */
  predicate FullSizeServes(source: Source, target: Size, maxSize: int)
    requires IsImage(target) && KeepsFullSize(source) && maxSize >= 1
  {
    !Truncates(Scale(FullSize(source), Square(maxSize)), target)
  }

  lemma FetchTells(source: Source, target: Size, reply: Reply)
    requires IsImage(target)
    ensures var d := Fetch(source, target, reply);
            && (Obtains(source, target, reply) <==> d.image.Some?)
            && (Obtains(source, target, reply) <==> d.status == Downloaded)
            && (Fails(source, target, reply) <==> d.status == NotFound || d.status == HardError)
  {
    if source.LocalImage? {
      ShowsIff(source, target, reply);
    }
    hide Shows, Load;
  }

  /**
    What one call does. It returns an image exactly if the thumbnail is cached, or the full-size
    image is and decodes to this size, or nothing is known and the image is there to be had. A
    new full-size image or a new failure is kept exactly if nothing was known and there is one.
   */
  lemma CallTells(l: Lookup, sources: string -> Source, key: string, requested: Size, reply: Reply, now: int)
    requires Inv(l, sources) && IsValid(requested)
    ensures key in l.fulls ==> KeepsFullSize(sources(key))
    ensures var source, target := sources(key), TargetSize(requested, l.maxSize);
            var held := Keys.SizedKey(key, target) in l.thumbs;
            var unknown := !held && key !in l.fulls && key !in l.failures;
            var (l', result) := Thumbnail(l, source, key, requested, reply, now);
            && (result.Image? <==> || held
                                   || (key in l.fulls && FullSizeServes(source, target, l.maxSize))
                                   || (unknown && Obtains(source, target, reply)))
            && (key in l'.fulls <==> key in l.fulls || (unknown && KeepsFullSize(source) && Obtains(source, target, reply)))
            && (key in l'.failures <==> key in l.failures || (unknown && Fails(source, target, reply)))
            && (unknown && !Obtains(source, target, reply) ==> l'.thumbs == l.thumbs && l'.fulls == l.fulls)
            && (unknown && !Fails(source, target, reply) ==> l'.failures == l.failures)
  {
    var source, target := sources(key), TargetSize(requested, l.maxSize);
    assert FullOk(l, sources, key);
    if key in l.fulls {
      DecodeIsScale(l.fulls[key], target);
    }
    FetchTells(source, target, reply);
    FetchExpected(source, target, reply, l.maxSize);
    hide Scale, Decode, Truncates, Keys.SizedKey, Kept, Expected, Fetch, Obtains, Fails, B.Reset, B.AdjustRetryLimit, Inv;
  }

  /** From the calls for the key and the departures so far: whether its thumbnail of this size is cached. */
  predicate Held(source: Source, maxSize: int, ops: seq<Op>, key: string, target: Size)
    requires maxSize >= 1
    decreases |ops|, 0
  {
    ops != [] &&
    var before, op := ops[..|ops| - 1], ops[|ops| - 1];
    match op
    case Call(k, requested, reply, _) =>
      || Held(source, maxSize, before, key, target)
      || (k == key && IsValid(requested) && target == TargetSize(requested, maxSize)
          && if HasFull(source, maxSize, before, key) then KeepsFullSize(source) && FullSizeServes(source, target, maxSize)
             else !Failed(source, maxSize, before, key) && Obtains(source, target, reply))
    case Evict(thumbs, _, _) => Held(source, maxSize, before, key, target) && Keys.SizedKey(key, target) !in thumbs
    case Clear(caches) => Held(source, maxSize, before, key, target) && caches != ThumbnailCache && caches != All
  }

  /** And whether its full-size image is. */
  predicate HasFull(source: Source, maxSize: int, ops: seq<Op>, key: string)
    requires maxSize >= 1
    decreases |ops|, 0
  {
    ops != [] &&
    var before, op := ops[..|ops| - 1], ops[|ops| - 1];
    match op
    case Call(k, requested, reply, _) =>
      || HasFull(source, maxSize, before, key)
      || (k == key && Fresh(source, maxSize, before, key, requested) && KeepsFullSize(source)
          && Obtains(source, TargetSize(requested, maxSize), reply))
    case Evict(_, fulls, _) => HasFull(source, maxSize, before, key) && key !in fulls
    case Clear(caches) => HasFull(source, maxSize, before, key) && caches != FullSizeCache && caches != All
  }

  /** And whether a failure is. */
  predicate Failed(source: Source, maxSize: int, ops: seq<Op>, key: string)
    requires maxSize >= 1
    decreases |ops|, 0
  {
    ops != [] &&
    var before, op := ops[..|ops| - 1], ops[|ops| - 1];
    match op
    case Call(k, requested, reply, _) =>
      || Failed(source, maxSize, before, key)
      || (k == key && Fresh(source, maxSize, before, key, requested)
          && Fails(source, TargetSize(requested, maxSize), reply))
    case Evict(_, _, failures) => Failed(source, maxSize, before, key) && key !in failures
    case Clear(caches) => Failed(source, maxSize, before, key) && caches != FailureCache && caches != All
  }

  /** No cache answers a call for this size. */
  predicate Fresh(source: Source, maxSize: int, ops: seq<Op>, key: string, requested: Size)
    requires maxSize >= 1
    decreases |ops|, 1
  {
    && IsValid(requested)
    && !Held(source, maxSize, ops, key, TargetSize(requested, maxSize))
    && !HasFull(source, maxSize, ops, key)
    && !Failed(source, maxSize, ops, key)
  }

  lemma {:induction false} RunSnoc(l: Lookup, sources: string -> Source, ops: seq<Op>, op: Op)
    requires l.maxSize >= 1
    ensures Run(l, sources, ops + [op]) == Apply(Run(l, sources, ops), sources, op)
    decreases |ops|
  {
    hide Apply;
    if ops == [] {
      assert ([op])[1..] == [];
      assert [] + [op] == [op];
      assert Run(l, sources, [op]) == Run(Apply(l, sources, op), sources, []) by {
        ApplyKeepsSize(l, sources, op);
      }
    } else {
      ApplyKeepsSize(l, sources, ops[0]);
      RunSnoc(Apply(l, sources, ops[0]), sources, ops[1..], op);
      assert (ops + [op])[1..] == ops[1..] + [op];
    }
  }

  /** The caches hold for this key what the history tells. */
  ghost predicate Told(l: Lookup, source: Source, ops: seq<Op>, key: string)
    requires l.maxSize >= 1
  {
    && (forall t :: Keys.SizedKey(key, t) in l.thumbs <==> Held(source, l.maxSize, ops, key, t))
    && (key in l.fulls <==> HasFull(source, l.maxSize, ops, key))
    && (key in l.failures <==> Failed(source, l.maxSize, ops, key))
  }

  lemma StepTells(l: Lookup, sources: string -> Source, ops: seq<Op>, op: Op, key: string, target: Size)
    requires Inv(l, sources) && Told(l, sources(key), ops, key)
    ensures var l', source := Apply(l, sources, op), sources(key);
            && (Keys.SizedKey(key, target) in l'.thumbs <==> Held(source, l.maxSize, ops + [op], key, target))
            && (key in l'.fulls <==> HasFull(source, l.maxSize, ops + [op], key))
            && (key in l'.failures <==> Failed(source, l.maxSize, ops + [op], key))
  {
    assert (ops + [op])[..|ops|] == ops;
    if op.Call? {
      CallAdds(l, sources(op.key), op.key, op.requested, op.reply, op.now, key, target);
      if op.key == key && IsValid(op.requested) {
        CallTells(l, sources, key, op.requested, op.reply, op.now);
      }
    }
    hide Keys.SizedKey, Fetched, Obtains, Fails, FullSizeServes, Decode, Inv, Expected;
  }

  /** The caches hold for a key exactly what the calls for it and the departures tell. */
  lemma {:induction false} HistoryTells(l: Lookup, sources: string -> Source, ops: seq<Op>, key: string)
    requires StartOk(l) && key !in l.failures
    ensures Told(Run(l, sources, ops), sources(key), ops, key)
    decreases |ops|
  {
    if ops != [] {
      var before, op := ops[..|ops| - 1], ops[|ops| - 1];
      assert ops == before + [op];
      HistoryTells(l, sources, before, key);
      assert Inv(l, sources);
      RunKeepsInv(l, sources, before);
      RunSnoc(l, sources, before, op);
      hide Run, Held, HasFull, Failed, Inv, Apply, Keys.SizedKey;
      forall t
        ensures Keys.SizedKey(key, t) in Run(l, sources, ops).thumbs <==> Held(sources(key), l.maxSize, ops, key, t)
      {
        StepTells(Run(l, sources, before), sources, before, op, key, t);
      }
      StepTells(Run(l, sources, before), sources, before, op, key, Size(1, 1));
    }
  }

  /**
    After any run, whether a call returns an image can be told from the calls for its key and
    the departures so far: if the thumbnail of this size was made and has not departed; or the
    full-size image was, and decodes to this size; or neither was, no call for the key failed
    for good without that failure having departed since, and the image can be had now.
   */
  lemma ImageReturned(l: Lookup, sources: string -> Source, ops: seq<Op>, key: string, requested: Size, reply: Reply, now: int)
    requires StartOk(l) && key !in l.failures && IsValid(requested)
    ensures var source, target := sources(key), TargetSize(requested, l.maxSize);
            Thumbnail(Run(l, sources, ops), source, key, requested, reply, now).1.Image? <==>
              || Held(source, l.maxSize, ops, key, target)
              || (KeepsFullSize(source) && HasFull(source, l.maxSize, ops, key) && FullSizeServes(source, target, l.maxSize))
              || (Fresh(source, l.maxSize, ops, key, requested) && Obtains(source, target, reply))
  {
    HistoryTells(l, sources, ops, key);
    assert Inv(l, sources);
    RunKeepsInv(l, sources, ops);
    CallTells(Run(l, sources, ops), sources, key, requested, reply, now);
    hide Run, Held, HasFull, Failed, Inv, Thumbnail, Obtains, Fails, FullSizeServes, Keys.SizedKey;
  }

  lemma {:induction false} LocalHasNoFull(source: Source, maxSize: int, ops: seq<Op>, key: string)
    requires maxSize >= 1 && !KeepsFullSize(source)
    ensures !HasFull(source, maxSize, ops, key)
    decreases |ops|
  {
    if ops != [] {
      LocalHasNoFull(source, maxSize, ops[..|ops| - 1], key);
    }
  }

  /**
    For a local image that means: its thumbnail was made and has not departed, or it can be
    shown now and no call at any size failed. A failure at one size withholds it at the others.
   */
  lemma LocalImageReturned(l: Lookup, sources: string -> Source, ops: seq<Op>, key: string,
                           requested: Size, reply: Reply, now: int)
    requires StartOk(l) && sources(key).LocalImage? && key !in l.failures && IsValid(requested)
    ensures var target := TargetSize(requested, l.maxSize);
            Thumbnail(Run(l, sources, ops), sources(key), key, requested, reply, now).1.Image? <==>
              || Held(sources(key), l.maxSize, ops, key, target)
              || (!Failed(sources(key), l.maxSize, ops, key) && Shows(sources(key), target, reply))
  {
    ImageReturned(l, sources, ops, key, requested, reply, now);
    LocalHasNoFull(sources(key), l.maxSize, ops, key);
    hide Run, Held, HasFull, Failed, Thumbnail, Shows, Keys.SizedKey;
  }

  // ---- One download ----

  /** The key's fate is known: a full-size image or a failure is cached. */
  predicate Settled(l: Lookup, key: string) {
    key in l.fulls || key in l.failures
  }

  /** Calls only add to these caches. */
  lemma CallsOnlyAdd(l: Lookup, source: Source, key: string, requested: Size, reply: Reply, now: int)
    requires l.maxSize >= 1
    ensures var l' := Thumbnail(l, source, key, requested, reply, now).0;
            l.fulls.Keys <= l'.fulls.Keys && l.failures <= l'.failures
  {
    hide Scale, Decode, Keys.SizedKey, Kept, Fetch, B.Reset, B.AdjustRetryLimit;
  }

  /** A call settles the key if it ends with an image that is kept or with a definite failure. */
  lemma CallSettles(l: Lookup, source: Source, key: string, requested: Size, reply: Reply, now: int)
    requires l.maxSize >= 1
    ensures var (l', result) := Thumbnail(l, source, key, requested, reply, now);
            && (result.Image? && result.status == Downloaded && KeepsFullSize(source) ==> Settled(l', key))
            && (result == Empty(NotFound) || result == Empty(HardError) ==> Settled(l', key))
            && (Settled(l, key) ==> result != Empty(NeedsDownload))
            && (result == Empty(NeedsDownload) ==> KeepsFullSize(source) && reply == NotAsked)
  {
    if IsValid(requested) {
      FetchExpected(source, TargetSize(requested, l.maxSize), reply, l.maxSize);
    }
    hide Scale, Decode, Keys.SizedKey, Kept, Expected, Load, B.Reset, B.AdjustRetryLimit;
  }

  /** No call for the key in this run asks for a download. */
  ghost predicate NoDownload(l: Lookup, sources: string -> Source, ops: seq<Op>, key: string)
    requires l.maxSize >= 1
    decreases |ops|
  {
    ops != [] ==>
    && (ops[0].Call? && ops[0].key == key ==>
          Thumbnail(l, sources(key), key, ops[0].requested, ops[0].reply, ops[0].now).1 != Empty(NeedsDownload))
    && (ApplyKeepsSize(l, sources, ops[0]); NoDownload(Apply(l, sources, ops[0]), sources, ops[1..], key))
  }

  lemma {:induction false} SettledStays(l: Lookup, sources: string -> Source, ops: seq<Op>, key: string)
    requires l.maxSize >= 1 && Settled(l, key) && forall i :: 0 <= i < |ops| ==> ops[i].Call?
    ensures NoDownload(l, sources, ops, key)
    decreases |ops|
  {
    hide Thumbnail;
    if ops != [] {
      var op := ops[0];
      CallSettles(l, sources(op.key), op.key, op.requested, op.reply, op.now);
      CallsOnlyAdd(l, sources(op.key), op.key, op.requested, op.reply, op.now);
      ApplyKeepsSize(l, sources, op);
      SettledStays(Apply(l, sources, op), sources, ops[1..], key);
    }
  }

  /**
    After the call that ends the first download of a key with an image or a definite failure,
    no call for it asks for another, as long as nothing is evicted, expires or is cleared.
   */
  lemma OneDownload(l: Lookup, sources: string -> Source, key: string, requested: Size, reply: Reply, now: int, ops: seq<Op>)
    requires l.maxSize >= 1 && KeepsFullSize(sources(key)) && forall i :: 0 <= i < |ops| ==> ops[i].Call?
    ensures var l', result := Apply(l, sources, Call(key, requested, reply, now)),
                              Thumbnail(l, sources(key), key, requested, reply, now).1;
            && l'.maxSize >= 1
            && (!result.Threw? && result.status in {Downloaded, NotFound, HardError} ==> NoDownload(l', sources, ops, key))
  {
    ResultForms(l, sources(key), key, requested, reply, now);
    CallSettles(l, sources(key), key, requested, reply, now);
    ApplyKeepsSize(l, sources, Call(key, requested, reply, now));
    var l' := Apply(l, sources, Call(key, requested, reply, now));
    hide Thumbnail;
    if Settled(l', key) {
      SettledStays(l', sources, ops, key);
    }
  }

  lemma ThumbnailKeepsSize(l: Lookup, source: Source, key: string, requested: Size, reply: Reply, now: int)
    requires l.maxSize >= 1
    ensures Thumbnail(l, source, key, requested, reply, now).0.maxSize == l.maxSize
  {
    hide Scale, Decode, Keys.SizedKey, Kept, Fetch;
  }

  /** An image, an authoritative absence, or an error that will not go away. */
  predicate Definite(source: Source, reply: Reply) {
    if source.Online? then reply in {Success, Unreadable, Missing, Refused} else reply != NotAsked
  }

  /** A call that asks for a download has found nothing in the caches, and changes nothing. */
  lemma AskedIsUnknown(l: Lookup, source: Source, key: string, requested: Size, reply: Reply, now: int)
    requires l.maxSize >= 1 && Thumbnail(l, source, key, requested, reply, now).1 == Empty(NeedsDownload)
    ensures IsValid(requested) && Keys.SizedKey(key, TargetSize(requested, l.maxSize)) !in l.thumbs
    ensures KeepsFullSize(source) && !Settled(l, key)
    ensures Thumbnail(l, source, key, requested, reply, now).0 == l
  {
    if IsValid(requested) {
      FetchExpected(source, TargetSize(requested, l.maxSize), reply, l.maxSize);
    }
    hide Scale, Decode, Keys.SizedKey, Kept, Expected, Load, B.Reset, B.AdjustRetryLimit;
  }

  /** A call with a definite reply settles the key, unless the thumbnail is there already. */
  lemma DefiniteSettles(l: Lookup, source: Source, key: string, requested: Size, reply: Reply, now: int)
    requires l.maxSize >= 1 && IsValid(requested) && KeepsFullSize(source) && Definite(source, reply)
    requires Keys.SizedKey(key, TargetSize(requested, l.maxSize)) !in l.thumbs
    ensures Settled(Thumbnail(l, source, key, requested, reply, now).0, key)
  {
    FetchExpected(source, TargetSize(requested, l.maxSize), reply, l.maxSize);
    hide Scale, Decode, Keys.SizedKey, Kept, Expected, Load, B.Reset;
  }

  /** The status says whether there is an image. */
  lemma ResultForms(l: Lookup, source: Source, key: string, requested: Size, reply: Reply, now: int)
    requires l.maxSize >= 1
    ensures var result := Thumbnail(l, source, key, requested, reply, now).1;
            && (result.Image? ==> result.status in {CacheHit, ScaledFromFullsize, Downloaded})
            && (result.Empty? ==> result.status !in {CacheHit, ScaledFromFullsize, Downloaded})
  {
    if IsValid(requested) {
      FetchExpected(source, TargetSize(requested, l.maxSize), reply, l.maxSize);
    }
    hide Scale, Decode, Keys.SizedKey, Kept, Expected, Load, Fetch;
  }

  // ---- Backoff ----

  /** A remote key that no cache knows asks for a download exactly if the backoff allows it. */
  lemma DownloadIffAllowed(l: Lookup, picture: ImageSize, key: string, requested: Size, now: int)
    requires l.maxSize >= 1 && IsValid(requested) && !Settled(l, key)
    requires Keys.SizedKey(key, TargetSize(requested, l.maxSize)) !in l.thumbs
    ensures Thumbnail(l, Online(picture), key, requested, NotAsked, now)
            == (l, Empty(if B.RetryOk(l.backoff, now) then NeedsDownload else TemporaryError))
  {
    hide Keys.SizedKey;
  }

  predicate ClearsBackoff(op: Op) {
    op.Clear? && (op.caches == FailureCache || op.caches == All)
  }

  lemma CallChangesBackoff(l: Lookup, source: Source, key: string, requested: Size, reply: Reply, now: int)
    requires l.maxSize >= 1
    ensures var (l', result) := Thumbnail(l, source, key, requested, reply, now);
            && (|| l'.backoff == l.backoff
                || l'.backoff == B.Reset(l.backoff, now)
                || l'.backoff == B.AdjustRetryLimit(l.backoff, now))
            && (l'.backoff != l.backoff ==> source.Online?)
            && (result == Empty(NeedsDownload) && source.Online? ==> B.RetryOk(l.backoff, now))
  {
    if IsValid(requested) {
      FetchExpected(source, TargetSize(requested, l.maxSize), reply, l.maxSize);
    }
    hide Scale, Decode, Keys.SizedKey, Kept, Expected, Load, Fetch, B.Reset, B.AdjustRetryLimit, B.RetryOk;
  }

  /** No call for a remote key in this run asks for a download. */
  ghost predicate NoRemoteDownload(l: Lookup, sources: string -> Source, ops: seq<Op>)
    requires l.maxSize >= 1
    decreases |ops|
  {
    ops != [] ==>
    && (ops[0].Call? && sources(ops[0].key).Online? ==>
          Thumbnail(l, sources(ops[0].key), ops[0].key, ops[0].requested, ops[0].reply, ops[0].now).1 != Empty(NeedsDownload))
    && (ApplyKeepsSize(l, sources, ops[0]); NoRemoteDownload(Apply(l, sources, ops[0]), sources, ops[1..]))
  }

  /**
    Until the backoff period is over, nothing makes any remote key ask for a download or
    changes the period: late answers in any order, evictions, and clearing the other caches.
   */
  lemma {:induction false} BackoffHolds(l: Lookup, sources: string -> Source, ops: seq<Op>)
    requires l.maxSize >= 1 && l.backoff.period != 0
    requires forall i :: 0 <= i < |ops| ==> !ClearsBackoff(ops[i]) && (ops[i].Call? ==> ops[i].now <= B.Deadline(l.backoff))
    ensures NoRemoteDownload(l, sources, ops) && Run(l, sources, ops).backoff == l.backoff
    decreases |ops|
  {
    hide Thumbnail;
    if ops != [] {
      var op := ops[0];
      if op.Call? {
        CallChangesBackoff(l, sources(op.key), op.key, op.requested, op.reply, op.now);
      }
      ApplyKeepsSize(l, sources, op);
      assert Apply(l, sources, op).backoff == l.backoff;
      BackoffHolds(Apply(l, sources, op), sources, ops[1..]);
    }
  }

  /** A recorded temporary error starts such a period, and no remote download is asked for during it. */
  lemma TemporaryErrorBlocks(l: Lookup, sources: string -> Source, key: string, requested: Size, now: int, ops: seq<Op>)
    requires l.maxSize >= 1 && B.Valid(l.backoff) && sources(key).Online?
    requires IsValid(requested) && !Settled(l, key) && Keys.SizedKey(key, TargetSize(requested, l.maxSize)) !in l.thumbs
    requires B.RetryOk(l.backoff, now)
    requires var b := B.AdjustRetryLimit(l.backoff, now);
             forall i :: 0 <= i < |ops| ==>
               !ClearsBackoff(ops[i]) && (ops[i].Call? ==> ops[i].now <= now + b.period * B.TICKS_PER_SECOND)
    ensures var l' := Apply(l, sources, Call(key, requested, Unavailable, now));
            && l'.maxSize >= 1 && l'.backoff == B.AdjustRetryLimit(l.backoff, now)
            && l'.backoff.period >= l'.backoff.min > 0 && l'.backoff.lastFail == now
            && NoRemoteDownload(l', sources, ops)
  {
    hide Keys.SizedKey;
    var l' := Apply(l, sources, Call(key, requested, Unavailable, now));
    assert l' == l.(backoff := B.AdjustRetryLimit(l.backoff, now));
    hide Thumbnail, Apply;
    BackoffHolds(l', sources, ops);
  }

  /** Clearing the failure cache lifts the backoff at once. */
  lemma ClearingLiftsBackoff(l: Lookup, caches: Caches, now: int)
    ensures B.RetryOk(ClearCaches(l, caches).backoff, now) <==>
              ClearsBackoff(Clear(caches)) || B.RetryOk(l.backoff, now)
  {
  }
}
