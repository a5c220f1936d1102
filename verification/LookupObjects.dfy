/** The thumbnailer and its requests as objects; thumbnail() is proved against `CacheLookup.Thumbnail`. */
module LookupObjects {
  import opened Common
  import opened Scaling
  import Backoff = BackoffObject
  import B = BackoffRules
  import Keys = CacheKeys
  import Spec = CacheLookup

  class Thumbnailer {
    var thumbnailCache: map<string, Spec.ImageSize>
    var fullSizeCache: map<string, Spec.ImageSize>
    var failureCache: set<string>
    const backoff: Backoff.BackoffAdjuster
    const maxSize: int

    ghost function State(): Spec.Lookup
      reads this, backoff
    {
      Spec.Lookup(thumbnailCache, fullSizeCache, failureCache, backoff.State(), maxSize)
    }

    constructor (backoff: Backoff.BackoffAdjuster, maxSize: int)
      requires maxSize >= 1
      ensures State() == Spec.Lookup(map[], map[], {}, backoff.State(), maxSize) && this.backoff == backoff
    {
      thumbnailCache, fullSizeCache, failureCache := map[], map[], {};
      this.backoff, this.maxSize := backoff, maxSize;
    }

    method Clear(caches: Spec.Caches)
      requires B.Valid(backoff.State())
      modifies this, backoff
      ensures State() == Spec.ClearCaches(old(State()), caches)
    {
      if caches == Spec.FullSizeCache || caches == Spec.All {
        fullSizeCache := map[];
      }
      if caches == Spec.ThumbnailCache || caches == Spec.All {
        thumbnailCache := map[];
      }
      if caches == Spec.FailureCache || caches == Spec.All {
        failureCache := {};
        backoff.SetLastFailTime(0);
        backoff.SetBackoffPeriod(0);
      }
    }
  }

  class Request {
    const key: string
    const requestedSize: Size
    const source: Spec.Source       // what fetch() of this kind of request reads
    var reply: Spec.Reply           // what its download() or extraction came to
    var status: Spec.Status

    constructor (key: string, requestedSize: Size, source: Spec.Source)
      ensures this.key == key && this.requestedSize == requestedSize && this.source == source
      ensures reply == Spec.NotAsked && status == Spec.NeedsDownload
    {
      this.key, this.requestedSize, this.source := key, requestedSize, source;
      reply, status := Spec.NotAsked, Spec.NeedsDownload;
    }

    /** The result of the last call, given what it returned. */
    function ResultOf(image: Option<Spec.ImageSize>, threw: bool): Spec.Result
      reads this
    {
      if threw then Spec.Threw else if image.Some? then Spec.Image(status, image.value) else Spec.Empty(status)
    }

    method Thumbnail(t: Thumbnailer, now: int) returns (image: Option<Spec.ImageSize>, threw: bool)
      requires t.maxSize >= 1
      modifies this`status, t`thumbnailCache, t`fullSizeCache, t`failureCache, t.backoff
      ensures (t.State(), ResultOf(image, threw)) == Spec.Thumbnail(old(t.State()), source, key, requestedSize, reply, now)
    {
      image, threw := None, false;
      if !IsValid(requestedSize) {
        threw := true;
        return;
      }
      var targetSize := Size(t.maxSize, t.maxSize);
      if requestedSize.width != 0 {
        targetSize := targetSize.(width := Min(requestedSize.width, t.maxSize));
      }
      if requestedSize.height != 0 {
        targetSize := targetSize.(height := Min(requestedSize.height, t.maxSize));
      }
      var sizedKey := key + Keys.NUL + Keys.Decimal(targetSize.width);
      sizedKey := sizedKey + Keys.NUL + Keys.Decimal(targetSize.height);
      if sizedKey in t.thumbnailCache {
        status := Spec.CacheHit;
        image := Some(t.thumbnailCache[sizedKey]);
        return;
      }
      if key in t.fullSizeCache {
        status := Spec.ScaledFromFullsize;
        DecodeIsScale(t.fullSizeCache[key], targetSize);
        var decoded := Decode(t.fullSizeCache[key], targetSize);
        if decoded.None? {
          threw := true;
          return;
        }
        t.thumbnailCache := t.thumbnailCache[sizedKey := decoded.value];
        image := Some(decoded.value);
        return;
      }
      if key in t.failureCache {
        status := Spec.CachedFailure;
        return;
      }
      var imageData := Spec.Fetch(source, targetSize, reply);
      FetchedHasImage(source, targetSize, reply);
      status := imageData.status;
      if status == Spec.Downloaded {
        image := Store(t, imageData, targetSize, sizedKey, now);
      } else {
        NoImage(t, imageData, targetSize, now);
      }
    }

    /** The branch of success: the image is kept, scaled and cached. */
    method Store(t: Thumbnailer, imageData: Spec.ImageData, targetSize: Size, sizedKey: string, now: int)
      returns (image: Option<Spec.ImageSize>)
      requires imageData.status == Spec.Downloaded == status && imageData.image.Some?
      requires sizedKey == Keys.SizedKey(key, targetSize)
      modifies t`thumbnailCache, t`fullSizeCache, t.backoff
      ensures (t.State(), ResultOf(image, false)) == Spec.Fetched(old(t.State()), imageData, key, targetSize, now)
    {
      if imageData.remote {
        t.backoff.Reset(now);
      }
      var current := imageData.image.value;
      if imageData.keepFullSize {
        if Max(current.width, current.height) > t.maxSize {
          current := Scale(current, Size(t.maxSize, t.maxSize));
        }
        t.fullSizeCache := t.fullSizeCache[key := current];
      }
      var scaled := Scale(current, targetSize);
      t.thumbnailCache := t.thumbnailCache[sizedKey := scaled];
      image := Some(scaled);
    }

    /** The other branches of the switch, which all return an empty image. */
    method NoImage(t: Thumbnailer, imageData: Spec.ImageData, ghost targetSize: Size, now: int)
      requires imageData.status == status && imageData.image.None?
      modifies this`status, t`failureCache, t.backoff
      ensures (t.State(), ResultOf(None, false)) == Spec.Fetched(old(t.State()), imageData, key, targetSize, now)
      ensures t.failureCache == old(t.failureCache) +
                (if imageData.status == Spec.NotFound || imageData.status == Spec.HardError then {key} else {})
    {
      match status
      case NeedsDownload =>
        if imageData.remote {
          var ok := t.backoff.CheckRetry(now);
          if !ok {
            status := Spec.TemporaryError;
          }
        }
      case NotFound =>
        t.failureCache := t.failureCache + {key};
        if imageData.remote {
          t.backoff.Reset(now);
        }
      case HardError =>
        t.failureCache := t.failureCache + {key};
        if imageData.remote {
          t.backoff.Reset(now);
        }
      case TemporaryError =>
        var adjusted := t.backoff.AdjustRetryLimit(now);
      case _ =>
    }
  }

  lemma FetchedHasImage(source: Spec.Source, target: Size, reply: Spec.Reply)
    requires IsImage(target)
    ensures var d := Spec.Fetch(source, target, reply); d.status == Spec.Downloaded <==> d.image.Some?
  {
    Spec.FetchExpected(source, target, reply, 1);
  }
}
