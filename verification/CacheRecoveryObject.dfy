/** The cache helper as an object; `Call` is proved against `CacheRecovery.Call`. */
module CacheRecoveryObject {
  import opened Common
  import Spec = CacheRecovery

  class CacheHelper {
    const size: nat
    var disk: Option<Spec.Store>    // what is in the cache directory
    var isOpen: bool                // c_ is not null
    ghost var attempts: seq<Spec.Attempted>

    ghost function State(): Spec.Helper
      reads this
    {
      Spec.Helper(disk, isOpen, size, attempts)
    }

    /** Opens what is on disk, or a new cache, and resizes it if the configured size has changed. */
    constructor (disk: Option<Spec.Store>, size: nat, evicted: set<string>)
      ensures State() == Spec.Helper(Some(Spec.InitCache(disk, size, evicted)), true, size, [])
    {
      this.size := size;
      this.disk, isOpen, attempts := disk, false, [];
      new;
      InitCache(evicted);
    }

    method InitCache(evicted: set<string>)
      modifies this`disk, this`isOpen
      ensures State() == Spec.Helper(Some(Spec.InitCache(old(disk), size, evicted)), true, size, attempts)
    {
      var cache := Spec.Open(disk, size);
      if cache.Some? {
        disk := cache;
      } else {
        disk := Some(disk.value.(entries := disk.value.entries - evicted, maxSize := size));
      }
      isOpen := true;
    }

    /** Runs the operation, recovers if it finds the database corrupt, and then runs it once more. */
    method Call(op: Spec.StoreOp, fate: Spec.Fate, repair: Spec.Repair, retryFate: Spec.Fate) returns (outcome: Spec.Outcome)
      requires isOpen && disk.Some?
      modifies this
      ensures (State(), outcome) == Spec.Call(old(State()), op, fate, repair, retryFate)
    {
      outcome := Run(op, fate);
      if outcome.Err? {
        var failure := Recover(outcome.error, repair);
        if failure.Some? {
          return Spec.Err(failure.value);
        }
        outcome := Run(op, retryFate);
      }
    }

    method Run(op: Spec.StoreOp, fate: Spec.Fate) returns (outcome: Spec.Outcome)
      requires isOpen && disk.Some?
      modifies this`disk, this`attempts
      ensures (State(), outcome) == Spec.Try(old(State()), op, fate)
    {
      var attempt := Spec.Attempt(disk.value, op, fate);
      attempts := attempts + [Spec.Attempted(disk.value, attempt.1)];
      disk, outcome := Some(attempt.0), attempt.1;
    }

    /** Rethrows, unless the database is corrupt and could be replaced; returns what escapes. */
    method Recover(error: Spec.Error, repair: Spec.Repair) returns (failure: Option<Spec.Error>)
      modifies this`disk, this`isOpen
      ensures (State(), failure) == Spec.Recover(old(State()), error, repair)
    {
      if error != Spec.CORRUPT {
        return Some(error);
      }
      isOpen := false;
      if repair.CannotRemove? {
        return Some(repair.error);
      }
      disk := None;
      if repair.CannotOpen? {
        return Some(repair.error);
      }
      InitCache({});
      failure := None;
    }
  }
}
